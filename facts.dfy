/** The snapshot record produced by one collection run, and its validation. */
module CollectionTypes {
  import opened Wrappers
  import opened GoStrings
  import opened PlatformTypes

  /** One host snapshot. `timestamp` is the UTC instant of the run and
      `collectionDurationMs` the elapsed milliseconds; both are clock reads and
      enter the model as inputs. */
  datatype Facts = Facts(
    timestamp: int,
    collectionDurationMs: int,
    collectorVersion: string,
    hostname: string,
    machineOwner: string,
    computerName: string,
    users: seq<User>,
    loggedInUsers: seq<string>,
    homeDirs: seq<string>,
    recentProfiles: seq<UserProfile>,
    primaryEmail: string,
    localIPs: seq<NetworkInterface>,
    macAddresses: seq<NetworkInterface>,
    wifiSSIDs: seq<string>,
    serialNumber: string,
    hardwareUUID: string,
    osName: string,
    osVersion: string,
    osBuild: string,
    timezone: string)

  datatype ValidationError = ValidationError(field: string, reason: string)

  const EmptyReason := "must not be empty"

  /** The fields Validate insists on, in the order it checks them. */
  function RequiredFields(f: Facts): seq<(string, string)> {
    [("hostname", f.hostname), ("os_name", f.osName), ("hardware_uuid", f.hardwareUUID)]
  }

  predicate IsEmptyValue(entry: (string, string)) {
    entry.1 == ""
  }

  /** Facts.Validate: None when every critical field is non-empty, otherwise
      the error for the first empty one. */
  function Validate(f: Facts): (r: Option<ValidationError>)
    ensures r.None? <==> f.hostname != "" && f.osName != "" && f.hardwareUUID != ""
    ensures r.Some? ==> r.value.reason == EmptyReason
  {
    if f.hostname == "" then Some(ValidationError("hostname", EmptyReason))
    else if f.osName == "" then Some(ValidationError("os_name", EmptyReason))
    else if f.hardwareUUID == "" then Some(ValidationError("hardware_uuid", EmptyReason))
    else None
  }

  /** The reported field is the name of the first empty entry of RequiredFields. */
  lemma ValidateReportsFirstEmpty(f: Facts)
    ensures var i := FirstWhere(RequiredFields(f), IsEmptyValue);
      match i
      case None => Validate(f) == None
      case Some(k) => Validate(f) == Some(ValidationError(RequiredFields(f)[k].0, EmptyReason))
  {
    var fields := RequiredFields(f);
    var i := FirstWhere(fields, IsEmptyValue);
    if f.hostname != "" {
      assert !IsEmptyValue(fields[0]);
      if f.osName != "" {
        assert !IsEmptyValue(fields[1]);
        if f.hardwareUUID != "" {
          assert !IsEmptyValue(fields[2]);
        } else {
          assert IsEmptyValue(fields[2]);
        }
      } else {
        assert IsEmptyValue(fields[1]);
      }
    } else {
      assert IsEmptyValue(fields[0]);
    }
  }

  /** Only hostname, OS name and hardware UUID decide the outcome. */
  lemma ValidateReadsOnlyCriticalFields(f: Facts, g: Facts)
    requires f.hostname == g.hostname && f.osName == g.osName && f.hardwareUUID == g.hardwareUUID
    ensures Validate(f) == Validate(g)
  {
  }

  /** The "unknown" placeholder of the collectors passes validation. */
  lemma UnknownPasses(f: Facts)
    requires f.hostname == "unknown" && f.osName == "unknown" && f.hardwareUUID == "unknown"
    ensures Validate(f).None?
  {
  }

  const ErrorPrefix := "validation failed: "

  /** ValidationError.Error(). */
  function ErrorText(e: ValidationError): (r: string)
    ensures |r| == |ErrorPrefix| + |e.field| + 3 + |e.reason|
    ensures HasPrefix(r, ErrorPrefix)
    ensures r[|ErrorPrefix|..|ErrorPrefix| + |e.field|] == e.field
    ensures HasSuffix(r, " - " + e.reason)
  {
    ErrorPrefix + e.field + " - " + e.reason
  }

  /** The message of a validation error names its field. */
  lemma ErrorTextNamesField(e1: ValidationError, e2: ValidationError)
    requires ErrorText(e1) == ErrorText(e2) && |e1.field| == |e2.field|
    ensures e1 == e2
  {
    var t := ErrorText(e1);
    assert e1.field == t[|ErrorPrefix|..|ErrorPrefix| + |e1.field|] == e2.field;
    assert e1.reason == t[|t| - |e1.reason|..] == e2.reason;
  }
}
