/** The sequential half of CollectAll: merging the four category results into
    a snapshot, putting every list into canonical order and validating. The
    worker pool, channels and timeouts are not part of this model; each
    category arrives as an Option (None when it failed, timed out or was
    skipped). */
module Collection {
  import opened Wrappers
  import opened GoStrings
  import opened Sorting
  import opened PlatformTypes
  import opened CollectionTypes

  const CollectorVersion := "1.0.0"

  /** The snapshot before any category result is merged in. */
  function Skeleton(timestamp: int): (f: Facts)
    ensures f.collectorVersion == CollectorVersion && f.timestamp == timestamp
    ensures f.hostname == "" && f.osName == "" && f.hardwareUUID == ""
    ensures f.users == [] && f.localIPs == [] && f.wifiSSIDs == []
  {
    Facts(timestamp, 0, CollectorVersion, "", "", "", [], [], [], [], "", [], [], [], "", "", "", "", "", "")
  }

  function ApplySystem(f: Facts, s: SystemInfo): Facts {
    f.(hostname := s.hostname, computerName := s.hostname, osName := s.osName,
       osVersion := s.osVersion, osBuild := s.osBuild, timezone := s.timezone)
  }

  function ApplyNetwork(f: Facts, n: NetworkInfo): Facts {
    f.(localIPs := n.interfaces, macAddresses := n.interfaces, wifiSSIDs := n.wifiSSIDs)
  }

  function ApplyHardware(f: Facts, h: HardwareInfo): Facts {
    f.(serialNumber := h.serialNumber, hardwareUUID := h.hardwareUUID)
  }

  function ApplyPII(f: Facts, p: PIIInfo): Facts {
    var g := f.(users := p.users, loggedInUsers := p.loggedInUsers, homeDirs := p.homeDirs,
                recentProfiles := p.recentProfiles, primaryEmail := p.primaryEmail);
    if |p.users| > 0 then g.(machineOwner := p.users[0].username) else g
  }

  function ApplyOpt<T>(f: Facts, o: Option<T>, apply: (Facts, T) -> Facts): Facts {
    if o.Some? then apply(f, o.value) else f
  }

  /** The four results merged into the skeleton, in the order the source reads
      its channels. */
  function Aggregate(timestamp: int, system: Option<SystemInfo>, network: Option<NetworkInfo>,
                     hardware: Option<HardwareInfo>, pii: Option<PIIInfo>): (f: Facts)
    ensures f.collectorVersion == CollectorVersion
    ensures f.computerName == f.hostname
    ensures f.localIPs == f.macAddresses
  {
    ApplyOpt(ApplyOpt(ApplyOpt(ApplyOpt(Skeleton(timestamp), system, ApplySystem),
      network, ApplyNetwork), hardware, ApplyHardware), pii, ApplyPII)
  }

  /** Every category writes its own fields, so the merge does not depend on
      the order in which the results arrive. */
  lemma CategoriesCommute(f: Facts, s: SystemInfo, n: NetworkInfo, h: HardwareInfo, p: PIIInfo)
    ensures ApplySystem(ApplyNetwork(f, n), s) == ApplyNetwork(ApplySystem(f, s), n)
    ensures ApplySystem(ApplyHardware(f, h), s) == ApplyHardware(ApplySystem(f, s), h)
    ensures ApplySystem(ApplyPII(f, p), s) == ApplyPII(ApplySystem(f, s), p)
    ensures ApplyNetwork(ApplyHardware(f, h), n) == ApplyHardware(ApplyNetwork(f, n), h)
    ensures ApplyNetwork(ApplyPII(f, p), n) == ApplyPII(ApplyNetwork(f, n), p)
    ensures ApplyHardware(ApplyPII(f, p), h) == ApplyPII(ApplyHardware(f, h), p)
  {
  }

  /** An absent category leaves its skeleton values. */
  lemma AbsentCategoriesKeepSkeleton(timestamp: int, system: Option<SystemInfo>, network: Option<NetworkInfo>,
                                     hardware: Option<HardwareInfo>, pii: Option<PIIInfo>)
    ensures var f := Aggregate(timestamp, system, network, hardware, pii);
      (system.None? ==> f.hostname == "" && f.computerName == "" && f.osName == "" && f.osVersion == ""
                        && f.osBuild == "" && f.timezone == "") &&
      (network.None? ==> f.localIPs == [] && f.macAddresses == [] && f.wifiSSIDs == []) &&
      (hardware.None? ==> f.serialNumber == "" && f.hardwareUUID == "") &&
      (pii.None? ==> f.users == [] && f.loggedInUsers == [] && f.homeDirs == [] && f.recentProfiles == []
                     && f.primaryEmail == "" && f.machineOwner == "")
  {
  }

  /** A present category's values are copied verbatim; the owner is the first
      PII user, if any. */
  lemma PresentCategoriesCopied(timestamp: int, system: Option<SystemInfo>, network: Option<NetworkInfo>,
                                hardware: Option<HardwareInfo>, pii: Option<PIIInfo>)
    ensures var f := Aggregate(timestamp, system, network, hardware, pii);
      (system.Some? ==> f.hostname == system.value.hostname && f.osName == system.value.osName
                        && f.osVersion == system.value.osVersion && f.osBuild == system.value.osBuild
                        && f.timezone == system.value.timezone) &&
      (network.Some? ==> f.localIPs == network.value.interfaces && f.wifiSSIDs == network.value.wifiSSIDs) &&
      (hardware.Some? ==> f.serialNumber == hardware.value.serialNumber
                          && f.hardwareUUID == hardware.value.hardwareUUID) &&
      (pii.Some? ==> f.users == pii.value.users && f.loggedInUsers == pii.value.loggedInUsers
                     && f.homeDirs == pii.value.homeDirs && f.recentProfiles == pii.value.recentProfiles
                     && f.primaryEmail == pii.value.primaryEmail
                     && f.machineOwner == (if |pii.value.users| > 0 then pii.value.users[0].username else ""))
  {
  }

  /** Every list field of a snapshot in canonical order. */
  predicate FactsSorted(f: Facts) {
    SortedBy(f.users, UserLe) && SortedBy(f.loggedInUsers, LessEq) && SortedBy(f.homeDirs, LessEq)
    && SortedBy(f.wifiSSIDs, LessEq) && SortedBy(f.localIPs, InterfaceLe)
    && SortedBy(f.macAddresses, InterfaceLe) && SortedBy(f.recentProfiles, ProfileLe)
  }

  /** g holds the same elements as f in every list field and the same value in
      every other field. */
  predicate Reordered(f: Facts, g: Facts) {
    multiset(g.users) == multiset(f.users) && multiset(g.loggedInUsers) == multiset(f.loggedInUsers)
    && multiset(g.homeDirs) == multiset(f.homeDirs) && multiset(g.wifiSSIDs) == multiset(f.wifiSSIDs)
    && multiset(g.localIPs) == multiset(f.localIPs) && multiset(g.macAddresses) == multiset(f.macAddresses)
    && multiset(g.recentProfiles) == multiset(f.recentProfiles)
    && g == f.(users := g.users, loggedInUsers := g.loggedInUsers, homeDirs := g.homeDirs,
               wifiSSIDs := g.wifiSSIDs, localIPs := g.localIPs, macAddresses := g.macAddresses,
               recentProfiles := g.recentProfiles)
  }

  /** sortFacts. When `interfacesShared` holds, LocalIPs and MACAddresses are one
      Go slice (as CollectAll leaves them after a network result), so both
      fields end as the same sorted sequence. */
  method SortFacts(f: Facts, interfacesShared: bool) returns (g: Facts)
    requires interfacesShared ==> f.localIPs == f.macAddresses
    ensures FactsSorted(g) && Reordered(f, g)
    ensures interfacesShared ==> g.localIPs == g.macAddresses
  {
    var users := SortUsers(f.users);
    var loggedIn := SortStrings(f.loggedInUsers);
    var homes := SortStrings(f.homeDirs);
    var ssids := SortStrings(f.wifiSSIDs);
    var ips := SortInterfaces(f.localIPs);
    var macs := ips;
    if !interfacesShared {
      macs := SortInterfaces(f.macAddresses);
    }
    var profiles := SortProfiles(f.recentProfiles);
    g := f.(users := users, loggedInUsers := loggedIn, homeDirs := homes, wifiSSIDs := ssids,
            localIPs := ips, macAddresses := macs, recentProfiles := profiles);
  }

  /** Setting the duration after sorting is the same as setting it before. */
  lemma ReorderedKeepsDuration(f: Facts, g: Facts, d: int)
    requires FactsSorted(g) && Reordered(f, g)
    ensures FactsSorted(g.(collectionDurationMs := d))
    ensures Reordered(f.(collectionDurationMs := d), g.(collectionDurationMs := d))
    ensures Validate(g.(collectionDurationMs := d)) == Validate(f)
  {
  }

  /** The string lists of a sorted snapshot are fully determined: any two
      canonical orderings of the same snapshot agree on them. */
  lemma SortedStringListsDetermined(f: Facts, g1: Facts, g2: Facts)
    requires FactsSorted(g1) && Reordered(f, g1)
    requires FactsSorted(g2) && Reordered(f, g2)
    ensures g1.loggedInUsers == g2.loggedInUsers && g1.homeDirs == g2.homeDirs && g1.wifiSSIDs == g2.wifiSSIDs
  {
    SortStringsDeterministic(g1.loggedInUsers, g2.loggedInUsers);
    SortStringsDeterministic(g1.homeDirs, g2.homeDirs);
    SortStringsDeterministic(g1.wifiSSIDs, g2.wifiSSIDs);
  }

  /** The categories in submission order. */
  datatype Category = SystemCategory | NetworkCategory | HardwareCategory | PIICategory

  function CategoryName(c: Category): string {
    match c
    case SystemCategory => "system_info"
    case NetworkCategory => "network_info"
    case HardwareCategory => "hardware_info"
    case PIICategory => "pii_info"
  }

  datatype CollectError =
    | SubmitFailed(category: string)
    | FactsInvalid(cause: ValidationError)

  /** What the PII task delivers: nothing at all when PII collection is
      disabled, whatever the platform would have reported. */
  function PIIDelivered(piiEnabled: bool, pii: Option<PIIInfo>): (r: Option<PIIInfo>)
    ensures !piiEnabled ==> r.None?
    ensures piiEnabled ==> r == pii
  {
    if piiEnabled then pii else None
  }

  /** CollectAll after the pool has drained. `submitCancelledAt` is the first
      category whose submission saw a cancelled context. The category errors
      on the error channel are drained and dropped, so only the Options reach
      this method. */
  method CollectAll(piiEnabled: bool, submitCancelledAt: Option<Category>, timestamp: int, durationMs: int,
                    system: Option<SystemInfo>, network: Option<NetworkInfo>,
                    hardware: Option<HardwareInfo>, pii: Option<PIIInfo>)
    returns (r: Result<Facts, CollectError>)
    ensures submitCancelledAt.Some? ==> r == Err(SubmitFailed(CategoryName(submitCancelledAt.value)))
    ensures submitCancelledAt.None? ==>
      var merged := Aggregate(timestamp, system, network, hardware, PIIDelivered(piiEnabled, pii));
      match Validate(merged)
      case Some(e) => r == Err(FactsInvalid(e))
      case None =>
        r.Ok? && FactsSorted(r.value) && Reordered(merged.(collectionDurationMs := durationMs), r.value)
        && r.value.localIPs == r.value.macAddresses
  {
    if submitCancelledAt.Some? {
      return Err(SubmitFailed(CategoryName(submitCancelledAt.value)));
    }
    var facts := Skeleton(timestamp);
    if system.Some? {
      facts := ApplySystem(facts, system.value);
    }
    if network.Some? {
      facts := ApplyNetwork(facts, network.value);
    }
    if hardware.Some? {
      facts := ApplyHardware(facts, hardware.value);
    }
    var delivered := PIIDelivered(piiEnabled, pii);
    if delivered.Some? {
      facts := ApplyPII(facts, delivered.value);
    }
    assert facts == Aggregate(timestamp, system, network, hardware, delivered);
    var sorted := SortFacts(facts, true);
    ReorderedKeepsDuration(facts, sorted, durationMs);
    facts := sorted.(collectionDurationMs := durationMs);
    var v := Validate(facts);
    if v.Some? {
      return Err(FactsInvalid(v.value));
    }
    return Ok(facts);
  }

  /** Without a system result the hostname stays empty and the run fails on it. */
  lemma NoSystemFails(timestamp: int, network: Option<NetworkInfo>, hardware: Option<HardwareInfo>, pii: Option<PIIInfo>)
    ensures Validate(Aggregate(timestamp, None, network, hardware, pii)) == Some(ValidationError("hostname", EmptyReason))
  {
    AbsentCategoriesKeepSkeleton(timestamp, None, network, hardware, pii);
  }

  /** A hardware result whose UUID is "" fails the run on hardware_uuid, even
      when every other category succeeded. */
  lemma EmptyUuidFails(timestamp: int, s: SystemInfo, network: Option<NetworkInfo>, h: HardwareInfo, pii: Option<PIIInfo>)
    requires s.hostname != "" && s.osName != "" && h.hardwareUUID == ""
    ensures Validate(Aggregate(timestamp, Some(s), network, Some(h), pii)) == Some(ValidationError("hardware_uuid", EmptyReason))
  {
    PresentCategoriesCopied(timestamp, Some(s), network, Some(h), pii);
  }

  /** The run succeeds exactly when system and hardware results are present
      and their critical fields are non-empty; network and PII never matter. */
  lemma SuccessCondition(timestamp: int, system: Option<SystemInfo>, network: Option<NetworkInfo>,
                         hardware: Option<HardwareInfo>, pii: Option<PIIInfo>)
    ensures Validate(Aggregate(timestamp, system, network, hardware, pii)).None? <==>
      system.Some? && system.value.hostname != "" && system.value.osName != ""
      && hardware.Some? && hardware.value.hardwareUUID != ""
  {
    AbsentCategoriesKeepSkeleton(timestamp, system, network, hardware, pii);
    PresentCategoriesCopied(timestamp, system, network, hardware, pii);
  }
}
