/** The macOS collector: the scrapers of `sw_vers`, `ifconfig`, `airport -s`,
    `ioreg` and `dscl . -list /Users`, over each command's output (`None` when
    the command fails), plus the defaulting and sorting of the four Get*Info
    calls. */
module DarwinCollector {
  import opened Wrappers
  import opened GoStrings
  import opened Sorting
  import opened PlatformTypes
  import CollectionTypes
  import Collection

  const OSName := "Darwin"

  /** getSystemVersion and getBuildVersion: the trimmed output of sw_vers. */
  function SwVersValue(output: Option<string>): Option<string> {
    if output.None? then None else Some(TrimSpace(output.value))
  }

  // ------------------------------------------------------- getNetworkInterfaces

  /** A line that does not start with a space or a tab (and is not empty). */
  predicate AtColumnZero(line: string) {
    |line| > 0 && line[0] != ' ' && line[0] != '\t'
  }

  function HeaderName(line: string): string {
    Split(line, ':')[0]
  }

  /** An interface header: at column 0, with a ':', and not the loopback. */
  predicate IsHeader(line: string) {
    AtColumnZero(line) && Contains(line, ":") && HeaderName(line) != "lo0"
  }

  const InetKey := "inet "
  const EtherKey := "ether "

  /** A property line sets its value to the second field of the trimmed line. */
  predicate SetsProperty(line: string, key: string) {
    HasPrefix(TrimSpace(line), key) && |Fields(TrimSpace(line))| >= 2
  }

  function PropertyValue(line: string, key: string): string
    requires SetsProperty(line, key)
  {
    Fields(TrimSpace(line))[1]
  }

  /** An indented line updates the current interface: "inet " sets the IP,
      otherwise "ether " sets the MAC. */
  function ApplyProperty(iface: NetworkInterface, line: string): (r: NetworkInterface)
    ensures r.name == iface.name
  {
    if HasPrefix(TrimSpace(line), InetKey) then
      if SetsProperty(line, InetKey) then iface.(ipAddress := PropertyValue(line, InetKey)) else iface
    else if SetsProperty(line, EtherKey) then iface.(macAddress := PropertyValue(line, EtherKey))
    else iface
  }

  /** One iteration of the ifconfig loop. */
  function IfconfigStep(st: ScanState, line: string): ScanState {
    if AtColumnZero(line) then
      if IsHeader(line) then ScanState(st.done + Listed(st.current), Some(FreshInterface(HeaderName(line))))
      else st
    else match st.current
      case None => st
      case Some(c) => ScanState(st.done, Some(ApplyProperty(c, line)))
  }

  function Finished(st: ScanState): seq<NetworkInterface> {
    st.done + Listed(st.current)
  }

  /** The interfaces getNetworkInterfaces reports for the lines of ifconfig. */
  function InterfacesIn(lines: seq<string>): seq<NetworkInterface> {
    Finished(Scan(ScanStart, lines, IfconfigStep))
  }

  /** getNetworkInterfaces: None when ifconfig fails. */
  method GetNetworkInterfaces(output: Option<string>) returns (r: Option<seq<NetworkInterface>>)
    ensures r == if output.None? then None else Some(InterfacesIn(Split(output.value, '\n')))
  {
    if output.None? {
      return None;
    }
    var lines := Split(output.value, '\n');
    var interfaces: seq<NetworkInterface> := [];
    var current: Option<NetworkInterface> := None;
    for i := 0 to |lines|
      invariant ScanState(interfaces, current) == Scan(ScanStart, lines[..i], IfconfigStep)
    {
      ScanSnoc(ScanStart, lines, i, IfconfigStep);
      interfaces, current := IfconfigLine(interfaces, current, lines[i]);
    }
    assert lines[..|lines|] == lines;
    ghost var finished := interfaces + Listed(current);
    if current.Some? {
      interfaces := interfaces + [current.value];
    }
    assert interfaces == finished;
    return Some(interfaces);
  }

  /** The body of the ifconfig loop for one line. */
  method IfconfigLine(interfaces: seq<NetworkInterface>, current: Option<NetworkInterface>, line: string)
    returns (interfaces': seq<NetworkInterface>, current': Option<NetworkInterface>)
    ensures ScanState(interfaces', current') == IfconfigStep(ScanState(interfaces, current), line)
  {
    interfaces', current' := interfaces, current;
    if |line| > 0 && line[0] != ' ' && line[0] != '\t' {
      if Contains(line, ":") {
        var parts := Split(line, ':');
        var name := parts[0];
        if name != "lo0" {
          if current.Some? {
            interfaces' := interfaces + [current.value];
          }
          current' := Some(NetworkInterface(name, Unknown, Unknown));
        }
      }
    } else if current.Some? {
      var updated := ReadProperty(current.value, line);
      current' := Some(updated);
    }
  }

  /** The property branch of the ifconfig loop. */
  method ReadProperty(iface: NetworkInterface, raw: string) returns (r: NetworkInterface)
    ensures r == ApplyProperty(iface, raw)
  {
    r := iface;
    var line := TrimSpace(raw);
    if HasPrefix(line, InetKey) {
      var fields := Fields(line);
      if |fields| >= 2 {
        r := r.(ipAddress := fields[1]);
      }
    } else if HasPrefix(line, EtherKey) {
      var fields := Fields(line);
      if |fields| >= 2 {
        r := r.(macAddress := fields[1]);
      }
    }
  }

  function HeaderOf(line: string): Option<string> {
    if IsHeader(line) then Some(HeaderName(line)) else None
  }

  lemma StepNames(st: ScanState, line: string)
    ensures NamesOf(Finished(IfconfigStep(st, line))) == NamesOf(Finished(st)) + Listed(HeaderOf(line))
  {
    if IsHeader(line) {
      NamesAppend(Finished(st), [FreshInterface(HeaderName(line))]);
    } else if !AtColumnZero(line) && st.current.Some? {
      NamesAppend(st.done, [st.current.value]);
      NamesAppend(st.done, [ApplyProperty(st.current.value, line)]);
    }
  }

  /** One interface per header line, named by the text before its first ':',
      in input order; no interface is the loopback. */
  lemma {:induction false} InterfaceNames(lines: seq<string>)
    ensures NamesOf(InterfacesIn(lines)) == FilterMap(lines, HeaderOf)
    decreases |lines|
  {
    if lines != [] {
      var init := lines[..|lines| - 1];
      InterfaceNames(init);
      StepNames(Scan(ScanStart, init, IfconfigStep), lines[|lines| - 1]);
    }
  }

  lemma NoLoopbackInterface(lines: seq<string>, k: nat)
    requires k < |InterfacesIn(lines)|
    ensures InterfacesIn(lines)[k].name != "lo0"
  {
    InterfaceNames(lines);
    assert NamesOf(InterfacesIn(lines))[k] == InterfacesIn(lines)[k].name;
    FilterMapFrom(lines, HeaderOf, k);
  }

  lemma {:induction false} NoHeaderKeepsStart(pre: seq<string>)
    requires forall j :: 0 <= j < |pre| ==> !IsHeader(pre[j])
    ensures Scan(ScanStart, pre, IfconfigStep) == ScanStart
    decreases |pre|
  {
    if pre != [] {
      NoHeaderKeepsStart(pre[..|pre| - 1]);
    }
  }

  /** Property lines before the first header are ignored. */
  lemma HeaderlessPrefixIgnored(pre: seq<string>, rest: seq<string>)
    requires forall j :: 0 <= j < |pre| ==> !IsHeader(pre[j])
    ensures InterfacesIn(pre + rest) == InterfacesIn(rest)
  {
    NoHeaderKeepsStart(pre);
    ScanAppend(ScanStart, pre, rest, IfconfigStep);
  }

  /** A column-0 line that is not a header, such as the lo0 header, changes
      nothing: the indented lines after it go to the interface that was
      current before it, or nowhere. */
  lemma ColumnZeroNonHeaderIgnored(before: seq<string>, line: string, after: seq<string>)
    requires AtColumnZero(line) && !IsHeader(line)
    ensures InterfacesIn(before + [line] + after) == InterfacesIn(before + after)
  {
    ScanAppend(ScanStart, before + [line], after, IfconfigStep);
    ScanAppend(ScanStart, before, [line], IfconfigStep);
    assert [line][..0] == [];
    ScanAppend(ScanStart, before, after, IfconfigStep);
  }

  /** The second field of the last property line with `key`, else "unknown". */
  function LastValue(body: seq<string>, key: string): string
    decreases |body|
  {
    if body == [] then Unknown
    else if SetsProperty(body[|body| - 1], key) then PropertyValue(body[|body| - 1], key)
    else LastValue(body[..|body| - 1], key)
  }

  /** The last line of a block updates the values the earlier lines left. */
  lemma BlockStep(name: string, body: seq<string>)
    requires body != [] && !AtColumnZero(body[|body| - 1])
    ensures var init := body[..|body| - 1];
      ApplyProperty(NetworkInterface(name, LastValue(init, InetKey), LastValue(init, EtherKey)), body[|body| - 1])
      == NetworkInterface(name, LastValue(body, InetKey), LastValue(body, EtherKey))
  {
    var t := TrimSpace(body[|body| - 1]);
    if HasPrefix(t, InetKey) {
      assert t[..|EtherKey|][0] == t[0] == 'i';
    }
  }

  /** An indented line only updates the current interface. */
  lemma IndentedStep(st: ScanState, line: string)
    requires !AtColumnZero(line) && st.current.Some?
    ensures IfconfigStep(st, line) == ScanState(st.done, Some(ApplyProperty(st.current.value, line)))
  {
  }

  lemma {:induction false} BlockScan(done: seq<NetworkInterface>, name: string, body: seq<string>)
    requires forall j :: 0 <= j < |body| ==> !AtColumnZero(body[j])
    ensures Scan(ScanState(done, Some(FreshInterface(name))), body, IfconfigStep)
         == ScanState(done, Some(NetworkInterface(name, LastValue(body, InetKey), LastValue(body, EtherKey))))
    decreases |body|
  {
    if body != [] {
      var init := body[..|body| - 1];
      var last := body[|body| - 1];
      assert forall j :: 0 <= j < |init| ==> init[j] == body[j];
      BlockScan(done, name, init);
      var before := ScanState(done, Some(NetworkInterface(name, LastValue(init, InetKey), LastValue(init, EtherKey))));
      IndentedStep(before, last);
      BlockStep(name, body);
    }
  }

  /** An interface block: the header names the interface, the last inet line
      sets its IP and the last ether line its MAC, each "unknown" without one. */
  lemma InterfaceBlock(header: string, body: seq<string>)
    requires IsHeader(header)
    requires forall j :: 0 <= j < |body| ==> !AtColumnZero(body[j])
    ensures InterfacesIn([header] + body)
         == [NetworkInterface(HeaderName(header), LastValue(body, InetKey), LastValue(body, EtherKey))]
  {
    HeaderOpens(header);
    ScanAppend(ScanStart, [header], body, IfconfigStep);
    BlockScan([], HeaderName(header), body);
  }

  /** A header line alone opens a fresh interface. */
  lemma HeaderOpens(header: string)
    requires IsHeader(header)
    ensures Scan(ScanStart, [header], IfconfigStep) == ScanState([], Some(FreshInterface(HeaderName(header))))
  {
    assert [header][..0] == [];
  }

  // ---------------------------------------------------------------- getWiFiSSIDs

  /** An airport row gives its first field. */
  function AirportSSID(line: string): (r: Option<string>)
    ensures r.Some? ==> r.value != "" && NoSpace(r.value)
  {
    var fields := Fields(line);
    if |fields| > 0 && fields[0] != "" then Some(fields[0]) else None
  }

  /** The rows of the airport output after its header line. */
  function AirportRows(lines: seq<string>): seq<string> {
    if lines == [] then [] else lines[1..]
  }

  function AirportSSIDsIn(lines: seq<string>): seq<string> {
    FilterMap(AirportRows(lines), AirportSSID)
  }

  /** getWiFiSSIDs: never fails; a failed command gives no SSIDs. */
  method GetWiFiSSIDs(output: Option<string>) returns (ssids: seq<string>)
    ensures ssids == if output.None? then [] else AirportSSIDsIn(Split(output.value, '\n'))
  {
    ssids := [];
    if output.None? {
      return;
    }
    var lines := Split(output.value, '\n');
    for i := 0 to |lines|
      invariant ssids == FilterMap(lines[if i == 0 then 0 else 1..i], AirportSSID)
    {
      if i == 0 {
        continue;
      }
      assert lines[1..i + 1] == lines[1..][..i];
      assert lines[1..i] == lines[1..][..i - 1];
      FilterMapSnoc(lines[1..], i - 1, AirportSSID);
      var fields := Fields(lines[i]);
      if |fields| > 0 {
        var ssid := fields[0];
        if ssid != "" {
          ssids := ssids + [ssid];
        }
      }
    }
    assert lines[1..|lines|] == AirportRows(lines);
  }

  /** A row whose SSID is right-aligned behind spaces gives that SSID's first
      word: an SSID containing a space is cut at the space. */
  lemma AirportRowSSID(indent: string, ssid: string, rest: string)
    requires forall k :: 0 <= k < |indent| ==> IsSpace(indent[k])
    requires ssid != [] && NoSpace(ssid) && (rest == [] || IsSpace(rest[0]))
    ensures AirportSSID(indent + ssid + rest) == Some(ssid)
  {
    assert indent + ssid + rest == indent + (ssid + rest);
    FieldsSkipIndent(indent, ssid + rest);
    FieldsCons(ssid, rest);
  }

  /** The header line never yields an SSID. */
  lemma AirportHeaderSkipped(header: string, rows: seq<string>)
    ensures AirportSSIDsIn([header] + rows) == FilterMap(rows, AirportSSID)
  {
    assert ([header] + rows)[1..] == rows;
  }

  // ------------------------------------------------- getHardwareUUID, getSerialNumber

  const UUIDKey := "IOPlatformUUID"
  const SerialKey := "IOPlatformSerialNumber"

  /** A line mentioning `key` with at least four '"'-separated parts. */
  predicate HasQuotedValue(line: string, key: string) {
    Contains(line, key) && |Split(line, '"')| >= 4
  }

  /** The fourth '"'-part of the first line with a quoted value for `key`,
      else "", which is reported without an error. */
  function QuotedValueIn(lines: seq<string>, key: string): string {
    match FirstWhere(lines, (l: string) => HasQuotedValue(l, key))
    case None => ""
    case Some(k) => Split(lines[k], '"')[3]
  }

  /** getHardwareUUID / getSerialNumber: None when ioreg fails. */
  method IoregLookup(output: Option<string>, key: string) returns (r: Option<string>)
    ensures r == if output.None? then None else Some(QuotedValueIn(Split(output.value, '\n'), key))
  {
    if output.None? {
      return None;
    }
    var lines := Split(output.value, '\n');
    var i := 0;
    while i < |lines|
      invariant 0 <= i <= |lines|
      invariant forall j :: 0 <= j < i ==> !HasQuotedValue(lines[j], key)
    {
      if Contains(lines[i], key) {
        var parts := Split(lines[i], '"');
        if |parts| >= 4 {
          FirstWhereIs(lines, (l: string) => HasQuotedValue(l, key), i);
          return Some(parts[3]);
        }
      }
      i := i + 1;
    }
    return Some("");
  }

  /** An ioreg line   "<key>" = "<value>"   reports <value>. */
  lemma QuotedValueReported(before: seq<string>, indent: string, key: string, v: string, after: seq<string>)
    requires forall j :: 0 <= j < |before| ==> !HasQuotedValue(before[j], key)
    requires '"' !in indent && '"' !in key && '"' !in v
    ensures QuotedValueIn(before + [Join([indent, key, " = ", v, ""], "\"")] + after, key) == v
  {
    var line := Join([indent, key, " = ", v, ""], "\"");
    QuotedLine(indent, key, v);
    var ls := before + [line] + after;
    assert ls[|before|] == line;
    FirstWhereIs(ls, (l: string) => HasQuotedValue(l, key), |before|);
  }

  /** The line `<indent>"<key>" = "<v>"` holds a quoted value for `key`, and
      its fourth '"'-part is <v>. */
  lemma QuotedLine(indent: string, key: string, v: string)
    requires '"' !in indent && '"' !in key && '"' !in v
    ensures HasQuotedValue(Join([indent, key, " = ", v, ""], "\""), key)
    ensures Split(Join([indent, key, " = ", v, ""], "\""), '"')[3] == v
  {
    var parts := [indent, key, " = ", v, ""];
    var line := Join(parts, "\"");
    SplitJoin(parts, '"');
    var tail := Join(parts[2..], "\"");
    assert line == indent + "\"" + (key + "\"" + tail) by {
      assert parts[1..] == [key, " = ", v, ""] && parts[1..][1..] == parts[2..];
    }
    KeyAfterQuote(indent, key, tail);
  }

  lemma KeyAfterQuote(indent: string, key: string, tail: string)
    ensures Contains(indent + "\"" + (key + "\"" + tail), key)
  {
    var line := indent + "\"" + (key + "\"" + tail);
    assert line[|indent| + 1..|indent| + 1 + |key|] == key;
    ContainsAt(line, key, |indent| + 1);
  }

  function IoregValue(output: Option<string>, key: string): Option<string> {
    if output.None? then None else Some(QuotedValueIn(Split(output.value, '\n'), key))
  }

  /** The HardwareInfo of GetHardwareInfo over the outputs of its two ioreg runs. */
  function HardwareOf(uuidOutput: Option<string>, serialOutput: Option<string>): HardwareInfo {
    HardwareInfo(IoregValue(serialOutput, SerialKey).GetOr(Unknown), IoregValue(uuidOutput, UUIDKey).GetOr(Unknown))
  }

  method GetHardwareInfo(uuidOutput: Option<string>, serialOutput: Option<string>) returns (info: HardwareInfo)
    ensures info == HardwareOf(uuidOutput, serialOutput)
  {
    info := HardwareInfo(Unknown, Unknown);
    var uuid := IoregLookup(uuidOutput, UUIDKey);
    if uuid.Some? {
      info := info.(hardwareUUID := uuid.value);
    }
    var serial := IoregLookup(serialOutput, SerialKey);
    if serial.Some? {
      info := info.(serialNumber := serial.value);
    }
  }

  /** ioreg output with no IOPlatformUUID line gives an empty hardware UUID,
      not "unknown", and the snapshot then fails validation on hardware_uuid. */
  lemma MissingUUIDFailsValidation(output: string, serialOutput: Option<string>,
                                   timestamp: int, s: SystemInfo, network: Option<NetworkInfo>,
                                   pii: Option<PIIInfo>)
    requires forall j :: 0 <= j < |Split(output, '\n')| ==> !Contains(Split(output, '\n')[j], UUIDKey)
    requires s.hostname != "" && s.osName != ""
    ensures HardwareOf(Some(output), serialOutput).hardwareUUID == ""
    ensures CollectionTypes.Validate(Collection.Aggregate(timestamp, Some(s), network,
              Some(HardwareOf(Some(output), serialOutput)), pii)).Some?
  {
    var lines := Split(output, '\n');
    var p := (l: string) => HasQuotedValue(l, UUIDKey);
    assert forall j :: 0 <= j < |lines| ==> !p(lines[j]);
    assert FirstWhere(lines, p).None?;
    Collection.EmptyUuidFails(timestamp, s, network, HardwareOf(Some(output), serialOutput), pii);
  }

  // --------------------------------------------------------------- getLocalUsers

  /** A dscl line names a user unless, trimmed, it is empty, starts with "_",
      or is "daemon" or "nobody". */
  predicate KeptName(name: string) {
    name != "" && !HasPrefix(name, "_") && name != "daemon" && name != "nobody"
  }

  function DsclUser(line: string): (r: Option<User>)
    ensures r.Some? ==> KeptName(r.value.username)
  {
    var username := TrimSpace(line);
    if KeptName(username) then Some(User(username, username, "")) else None
  }

  /** getLocalUsers: None when dscl fails. */
  method GetLocalUsers(output: Option<string>) returns (r: Option<seq<User>>)
    ensures r == if output.None? then None else Some(FilterMap(Split(output.value, '\n'), DsclUser))
  {
    if output.None? {
      return None;
    }
    var lines := Split(output.value, '\n');
    var users: seq<User> := [];
    for i := 0 to |lines|
      invariant users == FilterMap(lines[..i], DsclUser)
    {
      FilterMapSnoc(lines, i, DsclUser);
      var username := TrimSpace(lines[i]);
      if username != "" && !HasPrefix(username, "_") && username != "daemon" && username != "nobody" {
        users := users + [User(username, username, "")];
      }
    }
    assert lines[..|lines|] == lines;
    return Some(users);
  }

  /** Every listed user is a trimmed line of the output, not a system account,
      with its name as full name and an empty UID. */
  lemma DsclUsersShape(lines: seq<string>, k: nat)
    requires k < |FilterMap(lines, DsclUser)|
    ensures var u := FilterMap(lines, DsclUser)[k];
      && KeptName(u.username) && u.fullName == u.username && u.uid == ""
      && exists j :: 0 <= j < |lines| && TrimSpace(lines[j]) == u.username
  {
    FilterMapFrom(lines, DsclUser, k);
  }

  // ----------------------------------------------------------------- Get*Info

  /** GetSystemInfo never fails: a failed hostname, version or build lookup is
      "unknown", and the timezone is the local zone's name. */
  method GetSystemInfo(hostname: Option<string>, productVersion: Option<string>, buildVersion: Option<string>,
                       localZone: string)
    returns (info: SystemInfo)
    ensures info.osName == OSName && info.hostname == hostname.GetOr(Unknown)
    ensures info.osVersion == SwVersValue(productVersion).GetOr(Unknown)
    ensures info.osBuild == SwVersValue(buildVersion).GetOr(Unknown)
    ensures info.timezone == localZone
  {
    info := SystemInfo(OSName, "", "", "", "");
    if hostname.Some? {
      info := info.(hostname := hostname.value);
    } else {
      info := info.(hostname := Unknown);
    }
    var version := SwVersValue(productVersion);
    if version.Some? {
      info := info.(osVersion := version.value);
    } else {
      info := info.(osVersion := Unknown);
    }
    var build := SwVersValue(buildVersion);
    if build.Some? {
      info := info.(osBuild := build.value);
    } else {
      info := info.(osBuild := Unknown);
    }
    info := info.(timezone := localZone);
  }

  /** GetNetworkInfo never fails: the interfaces and SSIDs found, each sorted. */
  method GetNetworkInfo(ifconfig: Option<string>, airport: Option<string>) returns (info: NetworkInfo)
    ensures SortedNetworkOf(info,
              if ifconfig.None? then [] else InterfacesIn(Split(ifconfig.value, '\n')),
              if airport.None? then [] else AirportSSIDsIn(Split(airport.value, '\n')))
  {
    var interfaces: seq<NetworkInterface> := [];
    var found := GetNetworkInterfaces(ifconfig);
    if found.Some? {
      interfaces := found.value;
    }
    var ssids := GetWiFiSSIDs(airport);
    info := SortNetwork(interfaces, ssids);
  }

  function UsersOf(dscl: Option<string>): seq<User> {
    if dscl.None? then [] else FilterMap(Split(dscl.value, '\n'), DsclUser)
  }

  /** GetPIIInfo never fails: the users, the current user (when known) and
      one "/Users/<user>" per user, each sorted. */
  method GetPIIInfo(dscl: Option<string>, currentUser: Option<string>) returns (info: PIIInfo)
    ensures SortedPIIOf(info, UsersOf(dscl), Listed(currentUser), HomeDirsOf(UsersOf(dscl), "/Users/"))
  {
    var users: seq<User> := [];
    var homeDirs: seq<string> := [];
    var found := GetLocalUsers(dscl);
    if found.Some? {
      users := found.value;
      homeDirs := CollectHomeDirs(users, "/Users/");
    }
    info := SortPII(users, Listed(currentUser), homeDirs);
  }
}
