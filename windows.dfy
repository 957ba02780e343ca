/** The Windows collector: the scrapers of `ver`, the `wmic ... /value`
    key=value outputs, `ipconfig /all`, `netsh wlan show profiles` and the
    `wmic useraccount ... /format:csv` output, over each command's output
    (`None` when the command fails), plus the defaulting and sorting of the four
    Get*Info calls. */
module WindowsCollector {
  import opened Wrappers
  import opened GoStrings
  import opened Sorting
  import opened PlatformTypes
  import CollectionTypes
  import Collection

  const OSName := "Windows"

  // ----------------------------------------------------------- getWindowsVersion

  const VersionMarker := "[Version "

  /** getWindowsVersion on the output of `ver`: the text between "[Version "
      and the next "]" when it is non-empty, else the whole trimmed output. */
  function WindowsVersionOf(output: string): string {
    VersionIn(TrimSpace(output))
  }

  function VersionIn(version: string): string {
    if Contains(version, VersionMarker) then
      var start := Index(version, VersionMarker) + 9;
      var end := Index(version[start..], "]");
      if end > 0 then version[start..start + end] else version
    else version
  }

  /** A prefix without '[' holds no occurrence of the marker. */
  lemma MarkerAt(pre: string, rest: string)
    requires '[' !in pre
    ensures Index(pre + VersionMarker + rest, VersionMarker) == |pre|
  {
    var s := pre + VersionMarker + rest;
    assert s[|pre|..|pre| + |VersionMarker|] == VersionMarker;
    forall j | 0 <= j < |pre| ensures !OccursAt(s, VersionMarker, j) {
      assert s[j] == pre[j];
      assert s[j..j + |VersionMarker|][0] == s[j];
    }
    IndexIs(s, VersionMarker, |pre|);
  }

  /** A version without ']' ends at the first ']'. */
  lemma CloseAt(v: string, post: string)
    requires ']' !in v
    ensures Index(v + "]" + post, "]") == |v|
  {
    var s := v + "]" + post;
    assert s[|v|..|v| + 1] == "]";
    forall j | 0 <= j < |v| ensures !OccursAt(s, "]", j) {
      assert s[j] == v[j];
      assert s[j..j + 1][0] == s[j];
    }
    IndexIs(s, "]", |v|);
  }

  /** VersionIn reads the text after the first marker up to the next "]". */
  lemma VersionAt(s: string, k: nat, rest: string)
    requires Index(s, VersionMarker) == k && k + 9 <= |s| && s[k + 9..] == rest
    ensures VersionIn(s) == if Index(rest, "]") > 0 then rest[..Index(rest, "]")] else s
  {
    var e := Index(rest, "]");
    if e > 0 {
      assert s[k + 9..k + 9 + e] == rest[..e];
    }
  }

  /** "Microsoft Windows [Version 10.0.19045.1234]" reports "10.0.19045.1234". */
  lemma BracketedVersionReported(output: string, pre: string, v: string, post: string)
    requires TrimSpace(output) == pre + VersionMarker + v + "]" + post
    requires '[' !in pre && ']' !in v && v != []
    ensures WindowsVersionOf(output) == v
  {
    var rest := v + "]" + post;
    var s := TrimSpace(output);
    assert s == pre + VersionMarker + rest;
    assert s[|pre| + 9..] == rest;
    MarkerAt(pre, rest);
    CloseAt(v, post);
    assert rest[..|v|] == v;
    VersionAt(s, |pre|, rest);
  }

  /** An empty "[Version ]" reports the whole trimmed output. */
  lemma EmptyBracketKeepsOutput(output: string, pre: string, post: string)
    requires TrimSpace(output) == pre + VersionMarker + "]" + post
    requires '[' !in pre
    ensures WindowsVersionOf(output) == TrimSpace(output)
  {
    var rest := "]" + post;
    var s := TrimSpace(output);
    assert s == pre + VersionMarker + rest;
    assert s[|pre| + 9..] == rest;
    MarkerAt(pre, rest);
    CloseAt("", post);
    assert "" + "]" + post == rest;
    VersionAt(s, |pre|, rest);
  }

  // ---------------------------------------------- the wmic key=value scrapers

  const BuildKey := "BuildNumber="
  const UUIDKey := "UUID="
  const SerialKey := "SerialNumber="

  predicate HasKey(line: string, key: string) {
    HasPrefix(TrimSpace(line), key)
  }

  /** The rest of the first trimmed line starting with `key`, else "", which is
      reported without an error. */
  function KeyValueIn(lines: seq<string>, key: string): string {
    match FirstWhere(lines, (l: string) => HasKey(l, key))
    case None => ""
    case Some(k) => TrimPrefix(TrimSpace(lines[k]), key)
  }

  /** getBuildNumber / getHardwareUUID / getSerialNumber: None when wmic fails. */
  method WmicValue(output: Option<string>, key: string) returns (r: Option<string>)
    ensures r == if output.None? then None else Some(KeyValueIn(Split(output.value, '\n'), key))
  {
    if output.None? {
      return None;
    }
    var lines := Split(output.value, '\n');
    var i := 0;
    while i < |lines|
      invariant 0 <= i <= |lines|
      invariant forall j :: 0 <= j < i ==> !HasKey(lines[j], key)
    {
      var line := TrimSpace(lines[i]);
      if HasPrefix(line, key) {
        FirstWhereIs(lines, (l: string) => HasKey(l, key), i);
        return Some(TrimPrefix(line, key));
      }
      i := i + 1;
    }
    return Some("");
  }

  /** A line "<key><value>" (up to surrounding whitespace) reports <value>. */
  lemma KeyValueReported(before: seq<string>, line: string, key: string, v: string, after: seq<string>)
    requires forall j :: 0 <= j < |before| ==> !HasKey(before[j], key)
    requires TrimSpace(line) == key + v
    ensures KeyValueIn(before + [line] + after, key) == v
  {
    var ls := before + [line] + after;
    assert ls[|before|] == line;
    assert (key + v)[..|key|] == key;
    FirstWhereIs(ls, (l: string) => HasKey(l, key), |before|);
  }

  function WmicLookup(output: Option<string>, key: string): Option<string> {
    if output.None? then None else Some(KeyValueIn(Split(output.value, '\n'), key))
  }

  /** The HardwareInfo of GetHardwareInfo over its two wmic outputs. */
  function HardwareOf(uuidOutput: Option<string>, serialOutput: Option<string>): HardwareInfo {
    HardwareInfo(WmicLookup(serialOutput, SerialKey).GetOr(Unknown), WmicLookup(uuidOutput, UUIDKey).GetOr(Unknown))
  }

  method GetHardwareInfo(uuidOutput: Option<string>, serialOutput: Option<string>) returns (info: HardwareInfo)
    ensures info == HardwareOf(uuidOutput, serialOutput)
  {
    info := HardwareInfo(Unknown, Unknown);
    var uuid := WmicValue(uuidOutput, UUIDKey);
    if uuid.Some? {
      info := info.(hardwareUUID := uuid.value);
    }
    var serial := WmicValue(serialOutput, SerialKey);
    if serial.Some? {
      info := info.(serialNumber := serial.value);
    }
  }

  /** wmic output without a UUID= line gives an empty hardware UUID, not
      "unknown", and the snapshot then fails validation on hardware_uuid. */
  lemma MissingUUIDFailsValidation(output: string, serialOutput: Option<string>,
                                   timestamp: int, s: SystemInfo, network: Option<NetworkInfo>,
                                   pii: Option<PIIInfo>)
    requires forall j :: 0 <= j < |Split(output, '\n')| ==> !HasKey(Split(output, '\n')[j], UUIDKey)
    requires s.hostname != "" && s.osName != ""
    ensures HardwareOf(Some(output), serialOutput).hardwareUUID == ""
    ensures CollectionTypes.Validate(Collection.Aggregate(timestamp, Some(s), network,
              Some(HardwareOf(Some(output), serialOutput)), pii)).Some?
  {
    var lines := Split(output, '\n');
    var p := (l: string) => HasKey(l, UUIDKey);
    assert forall j :: 0 <= j < |lines| ==> !p(lines[j]);
    assert FirstWhere(lines, p).None?;
    Collection.EmptyUuidFails(timestamp, s, network, HardwareOf(Some(output), serialOutput), pii);
  }

  // ------------------------------------------------------ getNetworkInterfaces

  const AdapterWord := "adapter"
  const IPv4Label := "IPv4 Address"
  const PhysicalLabel := "Physical Address"

  /** A trimmed ipconfig line that opens an adapter section. */
  predicate IsAdapterLine(t: string) {
    HasSuffix(t, ":") && Contains(t, AdapterWord)
  }

  function AdapterName(t: string): string {
    TrimSuffix(t, ":")
  }

  /** An adapter line always has a non-empty name, so the `Name != ""` guards
      on appending never drop an interface. */
  lemma AdapterNameNonEmpty(t: string)
    requires IsAdapterLine(t)
    ensures AdapterName(t) != ""
  {
    var k := Index(t, AdapterWord);
    assert OccursAt(t, AdapterWord, k);
  }

  /** The IPv4 value: the text between the first and second ':', cut at '(' and trimmed. */
  function IPv4Of(t: string): string
    requires |Split(t, ':')| >= 2
  {
    TrimSpace(Split(TrimSpace(Split(t, ':')[1]), '(')[0])
  }

  /** The MAC value: all the text after the first ':', re-joined and trimmed. */
  function MACOf(t: string): string
    requires |Split(t, ':')| >= 2
  {
    TrimSpace(Join(Split(t, ':')[1..], ":"))
  }

  /** A property line of the current adapter sets the IP, the MAC, or both. */
  function ApplyAdapterProperty(iface: NetworkInterface, t: string): (r: NetworkInterface)
    ensures r.name == iface.name
  {
    var withIP := if Contains(t, IPv4Label) && |Split(t, ':')| >= 2 then iface.(ipAddress := IPv4Of(t)) else iface;
    if Contains(t, PhysicalLabel) && |Split(t, ':')| >= 2 then withIP.(macAddress := MACOf(t)) else withIP
  }

  /** The current interface, when there is one with a non-empty name. */
  function Named(current: Option<NetworkInterface>): seq<NetworkInterface> {
    if current.Some? && current.value.name != "" then [current.value] else []
  }

  /** One iteration of the ipconfig loop. */
  function IpconfigStep(st: ScanState, line: string): ScanState {
    var t := TrimSpace(line);
    if IsAdapterLine(t) then ScanState(st.done + Named(st.current), Some(FreshInterface(AdapterName(t))))
    else match st.current
      case None => st
      case Some(c) => ScanState(st.done, Some(ApplyAdapterProperty(c, t)))
  }

  /** The interfaces getNetworkInterfaces reports for the lines of ipconfig. */
  function InterfacesIn(lines: seq<string>): seq<NetworkInterface> {
    var st := Scan(ScanStart, lines, IpconfigStep);
    st.done + Named(st.current)
  }

  /** getNetworkInterfaces: None when ipconfig fails. */
  method GetNetworkInterfaces(output: Option<string>) returns (r: Option<seq<NetworkInterface>>)
    ensures r == if output.None? then None else Some(InterfacesIn(Split(output.value, '\n')))
  {
    if output.None? {
      return None;
    }
    var lines := Split(output.value, '\n');
    var interfaces: seq<NetworkInterface> := [];
    var current: Option<NetworkInterface> := None;
    for i := 0 to |lines|
      invariant ScanState(interfaces, current) == Scan(ScanStart, lines[..i], IpconfigStep)
    {
      ScanSnoc(ScanStart, lines, i, IpconfigStep);
      interfaces, current := IpconfigLine(interfaces, current, lines[i]);
    }
    assert lines[..|lines|] == lines;
    interfaces := AppendCurrent(interfaces, current);
    return Some(interfaces);
  }

  /** The final append after the ipconfig loop. */
  method AppendCurrent(interfaces: seq<NetworkInterface>, current: Option<NetworkInterface>)
    returns (r: seq<NetworkInterface>)
    ensures r == interfaces + Named(current)
  {
    r := interfaces;
    if current.Some? && current.value.name != "" {
      r := interfaces + [current.value];
    }
  }

  /** The body of the ipconfig loop for one line. */
  method IpconfigLine(interfaces: seq<NetworkInterface>, current: Option<NetworkInterface>, raw: string)
    returns (interfaces': seq<NetworkInterface>, current': Option<NetworkInterface>)
    ensures ScanState(interfaces', current') == IpconfigStep(ScanState(interfaces, current), raw)
  {
    interfaces', current' := interfaces, current;
    var line := TrimSpace(raw);
    if HasSuffix(line, ":") && Contains(line, AdapterWord) {
      if current.Some? && current.value.name != "" {
        interfaces' := interfaces + [current.value];
      }
      var name := TrimSuffix(line, ":");
      current' := Some(NetworkInterface(name, Unknown, Unknown));
    } else if current.Some? {
      var iface := current.value;
      if Contains(line, IPv4Label) {
        var parts := Split(line, ':');
        if |parts| >= 2 {
          var ip := TrimSpace(parts[1]);
          ip := Split(ip, '(')[0];
          iface := iface.(ipAddress := TrimSpace(ip));
        }
      }
      if Contains(line, PhysicalLabel) {
        var parts := Split(line, ':');
        if |parts| >= 2 {
          var mac := TrimSpace(Join(parts[1..], ":"));
          iface := iface.(macAddress := mac);
        }
      }
      current' := Some(iface);
    }
  }

  function AdapterOf(line: string): Option<string> {
    var t := TrimSpace(line);
    if IsAdapterLine(t) then Some(AdapterName(t)) else None
  }

  predicate CurrentNamed(st: ScanState) {
    st.current.Some? ==> st.current.value.name != ""
  }

  lemma StepNames(st: ScanState, line: string)
    requires CurrentNamed(st)
    ensures CurrentNamed(IpconfigStep(st, line))
    ensures NamesOf(IpconfigStep(st, line).done + Named(IpconfigStep(st, line).current))
         == NamesOf(st.done + Named(st.current)) + Listed(AdapterOf(line))
  {
    var t := TrimSpace(line);
    if IsAdapterLine(t) {
      AdapterNameNonEmpty(t);
      NamesAppend(st.done + Named(st.current), [FreshInterface(AdapterName(t))]);
    } else if st.current.Some? {
      NamesAppend(st.done, [st.current.value]);
      NamesAppend(st.done, [ApplyAdapterProperty(st.current.value, t)]);
    }
  }

  lemma {:induction false} ScanNames(lines: seq<string>)
    ensures CurrentNamed(Scan(ScanStart, lines, IpconfigStep))
    ensures NamesOf(InterfacesIn(lines)) == FilterMap(lines, AdapterOf)
    decreases |lines|
  {
    if lines != [] {
      var init := lines[..|lines| - 1];
      ScanNames(init);
      StepNames(Scan(ScanStart, init, IpconfigStep), lines[|lines| - 1]);
    }
  }

  /** One interface per adapter line, named by that line without its final
      ':', in input order. */
  lemma AdapterNames(lines: seq<string>)
    ensures NamesOf(InterfacesIn(lines)) == FilterMap(lines, AdapterOf)
  {
    ScanNames(lines);
  }

  lemma {:induction false} NoAdapterKeepsStart(pre: seq<string>)
    requires forall j :: 0 <= j < |pre| ==> AdapterOf(pre[j]).None?
    ensures Scan(ScanStart, pre, IpconfigStep) == ScanStart
    decreases |pre|
  {
    if pre != [] {
      NoAdapterKeepsStart(pre[..|pre| - 1]);
    }
  }

  /** The lines before the first adapter section (the host configuration) are ignored. */
  lemma PreambleIgnored(pre: seq<string>, rest: seq<string>)
    requires forall j :: 0 <= j < |pre| ==> AdapterOf(pre[j]).None?
    ensures InterfacesIn(pre + rest) == InterfacesIn(rest)
  {
    NoAdapterKeepsStart(pre);
    ScanAppend(ScanStart, pre, rest, IpconfigStep);
  }

  /** A line that neither opens an adapter nor names an address leaves the scan as it is. */
  predicate Silent(line: string) {
    var t := TrimSpace(line);
    !IsAdapterLine(t) && !Contains(t, IPv4Label) && !Contains(t, PhysicalLabel)
  }

  lemma {:induction false} SilentScan(st: ScanState, body: seq<string>)
    requires st.current.Some?
    requires forall j :: 0 <= j < |body| ==> Silent(body[j])
    ensures Scan(st, body, IpconfigStep) == st
    decreases |body|
  {
    if body != [] {
      var init := body[..|body| - 1];
      assert forall j :: 0 <= j < |init| ==> init[j] == body[j];
      SilentScan(st, init);
      SilentStep(st, body[|body| - 1]);
    }
  }

  lemma SilentStep(st: ScanState, line: string)
    requires st.current.Some? && Silent(line)
    ensures IpconfigStep(st, line) == st
  {
  }

  /** IP and MAC stay "unknown" unless a later line of the section sets them. */
  lemma UnsetAddressesStayUnknown(header: string, body: seq<string>)
    requires IsAdapterLine(TrimSpace(header))
    requires forall j :: 0 <= j < |body| ==> Silent(body[j])
    ensures InterfacesIn([header] + body) == [FreshInterface(AdapterName(TrimSpace(header)))]
  {
    var t := TrimSpace(header);
    assert [header][..0] == [];
    assert Scan(ScanStart, [header], IpconfigStep) == ScanState([], Some(FreshInterface(AdapterName(t))));
    ScanAppend(ScanStart, [header], body, IpconfigStep);
    SilentScan(ScanState([], Some(FreshInterface(AdapterName(t)))), body);
    AdapterNameNonEmpty(t);
  }

  /** A Physical Address line sets the MAC to everything after its first ':',
      so a colon-separated address survives whole. */
  lemma PhysicalAddressValue(iface: NetworkInterface, t: string)
    requires Contains(t, PhysicalLabel) && ':' in t
    ensures ApplyAdapterProperty(iface, t).macAddress == TrimSpace(t[IndexByte(t, ':') + 1..])
  {
    JoinAfterFirst(t, ':');
  }

  /** "IPv4 Address. . . : 192.168.1.5(Preferred)" sets the IP to "192.168.1.5". */
  lemma IPv4AddressValue(iface: NetworkInterface, lead: string, addr: string, note: string)
    requires Contains(lead + ": " + addr + "(" + note, IPv4Label)
    requires ':' !in lead && ':' !in addr && ':' !in note && '(' !in addr
    requires addr != [] && Trimmed(addr) && (note == [] || !IsSpace(note[|note| - 1]))
    ensures ApplyAdapterProperty(iface, lead + ": " + addr + "(" + note).ipAddress == addr
  {
    var value := addr + "(" + note;
    var t := lead + ": " + addr + "(" + note;
    assert Split(t, ':')[1] == " " + value by {
      assert t == lead + ":" + (" " + value);
      OneColon(lead, " " + value);
    }
    AddressBeforeNote(addr, note);
    assert IPv4Of(t) == addr;
    IPv4Applied(iface, t);
  }

  /** " <addr>(<note>" trims to <addr> once cut at '('. */
  lemma AddressBeforeNote(addr: string, note: string)
    requires '(' !in addr && addr != [] && Trimmed(addr) && (note == [] || !IsSpace(note[|note| - 1]))
    ensures TrimSpace(Split(TrimSpace(" " + (addr + "(" + note)), '(')[0]) == addr
  {
    var value := addr + "(" + note;
    assert Trimmed(value) by {
      assert value[0] == addr[0];
      assert value[|value| - 1] == if note == [] then '(' else note[|note| - 1];
    }
    TrimSpaceAfterSpace(value);
    SplitAfter(addr, '(', note);
    TrimSpaceOfTrimmed(addr);
  }

  lemma IPv4Applied(iface: NetworkInterface, t: string)
    requires Contains(t, IPv4Label) && |Split(t, ':')| >= 2
    ensures ApplyAdapterProperty(iface, t).ipAddress == IPv4Of(t)
  {
  }

  /** A line with one ':' splits into the text before and after it. */
  lemma OneColon(lead: string, rest: string)
    requires ':' !in lead && ':' !in rest
    ensures Split(lead + ":" + rest, ':') == [lead, rest]
  {
    SplitAfter(lead, ':', rest);
    assert IndexByte(rest, ':') == -1;
  }

  // ---------------------------------------------------------------- getWiFiSSIDs

  const ProfileKey := "All User Profile"

  /** A netsh line naming a profile gives the trimmed text between the first
      and second ':', when non-empty. */
  function ProfileSSID(line: string): (r: Option<string>)
    ensures r.Some? ==> r.value != "" && Trimmed(r.value)
  {
    var t := TrimSpace(line);
    if Contains(t, ProfileKey) && |Split(t, ':')| >= 2 && TrimSpace(Split(t, ':')[1]) != "" then
      Some(TrimSpace(Split(t, ':')[1]))
    else None
  }

  /** getWiFiSSIDs: never fails; a failed command gives no SSIDs. */
  method GetWiFiSSIDs(output: Option<string>) returns (ssids: seq<string>)
    ensures ssids == if output.None? then [] else FilterMap(Split(output.value, '\n'), ProfileSSID)
  {
    ssids := [];
    if output.None? {
      return;
    }
    var lines := Split(output.value, '\n');
    for i := 0 to |lines|
      invariant ssids == FilterMap(lines[..i], ProfileSSID)
    {
      FilterMapSnoc(lines, i, ProfileSSID);
      var line := TrimSpace(lines[i]);
      if Contains(line, ProfileKey) {
        var parts := Split(line, ':');
        if |parts| >= 2 {
          var ssid := TrimSpace(parts[1]);
          if ssid != "" {
            ssids := ssids + [ssid];
          }
        }
      }
    }
    assert lines[..|lines|] == lines;
  }

  /** "All User Profile     : HomeNet" gives "HomeNet". */
  lemma ProfileLineSSID(line: string, lead: string, name: string)
    requires TrimSpace(line) == lead + ":" + name
    requires Contains(TrimSpace(line), ProfileKey)
    requires ':' !in lead && ':' !in name && TrimSpace(name) != ""
    ensures ProfileSSID(line) == Some(TrimSpace(name))
  {
    SplitAfter(lead, ':', name);
    assert IndexByte(name, ':') == -1;
  }

  // --------------------------------------------------------------- getLocalUsers

  /** A CSV row Node,FullName,Name,SID: kept unless the trimmed name is empty
      or starts with "SYSTEM". */
  function CsvUser(line: string): (r: Option<User>)
    ensures r.Some? ==> r.value.username != "" && !HasPrefix(r.value.username, "SYSTEM")
  {
    var t := TrimSpace(line);
    if t == "" then None
    else
      var fields := Split(t, ',');
      if |fields| >= 4 && TrimSpace(fields[2]) != "" && !HasPrefix(TrimSpace(fields[2]), "SYSTEM") then
        Some(User(TrimSpace(fields[2]), TrimSpace(fields[1]), TrimSpace(fields[3])))
      else None
  }

  /** The rows after the two header lines of the CSV output. */
  function CsvRows(lines: seq<string>): seq<string> {
    if |lines| <= 2 then [] else lines[2..]
  }

  /** getLocalUsers: None when wmic fails. */
  method GetLocalUsers(output: Option<string>) returns (r: Option<seq<User>>)
    ensures r == if output.None? then None else Some(UsersIn(Split(output.value, '\n')))
  {
    if output.None? {
      return None;
    }
    var lines := Split(output.value, '\n');
    var users: seq<User> := [];
    for i := 0 to |lines|
      invariant users == UsersIn(lines[..i])
    {
      CsvSnoc(lines, i);
      if i < 2 {
        continue;
      }
      var user := CsvLine(lines[i]);
      users := users + Listed(user);
    }
    assert lines[..|lines|] == lines;
    return Some(users);
  }

  /** The users getLocalUsers reports for the lines of the CSV output. */
  function UsersIn(lines: seq<string>): seq<User> {
    FilterMap(CsvRows(lines), CsvUser)
  }

  lemma CsvSnoc(lines: seq<string>, i: nat)
    requires i < |lines|
    ensures UsersIn(lines[..i + 1]) == UsersIn(lines[..i]) + (if i < 2 then [] else Listed(CsvUser(lines[i])))
  {
    if i >= 2 {
      var rows := lines[2..];
      assert CsvRows(lines[..i + 1]) == rows[..i - 1];
      assert i == 2 ==> CsvRows(lines[..i]) == [] == rows[..0];
      assert CsvRows(lines[..i]) == rows[..i - 2];
      assert rows[i - 2] == lines[i];
      FilterMapSnoc(rows, i - 2, CsvUser);
    }
  }

  /** The body of the CSV loop for one row after the headers. */
  method CsvLine(raw: string) returns (r: Option<User>)
    ensures r == CsvUser(raw)
  {
    var line := TrimSpace(raw);
    if line == "" {
      return None;
    }
    var fields := Split(line, ',');
    if |fields| >= 4 {
      var username := TrimSpace(fields[2]);
      var fullname := TrimSpace(fields[1]);
      var sid := TrimSpace(fields[3]);
      if username != "" && !HasPrefix(username, "SYSTEM") {
        return Some(User(username, fullname, sid));
      }
    }
    return None;
  }

  /** A row Node,FullName,Name,SID gives the user Name with FullName and SID. */
  lemma CsvRowParsed(node: string, fullName: string, name: string, sid: string)
    requires ',' !in node && ',' !in fullName && ',' !in name && ',' !in sid
    requires Trimmed(node) && Trimmed(fullName) && Trimmed(name) && Trimmed(sid)
    requires node != [] && sid != []
    requires name != "" && !HasPrefix(name, "SYSTEM")
    ensures CsvUser(Join([node, fullName, name, sid], ",")) == Some(User(name, fullName, sid))
  {
    var parts := [node, fullName, name, sid];
    var row := Join(parts, ",");
    assert parts[1..] == [fullName, name, sid] && parts[1..][1..] == [name, sid];
    assert parts[1..][1..][1..] == [sid];
    assert Join([sid], ",") == sid;
    assert Join([name, sid], ",") == name + "," + sid;
    assert Join([fullName, name, sid], ",") == fullName + "," + (name + "," + sid);
    assert row == node + "," + (fullName + "," + (name + "," + sid));
    assert row[0] == node[0];
    assert row[|row| - 1] == sid[|sid| - 1];
    TrimSpaceOfTrimmed(row);
    SplitJoin(parts, ',');
    TrimSpaceOfTrimmed(fullName);
    TrimSpaceOfTrimmed(name);
    TrimSpaceOfTrimmed(sid);
  }

  // ----------------------------------------------------------------- Get*Info

  /** GetSystemInfo never fails: a failed hostname, `ver` or wmic lookup is
      "unknown"; a wmic output without BuildNumber= gives "". */
  method GetSystemInfo(hostname: Option<string>, verOutput: Option<string>, buildOutput: Option<string>,
                       localZone: string)
    returns (info: SystemInfo)
    ensures info.osName == OSName && info.hostname == hostname.GetOr(Unknown)
    ensures info.osVersion == if verOutput.None? then Unknown else WindowsVersionOf(verOutput.value)
    ensures info.osBuild == WmicLookup(buildOutput, BuildKey).GetOr(Unknown)
    ensures info.timezone == localZone
  {
    info := SystemInfo(OSName, "", "", "", "");
    if hostname.Some? {
      info := info.(hostname := hostname.value);
    } else {
      info := info.(hostname := Unknown);
    }
    if verOutput.Some? {
      info := info.(osVersion := WindowsVersionOf(verOutput.value));
    } else {
      info := info.(osVersion := Unknown);
    }
    var build := WmicValue(buildOutput, BuildKey);
    if build.Some? {
      info := info.(osBuild := build.value);
    } else {
      info := info.(osBuild := Unknown);
    }
    info := info.(timezone := localZone);
  }

  /** GetNetworkInfo never fails: the interfaces and SSIDs found, each sorted. */
  method GetNetworkInfo(ipconfig: Option<string>, netsh: Option<string>) returns (info: NetworkInfo)
    ensures SortedNetworkOf(info,
              if ipconfig.None? then [] else InterfacesIn(Split(ipconfig.value, '\n')),
              if netsh.None? then [] else FilterMap(Split(netsh.value, '\n'), ProfileSSID))
  {
    var interfaces: seq<NetworkInterface> := [];
    var found := GetNetworkInterfaces(ipconfig);
    if found.Some? {
      interfaces := found.value;
    }
    var ssids := GetWiFiSSIDs(netsh);
    info := SortNetwork(interfaces, ssids);
  }

  const HomeRoot := "C:\\Users\\"

  function UsersOf(csv: Option<string>): seq<User> {
    if csv.None? then [] else UsersIn(Split(csv.value, '\n'))
  }

  /** GetPIIInfo never fails: the users, the current user (when known) and
      one "C:\Users\<user>" per user, each sorted. */
  method GetPIIInfo(csv: Option<string>, currentUser: Option<string>) returns (info: PIIInfo)
    ensures SortedPIIOf(info, UsersOf(csv), Listed(currentUser), HomeDirsOf(UsersOf(csv), HomeRoot))
  {
    var users: seq<User> := [];
    var homeDirs: seq<string> := [];
    var found := GetLocalUsers(csv);
    if found.Some? {
      users := found.value;
      homeDirs := CollectHomeDirs(users, HomeRoot);
    }
    info := SortPII(users, Listed(currentUser), homeDirs);
  }
}
