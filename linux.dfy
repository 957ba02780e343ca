/** The Linux collector: the scrapers of /etc/os-release, /proc/version,
    `ip addr show`, /sys/class/net, the NetworkManager connection directory,
    machine-id, the DMI serial and /etc/passwd, over the text or the directory
    listing each one reads, plus the defaulting and sorting of the four
    Get*Info calls. A file read, a directory listing or a command that fails
    is `None`. */
module LinuxCollector {
  import opened Wrappers
  import opened GoStrings
  import opened Sorting
  import opened PlatformTypes
  import CollectionTypes
  import Collection

  const OSName := "Linux"

  // ---------------------------------------------------------------- getOSVersion

  const VersionKey := "VERSION_ID="
  const Quote: set<char> := {'"'}

  predicate IsVersionLine(line: string) {
    HasPrefix(line, VersionKey)
  }

  /** The value of a VERSION_ID line with the surrounding quotes removed. */
  function VersionOf(line: string): string {
    Trim(TrimPrefix(line, VersionKey), Quote)
  }

  /** What getOSVersion reports for the lines of /etc/os-release. */
  function OSVersionIn(lines: seq<string>): (r: string)
    ensures (forall j :: 0 <= j < |lines| ==> !IsVersionLine(lines[j])) ==> r == Unknown
  {
    match FirstWhere(lines, IsVersionLine)
    case None => Unknown
    case Some(k) => VersionOf(lines[k])
  }

  /** getOSVersion: the first VERSION_ID line wins; None when the file is unreadable. */
  method GetOSVersion(osRelease: Option<string>) returns (r: Option<string>)
    ensures r == if osRelease.None? then None else Some(OSVersionIn(Split(osRelease.value, '\n')))
  {
    if osRelease.None? {
      return None;
    }
    var lines := Split(osRelease.value, '\n');
    var i := 0;
    while i < |lines|
      invariant 0 <= i <= |lines|
      invariant forall j :: 0 <= j < i ==> !IsVersionLine(lines[j])
    {
      if HasPrefix(lines[i], VersionKey) {
        FirstWhereIs(lines, IsVersionLine, i);
        var version := TrimPrefix(lines[i], VersionKey);
        version := Trim(version, Quote);
        return Some(version);
      }
      i := i + 1;
    }
    return Some(Unknown);
  }

  /** The first VERSION_ID line gives its value, quoted or not. */
  lemma VersionReported(before: seq<string>, v: string, after: seq<string>)
    requires forall j :: 0 <= j < |before| ==> !IsVersionLine(before[j])
    requires TrimmedOf(v, Quote)
    ensures OSVersionIn(before + [VersionKey + "\"" + v + "\""] + after) == v
    ensures OSVersionIn(before + [VersionKey + v] + after) == v
  {
    var quoted := VersionKey + "\"" + v + "\"";
    var ls := before + [quoted] + after;
    assert ls[|before|] == quoted && quoted[..|VersionKey|] == VersionKey;
    FirstWhereIs(ls, IsVersionLine, |before|);
    assert TrimPrefix(quoted, VersionKey) == ['"'] + v + ['"'];
    TrimEnclosed('"', v, Quote);
    var plain := VersionKey + v;
    var ps := before + [plain] + after;
    assert ps[|before|] == plain && plain[..|VersionKey|] == VersionKey;
    FirstWhereIs(ps, IsVersionLine, |before|);
    assert TrimPrefix(plain, VersionKey) == v;
    TrimOfTrimmed(v, Quote);
  }

  // ------------------------------------------------------------ getKernelVersion

  /** getKernelVersion on the text of /proc/version: its third field. */
  function KernelVersionOf(text: string): string {
    var fields := Fields(text);
    if |fields| >= 3 then fields[2] else Unknown
  }

  /** "Linux version <release> ..." reports the release. */
  lemma KernelVersionIsThirdField(w0: string, w1: string, w2: string, rest: string)
    requires w0 != [] && NoSpace(w0) && w1 != [] && NoSpace(w1) && w2 != [] && NoSpace(w2)
    requires rest == [] || IsSpace(rest[0])
    ensures KernelVersionOf(w0 + " " + w1 + " " + w2 + rest) == w2
  {
    var t1 := w1 + " " + (w2 + rest);
    assert w0 + " " + w1 + " " + w2 + rest == w0 + " " + t1;
    FieldsCons(w2, rest);
    FieldsWordSpace(w1, w2 + rest);
    FieldsWordSpace(w0, t1);
  }

  // ------------------------------------------------------------- getInterfaceIP

  const InetKey := "inet "

  predicate IsInetLine(line: string) {
    HasPrefix(TrimSpace(line), InetKey)
  }

  predicate HasInetAddress(line: string) {
    IsInetLine(line) && |Fields(TrimSpace(line))| >= 2
  }

  /** The address of an inet line with its CIDR suffix removed. */
  function AddressOf(line: string): string
    requires HasInetAddress(line)
  {
    Split(Fields(TrimSpace(line))[1], '/')[0]
  }

  /** What getInterfaceIP reports for the lines of `ip addr show`; None is its
      "no IP found" error. */
  function InterfaceIPIn(lines: seq<string>): Option<string> {
    match FirstWhere(lines, HasInetAddress)
    case None => None
    case Some(k) => Some(AddressOf(lines[k]))
  }

  /** getInterfaceIP: None when the command fails or no inet line has an address. */
  method GetInterfaceIP(output: Option<string>) returns (r: Option<string>)
    ensures r == if output.None? then None else InterfaceIPIn(Split(output.value, '\n'))
  {
    if output.None? {
      return None;
    }
    var lines := Split(output.value, '\n');
    var i := 0;
    while i < |lines|
      invariant 0 <= i <= |lines|
      invariant forall j :: 0 <= j < i ==> !HasInetAddress(lines[j])
    {
      var address := InetAddress(lines[i]);
      if address.Some? {
        FirstWhereIs(lines, HasInetAddress, i);
        return address;
      }
      i := i + 1;
    }
    return None;
  }

  /** The body of the getInterfaceIP loop for one line. */
  method InetAddress(raw: string) returns (r: Option<string>)
    ensures r.Some? <==> HasInetAddress(raw)
    ensures r.Some? ==> r.value == AddressOf(raw)
  {
    var line := TrimSpace(raw);
    if HasPrefix(line, InetKey) {
      var fields := Fields(line);
      if |fields| >= 2 {
        return Some(Split(fields[1], '/')[0]);
      }
    }
    return None;
  }

  /** A trimmed line starting "inet " always has an address field, so the
      first such line decides the result. */
  lemma InetLineHasAddress(line: string)
    requires IsInetLine(line)
    ensures HasInetAddress(line)
  {
    KeyedLineFields(TrimSpace(line), "inet");
  }

  /** The fields of "inet <addr>/<prefix><tail>": the second is the CIDR address. */
  lemma InetFields(addr: string, prefix: string, tail: string)
    requires addr != [] && NoSpace(addr) && '/' !in addr && NoSpace(prefix)
    requires tail == [] || IsSpace(tail[0])
    ensures |Fields(InetKey + addr + "/" + prefix + tail)| >= 2
    ensures Split(Fields(InetKey + addr + "/" + prefix + tail)[1], '/')[0] == addr
  {
    var cidr := addr + "/" + prefix;
    CidrNoSpace(addr, prefix);
    var line := InetKey + addr + "/" + prefix + tail;
    assert line == InetKey + (cidr + tail) by {
      Regroup(InetKey, addr, "/", prefix, tail);
    }
    InetWord(cidr, tail);
    SplitAfter(addr, '/', prefix);
  }

  /** "inet <word><tail>" has <word> as its second field. */
  lemma InetWord(w: string, tail: string)
    requires w != [] && NoSpace(w) && (tail == [] || IsSpace(tail[0]))
    ensures |Fields(InetKey + (w + tail))| >= 2 && Fields(InetKey + (w + tail))[1] == w
  {
    assert InetKey == "inet" + " ";
    FieldsCons(w, tail);
    FieldsWordSpace("inet", w + tail);
  }

  lemma Regroup(a: string, b: string, c: string, d: string, e: string)
    ensures a + b + c + d + e == a + (b + c + d + e)
  {
  }

  lemma CidrNoSpace(addr: string, prefix: string)
    requires NoSpace(addr) && NoSpace(prefix)
    ensures NoSpace(addr + "/" + prefix)
  {
    var cidr := addr + "/" + prefix;
    forall k | 0 <= k < |cidr| ensures !IsSpace(cidr[k]) {
      if k < |addr| {
        assert cidr[k] == addr[k];
      } else if k > |addr| {
        assert cidr[k] == prefix[k - |addr| - 1];
      }
    }
  }

  /** The first inet line "inet <addr>/<prefix> ..." reports <addr>. */
  lemma InterfaceIPReported(before: seq<string>, line: string, addr: string, prefix: string, tail: string,
                            after: seq<string>)
    requires forall j :: 0 <= j < |before| ==> !IsInetLine(before[j])
    requires TrimSpace(line) == InetKey + addr + "/" + prefix + tail
    requires addr != [] && NoSpace(addr) && '/' !in addr && NoSpace(prefix)
    requires tail == [] || IsSpace(tail[0])
    ensures InterfaceIPIn(before + [line] + after) == Some(addr)
  {
    InetFields(addr, prefix, tail);
    var ls := before + [line] + after;
    assert ls[|before|] == line;
    assert TrimSpace(line)[..|InetKey|] == InetKey;
    FirstWhereIs(ls, HasInetAddress, |before|);
  }

  // ------------------------------------------------------- getNetworkInterfaces

  /** One entry of /sys/class/net with the results of its two lookups: the text
      of its `address` file and the output of `ip addr show <name>`. */
  datatype NetEntry = NetEntry(name: string, address: Option<string>, ipOutput: Option<string>)

  function IPLookup(e: NetEntry): Option<string> {
    if e.ipOutput.None? then None else InterfaceIPIn(Split(e.ipOutput.value, '\n'))
  }

  /** The record for one entry: IP and MAC stay "unknown" unless their lookup
      succeeds; the loopback entry gives none. */
  function InterfaceOf(e: NetEntry): (r: Option<NetworkInterface>)
    ensures r.None? <==> e.name == "lo"
    ensures r.Some? ==> r.value.name == e.name
  {
    if e.name == "lo" then None
    else
      var mac := if e.address.Some? then TrimSpace(e.address.value) else Unknown;
      Some(NetworkInterface(e.name, IPLookup(e).GetOr(Unknown), mac))
  }

  /** getNetworkInterfaces: None when /sys/class/net cannot be listed. */
  method GetNetworkInterfaces(entries: Option<seq<NetEntry>>) returns (r: Option<seq<NetworkInterface>>)
    ensures r == if entries.None? then None else Some(FilterMap(entries.value, InterfaceOf))
  {
    if entries.None? {
      return None;
    }
    var es := entries.value;
    var interfaces: seq<NetworkInterface> := [];
    for i := 0 to |es|
      invariant interfaces == FilterMap(es[..i], InterfaceOf)
    {
      FilterMapSnoc(es, i, InterfaceOf);
      var iface := ReadInterface(es[i]);
      interfaces := interfaces + Listed(iface);
    }
    assert es[..|es|] == es;
    return Some(interfaces);
  }

  /** The body of the getNetworkInterfaces loop for one entry: the loopback is
      skipped, IP and MAC stay "unknown" unless their lookup succeeds. */
  method ReadInterface(e: NetEntry) returns (r: Option<NetworkInterface>)
    ensures r == InterfaceOf(e)
  {
    if e.name == "lo" {
      return None;
    }
    var iface := NetworkInterface(e.name, Unknown, Unknown);
    if e.address.Some? {
      iface := iface.(macAddress := TrimSpace(e.address.value));
    }
    var ip := GetInterfaceIP(e.ipOutput);
    if ip.Some? {
      iface := iface.(ipAddress := ip.value);
    }
    return Some(iface);
  }

  /** No reported interface is the loopback, and removing the loopback entry
      changes nothing. */
  lemma LoopbackSkipped(before: seq<NetEntry>, lo: NetEntry, after: seq<NetEntry>)
    requires lo.name == "lo"
    ensures FilterMap(before + [lo] + after, InterfaceOf) == FilterMap(before + after, InterfaceOf)
    ensures forall k :: 0 <= k < |FilterMap(before + after, InterfaceOf)| ==>
              FilterMap(before + after, InterfaceOf)[k].name != "lo"
  {
    FilterMapSkip(before, lo, after, InterfaceOf);
    var r := FilterMap(before + after, InterfaceOf);
    forall k | 0 <= k < |r| ensures r[k].name != "lo" {
      FilterMapFrom(before + after, InterfaceOf, k);
    }
  }

  /** IP and MAC stay "unknown" when no address file is readable and the `ip`
      output has no inet line with an address. */
  lemma FailedLookupsStayUnknown(e: NetEntry)
    requires e.name != "lo" && e.address.None?
    requires e.ipOutput.Some? ==>
               forall j :: 0 <= j < |Split(e.ipOutput.value, '\n')| ==> !HasInetAddress(Split(e.ipOutput.value, '\n')[j])
    ensures InterfaceOf(e) == Some(FreshInterface(e.name))
  {
    if e.ipOutput.Some? {
      var lines := Split(e.ipOutput.value, '\n');
      assert FirstWhere(lines, HasInetAddress).None?;
    }
  }

  /** Without a loopback entry every entry gives one interface, in listing order. */
  lemma EveryOtherEntryReported(es: seq<NetEntry>)
    requires forall j :: 0 <= j < |es| ==> es[j].name != "lo"
    ensures |FilterMap(es, InterfaceOf)| == |es|
    ensures forall j :: 0 <= j < |es| ==> FilterMap(es, InterfaceOf)[j].name == es[j].name
  {
    FilterMapAll(es, InterfaceOf);
  }

  // ---------------------------------------------------------------- getWiFiSSIDs

  /** An entry of /etc/NetworkManager/system-connections. */
  datatype DirEntry = DirEntry(name: string, isDir: bool)

  /** A connection profile is a non-directory entry; its name is the SSID. */
  function ProfileName(e: DirEntry): (r: Option<string>)
    ensures r.Some? <==> !e.isDir
    ensures r.Some? ==> r.value == e.name
  {
    if e.isDir then None else Some(e.name)
  }

  /** getWiFiSSIDs: never fails; an unreadable directory gives no SSIDs. */
  method GetWiFiSSIDs(connections: Option<seq<DirEntry>>) returns (ssids: seq<string>)
    ensures ssids == if connections.None? then [] else FilterMap(connections.value, ProfileName)
  {
    ssids := [];
    if connections.Some? {
      var es := connections.value;
      for i := 0 to |es|
        invariant ssids == FilterMap(es[..i], ProfileName)
      {
        FilterMapSnoc(es, i, ProfileName);
        if !es[i].isDir {
          ssids := ssids + [es[i].name];
        }
      }
      assert es[..|es|] == es;
    }
  }

  /** Every SSID names a file entry; a directory entry never shows up. */
  lemma SSIDsAreFiles(es: seq<DirEntry>, k: nat)
    requires k < |FilterMap(es, ProfileName)|
    ensures exists j :: 0 <= j < |es| && !es[j].isDir && es[j].name == FilterMap(es, ProfileName)[k]
  {
    FilterMapFrom(es, ProfileName, k);
  }

  // ------------------------------------------------- getMachineID, getDMISerial

  /** getMachineID: the trimmed text of /etc/machine-id, else that of
      /var/lib/dbus/machine-id; None when neither is readable. */
  function MachineID(etc: Option<string>, dbus: Option<string>): Option<string> {
    if etc.Some? then Some(TrimSpace(etc.value))
    else if dbus.Some? then Some(TrimSpace(dbus.value))
    else None
  }

  /** getDMISerial: never fails; an unreadable serial is "unknown". */
  function DMISerial(serial: Option<string>): string {
    if serial.None? then Unknown else TrimSpace(serial.value)
  }

  /** The HardwareInfo of GetHardwareInfo. */
  function HardwareOf(etc: Option<string>, dbus: Option<string>, serial: Option<string>): HardwareInfo {
    HardwareInfo(DMISerial(serial), MachineID(etc, dbus).GetOr(Unknown))
  }

  method GetHardwareInfo(etcMachineID: Option<string>, dbusMachineID: Option<string>, dmiSerial: Option<string>)
    returns (info: HardwareInfo)
    ensures info == HardwareOf(etcMachineID, dbusMachineID, dmiSerial)
  {
    info := HardwareInfo(Unknown, Unknown);
    var uuid := MachineID(etcMachineID, dbusMachineID);
    if uuid.Some? {
      info := info.(hardwareUUID := uuid.value);
    }
    info := info.(serialNumber := DMISerial(dmiSerial));
  }

  /** A machine-id file holding only whitespace gives an empty hardware UUID,
      overriding the "unknown" default, and the snapshot then fails validation
      on hardware_uuid. */
  lemma BlankMachineIDFailsValidation(blank: string, dbus: Option<string>, serial: Option<string>,
                                      timestamp: int, s: SystemInfo, network: Option<NetworkInfo>,
                                      pii: Option<PIIInfo>)
    requires forall i :: 0 <= i < |blank| ==> IsSpace(blank[i])
    requires s.hostname != "" && s.osName != ""
    ensures HardwareOf(Some(blank), dbus, serial).hardwareUUID == ""
    ensures CollectionTypes.Validate(Collection.Aggregate(timestamp, Some(s), network,
              Some(HardwareOf(Some(blank), dbus, serial)), pii)).Some?
  {
    TrimLeftAll(blank, Whitespace);
    Collection.EmptyUuidFails(timestamp, s, network, HardwareOf(Some(blank), dbus, serial), pii);
  }

  /** With both machine-id files unreadable the UUID stays "unknown"; an
      unreadable DMI serial is "unknown" too. */
  lemma UnreadableIdentifiersUnknown(serial: Option<string>)
    ensures HardwareOf(None, None, serial).hardwareUUID == Unknown
    ensures HardwareOf(None, None, None).serialNumber == Unknown
  {
  }

  // --------------------------------------------------------------- getLocalUsers

  /** One /etc/passwd line: at least five ':'-fields, kept unless the name is
      empty or starts with "_"; there is no UID filter. */
  function PasswdUser(line: string): (r: Option<User>)
    ensures r.Some? ==> r.value.username != "" && !HasPrefix(r.value.username, "_")
  {
    var fields := Split(line, ':');
    if |fields| >= 5 && fields[0] != "" && !HasPrefix(fields[0], "_") then
      Some(User(fields[0], fields[4], fields[2]))
    else None
  }

  /** getLocalUsers over the lines the scanner yields; None when /etc/passwd
      cannot be opened or the scan fails. */
  method GetLocalUsers(passwd: Option<seq<string>>) returns (r: Option<seq<User>>)
    ensures r == if passwd.None? then None else Some(FilterMap(passwd.value, PasswdUser))
  {
    if passwd.None? {
      return None;
    }
    var lines := passwd.value;
    var users: seq<User> := [];
    for i := 0 to |lines|
      invariant users == FilterMap(lines[..i], PasswdUser)
    {
      FilterMapSnoc(lines, i, PasswdUser);
      var user := PasswdLine(lines[i]);
      users := users + Listed(user);
    }
    assert lines[..|lines|] == lines;
    return Some(users);
  }

  /** The body of the passwd loop for one line. */
  method PasswdLine(line: string) returns (r: Option<User>)
    ensures r == PasswdUser(line)
  {
    var fields := Split(line, ':');
    if |fields| >= 5 {
      var username := fields[0];
      var uid := fields[2];
      var fullName := fields[4];
      if username != "" && !HasPrefix(username, "_") {
        return Some(User(username, fullName, uid));
      }
    }
    return None;
  }

  /** A passwd entry name:password:uid:gid:gecos:home:shell gives the user
      name, the GECOS field as full name and the UID, whatever the UID is. */
  lemma PasswdEntryParsed(name: string, password: string, uid: string, gid: string, gecos: string,
                          home: string, shell: string)
    requires ':' !in name && ':' !in password && ':' !in uid && ':' !in gid
    requires ':' !in gecos && ':' !in home && ':' !in shell
    requires name != "" && !HasPrefix(name, "_")
    ensures PasswdUser(Join([name, password, uid, gid, gecos, home, shell], ":")) == Some(User(name, gecos, uid))
  {
    var parts := [name, password, uid, gid, gecos, home, shell];
    SplitJoin(parts, ':');
  }

  // ----------------------------------------------------------------- Get*Info

  /** getTimezone: the trimmed /etc/timezone when non-empty, else $TZ when
      non-empty, else the local zone's name. */
  function Timezone(timezoneFile: Option<string>, tzEnv: string, localZone: string): string {
    if timezoneFile.Some? && TrimSpace(timezoneFile.value) != "" then TrimSpace(timezoneFile.value)
    else if tzEnv != "" then tzEnv
    else localZone
  }

  /** A readable, non-blank /etc/timezone wins over $TZ and the local zone;
      $TZ is consulted only when the file is absent or blank, and the local
      zone only when $TZ is empty too. The result is empty only when every
      source is. */
  lemma TimezonePrecedence(timezoneFile: Option<string>, tzEnv: string, localZone: string,
                           otherEnv: string, otherZone: string)
    ensures timezoneFile.Some? && TrimSpace(timezoneFile.value) != "" ==>
      Timezone(timezoneFile, tzEnv, localZone) == TrimSpace(timezoneFile.value)
      && Timezone(timezoneFile, otherEnv, otherZone) == Timezone(timezoneFile, tzEnv, localZone)
    ensures timezoneFile.None? || TrimSpace(timezoneFile.value) == "" ==>
      Timezone(timezoneFile, tzEnv, localZone) == Timezone(None, tzEnv, localZone)
    ensures Timezone(None, tzEnv, localZone) == tzEnv <==> tzEnv != "" || localZone == ""
    ensures tzEnv != "" ==> Timezone(None, tzEnv, otherZone) == tzEnv
    ensures tzEnv != "" || localZone != "" ==> Timezone(timezoneFile, tzEnv, localZone) != ""
  {
  }

  /** GetSystemInfo never fails: an unreadable hostname, os-release or
      /proc/version is "unknown". getTimezone cannot fail, so its "UTC"
      fallback is never taken. */
  method GetSystemInfo(hostname: Option<string>, osRelease: Option<string>, procVersion: Option<string>,
                       timezoneFile: Option<string>, tzEnv: string, localZone: string)
    returns (info: SystemInfo)
    ensures info.osName == OSName && info.hostname == hostname.GetOr(Unknown)
    ensures info.osVersion == if osRelease.None? then Unknown else OSVersionIn(Split(osRelease.value, '\n'))
    ensures info.osBuild == if procVersion.None? then Unknown else KernelVersionOf(procVersion.value)
    ensures info.timezone == Timezone(timezoneFile, tzEnv, localZone)
  {
    info := SystemInfo(OSName, "", "", "", "");
    if hostname.Some? {
      info := info.(hostname := hostname.value);
    } else {
      info := info.(hostname := Unknown);
    }
    var version := GetOSVersion(osRelease);
    if version.Some? {
      info := info.(osVersion := version.value);
    } else {
      info := info.(osVersion := Unknown);
    }
    if procVersion.Some? {
      info := info.(osBuild := KernelVersionOf(procVersion.value));
    } else {
      info := info.(osBuild := Unknown);
    }
    info := info.(timezone := Timezone(timezoneFile, tzEnv, localZone));
  }

  /** GetNetworkInfo never fails: the interfaces and SSIDs found, each sorted. */
  method GetNetworkInfo(sysClassNet: Option<seq<NetEntry>>, connections: Option<seq<DirEntry>>)
    returns (info: NetworkInfo)
    ensures SortedNetworkOf(info,
              if sysClassNet.None? then [] else FilterMap(sysClassNet.value, InterfaceOf),
              if connections.None? then [] else FilterMap(connections.value, ProfileName))
  {
    var interfaces: seq<NetworkInterface> := [];
    var found := GetNetworkInterfaces(sysClassNet);
    if found.Some? {
      interfaces := found.value;
    }
    var ssids := GetWiFiSSIDs(connections);
    info := SortNetwork(interfaces, ssids);
  }

  function HomeDirFor(u: User): Option<string> {
    if u.username != "" && !HasPrefix(u.username, "_") then Some("/home/" + u.username) else None
  }

  /** The home-directory loop of GetPIIInfo, which filters the users again. */
  method LinuxHomeDirs(users: seq<User>) returns (dirs: seq<string>)
    ensures dirs == FilterMap(users, HomeDirFor)
  {
    dirs := [];
    for i := 0 to |users|
      invariant dirs == FilterMap(users[..i], HomeDirFor)
    {
      FilterMapSnoc(users, i, HomeDirFor);
      var u := users[i];
      if u.username != "" && !HasPrefix(u.username, "_") {
        dirs := dirs + ["/home/" + u.username];
      }
    }
    assert users[..|users|] == users;
  }

  /** Every user getLocalUsers keeps passes the home-directory filter, so
      there is exactly one "/home/<user>" per user, in the same order. */
  lemma OneHomePerUser(lines: seq<string>)
    ensures FilterMap(FilterMap(lines, PasswdUser), HomeDirFor) == HomeDirsOf(FilterMap(lines, PasswdUser), "/home/")
  {
    var users := FilterMap(lines, PasswdUser);
    forall j | 0 <= j < |users| ensures HomeDirFor(users[j]).Some? {
      FilterMapFrom(lines, PasswdUser, j);
    }
    FilterMapAll(users, HomeDirFor);
  }

  function UsersOf(passwd: Option<seq<string>>): seq<User> {
    if passwd.None? then [] else FilterMap(passwd.value, PasswdUser)
  }

  /** GetPIIInfo never fails: the users, the current user and one home
      directory per user, each sorted. */
  method GetPIIInfo(passwd: Option<seq<string>>, currentUser: Option<string>) returns (info: PIIInfo)
    ensures SortedPIIOf(info, UsersOf(passwd), Listed(currentUser), HomeDirsOf(UsersOf(passwd), "/home/"))
  {
    var users: seq<User> := [];
    var homeDirs: seq<string> := [];
    var found := GetLocalUsers(passwd);
    if found.Some? {
      users := found.value;
      homeDirs := LinuxHomeDirs(users);
      OneHomePerUser(passwd.value);
    }
    info := SortPII(users, Listed(currentUser), homeDirs);
  }
}
