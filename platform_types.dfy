/** The records every platform collector returns, and the orders in which the
    collectors and the aggregator sort them. */
module PlatformTypes {
  import opened Wrappers
  import opened GoStrings
  import opened Sorting

  datatype SystemInfo = SystemInfo(
    osName: string, osVersion: string, osBuild: string, timezone: string, hostname: string)

  datatype NetworkInterface = NetworkInterface(name: string, ipAddress: string, macAddress: string)

  datatype NetworkInfo = NetworkInfo(interfaces: seq<NetworkInterface>, wifiSSIDs: seq<string>)

  datatype HardwareInfo = HardwareInfo(serialNumber: string, hardwareUUID: string)

  datatype User = User(username: string, fullName: string, uid: string)

  datatype UserProfile = UserProfile(username: string, lastLogon: string, logonCount: int)

  datatype PIIInfo = PIIInfo(
    users: seq<User>, loggedInUsers: seq<string>, homeDirs: seq<string>,
    recentProfiles: seq<UserProfile>, primaryEmail: string)

  /** sort.Slice(users, users[i].Username < users[j].Username) */
  predicate UserLe(x: User, y: User) {
    LessEq(x.username, y.username)
  }

  /** sort.Slice(ifaces, ifaces[i].Name < ifaces[j].Name) */
  predicate InterfaceLe(x: NetworkInterface, y: NetworkInterface) {
    LessEq(x.name, y.name)
  }

  /** The less function of the recent-profile sort: username ascending, and for
      one username the later LastLogon first. */
  predicate ProfileLess(x: UserProfile, y: UserProfile) {
    if x.username == y.username then Less(y.lastLogon, x.lastLogon) else Less(x.username, y.username)
  }

  /** "x may come before y" for that sort, written out: !ProfileLess(y, x). */
  predicate ProfileLe(x: UserProfile, y: UserProfile) {
    Less(x.username, y.username) || (x.username == y.username && LessEq(y.lastLogon, x.lastLogon))
  }

  lemma ProfileLeIsNotLess(x: UserProfile, y: UserProfile)
    ensures ProfileLe(x, y) <==> !ProfileLess(y, x)
  {
    LessTrichotomy(x.username, y.username);
    LessTrichotomy(x.lastLogon, y.lastLogon);
    LessIrreflexive(x.username);
    if Less(x.username, y.username) { LessAsymmetric(x.username, y.username); }
    if Less(y.username, x.username) { LessAsymmetric(y.username, x.username); }
    if Less(x.lastLogon, y.lastLogon) { LessAsymmetric(x.lastLogon, y.lastLogon); }
    if Less(y.lastLogon, x.lastLogon) { LessAsymmetric(y.lastLogon, x.lastLogon); }
  }

  /** Byte-wise string order is a total order: sort.Strings has one outcome. */
  lemma StringOrder()
    ensures TotalPreorder(LessEq) && Antisymmetric(LessEq)
  {
    forall a: string, b: string ensures LessEq(a, b) || LessEq(b, a) {
      LessTrichotomy(a, b);
    }
    forall a: string, b: string, c: string | LessEq(a, b) && LessEq(b, c) ensures LessEq(a, c) {
      if a != b && b != c {
        LessTransitive(a, b, c);
      }
    }
    forall a: string, b: string | LessEq(a, b) && LessEq(b, a) ensures a == b {
      if a != b {
        LessAsymmetric(a, b);
      }
    }
  }

  lemma UserOrder()
    ensures TotalPreorder(UserLe)
  {
    StringOrder();
    assert forall x: User, y: User :: UserLe(x, y) == LessEq(x.username, y.username);
  }

  lemma InterfaceOrder()
    ensures TotalPreorder(InterfaceLe)
  {
    StringOrder();
    assert forall x: NetworkInterface, y: NetworkInterface :: InterfaceLe(x, y) == LessEq(x.name, y.name);
  }

  lemma ProfileOrder()
    ensures TotalPreorder(ProfileLe)
  {
    StringOrder();
    forall x: UserProfile, y: UserProfile ensures ProfileLe(x, y) || ProfileLe(y, x) {
      LessTrichotomy(x.username, y.username);
    }
    forall x: UserProfile, y: UserProfile, z: UserProfile | ProfileLe(x, y) && ProfileLe(y, z)
      ensures ProfileLe(x, z)
    {
      if x.username != y.username && y.username != z.username {
        LessTransitive(x.username, y.username, z.username);
        if x.username == z.username {
          LessIrreflexive(x.username);
        }
      }
    }
  }

  /** Sorts names with sort.Strings. */
  method SortStrings(s: seq<string>) returns (r: seq<string>)
    ensures SortedBy(r, LessEq) && multiset(r) == multiset(s)
  {
    StringOrder();
    r := SortBy(s, LessEq);
  }

  method SortUsers(s: seq<User>) returns (r: seq<User>)
    ensures SortedBy(r, UserLe) && multiset(r) == multiset(s)
  {
    UserOrder();
    r := SortBy(s, UserLe);
  }

  method SortInterfaces(s: seq<NetworkInterface>) returns (r: seq<NetworkInterface>)
    ensures SortedBy(r, InterfaceLe) && multiset(r) == multiset(s)
  {
    InterfaceOrder();
    r := SortBy(s, InterfaceLe);
  }

  method SortProfiles(s: seq<UserProfile>) returns (r: seq<UserProfile>)
    ensures SortedBy(r, ProfileLe) && multiset(r) == multiset(s)
  {
    ProfileOrder();
    r := SortBy(s, ProfileLe);
  }

  /** sort.Strings is deterministic: its result depends only on the multiset
      of names, not on the order the platform reported them in. */
  lemma SortStringsDeterministic(a: seq<string>, b: seq<string>)
    requires SortedBy(a, LessEq) && SortedBy(b, LessEq)
    requires multiset(a) == multiset(b)
    ensures a == b
  {
    StringOrder();
    SortedPermutationUnique(a, b, LessEq);
  }

  /** The placeholder every collector uses for a value it could not read. */
  const Unknown := "unknown"

  /** The value of an option as a list of at most one element. */
  function Listed<T>(o: Option<T>): seq<T> {
    match o
    case None => []
    case Some(x) => [x]
  }

  /** The shape of every scraper loop: for each input, append the record it
      yields, if any, in input order. */
  function FilterMap<A, B>(xs: seq<A>, f: A -> Option<B>): (r: seq<B>)
    ensures |r| <= |xs|
    decreases |xs|
  {
    if xs == [] then []
    else
      FilterMap(xs[..|xs| - 1], f) + Listed(f(xs[|xs| - 1]))
  }

  /** One more input appends its record. */
  lemma FilterMapSnoc<A, B>(xs: seq<A>, i: nat, f: A -> Option<B>)
    requires i < |xs|
    ensures FilterMap(xs[..i + 1], f) == FilterMap(xs[..i], f) + Listed(f(xs[i]))
  {
    assert xs[..i + 1][..i] == xs[..i];
  }

  lemma {:induction false} FilterMapAppend<A, B>(xs: seq<A>, ys: seq<A>, f: A -> Option<B>)
    ensures FilterMap(xs + ys, f) == FilterMap(xs, f) + FilterMap(ys, f)
    decreases |ys|
  {
    if ys == [] {
      assert xs + ys == xs;
    } else {
      var ys' := ys[..|ys| - 1];
      assert (xs + ys)[..|xs + ys| - 1] == xs + ys';
      assert (xs + ys)[|xs + ys| - 1] == ys[|ys| - 1];
      FilterMapAppend(xs, ys', f);
    }
  }

  /** An input that yields no record can be dropped. */
  lemma FilterMapSkip<A, B>(xs: seq<A>, x: A, ys: seq<A>, f: A -> Option<B>)
    requires f(x).None?
    ensures FilterMap(xs + [x] + ys, f) == FilterMap(xs + ys, f)
  {
    FilterMapAppend(xs + [x], ys, f);
    assert (xs + [x])[..|xs|] == xs;
    assert FilterMap(xs + [x], f) == FilterMap(xs, f) + Listed(f(x));
    FilterMapAppend(xs, ys, f);
  }

  /** Every record comes from some input. */
  lemma {:induction false} FilterMapFrom<A, B>(xs: seq<A>, f: A -> Option<B>, k: nat)
    requires k < |FilterMap(xs, f)|
    ensures exists j :: 0 <= j < |xs| && f(xs[j]) == Some(FilterMap(xs, f)[k])
    decreases |xs|
  {
    var init := xs[..|xs| - 1];
    if k < |FilterMap(init, f)| {
      FilterMapFrom(init, f, k);
      var j :| 0 <= j < |init| && f(init[j]) == Some(FilterMap(init, f)[k]);
      assert xs[j] == init[j];
    } else {
      assert f(xs[|xs| - 1]) == Some(FilterMap(xs, f)[k]);
    }
  }

  /** When every input yields a record, there is one record per input, in order. */
  lemma {:induction false} FilterMapAll<A, B>(xs: seq<A>, f: A -> Option<B>)
    requires forall j :: 0 <= j < |xs| ==> f(xs[j]).Some?
    ensures |FilterMap(xs, f)| == |xs|
    ensures forall j :: 0 <= j < |xs| ==> FilterMap(xs, f)[j] == f(xs[j]).value
    decreases |xs|
  {
    if xs != [] {
      var init := xs[..|xs| - 1];
      FilterMapAll(init, f);
    }
  }

  /** A line-by-line state machine run over `lines` from `st`. */
  function Scan<S>(st: S, lines: seq<string>, step: (S, string) -> S): S
    decreases |lines|
  {
    if lines == [] then st else step(Scan(st, lines[..|lines| - 1], step), lines[|lines| - 1])
  }

  lemma ScanSnoc<S>(st: S, lines: seq<string>, i: nat, step: (S, string) -> S)
    requires i < |lines|
    ensures Scan(st, lines[..i + 1], step) == step(Scan(st, lines[..i], step), lines[i])
  {
    assert lines[..i + 1][..i] == lines[..i];
  }

  /** Scanning two blocks of lines is scanning the second from where the first
      left off. */
  lemma {:induction false} ScanAppend<S>(st: S, a: seq<string>, b: seq<string>, step: (S, string) -> S)
    ensures Scan(st, a + b, step) == Scan(Scan(st, a, step), b, step)
    decreases |b|
  {
    if b == [] {
      assert a + b == a;
    } else {
      var b' := b[..|b| - 1];
      assert (a + b)[..|a + b| - 1] == a + b';
      assert (a + b)[|a + b| - 1] == b[|b| - 1];
      ScanAppend(st, a, b', step);
    }
  }

  /** The state of an ifconfig/ipconfig scan: the interfaces finished so far and
      the one whose property lines are being read. */
  datatype ScanState = ScanState(done: seq<NetworkInterface>, current: Option<NetworkInterface>)

  const ScanStart := ScanState([], None)

  /** A new interface record before any property line is read. */
  function FreshInterface(name: string): NetworkInterface {
    NetworkInterface(name, Unknown, Unknown)
  }

  function NamesOf(ifaces: seq<NetworkInterface>): (names: seq<string>)
    ensures |names| == |ifaces| && forall i :: 0 <= i < |ifaces| ==> names[i] == ifaces[i].name
  {
    seq(|ifaces|, i requires 0 <= i < |ifaces| => ifaces[i].name)
  }

  lemma NamesAppend(a: seq<NetworkInterface>, b: seq<NetworkInterface>)
    ensures NamesOf(a + b) == NamesOf(a) + NamesOf(b)
  {
    assert forall i :: 0 <= i < |a + b| ==> NamesOf(a + b)[i] == (NamesOf(a) + NamesOf(b))[i];
  }

  /** One home directory per user: `root` followed by the user name. */
  function HomeDirsOf(users: seq<User>, root: string): (dirs: seq<string>)
    ensures |dirs| == |users| && forall i :: 0 <= i < |users| ==> dirs[i] == root + users[i].username
  {
    seq(|users|, i requires 0 <= i < |users| => root + users[i].username)
  }

  /** The loop `for _, u := range users { homeDirs = append(homeDirs, root+u.Username) }`. */
  method CollectHomeDirs(users: seq<User>, root: string) returns (dirs: seq<string>)
    ensures dirs == HomeDirsOf(users, root)
  {
    dirs := [];
    for i := 0 to |users|
      invariant dirs == HomeDirsOf(users[..i], root)
    {
      dirs := dirs + [root + users[i].username];
    }
    assert users[..|users|] == users;
  }

  /** A NetworkInfo whose lists are the sorted forms of what the scrapers found. */
  predicate SortedNetworkOf(info: NetworkInfo, ifaces: seq<NetworkInterface>, ssids: seq<string>) {
    && SortedBy(info.interfaces, InterfaceLe) && multiset(info.interfaces) == multiset(ifaces)
    && SortedBy(info.wifiSSIDs, LessEq) && multiset(info.wifiSSIDs) == multiset(ssids)
  }

  /** The sorting tail every GetNetworkInfo shares. */
  method SortNetwork(ifaces: seq<NetworkInterface>, ssids: seq<string>) returns (info: NetworkInfo)
    ensures SortedNetworkOf(info, ifaces, ssids)
  {
    var sortedIfaces := SortInterfaces(ifaces);
    var sortedSSIDs := SortStrings(ssids);
    info := NetworkInfo(sortedIfaces, sortedSSIDs);
  }

  /** A PIIInfo whose lists are the sorted forms of what the scrapers found,
      with no recent profiles and the "unknown" primary email. */
  predicate SortedPIIOf(info: PIIInfo, users: seq<User>, loggedIn: seq<string>, homeDirs: seq<string>) {
    && SortedBy(info.users, UserLe) && multiset(info.users) == multiset(users)
    && SortedBy(info.loggedInUsers, LessEq) && multiset(info.loggedInUsers) == multiset(loggedIn)
    && SortedBy(info.homeDirs, LessEq) && multiset(info.homeDirs) == multiset(homeDirs)
    && info.recentProfiles == [] && info.primaryEmail == Unknown
  }

  /** The sorting tail every GetPIIInfo shares. */
  method SortPII(users: seq<User>, loggedIn: seq<string>, homeDirs: seq<string>) returns (info: PIIInfo)
    ensures SortedPIIOf(info, users, loggedIn, homeDirs)
  {
    var sortedUsers := SortUsers(users);
    var sortedLoggedIn := SortStrings(loggedIn);
    var sortedHomes := SortStrings(homeDirs);
    info := PIIInfo(sortedUsers, sortedLoggedIn, sortedHomes, [], Unknown);
  }
}
