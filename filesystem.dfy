/** An abstract filesystem: regular files keyed by path, a set of existing
    directories, and one operation per os call the core makes. Each operation
    takes a `fail` flag that stands for whatever makes the real call return an
    error, so every failure point can be reasoned about. */
module FileSystem {
  import opened Wrappers

  newtype byte = b: int | 0 <= b < 0x100
  type bytes = seq<byte>

  /** A regular file: its contents and its permission bits. */
  datatype File = File(data: bytes, perm: int)

  /** Permission bits, written in decimal: 0644, 0600 and 0755. */
  const Perm0644 := 420
  const Perm0600 := 384
  const Perm0755 := 493

  function Lookup(m: map<string, File>, p: string): Option<File> {
    if p in m then Some(m[p]) else None
  }

  /** The sibling temp path every save goes through. */
  function TmpPath(path: string): string {
    path + ".tmp"
  }

  function LastSlash(s: string): (i: int)
    ensures -1 <= i < |s|
    ensures i >= 0 ==> s[i] == '/'
    ensures forall k :: i < k < |s| ==> s[k] != '/'
  {
    if s == [] then -1
    else if s[|s| - 1] == '/' then |s| - 1
    else LastSlash(s[..|s| - 1])
  }

  /** filepath.Dir for clean paths: everything before the last '/', "/" for a
      file in the root, and "." for a bare name. */
  function Dir(path: string): (d: string)
    ensures d != ""
    ensures d == "." || d == "/" || |d| < |path|
  {
    var i := LastSlash(path);
    if i < 0 then "." else if i == 0 then "/" else path[..i]
  }

  /** "." and "/" are their own directories; every other path is one step
      further from them than its directory. */
  function Depth(path: string): nat {
    if path == "." || path == "/" then 0 else |path| + 1
  }

  /** `path` and all the directories above it, up to "." or "/". */
  function Ancestors(path: string): (a: set<string>)
    decreases Depth(path)
  {
    if path == "." || path == "/" then {path} else {path} + Ancestors(Dir(path))
  }

  /** Above "." and "/", a path's ancestors are no longer than the path. */
  lemma {:induction false} AncestorsBounded(path: string)
    decreases Depth(path)
    ensures forall p :: p in Ancestors(path) ==> p == "." || p == "/" || |p| <= |path|
  {
    if path != "." && path != "/" {
      AncestorsBounded(Dir(path));
    }
  }

  /** The directories os.MkdirAll creates: none when `path` already is one;
      otherwise those its parent needs and then `path` itself. It fails
      (None) on "" and when a regular file stands where a directory must be. */
  function MkdirAllCreates(dirs: set<string>, files: set<string>, path: string): Option<set<string>>
    decreases Depth(path)
  {
    if path == "" then None
    else if path in dirs then Some({})
    else if path in files then None
    else if path == "." || path == "/" then Some({path})
    else match MkdirAllCreates(dirs, files, Dir(path))
      case None => None
      case Some(s) => Some(s + {path})
  }

  /** After a successful os.MkdirAll, `path` is a directory, only new
      directories were made, none over a regular file, and the parent of every
      one made exists. */
  lemma {:induction false} MkdirAllSound(dirs: set<string>, files: set<string>, path: string)
    requires MkdirAllCreates(dirs, files, path).Some?
    decreases Depth(path)
    ensures var s := MkdirAllCreates(dirs, files, path).value;
      path in dirs + s && s !! dirs && s !! files && s <= Ancestors(path)
      && forall p :: p in s ==> Dir(p) in dirs + s
  {
    if path in dirs || path == "." || path == "/" {
    } else {
      MkdirAllSound(dirs, files, Dir(path));
    }
  }

  /** os.MkdirAll fails only when a regular file stands on the way up. */
  lemma {:induction false} MkdirAllBlocked(dirs: set<string>, files: set<string>, path: string)
    requires path != ""
    decreases Depth(path)
    ensures MkdirAllCreates(dirs, files, path).None? ==> !(Ancestors(path) !! files)
  {
    if path in dirs || path in files || path == "." || path == "/" {
    } else {
      MkdirAllBlocked(dirs, files, Dir(path));
    }
  }

  /** os.MkdirAll("out/a/b") in a fresh working directory makes all three levels. */
  lemma MkdirAllNested()
    ensures MkdirAllCreates({"."}, {}, "out/a/b") == Some({"out", "out/a", "out/a/b"})
  {
    assert Dir("out") == ".";
    assert Dir("out/a") == "out" by { assert LastSlash("out/a") == 3; }
    assert Dir("out/a/b") == "out/a" by { assert LastSlash("out/a/b") == 5; }
    var dirs: set<string>, none: set<string> := {"."}, {};
    assert "out" !in dirs && "out/a" !in dirs && "out/a/b" !in dirs;
    var s1: set<string> := {"out"};
    var s2: set<string> := s1 + {"out/a"};
    var s3: set<string> := s2 + {"out/a/b"};
    assert MkdirAllCreates(dirs, none, "out") == Some(none + {"out"});
    assert none + {"out"} == s1;
    assert MkdirAllCreates(dirs, none, "out/a/b") == Some(s3);
    assert s3 == {"out", "out/a", "out/a/b"};
  }

  /** Once it has succeeded, a second os.MkdirAll of the same path creates nothing. */
  lemma MkdirAllIdempotent(dirs: set<string>, files: set<string>, path: string)
    requires MkdirAllCreates(dirs, files, path).Some?
    ensures MkdirAllCreates(dirs + MkdirAllCreates(dirs, files, path).value, files, path) == Some({})
  {
    MkdirAllSound(dirs, files, path);
  }

  /** The directory of a name joined under `dir` is `dir`. */
  lemma DirOfJoin(dir: string, name: string)
    requires dir != "" && dir != "/" && '/' !in name
    ensures Dir(dir + "/" + name) == dir
  {
    var p := dir + "/" + name;
    assert p[|dir|] == '/';
    assert forall k :: |dir| < k < |p| ==> p[k] == name[k - |dir| - 1];
    assert p[..|dir|] == dir;
  }

  /** A file and its temp path sit in the same directory. */
  lemma DirOfTmp(path: string)
    ensures Dir(TmpPath(path)) == Dir(path)
  {
    var t := TmpPath(path);
    assert forall k :: |path| <= k < |t| ==> t[k] != '/';
    assert forall k :: 0 <= k < |path| ==> t[k] == path[k];
    assert t[..|path|] == path;
  }

  /** The permissions a file has after O_CREATE|O_TRUNC: an existing file keeps
      its own, a new one gets `perm`. */
  function PermAfterOpen(m: map<string, File>, path: string, perm: int): int {
    if path in m then m[path].perm else perm
  }

  /** Fault injection for the save paths: which os call fails. */
  datatype Faults = Faults(
    mkdir: bool, open: bool, write: bool, sync: bool, close: bool,
    rename: bool, remove: bool, syncDir: bool)

  const NoFaults := Faults(false, false, false, false, false, false, false, false)

  class Disk {
    var files: map<string, File>
    var dirs: set<string>
    /** Every state `files` has been in, oldest first: a crash may leave any
        one of them on disk. */
    ghost var history: seq<map<string, File>>

    /** No path is both a regular file and a directory. */
    ghost predicate Valid()
      reads this
    {
      |history| > 0 && history[|history| - 1] == files && files.Keys !! dirs
    }

    constructor (files0: map<string, File>, dirs0: set<string>)
      requires files0.Keys !! dirs0
      ensures Valid() && files == files0 && dirs == dirs0 && history == [files0]
    {
      files := files0;
      dirs := dirs0;
      history := [files0];
    }

    /** os.ReadFile. */
    function ReadFile(path: string): Option<bytes>
      reads this
    {
      if path in files then Some(files[path].data) else None
    }

    /** os.MkdirAll: creates `path` and every missing directory above it; a
        no-op when it already is a directory. */
    method MkdirAll(path: string, fail: bool) returns (ok: bool)
      requires Valid()
      modifies this
      ensures Valid() && files == old(files) && history == old(history)
      ensures ok <==> !fail && MkdirAllCreates(old(dirs), old(files).Keys, path).Some?
      ensures dirs == if ok then old(dirs) + MkdirAllCreates(old(dirs), old(files).Keys, path).value else old(dirs)
    {
      var created := MkdirAllCreates(dirs, files.Keys, path);
      if fail || created.None? {
        return false;
      }
      MkdirAllSound(dirs, files.Keys, path);
      dirs := dirs + created.value;
      return true;
    }

    /** os.OpenFile(path, O_WRONLY|O_CREATE|O_TRUNC, perm): needs the parent
        directory and fails on a directory (EISDIR); leaves an empty file at
        `path`. */
    method OpenTrunc(path: string, perm: int, fail: bool) returns (ok: bool)
      requires Valid()
      modifies this
      ensures Valid() && dirs == old(dirs)
      ensures ok <==> !fail && Dir(path) in dirs && path !in dirs
      ensures ok ==> files == old(files)[path := File([], PermAfterOpen(old(files), path, perm))]
                     && history == old(history) + [files]
      ensures !ok ==> files == old(files) && history == old(history)
    {
      if fail || Dir(path) !in dirs || path in dirs {
        return false;
      }
      files := files[path := File([], PermAfterOpen(files, path, perm))];
      history := history + [files];
      return true;
    }

    /** (*os.File).Write: appends `n` bytes of `data`; on failure `n` may be
        anything short of all of them. */
    method Write(path: string, data: bytes, fail: bool) returns (n: nat, ok: bool)
      requires Valid() && path in files
      modifies this
      ensures Valid() && dirs == old(dirs) && ok == !fail
      ensures n <= |data| && (ok ==> n == |data|)
      ensures files == old(files)[path := old(files)[path].(data := old(files)[path].data + data[..n])]
      ensures history == old(history) + [files]
    {
      if fail {
        n :| 0 <= n <= |data|;
        ok := false;
      } else {
        n, ok := |data|, true;
      }
      files := files[path := files[path].(data := files[path].data + data[..n])];
      history := history + [files];
    }

    /** (*os.File).Sync and (*os.File).Close: no change to the contents. */
    method Sync(path: string, fail: bool) returns (ok: bool)
      ensures ok == !fail
    {
      return !fail;
    }

    method Close(path: string, fail: bool) returns (ok: bool)
      ensures ok == !fail
    {
      return !fail;
    }

    /** syncDirectory: open the directory and fsync it. */
    method SyncDir(dir: string, fail: bool) returns (ok: bool)
      ensures ok == !fail
    {
      return !fail;
    }

    /** os.Rename: `to` takes the file at `from`, which disappears; renaming
        onto a directory fails (EISDIR). */
    method Rename(from: string, to: string, fail: bool) returns (ok: bool)
      requires Valid()
      modifies this
      ensures Valid() && dirs == old(dirs)
      ensures ok <==> !fail && from in old(files) && to !in dirs
      ensures ok ==> files == (old(files) - {from})[to := old(files)[from]] && history == old(history) + [files]
      ensures !ok ==> files == old(files) && history == old(history)
    {
      if fail || from !in files || to in dirs {
        return false;
      }
      files := (files - {from})[to := files[from]];
      history := history + [files];
      return true;
    }

    /** os.Remove of a regular file. */
    method Remove(path: string, fail: bool) returns (ok: bool)
      requires Valid()
      modifies this
      ensures Valid() && dirs == old(dirs)
      ensures ok <==> !fail && path in old(files)
      ensures ok ==> files == old(files) - {path} && history == old(history) + [files]
      ensures !ok ==> files == old(files) && history == old(history)
    {
      if fail || path !in files {
        return false;
      }
      files := files - {path};
      history := history + [files];
      return true;
    }

    /** os.WriteFile: open with O_TRUNC|O_CREATE, write, close. A failed write
        leaves the partial contents in place. */
    method WriteFile(path: string, data: bytes, perm: int, faults: Faults) returns (ok: bool)
      requires Valid()
      modifies this
      ensures Valid() && dirs == old(dirs)
      ensures ok <==> !faults.open && Dir(path) in dirs && path !in dirs && !faults.write && !faults.close
      ensures ok ==> files == old(files)[path := File(data, PermAfterOpen(old(files), path, perm))]
      ensures forall p :: p != path ==> Lookup(files, p) == Lookup(old(files), p)
      ensures !faults.open && Dir(path) in dirs && path !in dirs ==> path in files
      ensures !(!faults.open && Dir(path) in dirs && path !in dirs) ==> files == old(files) && history == old(history)
      ensures forall k :: |old(history)| <= k < |history| ==> history[k] - {path} == old(files) - {path}
    {
      ok := OpenTrunc(path, perm, faults.open);
      if !ok {
        return false;
      }
      ghost var afterOpen := files;
      var n, wrote := Write(path, data, faults.write);
      assert wrote ==> afterOpen[path].data + data[..n] == data;
      var closed := Close(path, faults.close);
      ok := wrote && closed;
    }
  }

  /** The step at which a temp-then-rename save stopped. */
  datatype SaveStep = TempFileFailed | TempRenameFailed

  /** os.WriteFile of `path.tmp` succeeds: no step fails, the directory
      exists and the temp path is not itself a directory. */
  predicate TempWritable(dirs: set<string>, path: string, faults: Faults) {
    !faults.open && Dir(TmpPath(path)) in dirs && TmpPath(path) !in dirs && !faults.write && !faults.close
  }

  /** The whole temp-then-rename save succeeds: the temp file is written and
      the rename neither fails nor meets a directory at `path`. */
  predicate Saves(dirs: set<string>, path: string, faults: Faults) {
    TempWritable(dirs, path, faults) && !faults.rename && path !in dirs
  }

  /** The save pattern shared by the configuration, key and signature files:
      os.WriteFile of `path.tmp` with `perm`, os.Rename onto `path`, and
      os.Remove of the temp file when the rename fails. A failed temp write
      is returned as is, with no rename and no cleanup. */
  method SaveViaTemp(disk: Disk, path: string, data: bytes, perm: int, faults: Faults)
    returns (r: Outcome<SaveStep>)
    requires disk.Valid()
    modifies disk
    ensures disk.Valid() && disk.dirs == old(disk.dirs)
    ensures r == Pass <==> Saves(old(disk.dirs), path, faults)
    ensures r == Fail(TempFileFailed) <==> !TempWritable(old(disk.dirs), path, faults)
    ensures r == Pass ==>
              disk.files == (old(disk.files) - {TmpPath(path)})[path := File(data, PermAfterOpen(old(disk.files), TmpPath(path), perm))]
    ensures r != Pass ==> Lookup(disk.files, path) == Lookup(old(disk.files), path)
    ensures r == Fail(TempRenameFailed) && !faults.remove ==> TmpPath(path) !in disk.files
    ensures forall p :: p != path && p != TmpPath(path) ==> Lookup(disk.files, p) == Lookup(old(disk.files), p)
  {
    var tmp := TmpPath(path);
    assert |tmp| == |path| + 4;
    var ok := disk.WriteFile(tmp, data, perm, faults);
    if !ok {
      return Fail(TempFileFailed);
    }
    ok := disk.Rename(tmp, path, faults.rename);
    if !ok {
      ok := disk.Remove(tmp, faults.remove);
      return Fail(TempRenameFailed);
    }
    return Pass;
  }
}
