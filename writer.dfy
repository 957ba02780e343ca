/** The atomic writer: write a temp file next to the target, flush it, rename
    it over the target, then flush the directory. */
module AtomicWriter {
  import opened Wrappers
  import opened FileSystem

  /** The step at which WriteAtomic gave up. */
  datatype WriteError =
    | MkdirFailed | CreateFailed | WriteFailed | SyncFailed | CloseFailed | RenameFailed | DirSyncFailed

  /** The first failing step, in the order the writer takes them. */
  function FirstFault(faults: Faults): Outcome<WriteError> {
    if faults.mkdir then Fail(MkdirFailed)
    else if faults.open then Fail(CreateFailed)
    else if faults.write then Fail(WriteFailed)
    else if faults.sync then Fail(SyncFailed)
    else if faults.close then Fail(CloseFailed)
    else if faults.rename then Fail(RenameFailed)
    else if faults.syncDir then Fail(DirSyncFailed)
    else Pass
  }

  /** The directories after the writer's os.MkdirAll of the parent. */
  function DirsAfter(dirs: set<string>, files: map<string, File>, path: string): set<string> {
    var plan := MkdirAllCreates(dirs, files.Keys, Dir(path));
    if plan.Some? then dirs + plan.value else dirs
  }

  /** The faults a write meets: those injected, plus a failed os.MkdirAll
      when a regular file stands where a directory must be, a failed
      os.OpenFile when the temp path is a directory, and a failed os.Rename
      when `path` is one. */
  function WriteFaults(faults: Faults, dirs: set<string>, files: map<string, File>, path: string): Faults {
    var after := DirsAfter(dirs, files, path);
    faults.(mkdir := faults.mkdir || MkdirAllCreates(dirs, files.Keys, Dir(path)).None?,
            open := faults.open || TmpPath(path) in after,
            rename := faults.rename || path in after)
  }

  /** Without injected faults, with no regular file on the way up to the
      parent and no directory at `path` or its temp path, a write to a path
      other than "." or "/" completes. */
  lemma UnblockedWriteSucceeds(dirs: set<string>, files: map<string, File>, path: string)
    requires Ancestors(Dir(path)) !! files.Keys
    requires path !in dirs && TmpPath(path) !in dirs && Dir(path) != path
    ensures FirstFault(WriteFaults(NoFaults, dirs, files, path)) == Pass
  {
    MkdirAllBlocked(dirs, files.Keys, Dir(path));
    MkdirAllSound(dirs, files.Keys, Dir(path));
    AncestorsBounded(Dir(path));
    assert |TmpPath(path)| == |path| + 4;
  }

  /** A write onto an existing directory never passes: with nothing else in
      the way it fails at the rename, as os.Rename does with EISDIR. */
  lemma WriteOverDirectoryFails(faults: Faults, dirs: set<string>, files: map<string, File>, path: string)
    requires path in dirs
    ensures FirstFault(WriteFaults(faults, dirs, files, path)) != Pass
    ensures faults == NoFaults && Dir(path) in dirs && TmpPath(path) !in dirs ==>
      FirstFault(WriteFaults(faults, dirs, files, path)) == Fail(RenameFailed)
  {
  }

  /** A failure after the temp file was opened and before the rename took
      effect: the writer removes the temp file. */
  predicate CleansUp(r: Outcome<WriteError>) {
    r == Fail(WriteFailed) || r == Fail(SyncFailed) || r == Fail(CloseFailed) || r == Fail(RenameFailed)
  }

  /** The files after a completed write: `path` holds `data` with the temp
      file's permissions, and the temp file is gone. */
  function Written(m: map<string, File>, path: string, data: bytes, perm: int): map<string, File> {
    (m - {TmpPath(path)})[path := File(data, PermAfterOpen(m, TmpPath(path), perm))]
  }

  /** In every state from index `from` on, `path` is either exactly what it
      was before or a complete copy of `data`: a crash never exposes a
      partial file at `path`. */
  ghost predicate OldOrComplete(h: seq<map<string, File>>, from: nat, path: string, before: Option<File>, data: bytes) {
    forall k :: from <= k < |h| ==> Lookup(h[k], path) == before || (path in h[k] && h[k][path].data == data)
  }

  lemma OldOrCompleteExtend(h: seq<map<string, File>>, from: nat, path: string, before: Option<File>,
                            data: bytes, m: map<string, File>)
    requires OldOrComplete(h, from, path, before, data)
    requires Lookup(m, path) == before || (path in m && m[path].data == data)
    ensures OldOrComplete(h + [m], from, path, before, data)
  {
    assert forall k :: 0 <= k < |h| ==> (h + [m])[k] == h[k];
  }

  /** States that differ from `m0` at most at `tmp` leave every other path as it was. */
  lemma ElsewhereUntouched(h: seq<map<string, File>>, from: nat, tmp: string, m0: map<string, File>,
                           path: string, data: bytes)
    requires path != tmp
    requires forall k :: from <= k < |h| ==> h[k] - {tmp} == m0 - {tmp}
    ensures OldOrComplete(h, from, path, Lookup(m0, path), data)
  {
    forall k | from <= k < |h| ensures Lookup(h[k], path) == Lookup(m0, path) {
      assert path in h[k] <==> path in h[k] - {tmp};
      assert path in m0 <==> path in m0 - {tmp};
      if path in m0 {
        assert h[k][path] == (h[k] - {tmp})[path];
      }
    }
  }

  lemma LookupOutside(m1: map<string, File>, m2: map<string, File>, tmp: string)
    requires m1 - {tmp} == m2 - {tmp}
    ensures forall p :: p != tmp ==> Lookup(m1, p) == Lookup(m2, p)
  {
    forall p | p != tmp ensures Lookup(m1, p) == Lookup(m2, p) {
      assert p in m1 <==> p in m1 - {tmp};
      assert p in m2 <==> p in m2 - {tmp};
      if p in m1 {
        assert m1[p] == (m1 - {tmp})[p];
      }
      if p in m2 {
        assert m2[p] == (m2 - {tmp})[p];
      }
    }
  }

  /** Steps 1 and 2: create or truncate the temp file, write, fsync and close
      it. Only the temp file changes. */
  method FillTemp(disk: Disk, tmp: string, data: bytes, perm: int, faults: Faults)
    returns (r: Outcome<WriteError>)
    requires disk.Valid() && Dir(tmp) in disk.dirs
    modifies disk
    ensures disk.Valid() && disk.dirs == old(disk.dirs)
    ensures r == FirstFault(faults.(mkdir := false, open := faults.open || tmp in old(disk.dirs),
                                    rename := false, syncDir := false))
    ensures r == Fail(CreateFailed) ==> disk.files == old(disk.files)
    ensures r != Fail(CreateFailed) ==> tmp in disk.files
    ensures r == Pass ==> disk.files == old(disk.files)[tmp := File(data, PermAfterOpen(old(disk.files), tmp, perm))]
    ensures disk.files - {tmp} == old(disk.files) - {tmp}
    ensures old(disk.history) <= disk.history
    ensures forall k :: |old(disk.history)| <= k < |disk.history| ==> disk.history[k] - {tmp} == old(disk.files) - {tmp}
  {
    var ok := disk.OpenTrunc(tmp, perm, faults.open);
    if !ok {
      return Fail(CreateFailed);
    }
    assert disk.files - {tmp} == old(disk.files) - {tmp};
    r := WriteOpened(disk, tmp, data, faults);
  }

  /** Step 2 on the freshly truncated temp file. */
  method WriteOpened(disk: Disk, tmp: string, data: bytes, faults: Faults) returns (r: Outcome<WriteError>)
    requires disk.Valid() && tmp in disk.files && disk.files[tmp].data == []
    modifies disk
    ensures disk.Valid() && disk.dirs == old(disk.dirs)
    ensures r == FirstFault(faults.(mkdir := false, open := false, rename := false, syncDir := false))
    ensures tmp in disk.files
    ensures r == Pass ==> disk.files == old(disk.files)[tmp := old(disk.files)[tmp].(data := data)]
    ensures disk.files - {tmp} == old(disk.files) - {tmp}
    ensures old(disk.history) <= disk.history
    ensures forall k :: |old(disk.history)| <= k < |disk.history| ==> disk.history[k] - {tmp} == old(disk.files) - {tmp}
  {
    var n, wrote := disk.Write(tmp, data, faults.write);
    assert disk.history == old(disk.history) + [disk.files];
    assert wrote ==> old(disk.files)[tmp].data + data[..n] == data;
    var closed;
    if !wrote {
      closed := disk.Close(tmp, faults.close);
      return Fail(WriteFailed);
    }
    var synced := disk.Sync(tmp, faults.sync);
    if !synced {
      closed := disk.Close(tmp, faults.close);
      return Fail(SyncFailed);
    }
    closed := disk.Close(tmp, faults.close);
    return if closed then Pass else Fail(CloseFailed);
  }

  /** What WriteAtomic promises, from the disk before (`dirs0`, `files0`,
      `h0`) to the disk after (`dirs1`, `files1`, `h1`). */
  ghost predicate AtomicOutcome(r: Outcome<WriteError>, faults: Faults, path: string, data: bytes, perm: int,
                                dirs0: set<string>, files0: map<string, File>, h0: seq<map<string, File>>,
                                dirs1: set<string>, files1: map<string, File>, h1: seq<map<string, File>>)
  {
    && r == FirstFault(WriteFaults(faults, dirs0, files0, path))
    && dirs1 == (if r == Fail(MkdirFailed) then dirs0 else DirsAfter(dirs0, files0, path))
    && (r != Fail(MkdirFailed) ==> Dir(path) in dirs1)
    && (r == Pass || r == Fail(DirSyncFailed) ==> files1 == Written(files0, path, data, perm))
    && (r == Fail(MkdirFailed) || r == Fail(CreateFailed) ==> files1 == files0)
    && (CleansUp(r) ==> Lookup(files1, path) == Lookup(files0, path))
    && (CleansUp(r) && !faults.remove ==> TmpPath(path) !in files1)
    && (forall p :: p != path && p != TmpPath(path) ==> Lookup(files1, p) == Lookup(files0, p))
    && OldOrComplete(h1, |h0|, path, Lookup(files0, path), data)
  }

  /** WriteAtomic: the result is the first step that fails; success leaves
      `path` holding the data and no temp file; a failure before the rename
      leaves `path` as it was; no state on the way shows `path` partial. */
  method WriteAtomic(disk: Disk, path: string, data: bytes, perm: int, faults: Faults)
    returns (r: Outcome<WriteError>)
    requires disk.Valid()
    modifies disk
    ensures disk.Valid()
    ensures AtomicOutcome(r, faults, path, data, perm, old(disk.dirs), old(disk.files), old(disk.history),
                          disk.dirs, disk.files, disk.history)
  {
    var ok := disk.MkdirAll(Dir(path), faults.mkdir);
    if !ok {
      return Fail(MkdirFailed);
    }
    MkdirAllSound(old(disk.dirs), old(disk.files).Keys, Dir(path));
    r := WriteInDir(disk, path, data, perm, faults);
  }

  /** Steps 1 to 4, once the parent directory exists. */
  method WriteInDir(disk: Disk, path: string, data: bytes, perm: int, faults: Faults)
    returns (r: Outcome<WriteError>)
    requires disk.Valid() && Dir(path) in disk.dirs
    modifies disk
    ensures disk.Valid() && disk.dirs == old(disk.dirs)
    ensures r == FirstFault(faults.(mkdir := false, open := faults.open || TmpPath(path) in old(disk.dirs),
                                    rename := faults.rename || path in old(disk.dirs)))
    ensures r == Pass || r == Fail(DirSyncFailed) ==> disk.files == Written(old(disk.files), path, data, perm)
    ensures r == Fail(CreateFailed) ==> disk.files == old(disk.files)
    ensures CleansUp(r) ==> Lookup(disk.files, path) == Lookup(old(disk.files), path)
    ensures CleansUp(r) && !faults.remove ==> TmpPath(path) !in disk.files
    ensures forall p :: p != path && p != TmpPath(path) ==> Lookup(disk.files, p) == Lookup(old(disk.files), p)
    ensures old(disk.history) <= disk.history
    ensures OldOrComplete(disk.history, |old(disk.history)|, path, Lookup(old(disk.files), path), data)
  {
    ghost var start := |disk.history|;
    ghost var m0 := disk.files;
    var tmp := TmpPath(path);
    assert |tmp| == |path| + 4;
    var dir := Dir(path);
    DirOfTmp(path);
    r := FillTemp(disk, tmp, data, perm, faults);
    ElsewhereUntouched(disk.history, start, tmp, m0, path, data);
    if r == Fail(CreateFailed) {
      return;
    }
    if r == Pass {
      var ok := disk.Rename(tmp, path, faults.rename);
      if ok {
        OldOrCompleteExtend(disk.history[..|disk.history| - 1], start, path, Lookup(m0, path), data, disk.files);
        assert disk.history[..|disk.history| - 1] + [disk.files] == disk.history;
        var dirSynced := disk.SyncDir(dir, faults.syncDir);
        return if dirSynced then Pass else Fail(DirSyncFailed);
      }
      r := Fail(RenameFailed);
    }
    LookupOutside(disk.files, m0, tmp);
    var removed := disk.Remove(tmp, faults.remove);
    assert disk.files - {tmp} == m0 - {tmp};
    LookupOutside(disk.files, m0, tmp);
    if removed {
      OldOrCompleteExtend(disk.history[..|disk.history| - 1], start, path, Lookup(m0, path), data, disk.files);
      assert disk.history[..|disk.history| - 1] + [disk.files] == disk.history;
    }
  }

  /** WriteJSON: WriteAtomic with mode 0644. */
  method WriteJSON(disk: Disk, path: string, jsonData: bytes, faults: Faults) returns (r: Outcome<WriteError>)
    requires disk.Valid()
    modifies disk
    ensures disk.Valid()
    ensures AtomicOutcome(r, faults, path, jsonData, Perm0644, old(disk.dirs), old(disk.files), old(disk.history),
                          disk.dirs, disk.files, disk.history)
    ensures r.Fail? && r != Fail(DirSyncFailed) ==> Lookup(disk.files, path) == Lookup(old(disk.files), path)
  {
    r := WriteAtomic(disk, path, jsonData, Perm0644, faults);
  }

  /** WriteBinary: WriteAtomic with mode 0644. */
  method WriteBinary(disk: Disk, path: string, data: bytes, faults: Faults) returns (r: Outcome<WriteError>)
    requires disk.Valid()
    modifies disk
    ensures disk.Valid()
    ensures AtomicOutcome(r, faults, path, data, Perm0644, old(disk.dirs), old(disk.files), old(disk.history),
                          disk.dirs, disk.files, disk.history)
    ensures r.Fail? && r != Fail(DirSyncFailed) ==> Lookup(disk.files, path) == Lookup(old(disk.files), path)
  {
    r := WriteAtomic(disk, path, data, Perm0644, faults);
  }

  /** EnsureDirectory: os.MkdirAll with mode 0755. It creates the missing
      directories above `path` as well, fails when a regular file is in the
      way, and changes nothing when `path` already is a directory. */
  method EnsureDirectory(disk: Disk, path: string, fail: bool) returns (ok: bool)
    requires disk.Valid()
    modifies disk
    ensures disk.Valid() && disk.files == old(disk.files)
    ensures ok <==> !fail && MkdirAllCreates(old(disk.dirs), old(disk.files).Keys, path).Some?
    ensures disk.dirs == if ok then old(disk.dirs) + MkdirAllCreates(old(disk.dirs), old(disk.files).Keys, path).value
                         else old(disk.dirs)
    ensures ok ==> path in disk.dirs && forall p :: p in disk.dirs - old(disk.dirs) ==> Dir(p) in disk.dirs
    ensures path in old(disk.dirs) ==> disk.dirs == old(disk.dirs)
  {
    ok := disk.MkdirAll(path, fail);
    if ok {
      MkdirAllSound(old(disk.dirs), old(disk.files).Keys, path);
    }
  }

  /** The file left by a completed write depends only on the new data: a second
      write replaces the first completely. */
  lemma SecondWriteReplaces(m: map<string, File>, path: string, d1: bytes, d2: bytes, perm: int)
    ensures Written(Written(m, path, d1, perm), path, d2, perm)[path].data == d2
    ensures TmpPath(path) !in Written(Written(m, path, d1, perm), path, d2, perm)
  {
  }
}
