// Uploads and downloads through a temporary file (backend/sftp/upload.go and
// backend/sftp/download.go).
module SftpTransfer {
  import opened Common
  import opened FileTree

  // The file being copied: what opening, Stat and the reads deliver. The bytes
  // read and the size reported earlier differ when the source changes meanwhile.
  datatype Source = Source(opens: bool, stats: bool, regular: bool, size: nat, content: Bytes,
                           readFails: nat -> bool, closes: bool)

  // Whether the context is cancelled at its n-th check.
  type Context = nat -> bool

  // An error carries the cleanup failure when the temporary file stays behind.
  datatype Result = Completed | Failed(cleanupFailed: bool)

  // A state during a transfer: the destination holds its old entry or the full
  // content, and nothing else but the temporary file differs.
  ghost predicate Step(before: Tree, now: Tree, temp: Path, dest: Path, content: Bytes) {
    && (Lookup(now, dest) == Lookup(before, dest) || Lookup(now, dest) == Some(File(content)))
    && forall q :: q != temp && q != dest ==> Lookup(now, q) == Lookup(before, q)
  }

  ghost predicate OnlyTemp(before: Tree, now: Tree, temp: Path) {
    forall q :: q != temp ==> Lookup(now, q) == Lookup(before, q)
  }

  // The content is in place and the temporary file is gone.
  ghost predicate Committed(before: Tree, now: Tree, temp: Path, dest: Path, content: Bytes) {
    forall q ::
      Lookup(now, q) == if q == dest then Some(File(content)) else if q == temp then None else Lookup(before, q)
  }

  ghost predicate Logged(past: seq<Tree>, trace: seq<Tree>, before: Tree, temp: Path, dest: Path, content: Bytes) {
    past <= trace && forall k :: |past| <= k < |trace| ==> Step(before, trace[k], temp, dest, content)
  }

  function TempPath(dest: Path, suffix: string): Path
    requires dest != []
  {
    Parent(dest) + ["." + dest[|dest| - 1] + "." + suffix + ".part"]
  }

  // A hidden file beside the destination, with the suffix and ".part" at the end.
  lemma TempForm(directory: Path, name: string, suffix: string)
    ensures TempPath(directory + [name], suffix) == directory + ["." + name + "." + suffix + ".part"]
  {
    assert (directory + [name])[..|directory|] == directory;
  }

  lemma TempDiffers(dest: Path, suffix: string)
    requires dest != []
    ensures TempPath(dest, suffix) != dest
  {
    assert TempPath(dest, suffix)[|dest| - 1] == "." + dest[|dest| - 1] + "." + suffix + ".part";
    assert |TempPath(dest, suffix)[|dest| - 1]| > |dest[|dest| - 1]|;
  }

  // Nothing on the source side, and no cancellation, stands in the way.
  ghost predicate Smooth(ctx: Context, source: Source) {
    && source.opens && source.stats && source.closes && source.size == |source.content|
    && (forall n :: !ctx(n)) && (forall n :: !source.readFails(n))
  }

  // Copies the content chunk by chunk, checking the context before every read,
  // the last one included. Gives up on the first failure.
  method CopyChunks(ctx: Context, fs: FileSystem, temp: Path, source: Source)
    returns (ok: bool, transferred: nat, checks: nat)
    requires temp in fs.nodes && fs.nodes[temp] == File([])
    modifies fs`nodes, fs`clock, fs`trace
    ensures fs.clock >= old(fs.clock)
    ensures temp in fs.nodes && fs.nodes[temp].File? && OnlyTemp(old(fs.nodes), fs.nodes, temp)
    ensures ok ==> transferred == |source.content| && fs.nodes[temp] == File(source.content)
    ensures Smooth(ctx, source) && !fs.Faulty(old(fs.clock)) ==> ok
    ensures old(fs.trace) <= fs.trace
    ensures forall k :: |old(fs.trace)| <= k < |fs.trace| ==> OnlyTemp(old(fs.nodes), fs.trace[k], temp)
  {
    transferred, checks := 0, 1;
    ghost var before, past, start := fs.nodes, fs.trace, fs.clock;
    while transferred < |source.content|
      invariant transferred <= |source.content| && checks > 0
      invariant fs.clock >= start
      invariant temp in fs.nodes && fs.nodes[temp] == File(source.content[..transferred])
      invariant OnlyTemp(before, fs.nodes, temp)
      invariant past <= fs.trace
      invariant forall k :: |past| <= k < |fs.trace| ==> OnlyTemp(before, fs.trace[k], temp)
    {
      if ctx(checks) || source.readFails(transferred) {
        return false, transferred, checks + 1;
      }
      checks := checks + 1;
      var size: nat :| 0 < size <= |source.content| - transferred;
      var chunk := source.content[transferred..transferred + size];
      assert source.content[..transferred] + chunk == source.content[..transferred + size];
      ghost var now := fs.clock;
      ok := fs.Append(temp, chunk);
      transferred := transferred + size;
      if !ok {
        assert !fs.faults(now).Works? && start <= now < fs.clock;
        return;
      }
    }
    assert source.content[..transferred] == source.content;
    ok := !ctx(checks);
    checks := checks + 1;
  }

  // Copies and closes; a copy that is not complete is no success.
  method CopyAll(ctx: Context, fs: FileSystem, temp: Path, source: Source) returns (ok: bool)
    requires temp in fs.nodes && fs.nodes[temp] == File([])
    modifies fs`nodes, fs`clock, fs`trace
    ensures fs.clock >= old(fs.clock)
    ensures temp in fs.nodes && fs.nodes[temp].File? && OnlyTemp(old(fs.nodes), fs.nodes, temp)
    ensures ok ==> |source.content| == source.size && fs.nodes[temp] == File(source.content)
    ensures Smooth(ctx, source) && !fs.Faulty(old(fs.clock)) ==> ok
    ensures old(fs.trace) <= fs.trace
    ensures forall k :: |old(fs.trace)| <= k < |fs.trace| ==> OnlyTemp(old(fs.nodes), fs.trace[k], temp)
  {
    ghost var start := fs.clock;
    var copied, transferred, checks := CopyChunks(ctx, fs, temp, source);
    ghost var now := fs.clock;
    assert !fs.Faulty(start) ==> forall t :: start <= t < now ==> fs.faults(t).Works?;
    var closed := fs.Close();
    assert !closed ==> !fs.faults(now).Works? && start <= now < fs.clock;
    ok := copied && closed && source.closes && transferred == source.size && !ctx(checks);
  }

  // From the temporary file to the end of the call, deferred cleanup included.
  method CopyAndCommit(ctx: Context, fs: FileSystem, temp: Path, dest: Path, source: Source, replace: bool)
    returns (r: Result)
    requires temp != dest && temp in fs.nodes && fs.nodes[temp] == File([])
    modifies fs`nodes, fs`clock, fs`trace
    ensures fs.clock >= old(fs.clock)
    ensures r.Completed?
            ==> Committed(old(fs.nodes), fs.nodes, temp, dest, source.content) && |source.content| == source.size
                             && CanRename(old(fs.nodes), dest, true)
    ensures r.Failed? ==> Step(old(fs.nodes), fs.nodes, temp, dest, source.content)
    ensures r.Failed? && !fs.ReplyLost(old(fs.clock)) ==> Lookup(fs.nodes, dest) == Lookup(old(fs.nodes), dest)
    ensures !CanRename(old(fs.nodes), dest, replace) ==>
              r.Failed? && Lookup(fs.nodes, dest) == Lookup(old(fs.nodes), dest)
    ensures temp in fs.nodes ==> r == Failed(true)
    ensures !fs.Faulty(old(fs.clock)) ==> temp !in fs.nodes && r != Failed(true)
    // What is left to clean up is reported when removing it, the last call, fails.
    ensures r.Failed? ==> fs.clock > old(fs.clock) && (r.cleanupFailed <==> !fs.faults(fs.clock - 1).Works?)
    ensures Smooth(ctx, source) && !fs.Faulty(old(fs.clock)) && CanRename(old(fs.nodes), dest, replace) ==> r.Completed?
    ensures Logged(old(fs.trace), fs.trace, old(fs.nodes), temp, dest, source.content)
  {
    ghost var start, before, past := fs.clock, fs.nodes, fs.trace;
    var ok := CopyAll(ctx, fs, temp, source);
    ghost var copied := fs.clock;
    assert !fs.Faulty(start) ==> forall t :: start <= t < copied ==> fs.faults(t).Works?;
    if ok {
      ghost var now := fs.clock;
      SameTarget(before, fs.nodes, temp, dest, replace);
      SameTarget(before, fs.nodes, temp, dest, true);
      ok := fs.Rename(temp, dest, replace);
      if ok {
        return Completed;
      }
      assert fs.faults(now).LosesReply? ==> fs.ReplyLost(start);
      assert !fs.faults(now).Works? ==> fs.Faulty(start);
    }
    ghost var removing := fs.clock;
    var removal := fs.Remove(temp);
    assert !fs.faults(removing).Works? ==> fs.Faulty(start);
    r := Failed(removal.NotRemoved?);
  }

  // The temporary file does not change whether the rename is possible.
  lemma SameTarget(before: Tree, now: Tree, temp: Path, dest: Path, replace: bool)
    requires OnlyTemp(before, now, temp) && temp != dest
    requires temp in before && before[temp].File? && temp in now && now[temp].File?
    ensures CanRename(now, dest, replace) == CanRename(before, dest, replace)
  {
    if dest != [] {
      assert Lookup(now, dest) == Lookup(before, dest);
      assert Parent(dest) != temp ==> Lookup(now, Parent(dest)) == Lookup(before, Parent(dest));
    }
  }

  // What a transfer to `dest` guarantees, whichever way it ends. A temporary file
  // that stays behind is reported, unless it was created by a call, the first,
  // whose reply was lost.
  ghost predicate Delivered(before: Tree, now: Tree, temp: Path, dest: Path, source: Source, r: Result,
                            replyLost: bool, creationLost: bool) {
    && (r.Completed? ==> Committed(before, now, temp, dest, source.content) && |source.content| == source.size
                         && CanRename(before, dest, true))
    && (r.Failed? ==> Step(before, now, temp, dest, source.content))
    && (r.Failed? && !replyLost ==> Lookup(now, dest) == Lookup(before, dest))
    && (temp in before ==> r.Failed? && now == before)
    && (temp in now && temp !in before && r != Failed(true)
        <==> temp !in before && temp != [] && IsDir(before, Parent(temp)) && creationLost)
  }

  // The destination can be written and the temporary name is unused.
  predicate Free(t: Tree, dest: Path, suffix: string, replace: bool)
    requires dest != []
  {
    CanRename(t, dest, replace) && TempPath(dest, suffix) !in t
  }

  // The part both directions share, once the source is open.
  method Transfer(ctx: Context, fs: FileSystem, dest: Path, suffix: string, source: Source, replace: bool)
      returns (r: Result)
    requires dest != []
    modifies fs`nodes, fs`clock, fs`trace
    ensures fs.clock >= old(fs.clock)
    ensures !fs.Faulty(old(fs.clock)) ==> r != Failed(true)
    ensures r == Failed(true) ==> fs.clock > old(fs.clock) && !fs.faults(fs.clock - 1).Works?
    ensures Delivered(old(fs.nodes), fs.nodes, TempPath(dest, suffix), dest, source, r, fs.ReplyLost(old(fs.clock)),
                      fs.faults(old(fs.clock)).LosesReply?)
    ensures Logged(old(fs.trace), fs.trace, old(fs.nodes), TempPath(dest, suffix), dest, source.content)
    ensures Smooth(ctx, source) && !fs.Faulty(old(fs.clock)) && Free(old(fs.nodes), dest, suffix, replace)
            ==> r.Completed?
    ensures !CanRename(old(fs.nodes), dest, replace) ==>
              r.Failed? && Lookup(fs.nodes, dest) == Lookup(old(fs.nodes), dest)
  {
    ghost var start, before := fs.clock, fs.nodes;
    var temp := TempPath(dest, suffix);
    TempDiffers(dest, suffix);
    var ok := fs.CreateExclusive(temp);
    if !ok {
      assert fs.faults(start).LosesReply? ==> fs.ReplyLost(start);
      assert !fs.faults(start).Works? ==> fs.Faulty(start);
      assert Parent(temp) == Parent(dest);
      return Failed(false);
    }
    ghost var mid, now, created := fs.nodes, fs.clock, fs.trace;
    assert Parent(temp) == Parent(dest);
    r := CopyAndCommit(ctx, fs, temp, dest, source, replace);
    assert fs.ReplyLost(now) ==> fs.ReplyLost(start);
    assert fs.Faulty(now) ==> fs.Faulty(start);
  }

  // The source can be opened before anything is created.
  predicate Begins(ctx: Context, source: Source) {
    !ctx(0) && source.opens && source.stats
  }

  method UploadFile(ctx: Context, remote: FileSystem, source: Source, dest: Path, suffix: string, posixRename: bool)
    returns (r: Result)
    requires dest != []
    modifies remote`nodes, remote`clock, remote`trace
    ensures remote.clock >= old(remote.clock)
    ensures !remote.Faulty(old(remote.clock)) ==> r != Failed(true)
    ensures r == Failed(true) ==> remote.clock > old(remote.clock) && !remote.faults(remote.clock - 1).Works?
    ensures Delivered(old(remote.nodes), remote.nodes, TempPath(dest, suffix), dest, source, r,
                      remote.ReplyLost(old(remote.clock)),
                      Begins(ctx, source) && source.regular && remote.faults(old(remote.clock)).LosesReply?)
    ensures Logged(old(remote.trace), remote.trace, old(remote.nodes), TempPath(dest, suffix), dest, source.content)
    ensures !source.regular ==> r == Failed(false) && remote.nodes == old(remote.nodes)
    ensures Smooth(ctx, source) && source.regular && !remote.Faulty(old(remote.clock)) ==>
              (Free(old(remote.nodes), dest, suffix, posixRename) ==> r.Completed?)
    ensures !posixRename && dest in old(remote.nodes) ==>
              r.Failed? && Lookup(remote.nodes, dest) == Lookup(old(remote.nodes), dest)
    ensures dest in old(remote.nodes) && old(remote.nodes)[dest].Dir? ==> r.Failed?
  {
    if ctx(0) || !source.opens || !source.stats || !source.regular {
      return Failed(false);
    }
    r := Transfer(ctx, remote, dest, suffix, source, posixRename);
  }

  method DownloadFile(ctx: Context, disk: FileSystem, source: Source, dest: Path, suffix: string) returns (r: Result)
    requires dest != []
    modifies disk`nodes, disk`clock, disk`trace
    ensures disk.clock >= old(disk.clock)
    ensures !disk.Faulty(old(disk.clock)) ==> r != Failed(true)
    ensures r == Failed(true) ==> disk.clock > old(disk.clock) && !disk.faults(disk.clock - 1).Works?
    ensures Delivered(old(disk.nodes), disk.nodes, TempPath(dest, suffix), dest, source, r,
                      disk.ReplyLost(old(disk.clock)),
                      Begins(ctx, source) && disk.faults(old(disk.clock)).LosesReply?)
    ensures Logged(old(disk.trace), disk.trace, old(disk.nodes), TempPath(dest, suffix), dest, source.content)
    ensures Smooth(ctx, source) && !disk.Faulty(old(disk.clock)) && Free(old(disk.nodes), dest, suffix, true)
            ==> r.Completed?
    ensures dest in old(disk.nodes) && old(disk.nodes)[dest].Dir? ==> r.Failed?
  {
    if ctx(0) || !source.opens || !source.stats {
      return Failed(false);
    }
    r := Transfer(ctx, disk, dest, suffix, source, true);
  }

  // With replies never lost, success is exactly the new content being there
  // when it was not there before, and a file left behind is always reported.
  lemma SuccessIsCommit(before: Tree, now: Tree, temp: Path, dest: Path, source: Source, r: Result)
    requires Delivered(before, now, temp, dest, source, r, false, false)
    requires Lookup(before, dest) != Some(File(source.content))
    ensures r.Completed? <==> Lookup(now, dest) == Some(File(source.content))
    ensures r.Failed? && !r.cleanupFailed && temp !in before ==> forall q :: Lookup(now, q) == Lookup(before, q)
  {}

  // An empty file is left behind without a word when the call that creates it
  // takes effect and its reply is lost.
  lemma LostCreation(before: Tree, now: Tree, temp: Path, dest: Path, source: Source, r: Result)
    requires Delivered(before, now, temp, dest, source, r, true, true)
    requires temp != [] && temp != dest && temp !in before && IsDir(before, Parent(temp))
    ensures temp in now && r == Failed(false)
  {
    assert r.Completed? ==> Lookup(now, temp) == None;
  }
}
