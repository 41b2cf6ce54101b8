// Recursive deletion over SFTP (backend/sftp/delete.go) and the progress it
// reports (app_sftp.go).
module SftpDelete {
  import opened Common
  import opened FileTree

  // The tree without the entries below the named children of `p`.
  function Without(t: Tree, p: Path, names: set<string>): Tree {
    map q | q in t && !(Inside(p, q) && q[|p|] in names) :: t[q]
  }

  lemma ChildUnder(p: Path, x: string, q: Path)
    ensures Under(p + [x], q) <==> Inside(p, q) && q[|p|] == x
  {}

  lemma WithoutOne(t: Tree, p: Path, names: set<string>, x: string)
    requires x !in names
    ensures var s := Without(t, p, names);
            Without(t, p, names + {x}) == s - Subtree(s, p + [x])
            && Subtree(s, p + [x]) == Subtree(t, p + [x])
  {}

  lemma WithoutAll(t: Tree, p: Path, names: set<string>)
    requires ParentClosed(t) && p in t && forall x :: x in names <==> p + [x] in t
    ensures Subtree(Without(t, p, names), p) == {p}
    ensures Without(t, p, names) - {p} == t - Subtree(t, p)
  {
    forall q | q in t && Inside(p, q) ensures q[|p|] in names {
      ChildUnder(p, q[|p|], q);
      AncestorPresent(t, p + [q[|p|]], q);
    }
    var rest := Without(t, p, names);
    forall q | q in rest && Under(p, q) ensures q == p {
      assert q != p ==> Inside(p, q);
    }
    assert p in rest;
  }

  lemma {:induction false} RemovedSize(t: Tree, gone: set<Path>)
    requires gone <= t.Keys
    ensures |t - gone| == |t| - |gone|
  {}

  // Removing a whole subtree leaves every entry in a directory.
  lemma SubtreeRemoved(t: Tree, p: Path)
    requires ParentClosed(t) && p != []
    ensures ParentClosed(t - Subtree(t, p))
  {}

  lemma WithoutClosed(t: Tree, p: Path, names: set<string>)
    requires ParentClosed(t)
    ensures ParentClosed(Without(t, p, names))
  {}

  /****** Progress ******/

  function Percent(completed: nat, total: nat): nat
    requires total > 0
  {
    var percent := completed * 100 / total;
    if percent > 99 then 99 else percent
  }

  lemma PercentGrows(a: nat, b: nat, total: nat)
    requires total > 0 && a <= b
    ensures Percent(a, total) <= Percent(b, total) <= 99
  {
    DivisionGrows(a * 100, b * 100, total);
  }

  // Half the entries gone reads 50, none 0, and all of them 99.
  lemma PercentReads(total: nat)
    requires total > 0
    ensures Percent(total, 2 * total) == 50 && Percent(0, total) == 0 && Percent(total, total) == 99
  {
    PercentIs(total, 2 * total, 50);
    PercentIs(0, total, 0);
    DivisionIs(total * 100, total, 100);
  }

  // And in general the whole percents gone, but never more than 99.
  lemma PercentIs(completed: nat, total: nat, p: nat)
    requires total > 0 && p <= 98
    ensures Percent(completed, total) == p <==> p * total <= completed * 100 < (p + 1) * total
  {
    DivisionIs(completed * 100, total, p);
  }

  lemma DivisionIs(x: nat, d: nat, q: nat)
    requires d > 0
    ensures x / d == q <==> q * d <= x < (q + 1) * d
  {
    if q * d <= x < (q + 1) * d {
      if x / d < q {
        ProductGrows(x / d + 1, q, d);
      } else if x / d > q {
        ProductGrows(q + 1, x / d, d);
      }
    }
  }

  lemma ProductGrows(a: int, b: int, d: nat)
    requires a <= b
    ensures a * d <= b * d
  {
  }

  lemma DivisionGrows(x: nat, y: nat, d: nat)
    requires d > 0 && x <= y
    ensures x / d <= y / d
  {
    if y / d + 1 <= x / d {
      ProductGrows(y / d + 1, x / d, d);
    }
  }

  class Progress {
    var completed: nat
    var total: nat
    var lastPercent: int
    var emitted: seq<nat>               // events sent to the interface
    ghost var size: nat                 // entries in the whole tree at the start

    constructor ()
      ensures completed == 0 && total == 0 && lastPercent == -1 && emitted == [] && Valid()
    {
      completed, total, lastPercent, emitted, size := 0, 0, -1, [], 0;
    }

    // Percentages are sent in strictly increasing order, within 0..99.
    ghost predicate Valid()
      reads this
    {
      && (forall i, j :: 0 <= i < j < |emitted| ==> emitted[i] < emitted[j])
      && (forall i :: 0 <= i < |emitted| ==> emitted[i] <= 99)
      && (if emitted == [] then lastPercent == -1
          else lastPercent == emitted[|emitted| - 1] && total > 0 && lastPercent <= Percent(completed, total))
    }

    // So far one entry of the tree is gone for each one counted.
    ghost predicate Counts(left: nat)
      reads this
    {
      completed + left == size
    }

    // Started, and with `left` entries still in the tree.
    ghost predicate Running(left: nat)
      reads this
    {
      Valid() && total > 0 && Counts(left)
    }

    // Went on from such values: the same deletion, with perhaps more reported.
    ghost predicate Went(total: nat, size: nat, emitted: seq<nat>)
      reads this
    {
      Valid() && this.total == total && this.size == size && emitted <= this.emitted
    }

    method Report()
      requires Valid() && total > 0
      modifies this`lastPercent, this`emitted
      ensures Valid() && emitted != [] && lastPercent == Percent(completed, total)
      ensures emitted == if lastPercent == old(lastPercent) then old(emitted) else old(emitted) + [lastPercent]
    {
      var percent := Percent(completed, total);
      PercentGrows(completed, completed, total);
      if percent == lastPercent {
        return;
      }
      lastPercent := percent;
      emitted := emitted + [percent];
    }

    method Start(total: nat, ghost size: nat)
      requires Valid() && emitted == [] && total > 0
      modifies this
      ensures Valid() && completed == 0 && this.total == total && emitted == [0] && this.size == size
    {
      completed, this.size := 0, size;
      this.total := total;
      Report();
    }

    // Reports one more removal, with `left` entries left in the tree.
    method Removed(ghost left: nat)
      requires Valid() && total > 0 && completed + 1 + left == size
      modifies this
      ensures Valid() && completed == old(completed) + 1 && total == old(total) && old(emitted) <= emitted
      ensures size == old(size) && Counts(left)
    {
      PercentGrows(completed, completed + 1, total);
      completed := completed + 1;
      Report();
    }
  }

  /****** Counting and deleting ******/

  function Names(entries: seq<string>): set<string> {
    set x | x in entries
  }

  lemma NamesGrow(entries: seq<string>, i: nat)
    requires NoDuplicates(entries) && i < |entries|
    ensures Names(entries[..i + 1]) == Names(entries[..i]) + {entries[i]} && entries[i] !in Names(entries[..i])
  {}

  lemma NamesAll(entries: seq<string>)
    ensures Names(entries[..0]) == {} && Names(entries[..|entries|]) == Names(entries)
  {}

  // Counting one more child counts its subtree.
  lemma CountStep(t: Tree, p: Path, names: set<string>, x: string)
    requires x !in names
    ensures Without(t, p, names + {x}).Keys <= t.Keys
    ensures |Without(t, p, names + {x})| == |Without(t, p, names)| - |Subtree(t, p + [x])|
  {
    WithoutOne(t, p, names, x);
    RemovedSize(Without(t, p, names), Subtree(t, p + [x]));
  }

  lemma CountEnds(t: Tree, p: Path, names: set<string>)
    requires ParentClosed(t) && p in t && forall x :: x in names <==> p + [x] in t
    ensures 1 + |t| - |Without(t, p, names)| == |Subtree(t, p)|
  {
    WithoutAll(t, p, names);
    RemovedSize(Without(t, p, names), {p});
    RemovedSize(t, Subtree(t, p));
  }

  lemma WithoutNone(t: Tree, p: Path)
    ensures Without(t, p, {}) == t
  {}

  method CountDeleteEntries(fs: FileSystem, path: Path) returns (r: Option<nat>)
    requires ParentClosed(fs.nodes)
    modifies fs`clock
    ensures fs.clock > old(fs.clock)
    ensures r.Some? ==> path in fs.nodes && r.value == |Subtree(fs.nodes, path)| > 0
    ensures r.None? ==> fs.Faulty(old(fs.clock)) || path !in fs.nodes
    decreases |Subtree(fs.nodes, path)|
  {
    var start := fs.clock;
    var t := fs.nodes;
    var info := fs.Lstat(path);
    if info.None? {
      assert fs.faults(start).Works? ==> path !in fs.nodes;
      return None;
    }
    if !info.value.Dir? {
      OnlyItself(t, path);
      return Some(1);
    }
    var entries := fs.ReadDir(path);
    if entries.None? {
      assert !fs.faults(start + 1).Works?;
      return None;
    }
    var total: nat := 1;
    NamesAll(entries.value);
    WithoutNone(t, path);
    for i := 0 to |entries.value|
      invariant fs.nodes == t && fs.clock > start
      invariant Without(t, path, Names(entries.value[..i])).Keys <= t.Keys
      invariant total == 1 + |t| - |Without(t, path, Names(entries.value[..i]))|
    {
      var x := entries.value[i];
      NamesGrow(entries.value, i);
      CountStep(t, path, Names(entries.value[..i]), x);
      SmallerSubtree(t, path, x);
      var count := CountDeleteEntries(fs, path + [x]);
      if count.None? {
        assert fs.Faulty(start);
        return None;
      }
      total := total + count.value;
    }
    CountEnds(t, path, Names(entries.value));
    r := Some(total);
  }

  lemma OnlyItself(t: Tree, p: Path)
    requires ParentClosed(t) && p in t && !t[p].Dir?
    ensures Subtree(t, p) == {p}
  {
    forall q | q in t && Under(p, q) ensures q == p {
      if q != p {
        AncestorPresent(t, p, q);
      }
    }
  }

  lemma SmallerSubtree(t: Tree, p: Path, x: string)
    requires p in t
    ensures |Subtree(t, p + [x])| < |Subtree(t, p)|
  {
    var child, whole := Subtree(t, p + [x]), Subtree(t, p);
    forall q | q in child ensures q in whole && q != p {
      ChildUnder(p, x, q);
    }
    SmallerSet(child, whole, p);
  }

  lemma SmallerSet<T>(a: set<T>, b: set<T>, x: T)
    requires a <= b && x in b && x !in a
    ensures |a| < |b|
  {
    var rest := b - a;
    assert b == a + rest && x in rest;
    assert |b| == |a| + |rest|;
  }

  // A state on the way from `before` to the removal of the subtree at `path`:
  // nothing outside it changed, nothing was added, and every entry left sits in
  // a directory.
  ghost predicate Partial(before: Tree, after: Tree, path: Path) {
    && Shrunk(before, after) && ParentClosed(after)
    && forall q :: q in before && !Under(path, q) ==> q in after
  }

  lemma PartialChild(before: Tree, path: Path, names: set<string>, x: string, after: Tree)
    requires ParentClosed(before) && Partial(Without(before, path, names), after, path + [x])
    ensures Partial(before, after, path)
  {}

  // What one deletion may leave, and what it has counted.
  ghost predicate Deleted(before: Tree, after: Tree, path: Path, ok: bool, counted: int, replyLost: bool) {
    && Partial(before, after, path)
    && (ok ==> path in before && after == before - Subtree(before, path) && counted == |before| - |after|)
    && (!ok ==> counted <= |before| - |after| <= counted + 1 && (|before| - |after| == counted + 1 ==> replyLost))
  }

  // Every state passed through since `past` was such a state.
  ghost predicate Logged(past: seq<Tree>, trace: seq<Tree>, before: Tree, path: Path) {
    past <= trace && forall k :: |past| <= k < |trace| ==> Partial(before, trace[k], path)
  }

  lemma LoggedChild(past: seq<Tree>, trace: seq<Tree>, before: Tree, path: Path, names: set<string>, x: string)
    requires ParentClosed(before) && Logged(past, trace, Without(before, path, names), path + [x])
    ensures Logged(past, trace, before, path)
  {}

  lemma LoggedOn(past: seq<Tree>, mid: seq<Tree>, trace: seq<Tree>, before: Tree, path: Path)
    requires Logged(past, mid, before, path) && Logged(mid, trace, before, path)
    ensures Logged(past, trace, before, path)
  {}

  lemma LeafRemoved(t: Tree, path: Path)
    requires ParentClosed(t) && path in t && !t[path].Dir?
    ensures Subtree(t, path) == {path} && Partial(t, t - {path}, path) && |t - {path}| == |t| - 1
  {
    OnlyItself(t, path);
    SubtreeRemoved(t, path);
    RemovedSize(t, {path});
  }

  method DeleteEntry(fs: FileSystem, path: Path, progress: Progress) returns (ok: bool)
    requires ParentClosed(fs.nodes) && path != [] && progress.Running(|fs.nodes|)
    modifies fs`nodes, fs`clock, fs`trace, progress
    ensures progress.Went(old(progress.total), old(progress.size), old(progress.emitted))
    ensures fs.clock > old(fs.clock)
    ensures Deleted(old(fs.nodes), fs.nodes, path, ok, progress.completed - old(progress.completed),
                    fs.ReplyLost(old(fs.clock)))
    ensures !ok ==> fs.Faulty(old(fs.clock)) || path !in old(fs.nodes)
    ensures Logged(old(fs.trace), fs.trace, old(fs.nodes), path)
    decreases |Subtree(fs.nodes, path)|, 3
  {
    ghost var start := fs.clock;
    var info := fs.Lstat(path);
    if info.None? {
      assert fs.faults(start).Works? ==> path !in fs.nodes;
      return false;
    }
    if info.value.Dir? {
      ok := DeleteDirectory(fs, path, progress);
    } else {
      ok := DeleteLeaf(fs, path, progress);
    }
    assert fs.Faulty(start + 1) ==> fs.Faulty(start);
    assert fs.ReplyLost(start + 1) ==> fs.ReplyLost(start);
  }

  method DeleteLeaf(fs: FileSystem, path: Path, progress: Progress) returns (ok: bool)
    requires ParentClosed(fs.nodes) && path in fs.nodes && !fs.nodes[path].Dir?
    requires progress.Running(|fs.nodes|)
    modifies fs`nodes, fs`clock, fs`trace, progress
    ensures progress.Went(old(progress.total), old(progress.size), old(progress.emitted))
    ensures fs.clock > old(fs.clock)
    ensures Deleted(old(fs.nodes), fs.nodes, path, ok, progress.completed - old(progress.completed),
                    fs.ReplyLost(old(fs.clock)))
    ensures !ok ==> fs.Faulty(old(fs.clock))
    ensures Logged(old(fs.trace), fs.trace, old(fs.nodes), path)
  {
    ghost var start := fs.clock;
    LeafRemoved(fs.nodes, path);
    var removal := fs.Remove(path);
    ok := removal.Removed?;
    if !ok {
      assert !fs.faults(start).Works?;
      return;
    }
    progress.Removed(|fs.nodes|);
  }

  method DeleteChild(fs: FileSystem, path: Path, x: string, progress: Progress, ghost t: Tree, ghost names: set<string>)
    returns (ok: bool)
    requires ParentClosed(t) && path in t && path + [x] in t && x !in names
    requires fs.nodes == Without(t, path, names) && ParentClosed(fs.nodes) && progress.Running(|fs.nodes|)
    modifies fs`nodes, fs`clock, fs`trace, progress
    ensures progress.Went(old(progress.total), old(progress.size), old(progress.emitted))
    ensures fs.clock > old(fs.clock)
    ensures var counted := progress.completed - old(progress.completed);
            var gone := |old(fs.nodes)| - |fs.nodes|;
            if ok then fs.nodes == Without(t, path, names + {x}) && ParentClosed(fs.nodes) && counted == gone
            else Partial(t, fs.nodes, path) && fs.Faulty(old(fs.clock))
                 && counted <= gone <= counted + 1 && (gone == counted + 1 ==> fs.ReplyLost(old(fs.clock)))
    ensures Logged(old(fs.trace), fs.trace, t, path)
    decreases |Subtree(t, path)|, 0
  {
    ghost var past := fs.trace;
    WithoutOne(t, path, names, x);
    SmallerSubtree(t, path, x);
    ChildPresent(t, path, names, x);
    ok := DeleteEntry(fs, path + [x], progress);
    LoggedChild(past, fs.trace, t, path, names, x);
    PartialChild(t, path, names, x, fs.nodes);
  }

  method DeleteChildren(fs: FileSystem, path: Path, entries: seq<string>, progress: Progress)
    returns (ok: bool, ghost names: set<string>)
    requires ParentClosed(fs.nodes) && path in fs.nodes && progress.Running(|fs.nodes|)
    requires NoDuplicates(entries) && forall x :: x in entries ==> path + [x] in fs.nodes
    modifies fs`nodes, fs`clock, fs`trace, progress
    ensures progress.Went(old(progress.total), old(progress.size), old(progress.emitted))
    ensures fs.clock >= old(fs.clock)
    ensures var counted := progress.completed - old(progress.completed);
            var gone := |old(fs.nodes)| - |fs.nodes|;
            if ok then names == Names(entries) && fs.nodes == Without(old(fs.nodes), path, names) && counted == gone
            else Partial(old(fs.nodes), fs.nodes, path) && fs.Faulty(old(fs.clock))
                 && counted <= gone <= counted + 1 && (gone == counted + 1 ==> fs.ReplyLost(old(fs.clock)))
    ensures Logged(old(fs.trace), fs.trace, old(fs.nodes), path)
    decreases |Subtree(fs.nodes, path)|, 1
  {
    ghost var start, t, done, past := fs.clock, fs.nodes, progress.completed, fs.trace;
    names := {};
    ok := true;
    NamesAll(entries);
    WithoutNone(t, path);
    for i := 0 to |entries|
      invariant progress.Went(old(progress.total), old(progress.size), old(progress.emitted))
      invariant ok && fs.clock >= start
      invariant names == Names(entries[..i])
      invariant fs.nodes == Without(t, path, names) && ParentClosed(fs.nodes)
      invariant progress.completed - done == |t| - |fs.nodes|
      invariant Logged(past, fs.trace, t, path)
    {
      ghost var mid, now := fs.trace, fs.clock;
      NamesGrow(entries, i);
      ok := DeleteChild(fs, path, entries[i], progress, t, names);
      LoggedOn(past, mid, fs.trace, t, path);
      if !ok {
        assert fs.Faulty(now) ==> fs.Faulty(start);
        assert fs.ReplyLost(now) ==> fs.ReplyLost(start);
        return;
      }
      names := names + {entries[i]};
    }
  }

  method DeleteDirectory(fs: FileSystem, path: Path, progress: Progress) returns (ok: bool)
    requires ParentClosed(fs.nodes) && path in fs.nodes && fs.nodes[path].Dir? && progress.Running(|fs.nodes|)
    modifies fs`nodes, fs`clock, fs`trace, progress
    ensures progress.Went(old(progress.total), old(progress.size), old(progress.emitted))
    ensures fs.clock >= old(fs.clock)
    ensures Deleted(old(fs.nodes), fs.nodes, path, ok, progress.completed - old(progress.completed),
                    fs.ReplyLost(old(fs.clock)))
    ensures !ok ==> fs.Faulty(old(fs.clock))
    ensures Logged(old(fs.trace), fs.trace, old(fs.nodes), path)
    decreases |Subtree(fs.nodes, path)|, 2
  {
    ghost var start, t, past := fs.clock, fs.nodes, fs.trace;
    var entries := fs.ReadDir(path);
    if entries.None? {
      assert !fs.faults(start).Works?;
      return false;
    }
    ghost var names;
    ghost var began := fs.clock;
    ok, names := DeleteChildren(fs, path, entries.value, progress);
    assert fs.Faulty(began) ==> fs.Faulty(start);
    assert fs.ReplyLost(began) ==> fs.ReplyLost(start);
    if !ok {
      return;
    }
    ghost var mid, now := fs.trace, fs.clock;
    ok := RemoveEmptied(fs, path, progress, t, names);
    LoggedOn(past, mid, fs.trace, t, path);
    assert !fs.faults(now).Works? ==> fs.Faulty(start);
    assert fs.faults(now).LosesReply? ==> fs.ReplyLost(start);
  }

  lemma EmptiedLast(t: Tree, path: Path, names: set<string>, now: Tree)
    requires ParentClosed(t) && path in t && forall x :: x in names <==> path + [x] in t
    requires now == Without(t, path, names)
    ensures path in now && now[path] == t[path] && Subtree(now, path) == {path}
    ensures now - {path} == t - Subtree(t, path) && |now - {path}| == |now| - 1
    ensures Partial(t, now, path) && Partial(t, now - {path}, path)
  {
    WithoutAll(t, path, names);
    WithoutClosed(t, path, names);
    SubtreeRemoved(t, path);
    RemovedSize(now, {path});
  }

  method RemoveEmptied(fs: FileSystem, path: Path, progress: Progress, ghost t: Tree, ghost names: set<string>)
      returns (ok: bool)
    requires ParentClosed(t) && path in t && t[path].Dir? && forall x :: x in names <==> path + [x] in t
    requires fs.nodes == Without(t, path, names) && progress.Running(|fs.nodes|)
    modifies fs`nodes, fs`clock, fs`trace, progress
    ensures progress.Went(old(progress.total), old(progress.size), old(progress.emitted))
    ensures fs.clock == old(fs.clock) + 1 && ok == fs.faults(old(fs.clock)).Works?
    ensures Partial(t, fs.nodes, path) && Logged(old(fs.trace), fs.trace, t, path)
    ensures if ok then fs.nodes == t - Subtree(t, path) && progress.completed == old(progress.completed) + 1
                       && |fs.nodes| == |old(fs.nodes)| - 1
            else progress.completed == old(progress.completed)
                 && (fs.nodes == old(fs.nodes)
                     || (|fs.nodes| == |old(fs.nodes)| - 1 && fs.faults(old(fs.clock)).LosesReply?))
  {
    EmptiedLast(t, path, names, fs.nodes);
    ok := fs.RemoveDirectory(path);
    if ok {
      progress.Removed(|fs.nodes|);
    }
  }

  // Deletes `path` with progress. Success removes exactly the subtree, follows
  // no link, and ends with every counted entry reported; it fails only on a
  // missing client, the root, a missing path or a failed call, and then leaves
  // a tree in which nothing outside the subtree changed.
  method DeleteFileWithProgress(client: FileSystem?, path: Path, progress: Progress) returns (ok: bool)
    requires client != null ==> ParentClosed(client.nodes)
    requires progress.Valid() && progress.emitted == [] && progress.completed == 0
    modifies client, progress
    ensures progress.Valid()
    ensures client == null || path == [] ==>
              !ok && progress.completed == 0
              && (client != null ==> client.nodes == old(client.nodes) && client.clock == old(client.clock))
    ensures client != null && path != [] ==>
              && Partial(old(client.nodes), client.nodes, path)
              && Logged(old(client.trace), client.trace, old(client.nodes), path)
              && (ok ==> path in old(client.nodes)
                         && client.nodes == old(client.nodes) - Subtree(old(client.nodes), path)
                         && progress.completed == progress.total == |Subtree(old(client.nodes), path)|)
              && (!ok ==> client.Faulty(old(client.clock)) || path !in old(client.nodes))
              && (!client.ReplyLost(old(client.clock)) ==>
                    progress.completed == |old(client.nodes)| - |client.nodes|)
  {
    if client == null || path == [] {
      return false;
    }
    ghost var start, t := client.clock, client.nodes;
    var total := CountDeleteEntries(client, path);
    if total.None? {
      return false;
    }
    progress.Start(total.value, |client.nodes|);
    ghost var began := client.clock;
    ok := DeleteEntry(client, path, progress);
    assert client.Faulty(began) ==> client.Faulty(start);
    assert client.ReplyLost(began) ==> client.ReplyLost(start);
    RemovedSize(t, Subtree(t, path));
  }

  lemma ChildPresent(t: Tree, p: Path, names: set<string>, x: string)
    requires p + [x] in t && x !in names
    ensures p + [x] in Without(t, p, names)
  {}
}
