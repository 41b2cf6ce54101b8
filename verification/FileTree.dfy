// A file system as its operations see it: entries by path, calls that may be
// refused or lose their reply, and the list of states it went through.
module FileTree {
  import opened Common

  // The names from the root to an entry; the root itself is not an entry.
  type Path = seq<string>

  datatype Node = File(data: Bytes) | Dir | Link(target: string)

  type Tree = map<Path, Node>

  // How one call fares. A lost reply is an operation that took effect and was
  // reported as failed.
  datatype Fault = Works | Refuses | LosesReply

  datatype Removal = Removed | NotExist | NotRemoved

  predicate Under(p: Path, q: Path) {
    p <= q
  }

  predicate Inside(p: Path, q: Path) {
    p < q
  }

  predicate IsDir(t: Tree, p: Path) {
    p == [] || (p in t && t[p].Dir?)
  }

  function Parent(p: Path): Path
    requires p != []
  {
    p[..|p| - 1]
  }

  // Every entry sits in a directory.
  ghost predicate ParentClosed(t: Tree) {
    forall p :: p in t ==> p != [] && IsDir(t, Parent(p))
  }

  function Subtree(t: Tree, p: Path): set<Path> {
    set q | q in t && Under(p, q)
  }

  // `after` is `before` with some entries removed.
  ghost predicate Shrunk(before: Tree, after: Tree) {
    forall q :: q in after ==> q in before && before[q] == after[q]
  }

  // The directory on the way to an entry is itself an entry.
  lemma {:induction false} AncestorPresent(t: Tree, p: Path, q: Path)
    requires ParentClosed(t) && q in t && Under(p, q) && p != []
    ensures p in t && (p != q ==> t[p].Dir?)
    decreases |q|
  {
    if p != q {
      assert Under(p, Parent(q));
      if Parent(q) != p {
        AncestorPresent(t, p, Parent(q));
      }
    }
  }

  lemma WayIsThere(t: Tree, p: Path)
    requires ParentClosed(t) && IsDir(t, p)
    ensures forall q :: Under(q, p) ==> IsDir(t, q)
  {
    forall q | Under(q, p) && q != [] ensures IsDir(t, q) {
      AncestorPresent(t, q, p);
    }
  }

  lemma OneMoreDir(before: Tree, mid: Tree, p: Path)
    requires p != [] && WithDirs(before, mid, Parent(p)) && p !in mid
    ensures WithDirs(before, mid[p := Dir], p) && (ParentClosed(mid) ==> ParentClosed(mid[p := Dir]))
  {
    assert Under(Parent(p), Parent(p));
    forall q | Under(q, p) && q != p ensures Under(q, Parent(p)) {}
  }

  class FileSystem {
    var nodes: Tree
    var clock: nat
    const faults: nat -> Fault
    ghost var trace: seq<Tree>

    constructor (nodes: Tree, faults: nat -> Fault)
      ensures this.nodes == nodes && this.faults == faults && clock == 0 && trace == []
    {
      this.nodes, this.faults, clock, trace := nodes, faults, 0, [];
    }

    // Some call between two moments did not work.
    ghost predicate Faulty(since: nat)
      reads this
    {
      exists t :: since <= t < clock && !faults(t).Works?
    }

    ghost predicate ReplyLost(since: nat)
      reads this
    {
      exists t :: since <= t < clock && faults(t).LosesReply?
    }

    method Lstat(p: Path) returns (r: Option<Node>)
      modifies this`clock
      ensures clock == old(clock) + 1
      ensures r == if faults(old(clock)).Works? then Lookup(nodes, p) else None
    {
      r := if faults(clock).Works? then Lookup(nodes, p) else None;
      clock := clock + 1;
    }

    // The names in a directory, each once, in some order.
    method ReadDir(p: Path) returns (r: Option<seq<string>>)
      modifies this`clock
      ensures clock == old(clock) + 1
      ensures r.Some? <==> IsDir(nodes, p) && faults(old(clock)).Works?
      ensures r.Some? ==> NoDuplicates(r.value) && forall x :: x in r.value <==> p + [x] in nodes
    {
      if !IsDir(nodes, p) || !faults(clock).Works? {
        clock := clock + 1;
        return None;
      }
      clock := clock + 1;
      var names: seq<string> := [];
      var left := set q | q in nodes && |q| == |p| + 1 && Under(p, q);
      while left != {}
        invariant forall q :: q in left ==> q in nodes && |q| == |p| + 1 && Under(p, q)
        invariant NoDuplicates(names)
        invariant forall x :: x in names <==> p + [x] in nodes && p + [x] !in left
        decreases left
      {
        var q :| q in left;
        var name := q[|p|];
        assert q == p + [name];
        assert forall x :: p + [x] == q ==> x == name by {
          assert forall x :: (p + [x])[|p|] == x;
        }
        names, left := names + [name], left - {q};
      }
      r := Some(names);
    }

    // Applies a change to the tree according to the fate of the call.
    method Change(can: bool, after: Tree) returns (ok: bool)
      modifies this`nodes, this`clock, this`trace
      ensures clock == old(clock) + 1
      ensures ok == (can && faults(old(clock)).Works?)
      ensures nodes == if can && !faults(old(clock)).Refuses? then after else old(nodes)
      ensures trace == old(trace) + [nodes]
    {
      ok := can && faults(clock).Works?;
      if can && !faults(clock).Refuses? {
        nodes := after;
      }
      trace := trace + [nodes];
      clock := clock + 1;
    }

    // Removes a file or a link; a missing one is told apart from a failure.
    method Remove(p: Path) returns (r: Removal)
      modifies this`nodes, this`clock, this`trace
      ensures clock == old(clock) + 1
      ensures var can := p in old(nodes) && !old(nodes)[p].Dir?;
              && nodes == (if can && !faults(old(clock)).Refuses? then old(nodes) - {p} else old(nodes))
              && r == (if !faults(old(clock)).Works? then NotRemoved
                       else if can then Removed
                       else if p in old(nodes) then NotRemoved
                       else NotExist)
      ensures trace == old(trace) + [nodes]
    {
      var present, works := p in nodes, faults(clock).Works?;
      var ok := Change(present && !nodes[p].Dir?, nodes - {p});
      r := if ok then Removed else if works && !present then NotExist else NotRemoved;
    }

    // Only an empty directory can be removed.
    method RemoveDirectory(p: Path) returns (ok: bool)
      modifies this`nodes, this`clock, this`trace
      ensures clock == old(clock) + 1
      ensures var can := p in old(nodes) && old(nodes)[p].Dir? && Subtree(old(nodes), p) == {p};
              ok == (can && faults(old(clock)).Works?)
              && nodes == (if can && !faults(old(clock)).Refuses? then old(nodes) - {p} else old(nodes))
              && trace == old(trace) + [nodes]
    {
      ok := Change(p in nodes && nodes[p].Dir? && Subtree(nodes, p) == {p}, nodes - {p});
    }

    // Opens a new file, refusing to reuse an existing entry.
    method CreateExclusive(p: Path) returns (ok: bool)
      modifies this`nodes, this`clock, this`trace
      ensures clock == old(clock) + 1
      ensures var can := p != [] && p !in old(nodes) && IsDir(old(nodes), Parent(p));
              && ok == (can && faults(old(clock)).Works?)
              && nodes == (if can && !faults(old(clock)).Refuses? then old(nodes)[p := File([])] else old(nodes))
      ensures trace == old(trace) + [nodes]
    {
      ok := Change(p != [] && p !in nodes && IsDir(nodes, Parent(p)), nodes[p := File([])]);
    }

    // Creates a directory and its missing parents; an existing directory will do,
    // anything else on the way is an error.
    method MkdirAll(p: Path) returns (ok: bool)
      requires ParentClosed(nodes)
      modifies this`nodes, this`clock, this`trace
      ensures clock >= old(clock) && ParentClosed(nodes)
      ensures OnTheWay(old(nodes), nodes, p)
      ensures ok ==> WithDirs(old(nodes), nodes, p)
      ensures !ok ==> Faulty(old(clock)) || exists q :: Under(q, p) && q in old(nodes) && !old(nodes)[q].Dir?
      decreases |p|
    {
      ghost var start := clock;
      if IsDir(nodes, p) {
        WayIsThere(nodes, p);
        return true;
      }
      if p in nodes {
        assert Under(p, p);
        return false;
      }
      ok := MkdirAll(Parent(p));
      if !ok {
        if q :| Under(q, Parent(p)) && q in old(nodes) && !old(nodes)[q].Dir? {
          assert Under(q, p);
        }
        return;
      }
      ghost var mid, now := nodes, clock;
      ok := Change(true, nodes[p := Dir]);
      assert !ok ==> start <= now < clock && !faults(now).Works?;
      OneMoreDir(old(nodes), mid, p);
    }

    method Append(p: Path, chunk: Bytes) returns (ok: bool)
      requires p in nodes && nodes[p].File?
      modifies this`nodes, this`clock, this`trace
      ensures clock == old(clock) + 1 && ok == faults(old(clock)).Works?
      ensures nodes
              == if faults(old(clock)).Refuses? then old(nodes) else old(nodes)[p := File(old(nodes)[p].data + chunk)]
      ensures trace == old(trace) + [nodes]
    {
      ok := Change(true, nodes[p := File(nodes[p].data + chunk)]);
    }

    method Close() returns (ok: bool)
      modifies this`clock
      ensures clock == old(clock) + 1 && ok == faults(old(clock)).Works?
    {
      ok := faults(clock).Works?;
      clock := clock + 1;
    }

    // Renames a file; an existing file or link at the target is replaced
    // atomically, or refused when the server has no atomic replacement.
    method Rename(p: Path, q: Path, replace: bool) returns (ok: bool)
      requires p in nodes && nodes[p].File? && p != q
      modifies this`nodes, this`clock, this`trace
      ensures clock == old(clock) + 1
      ensures ok == (CanRename(old(nodes), q, replace) && faults(old(clock)).Works?)
      ensures nodes == if CanRename(old(nodes), q, replace) && !faults(old(clock)).Refuses?
                       then (old(nodes) - {p})[q := old(nodes)[p]] else old(nodes)
      ensures trace == old(trace) + [nodes]
    {
      ok := Change(CanRename(nodes, q, replace), (nodes - {p})[q := nodes[p]]);
    }
  }

  // Between two states only missing directories leading to `p` were added.
  ghost predicate OnTheWay(before: Tree, after: Tree, p: Path) {
    forall q :: Lookup(after, q) == Lookup(before, q) || (q !in before && Under(q, p) && Lookup(after, q) == Some(Dir))
  }

  // And all of them are there.
  ghost predicate WithDirs(before: Tree, after: Tree, p: Path) {
    (forall q :: Under(q, p) ==> IsDir(after, q))
    && forall q :: Lookup(after, q) == if q !in before && q != [] && Under(q, p) then Some(Dir) else Lookup(before, q)
  }

  predicate CanRename(t: Tree, q: Path, replace: bool) {
    q != [] && IsDir(t, Parent(q)) && (q !in t || (replace && !t[q].Dir?))
  }
}
