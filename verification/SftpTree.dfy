// Uploading a selected file or directory tree (app_sftp_upload.go).
module SftpTree {
  import opened Common
  import opened FileTree
  import opened SftpTransfer

  // A local entry as Lstat and ReadDir present it. A directory lists its
  // entries by name; links and special files carry nothing.
  datatype Local =
    | Regular(source: Source)
    | Directory(entries: seq<Entry>)
    | Special
    | Unreadable

  datatype Entry = Entry(name: string, node: Local)

  predicate ValidName(name: string) {
    name != "" && name != "." && name != ".." && name != "/"
  }

  // Names in one directory differ; nothing else is asked of the tree.
  ghost predicate WellNamed(node: Local) {
    node.Directory? ==>
      && (forall i, j :: 0 <= i < j < |node.entries| ==> node.entries[i].name != node.entries[j].name)
      && (forall i :: 0 <= i < |node.entries| ==> WellNamed(node.entries[i].node))
  }

  // Every entry is a readable file or directory with a usable name.
  ghost predicate Uploadable(name: string, node: Local)
    decreases node
  {
    ValidName(name) && (node.Regular? || node.Directory?)
    && (node.Directory? ==> forall i :: 0 <= i < |node.entries| ==>
          Uploadable(node.entries[i].name, node.entries[i].node))
  }

  // The remote entries the local tree asks for, rooted at `path`.
  function Mirror(path: Path, node: Local): Tree
    decreases node
  {
    match node
    case Regular(source) => map[path := File(source.content)]
    case Directory(entries) => map[path := Dir] + MirrorAll(path, entries)
    case _ => map[]
  }

  function MirrorAll(path: Path, entries: seq<Entry>): Tree
    decreases entries
  {
    if entries == [] then map[]
    else
      var last := entries[|entries| - 1];
      MirrorAll(path, entries[..|entries| - 1]) + Mirror(path + [last.name], last.node)
  }

  /****** What the mirror holds ******/

  lemma {:induction false} MirrorUnder(path: Path, node: Local, q: Path)
    requires q in Mirror(path, node)
    ensures Under(path, q)
    decreases node
  {
    if node.Directory? && q != path {
      MirrorAllInside(path, node.entries, q);
    }
  }

  lemma {:induction false} MirrorAllInside(path: Path, entries: seq<Entry>, q: Path)
    requires q in MirrorAll(path, entries)
    ensures Inside(path, q)
    decreases entries
  {
    if entries != [] {
      var last := entries[|entries| - 1];
      if q in Mirror(path + [last.name], last.node) {
        MirrorUnder(path + [last.name], last.node, q);
        assert (path + [last.name])[..|path|] == path;
      } else {
        MirrorAllInside(path, entries[..|entries| - 1], q);
      }
    }
  }

  // The mirror of a directory holds the mirror of each of its entries.
  lemma {:induction false} MirrorKeeps(path: Path, entries: seq<Entry>, i: nat, q: Path)
    requires i < |entries| && q in Mirror(path + [entries[i].name], entries[i].node)
    requires forall j, k :: 0 <= j < k < |entries| ==> entries[j].name != entries[k].name
    ensures q in MirrorAll(path, entries)
            && MirrorAll(path, entries)[q] == Mirror(path + [entries[i].name], entries[i].node)[q]
    decreases |entries|
  {
    var n := |entries| - 1;
    if i < n {
      MirrorKeeps(path, entries[..n], i, q);
      MirrorUnder(path + [entries[i].name], entries[i].node, q);
      NameAt(path, entries[i].name, q);
      if q in Mirror(path + [entries[n].name], entries[n].node) {
        MirrorUnder(path + [entries[n].name], entries[n].node, q);
        NameAt(path, entries[n].name, q);
      }
    }
  }

  lemma NameAt(path: Path, name: string, q: Path)
    requires Under(path + [name], q)
    ensures q[|path|] == name
  {}

  /****** The upload ******/

  // The whole remote state after uploading `node` as `path`.
  ghost predicate Mirrored(before: Tree, after: Tree, path: Path, node: Local) {
    forall q :: Lookup(after, q) ==
      if q in Mirror(path, node) then Some(Mirror(path, node)[q])
      else if node.Directory? && q !in before && q != [] && Inside(q, path) then Some(Dir)
      else Lookup(before, q)
  }

  // Temporary names and cancellation, file by file.
  datatype Job = Job(suffix: Path -> string, ctx: Path -> Context, posixRename: bool)

  // Whatever already stood outside `path` stands unchanged.
  ghost predicate Outside(before: Tree, after: Tree, path: Path) {
    forall q :: q in before && !Under(path, q) ==> Lookup(after, q) == Lookup(before, q)
  }

  // Every file can be read to its end undisturbed, and no temporary name is the
  // name of another entry of its directory.
  ghost predicate Sendable(path: Path, node: Local, job: Job)
    decreases node
  {
    match node
    case Regular(source) => source.regular && Smooth(job.ctx(path), source)
    case Directory(entries) =>
      && TempsApart(path, entries, job)
      && forall i :: 0 <= i < |entries| ==> Sendable(path + [entries[i].name], entries[i].node, job)
    case _ => false
  }

  ghost predicate TempsApart(path: Path, entries: seq<Entry>, job: Job) {
    forall i, j :: 0 <= i < |entries| && 0 <= j < |entries| ==>
      TempOf(path, entries[i].name, job) != path + [entries[j].name]
  }

  function TempOf(path: Path, name: string, job: Job): Path {
    TempPath(path + [name], job.suffix(path + [name]))
  }

  // Nothing stands at or below `path`, and nothing is in the way to it.
  ghost predicate Room(t: Tree, directory: Path, name: string, node: Local, job: Job) {
    && (forall q :: q in t ==> !Under(directory + [name], q))
    && (node.Regular? ==> IsDir(t, directory) && TempOf(directory, name, job) !in t)
    && (node.Directory? ==> forall q :: q in t && Under(q, directory) ==> t[q].Dir?)
  }

  lemma MirrorAllChild(path: Path, entries: seq<Entry>, q: Path) returns (j: nat)
    requires q in MirrorAll(path, entries)
    ensures j < |entries| && Under(path + [entries[j].name], q)
    decreases entries
  {
    var n := |entries| - 1;
    if q in Mirror(path + [entries[n].name], entries[n].node) {
      MirrorUnder(path + [entries[n].name], entries[n].node, q);
      j := n;
    } else {
      j := MirrorAllChild(path, entries[..n], q);
    }
  }

  // There is room for the next entry of a directory that was not there before.
  lemma RoomForNext(before: Tree, mid: Tree, path: Path, entries: seq<Entry>, i: nat, job: Job)
    requires i < |entries| && MirroredAll(before, mid, path, entries[..i]) && ParentClosed(mid) && IsDir(mid, path)
    requires NothingInside(before, path)
    requires forall j, k :: 0 <= j < k < |entries| ==> entries[j].name != entries[k].name
    requires TempsApart(path, entries, job)
    ensures Room(mid, path, entries[i].name, entries[i].node, job)
  {
    var name, temp := entries[i].name, TempOf(path, entries[i].name, job);
    assert Parent(path + [name]) == path && |temp| == |path| + 1 && Inside(path, temp);
    forall q | q in mid ensures !Under(path + [name], q) && q != temp {
      UnderChild(path, name, q);
      if Inside(path, q) {
        assert Lookup(mid, q).Some?;
        var j := MirrorAllChild(path, entries[..i], q);
        UnderChild(path, entries[j].name, q);
        assert |q| == |path| + 1 ==> q == path + [entries[j].name];
      }
    }
    AncestorsAreDirs(mid, path);
  }

  lemma UnderChild(path: Path, name: string, q: Path)
    ensures Under(path + [name], q) ==> Inside(path, q) && q[|path|] == name
  {}

  lemma AncestorsAreDirs(t: Tree, path: Path)
    requires ParentClosed(t) && IsDir(t, path)
    ensures forall q :: q in t && Under(q, path) ==> t[q].Dir?
  {
    forall q | q in t && Under(q, path) ensures t[q].Dir? {
      if q != [] {
        AncestorPresent(t, q, path);
      }
    }
  }

  // The directory exists, so uploading into it creates no other directory.
  lemma AncestorsPresent(t: Tree, path: Path)
    requires ParentClosed(t) && IsDir(t, path)
    ensures forall q :: q != [] && Under(q, path) ==> q in t
  {
    forall q | q != [] && Under(q, path) ensures q in t {
      AncestorPresent(t, q, path);
    }
  }

  lemma ReplacedClosed(before: Tree, after: Tree, dest: Path, data: Bytes)
    requires ParentClosed(before) && CanRename(before, dest, true)
    requires forall q :: Lookup(after, q) == if q == dest then Some(File(data)) else Lookup(before, q)
    ensures ParentClosed(after)
  {
    forall p | p in after ensures p != [] && IsDir(after, Parent(p)) {
      assert Lookup(after, p).Some?;
      assert p != dest ==> p in before;
      assert IsDir(before, Parent(p));
      assert Parent(p) != dest;
      assert Lookup(after, Parent(p)) == Lookup(before, Parent(p));
    }
  }

  method UploadOne(remote: FileSystem, dest: Path, source: Source, job: Job) returns (ok: bool)
    requires ParentClosed(remote.nodes) && dest != []
    modifies remote
    ensures remote.clock >= old(remote.clock)
    ensures ok ==> ParentClosed(remote.nodes) && Mirrored(old(remote.nodes), remote.nodes, dest, Regular(source))
    ensures !ok ==> Outside(old(remote.nodes), remote.nodes, dest)
    ensures (source.regular && Smooth(job.ctx(dest), source) && !remote.Faulty(old(remote.clock))
             && Free(old(remote.nodes), dest, job.suffix(dest), job.posixRename)) ==> ok
  {
    ghost var before := remote.nodes;
    var r := UploadFile(job.ctx(dest), remote, source, dest, job.suffix(dest), job.posixRename);
    ok := r.Completed?;
    if ok {
      forall q ensures Lookup(remote.nodes, q) == if q == dest then Some(File(source.content)) else Lookup(before, q) {
        assert TempPath(dest, job.suffix(dest)) !in before;
      }
      ReplacedClosed(before, remote.nodes, dest, source.content);
    }
  }

  ghost predicate AllUploadable(entries: seq<Entry>) {
    forall i :: 0 <= i < |entries| ==> Uploadable(entries[i].name, entries[i].node)
  }

  ghost predicate NothingInside(t: Tree, path: Path) {
    forall q :: q in t ==> !Inside(path, q)
  }

  // What the entries uploaded so far leave.
  ghost predicate MirroredAll(before: Tree, after: Tree, path: Path, entries: seq<Entry>) {
    forall q ::
      Lookup(after, q)
      == if q in MirrorAll(path, entries) then Some(MirrorAll(path, entries)[q]) else Lookup(before, q)
  }

  lemma OneMoreEntry(before: Tree, mid: Tree, after: Tree, path: Path, entries: seq<Entry>, n: nat)
    requires n < |entries| && ParentClosed(mid) && IsDir(mid, path)
    requires MirroredAll(before, mid, path, entries[..n])
    requires Mirrored(mid, after, path + [entries[n].name], entries[n].node)
    ensures MirroredAll(before, after, path, entries[..n + 1])
  {
    assert entries[..n + 1][..n] == entries[..n];
    var e := entries[n];
    AncestorsPresent(mid, path);
    forall q ensures Lookup(after, q)
                  == if q in MirrorAll(path, entries[..n + 1]) then Some(MirrorAll(path, entries[..n + 1])[q])
                     else Lookup(before, q) {
      assert Inside(q, path + [e.name]) ==> Under(q, path);
      assert Lookup(mid, q)
          == if q in MirrorAll(path, entries[..n]) then Some(MirrorAll(path, entries[..n])[q]) else Lookup(before, q);
    }
  }

  lemma StillDirectory(mid: Tree, after: Tree, path: Path, name: string, node: Local)
    requires IsDir(mid, path) && Mirrored(mid, after, path + [name], node)
    ensures IsDir(after, path)
  {
    if path in Mirror(path + [name], node) {
      MirrorUnder(path + [name], node, path);
    }
    assert Lookup(after, path) == Lookup(mid, path);
  }

  method UploadEntries(remote: FileSystem, path: Path, entries: seq<Entry>, job: Job) returns (ok: bool)
    requires ParentClosed(remote.nodes) && IsDir(remote.nodes, path)
    requires WellNamed(Directory(entries))
    modifies remote
    ensures remote.clock >= old(remote.clock)
    ensures ok ==> AllUploadable(entries)
    ensures ok ==> ParentClosed(remote.nodes) && MirroredAll(old(remote.nodes), remote.nodes, path, entries)
    ensures !ok ==> Outside(old(remote.nodes), remote.nodes, path)
    ensures (AllUploadable(entries) && Sendable(path, Directory(entries), job) && !remote.Faulty(old(remote.clock))
             && NothingInside(old(remote.nodes), path)) ==> ok
    decreases entries
  {
    ghost var before, start := remote.nodes, remote.clock;
    ok := true;
    for i := 0 to |entries|
      invariant ok && ParentClosed(remote.nodes) && IsDir(remote.nodes, path) && remote.clock >= start
      invariant AllUploadable(entries[..i])
      invariant MirroredAll(before, remote.nodes, path, entries[..i])
    {
      assert entries[..i + 1] == entries[..i] + [entries[i]];
      ghost var mid, now := remote.nodes, remote.clock;
      assert entries[i] in entries;
      ok := UploadLocalPath(remote, path, entries[i].name, entries[i].node, job);
      if !ok {
        OutsideChild(before, mid, remote.nodes, path, entries, i);
        assert remote.Faulty(now) ==> remote.Faulty(start);
        if Sendable(path, Directory(entries), job) && NothingInside(before, path) {
          RoomForNext(before, mid, path, entries, i, job);
        }
        return;
      }
      OneMoreEntry(before, mid, remote.nodes, path, entries, i);
      StillDirectory(mid, remote.nodes, path, entries[i].name, entries[i].node);
    }
    assert entries[..|entries|] == entries;
  }

  lemma OutsideChild(before: Tree, mid: Tree, after: Tree, path: Path, entries: seq<Entry>, i: nat)
    requires i < |entries| && MirroredAll(before, mid, path, entries[..i])
    requires Outside(mid, after, path + [entries[i].name])
    ensures Outside(before, after, path)
  {
    forall q | q in before && !Under(path, q) ensures Lookup(after, q) == Lookup(before, q) {
      if q in MirrorAll(path, entries[..i]) {
        MirrorAllInside(path, entries[..i], q);
      }
      assert Lookup(mid, q) == Lookup(before, q);
      UnderChild(path, entries[i].name, q);
    }
  }

  lemma CombineMirror(before: Tree, mid: Tree, after: Tree, path: Path, entries: seq<Entry>)
    requires path != [] && WithDirs(before, mid, path) && MirroredAll(mid, after, path, entries)
    ensures Mirrored(before, after, path, Directory(entries))
  {
    var m := Mirror(path, Directory(entries));
    assert m == map[path := Dir] + MirrorAll(path, entries);
    assert IsDir(mid, path) by {
      assert Under(path, path);
    }
    forall q ensures Lookup(after, q)
                  == if q in m then Some(m[q])
                     else if q !in before && q != [] && Inside(q, path) then Some(Dir) else Lookup(before, q) {
      if q in MirrorAll(path, entries) {
        MirrorAllInside(path, entries, q);
      }
      assert Lookup(after, q)
          == if q in MirrorAll(path, entries) then Some(MirrorAll(path, entries)[q]) else Lookup(mid, q);
      assert Lookup(mid, q) == if q !in before && q != [] && Under(q, path) then Some(Dir) else Lookup(before, q);
      assert Under(q, path) <==> Inside(q, path) || q == path;
    }
  }

  lemma NotInTheWay(t: Tree, directory: Path, name: string)
    requires forall q :: q in t && Under(q, directory) ==> t[q].Dir?
    requires forall q :: q in t ==> !Under(directory + [name], q)
    ensures forall q :: q in t && Under(q, directory + [name]) ==> t[q].Dir?
  {}

  lemma OutsideBelow(before: Tree, mid: Tree, after: Tree, path: Path)
    requires WithDirs(before, mid, path) && Outside(mid, after, path)
    ensures Outside(before, after, path)
  {}

  // Uploads a local entry into a remote directory. Success means every entry of
  // the local tree was a readable file or directory, each stands at its remote
  // place with its content, and everything else remote is as before except for
  // missing directories above. It fails only for a reason, and then leaves
  // everything that stood outside the target unchanged.
  method UploadLocalPath(remote: FileSystem?, directory: Path, name: string, node: Local, job: Job) returns (ok: bool)
    requires remote != null ==> ParentClosed(remote.nodes)
    requires WellNamed(node)
    modifies remote
    ensures ok ==> remote != null && Uploadable(name, node)
    ensures ok ==> ParentClosed(remote.nodes) && Mirrored(old(remote.nodes), remote.nodes, directory + [name], node)
    ensures remote != null ==> remote.clock >= old(remote.clock)
    ensures remote != null && !ok ==> Outside(old(remote.nodes), remote.nodes, directory + [name])
    ensures name in {"", ".", "..", "/"} ==> !ok && (remote != null ==> remote.nodes == old(remote.nodes))
    ensures (remote != null && Uploadable(name, node) && Sendable(directory + [name], node, job)
             && Room(old(remote.nodes), directory, name, node, job) && !remote.Faulty(old(remote.clock))) ==> ok
    decreases node
  {
    if !ValidName(name) {
      return false;
    }
    match node
    case Regular(source) =>
      if remote == null {
        return false;
      }
      assert Parent(directory + [name]) == directory && Under(directory + [name], directory + [name]);
      ok := UploadOne(remote, directory + [name], source, job);
    case Directory(entries) =>
      if remote == null {
        return false;
      }
      ghost var before, start := remote.nodes, remote.clock;
      var path := directory + [name];
      ok := remote.MkdirAll(path);
      if !ok {
        if Room(before, directory, name, node, job) {
          NotInTheWay(before, directory, name);
        }
        return;
      }
      ghost var mid, now := remote.nodes, remote.clock;
      assert IsDir(mid, path) by {
        assert Under(path, path);
      }
      ok := UploadEntries(remote, path, entries, job);
      if ok {
        CombineMirror(before, mid, remote.nodes, path, entries);
      } else {
        OutsideBelow(before, mid, remote.nodes, path);
        assert remote.Faulty(now) ==> remote.Faulty(start);
      }
    case _ =>
      ok := false;
  }
}
