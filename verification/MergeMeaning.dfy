// What the merge loops compute, item by item, and where the store ends.
module MergeMeaning {
  import opened Common
  import opened Vault
  import opened Models
  import opened Storage
  import opened Envelope
  import opened HashStability
  import opened SyncProtocol
  import opened Merge

  lemma {:induction false} ByIDKeys<T>(list: seq<T>, id: T -> string)
    ensures forall x :: x in ByID(list, id) ==> x != "" && id(ByID(list, id)[x]) == x && ByID(list, id)[x] in list
  {
    if list != [] {
      ByIDKeys(list[..|list| - 1], id);
    }
  }

  // A list without repeated or empty ids is its index.
  lemma {:induction false} ByIDOfDistinct<T>(list: seq<T>, id: T -> string)
    requires DistinctIDs(list, id) && forall x :: x in list ==> id(x) != ""
    ensures forall x :: x in list ==> id(x) in ByID(list, id) && ByID(list, id)[id(x)] == x
  {
    if list != [] {
      var last := |list| - 1;
      assert forall x :: x in list[..last] ==> x in list;
      ByIDOfDistinct(list[..last], id);
      ByIDKeys(list[..last], id);
      forall x | x in list ensures id(x) in ByID(list, id) && ByID(list, id)[id(x)] == x {
        if x in list[..last] {
          var i :| 0 <= i < last && list[i] == x;
          assert id(list[i]) != id(list[last]);
        }
      }
    }
  }

  lemma AppendedID<T>(list: seq<T>, x: T, id: T -> string)
    requires id(x) != ""
    ensures ByID(list + [x], id) == ByID(list, id)[id(x) := x]
  {}

  ghost predicate KeyedBy<T(!new)>(m: map<string, T>, id: T -> string) {
    forall x :: x in m ==> x != "" && id(m[x]) == x
  }

  /****** Folders ******/

  function KeptFolder(local: Option<Folder>, remote: Option<Folder>, previous: Option<Hash>): Option<Folder> {
    if local.Some? && remote.Some? then Some(ChooseFolder(local.value, remote.value, previous))
    else if local.Some? then if previous == Some(FolderHash(local.value)) then None else local
    else if previous.Some? then None else remote
  }

  function KeptFolderAt(local: Folders, remote: Folders, snapshot: Items, id: string): Option<Folder> {
    KeptFolder(Lookup(local, id), Lookup(remote, id), Lookup(snapshot, FolderKey(id)))
  }

  function HashFolder(f: Option<Folder>): Option<Hash> {
    if f.Some? then Some(FolderHash(f.value)) else None
  }

  lemma KeptFolderHash(local: Option<Folder>, remote: Option<Folder>, previous: Option<Hash>)
    ensures HashFolder(KeptFolder(local, remote, previous)) == MergeOne(HashFolder(local), HashFolder(remote), previous)
  {
  }

  function DroppedFolders(order: seq<string>, local: Folders, remote: Folders, snapshot: Items): set<string> {
    set id | id in order && id in local && KeptFolderAt(local, remote, snapshot, id).None?
  }

  function UnfileAll(rows: Rows, ids: set<string>): Rows {
    map x | x in rows ::
      if rows[x].folderID.Some? && rows[x].folderID.value in ids then rows[x].(folderID := None) else rows[x]
  }

  lemma VisitFolderMeaning(s: FolderState, id: string, local: Option<Folder>, remote: Option<Folder>,
                           previous: Option<Hash>, x: string)
    requires id != "" && (local.Some? ==> local.value.id == id) && (remote.Some? ==> remote.value.id == id)
    requires Lookup(s.folders, id) == local
    ensures var s' := VisitFolder(s, id, local, remote, previous);
            var kept := KeptFolder(local, remote, previous);
            && Lookup(s'.folders, x) == (if x == id then kept else Lookup(s.folders, x))
            && s'.merged == (if kept.Some? then s.merged + [kept.value] else s.merged)
            && s'.rows == (if local.Some? && kept.None? then Unfile(s.rows, id) else s.rows)
  {
  }

  lemma NotInPrefix(order: seq<string>, x: string)
    requires NoDuplicates(order) && order != []
    ensures var n := |order| - 1;
            NoDuplicates(order[..n]) && order[n] !in order[..n] && (x in order <==> x in order[..n] || x == order[n])
  {}

  // The folder loop leaves, for each id, the merged folder in the store and in
  // the returned list.
  lemma {:induction false} FolderLoop(rows: Rows, folders: Folders, order: seq<string>, remote: Folders,
                                      snapshot: Items, x: string)
    requires NoDuplicates(order) && KeyedBy(folders, FolderID) && KeyedBy(remote, FolderID)
    requires forall id :: id in order ==> id in folders || id in remote
    ensures var s := VisitFolders(FolderState(rows, folders, []), order, folders, remote, snapshot);
            var kept := KeptFolderAt(folders, remote, snapshot, x);
            && Lookup(s.folders, x) == (if x in order then kept else Lookup(folders, x))
            && Lookup(ByID(s.merged, FolderID), x) == (if x in order then kept else None)
    decreases |order|
  {
    if order != [] {
      var n := |order| - 1;
      var id := order[n];
      NotInPrefix(order, x);
      FolderLoop(rows, folders, order[..n], remote, snapshot, x);
      FolderLoop(rows, folders, order[..n], remote, snapshot, id);
      var s := VisitFolders(FolderState(rows, folders, []), order[..n], folders, remote, snapshot);
      VisitFolderMeaning(s, id, Lookup(folders, id), Lookup(remote, id), Lookup(snapshot, FolderKey(id)), x);
      var kept := KeptFolderAt(folders, remote, snapshot, id);
      if kept.Some? {
        AppendedID(s.merged, kept.value, FolderID);
      }
    }
  }

  lemma UnfileOneMore(rows: Rows, ids: set<string>, id: string)
    ensures Unfile(UnfileAll(rows, ids), id) == UnfileAll(rows, ids + {id})
  {
  }

  lemma DroppedStep(order: seq<string>, local: Folders, remote: Folders, snapshot: Items)
    requires order != []
    ensures var n := |order| - 1;
            DroppedFolders(order, local, remote, snapshot)
            == DroppedFolders(order[..n], local, remote, snapshot)
               + (if order[n] in local && KeptFolderAt(local, remote, snapshot, order[n]).None? then {order[n]} else {})
  {}

  // It clears exactly the connections filed in a dropped folder.
  lemma {:induction false} FolderLoopRows(rows: Rows, folders: Folders, order: seq<string>, remote: Folders,
                                          snapshot: Items)
    requires NoDuplicates(order) && KeyedBy(folders, FolderID) && KeyedBy(remote, FolderID)
    requires forall id :: id in order ==> id in folders || id in remote
    ensures VisitFolders(FolderState(rows, folders, []), order, folders, remote, snapshot).rows
         == UnfileAll(rows, DroppedFolders(order, folders, remote, snapshot))
    decreases |order|
  {
    if order == [] {
      assert UnfileAll(rows, {}) == rows;
      assert DroppedFolders(order, folders, remote, snapshot) == {};
    } else {
      var n := |order| - 1;
      var id := order[n];
      NotInPrefix(order, id);
      FolderLoopRows(rows, folders, order[..n], remote, snapshot);
      FolderLoop(rows, folders, order[..n], remote, snapshot, id);
      var s := VisitFolders(FolderState(rows, folders, []), order[..n], folders, remote, snapshot);
      VisitFolderMeaning(s, id, Lookup(folders, id), Lookup(remote, id), Lookup(snapshot, FolderKey(id)), id);
      DroppedStep(order, folders, remote, snapshot);
      var before := DroppedFolders(order[..n], folders, remote, snapshot);
      if id in folders && KeptFolderAt(folders, remote, snapshot, id).None? {
        UnfileOneMore(rows, before, id);
      } else {
        assert before + {} == before;
      }
    }
  }

  /****** Connections ******/

  function KeptConnection(local: Option<Connection>, remote: Option<Connection>,
                          previous: Option<Hash>): Option<Connection> {
    if local.Some? && remote.Some? then Some(ChooseConnection(local.value, remote.value, previous))
    else if local.Some? then if previous == Some(HashOf(local.value)) then None else local
    else if previous.Some? then None else remote
  }

  function HashConnection(c: Option<Connection>): Option<Hash> {
    if c.Some? then Some(HashOf(c.value)) else None
  }

  lemma KeptConnectionHash(local: Option<Connection>, remote: Option<Connection>, previous: Option<Hash>)
    ensures HashConnection(KeptConnection(local, remote, previous))
         == MergeOne(HashConnection(local), HashConnection(remote), previous)
  {
  }

  lemma KeptIsEither(local: Option<Connection>, remote: Option<Connection>, previous: Option<Hash>)
    ensures var kept := KeptConnection(local, remote, previous); kept.Some? ==> kept == local || kept == remote
  {
  }

  function Rewritten(row: Option<Connection>, c: Connection, cx: Context): Option<Connection> {
    Some(StoredRow(row, TranslateConnection(c, cx.localKey, cx.keys, cx.entropy), cx.entropy.uuid))
  }

  // The row of one id after its turn: rewritten when the remote side decides,
  // deleted when the merge drops it, untouched when the local side is kept.
  function NewRow(row: Option<Connection>, local: Option<Connection>, remote: Option<Connection>,
                  previous: Option<Hash>, cx: Context): Option<Connection> {
    var kept := KeptConnection(local, remote, previous);
    if kept.None? then if local.Some? then None else row
    else if remote.Some? && HashOf(kept.value) == HashOf(remote.value) then Rewritten(row, kept.value, cx)
    else row
  }

  function KeptConnectionAt(local: Rows, remote: Rows, snapshot: Items, id: string): Option<Connection> {
    KeptConnection(Lookup(local, id), Lookup(remote, id), Previous(snapshot, ConnKey(id)))
  }

  function NewRowAt(rows: Rows, local: Rows, remote: Rows, snapshot: Items, cx: Context,
                    id: string): Option<Connection> {
    NewRow(Lookup(rows, id), Lookup(local, id), Lookup(remote, id), Previous(snapshot, ConnKey(id)), cx)
  }

  // The copies of a connection are its own and of a known protocol.
  predicate Visitable(id: string, local: Option<Connection>, remote: Option<Connection>) {
    && id != "" && (local.Some? ==> local.value.id == id && ValidProtocol(local.value))
    && (remote.Some? ==> remote.value.id == id && ValidProtocol(remote.value))
  }

  lemma VisitMeaning(s: ConnState, id: string, local: Option<Connection>, remote: Option<Connection>,
                     previous: Option<Hash>, cx: Context, x: string)
    requires !s.refused && Visitable(id, local, remote)
    ensures var s' := VisitConnection(s, id, local, remote, previous, cx);
            var kept := KeptConnection(local, remote, previous);
            && !s'.refused
            && Lookup(s'.rows, x) == (if x == id then NewRow(Lookup(s.rows, id), local, remote, previous, cx)
                                      else Lookup(s.rows, x))
            && s'.merged == (if kept.Some? then s.merged + [kept.value] else s.merged)
  {
  }

  // The connection loop, likewise; it refuses nothing when every protocol is
  // known.
  ghost predicate LoopInput(order: seq<string>, local: Rows, remote: Rows) {
    && NoDuplicates(order) && KeyedBy(local, ConnID) && KeyedBy(remote, ConnID)
    && (forall id :: id in order ==> id in local || id in remote)
    && (forall id :: id in local ==> ValidProtocol(local[id]))
    && (forall id :: id in remote ==> ValidProtocol(remote[id]))
  }

  // The loop without its last turn.
  lemma LastTurn(order: seq<string>, local: Rows, remote: Rows, x: string)
    requires LoopInput(order, local, remote) && order != []
    ensures var n := |order| - 1;
            && LoopInput(order[..n], local, remote) && order[n] !in order[..n]
            && Visitable(order[n], Lookup(local, order[n]), Lookup(remote, order[n]))
            && (x in order <==> x in order[..n] || x == order[n])
  {
    NotInPrefix(order, x);
  }

  lemma {:induction false} ConnectionLoopRows(rows: Rows, order: seq<string>, local: Rows, remote: Rows,
                                              snapshot: Items,
                                              cx: Context, x: string)
    requires LoopInput(order, local, remote)
    ensures var s := VisitConnections(ConnState(rows, [], false), order, local, remote, snapshot, cx);
            !s.refused
            && Lookup(s.rows, x)
               == if x in order then NewRowAt(rows, local, remote, snapshot, cx, x) else Lookup(rows, x)
    decreases |order|
  {
    if order != [] {
      var n := |order| - 1;
      var id := order[n];
      LastTurn(order, local, remote, x);
      ConnectionLoopRows(rows, order[..n], local, remote, snapshot, cx, x);
      if x != id {
        ConnectionLoopRows(rows, order[..n], local, remote, snapshot, cx, id);
      }
      var s := VisitConnections(ConnState(rows, [], false), order[..n], local, remote, snapshot, cx);
      VisitMeaning(s, id, Lookup(local, id), Lookup(remote, id), Previous(snapshot, ConnKey(id)), cx, x);
    }
  }

  // Every row that was not there before is a record of one of the two sides,
  // translated with all the keys of the call.
  ghost predicate NewRowsFrom(before: Rows, after: Rows, local: Rows, remote: Rows, cx: Context) {
    forall x :: x in after && x !in before ==>
      exists c: Connection :: c.id == x && (Lookup(local, x) == Some(c) || Lookup(remote, x) == Some(c))
                              && Some(after[x]) == Rewritten(None, c, cx)
  }

  lemma VisitElsewhere(s: ConnState, id: string, local: Option<Connection>, remote: Option<Connection>,
                       previous: Option<Hash>, cx: Context, x: string)
    requires (local.Some? ==> local.value.id == id) && (remote.Some? ==> remote.value.id == id) && x != id
    ensures Lookup(VisitConnection(s, id, local, remote, previous, cx).rows, x) == Lookup(s.rows, x)
  {}

  lemma {:induction false} LoopElsewhere(s: ConnState, order: seq<string>, local: Rows, remote: Rows, snapshot: Items,
                                         cx: Context, x: string)
    requires KeyedBy(local, ConnID) && KeyedBy(remote, ConnID) && x !in order
    ensures Lookup(VisitConnections(s, order, local, remote, snapshot, cx).rows, x) == Lookup(s.rows, x)
    decreases |order|
  {
    if order != [] {
      var n := |order| - 1;
      var before := VisitConnections(s, order[..n], local, remote, snapshot, cx);
      LoopElsewhere(s, order[..n], local, remote, snapshot, cx, x);
      VisitElsewhere(before, order[n], Lookup(local, order[n]), Lookup(remote, order[n]),
                     Previous(snapshot, ConnKey(order[n])), cx, x);
    }
  }

  lemma VisitAdds(s: ConnState, id: string, local: Option<Connection>, remote: Option<Connection>,
                  previous: Option<Hash>, cx: Context)
    requires (local.Some? ==> local.value.id == id) && (remote.Some? ==> remote.value.id == id) && id !in s.rows
    ensures var rows := VisitConnection(s, id, local, remote, previous, cx).rows;
            id in rows ==> exists c: Connection :: c.id == id && (local == Some(c) || remote == Some(c))
                                                   && Some(rows[id]) == Rewritten(None, c, cx)
  {
    var rows := VisitConnection(s, id, local, remote, previous, cx).rows;
    if id in rows {
      var c := if local.Some? && remote.Some? then ChooseConnection(local.value, remote.value, previous)
               else remote.value;
      assert Some(rows[id]) == Rewritten(None, c, cx);
    }
  }

  lemma {:induction false} LoopTranslates(s: ConnState, order: seq<string>, local: Rows, remote: Rows, snapshot: Items,
                                          cx: Context)
    requires NoDuplicates(order) && KeyedBy(local, ConnID) && KeyedBy(remote, ConnID)
    ensures NewRowsFrom(s.rows, VisitConnections(s, order, local, remote, snapshot, cx).rows, local, remote, cx)
    decreases |order|
  {
    if order != [] {
      var n := |order| - 1;
      var id := order[n];
      var before := VisitConnections(s, order[..n], local, remote, snapshot, cx);
      var after := VisitConnections(s, order, local, remote, snapshot, cx);
      LoopTranslates(s, order[..n], local, remote, snapshot, cx);
      forall x | x in after.rows && x !in s.rows
        ensures exists c: Connection :: c.id == x && (Lookup(local, x) == Some(c) || Lookup(remote, x) == Some(c))
                                        && Some(after.rows[x]) == Rewritten(None, c, cx)
      {
        if x == id {
          NotInPrefix(order, id);
          LoopElsewhere(s, order[..n], local, remote, snapshot, cx, id);
          VisitAdds(before, id, Lookup(local, id), Lookup(remote, id), Previous(snapshot, ConnKey(id)), cx);
        } else {
          VisitElsewhere(before, id, Lookup(local, id), Lookup(remote, id), Previous(snapshot, ConnKey(id)), cx, x);
        }
      }
    }
  }

  lemma {:induction false} FolderLoopIDs(s: FolderState, order: seq<string>, local: Folders, remote: Folders,
                                         snapshot: Items)
    ensures VisitFolders(s, order, local, remote, snapshot).rows.Keys == s.rows.Keys
    decreases |order|
  {
    if order != [] {
      FolderLoopIDs(s, order[..|order| - 1], local, remote, snapshot);
    }
  }

  lemma VisitIndexed(s: ConnState, id: string, local: Option<Connection>, remote: Option<Connection>,
                     previous: Option<Hash>, cx: Context, x: string)
    requires !s.refused && Visitable(id, local, remote)
    ensures var kept := KeptConnection(local, remote, previous);
            Lookup(ByID(VisitConnection(s, id, local, remote, previous, cx).merged, ConnID), x)
            == if x == id && kept.Some? then kept else Lookup(ByID(s.merged, ConnID), x)
  {
    VisitMeaning(s, id, local, remote, previous, cx, x);
    var kept := KeptConnection(local, remote, previous);
    if kept.Some? {
      AppendedID(s.merged, kept.value, ConnID);
    }
  }

  lemma {:induction false} ConnectionLoop(rows: Rows, order: seq<string>, local: Rows, remote: Rows, snapshot: Items,
                                          cx: Context, x: string)
    requires LoopInput(order, local, remote)
    ensures var s := VisitConnections(ConnState(rows, [], false), order, local, remote, snapshot, cx);
            Lookup(ByID(s.merged, ConnID), x)
            == if x in order then KeptConnectionAt(local, remote, snapshot, x) else None
    decreases |order|
  {
    if order != [] {
      var n := |order| - 1;
      var id := order[n];
      LastTurn(order, local, remote, x);
      ConnectionLoop(rows, order[..n], local, remote, snapshot, cx, x);
      ConnectionLoopRows(rows, order[..n], local, remote, snapshot, cx, x);
      var s := VisitConnections(ConnState(rows, [], false), order[..n], local, remote, snapshot, cx);
      VisitIndexed(s, id, Lookup(local, id), Lookup(remote, id), Previous(snapshot, ConnKey(id)), cx, x);
    }
  }

  // No id appears twice in what the loops return.
  lemma {:induction false} FoldersMergedOnce(s: FolderState, order: seq<string>, local: Folders, remote: Folders,
                                             snapshot: Items)
    requires NoDuplicates(order) && KeyedBy(local, FolderID) && KeyedBy(remote, FolderID) && s.merged == []
    ensures var merged := VisitFolders(s, order, local, remote, snapshot).merged;
            DistinctIDs(merged, FolderID) && forall f :: f in merged ==> f.id in order
    decreases |order|
  {
    if order != [] {
      FoldersMergedOnce(s, order[..|order| - 1], local, remote, snapshot);
      NotInPrefix(order, "");
    }
  }

  lemma VisitAppends(s: ConnState, id: string, local: Option<Connection>, remote: Option<Connection>,
                     previous: Option<Hash>, cx: Context)
    requires local.Some? ==> local.value.id == id
    requires remote.Some? ==> remote.value.id == id
    ensures var merged := VisitConnection(s, id, local, remote, previous, cx).merged;
            merged == s.merged || (exists c: Connection :: c.id == id && merged == s.merged + [c])
  {
    if local.Some? {
      assert local.value.id == id;
    }
  }

  lemma AppendDistinct(list: seq<Connection>, c: Connection, ids: seq<string>)
    requires DistinctIDs(list, ConnID) && (forall x :: x in list ==> x.id in ids) && c.id !in ids
    ensures DistinctIDs(list + [c], ConnID) && forall x :: x in list + [c] ==> x.id in ids || x == c
  {}

  lemma {:induction false} ConnectionsMergedOnce(s: ConnState, order: seq<string>, local: Rows, remote: Rows,
                                                 snapshot: Items, cx: Context)
    requires NoDuplicates(order) && KeyedBy(local, ConnID) && KeyedBy(remote, ConnID) && s.merged == []
    ensures var merged := VisitConnections(s, order, local, remote, snapshot, cx).merged;
            DistinctIDs(merged, ConnID) && forall c :: c in merged ==> c.id in order
    decreases |order|
  {
    if order != [] {
      var n := |order| - 1;
      var id := order[n];
      ConnectionsMergedOnce(s, order[..n], local, remote, snapshot, cx);
      NotInPrefix(order, "");
      var before := VisitConnections(s, order[..n], local, remote, snapshot, cx);
      VisitAppends(before, id, Lookup(local, id), Lookup(remote, id), Previous(snapshot, ConnKey(id)), cx);
      var merged := VisitConnections(s, order, local, remote, snapshot, cx).merged;
      if merged != before.merged {
        var c: Connection :| c.id == id && merged == before.merged + [c];
        AppendDistinct(before.merged, c, order[..n]);
      }
    }
  }
}
