// The two merge loops of app_account.go, which edit the store as they go.
module Merge {
  import opened Common
  import opened Vault
  import opened Models
  import opened Storage
  import opened Envelope
  import opened SyncProtocol

  /****** Indexing the two lists ******/

  // The last entry of each non-empty id.
  function ByID<T>(list: seq<T>, id: T -> string): map<string, T> {
    if list == [] then map[]
    else
      var last := list[|list| - 1];
      var before := ByID(list[..|list| - 1], id);
      if id(last) == "" then before else before[id(last) := last]
  }

  predicate DistinctIDs<T>(list: seq<T>, id: T -> string) {
    forall i, j :: 0 <= i < j < |list| ==> id(list[i]) != id(list[j])
  }

  // Remote ids first, then the local ones the remote side lacks.
  method Index<T>(local: seq<T>, remote: seq<T>, id: T -> string)
    returns (order: seq<string>, localByID: map<string, T>, remoteByID: map<string, T>)
    ensures localByID == ByID(local, id) && remoteByID == ByID(remote, id)
    ensures forall x :: x in order <==> x in localByID || x in remoteByID
    ensures DistinctIDs(local, id) ==> NoDuplicates(order)
  {
    order, localByID, remoteByID := [], map[], map[];
    for i := 0 to |remote|
      invariant remoteByID == ByID(remote[..i], id)
      invariant forall x :: x in order <==> x in remoteByID
      invariant NoDuplicates(order)
    {
      assert remote[..i + 1][..i] == remote[..i];
      var entry := remote[i];
      if id(entry) == "" {
        continue;
      }
      if id(entry) !in remoteByID {
        order := order + [id(entry)];
      }
      remoteByID := remoteByID[id(entry) := entry];
    }
    assert remote[..|remote|] == remote;
    for i := 0 to |local|
      invariant localByID == ByID(local[..i], id)
      invariant forall x :: x in order <==> x in localByID || x in remoteByID
      invariant forall x :: x in localByID ==> exists j :: 0 <= j < i && id(local[j]) == x
      invariant DistinctIDs(local, id) ==> NoDuplicates(order)
    {
      assert local[..i + 1][..i] == local[..i];
      var entry := local[i];
      if id(entry) == "" {
        continue;
      }
      if id(entry) !in remoteByID {
        order := order + [id(entry)];
      }
      localByID := localByID[id(entry) := entry];
    }
    assert local[..|local|] == local;
  }

  /****** Folders ******/

  function ChooseFolder(local: Folder, remote: Folder, previous: Option<Hash>): Folder {
    if local == remote then local
    else if previous == Some(FolderHash(local)) && Some(FolderHash(remote)) != previous then remote
    else local
  }

  datatype FolderState = FolderState(rows: Rows, folders: Folders, merged: seq<Folder>)

  function VisitFolder(s: FolderState, id: string, local: Option<Folder>, remote: Option<Folder>,
                       previous: Option<Hash>): FolderState {
    match (local, remote)
    case (Some(l), Some(r)) =>
      var chosen := ChooseFolder(l, r, previous);
      s.(folders := if chosen == r then s.folders[chosen.id := chosen] else s.folders, merged := s.merged + [chosen])
    case (Some(l), None) =>
      if previous == Some(FolderHash(l)) then s.(rows := Unfile(s.rows, id), folders := s.folders - {id})
      else s.(merged := s.merged + [l])
    case (None, Some(r)) =>
      if previous.Some? then s else s.(folders := s.folders[r.id := r], merged := s.merged + [r])
    case (None, None) => s
  }

  function VisitFolders(s: FolderState, order: seq<string>, local: Folders, remote: Folders,
                        snapshot: Items): FolderState {
    if order == [] then s
    else
      var id := order[|order| - 1];
      VisitFolder(VisitFolders(s, order[..|order| - 1], local, remote, snapshot), id,
                  Lookup(local, id), Lookup(remote, id), Lookup(snapshot, FolderKey(id)))
  }

  function FolderID(f: Folder): string { f.id }

  // A turn that broke off: nothing written yet, or the folder of a deletion
  // cleared and not deleted.
  ghost predicate FolderBroken(s: FolderState, id: string, rows: Rows, folders: Folders) {
    folders == s.folders && (rows == s.rows || rows == Unfile(s.rows, id))
  }

  // One pass of the loop: the three cases of the switch.
  method MergeOneFolder(db: Database, id: string, local: Option<Folder>, remote: Option<Folder>,
                        previous: Option<Hash>, before: seq<Folder>)
    returns (merged: seq<Folder>, ok: bool)
    modifies db`folders, db`connections, db`left
    ensures !ok ==> db.left == 0
    ensures var s := FolderState(old(db.connections), old(db.folders), before);
            if ok then FolderState(db.connections, db.folders, merged) == VisitFolder(s, id, local, remote, previous)
            else FolderBroken(s, id, db.connections, db.folders)
  {
    merged, ok := before, true;
    if local.Some? && remote.Some? {
      var chosen := ChooseFolder(local.value, remote.value, previous);
      if chosen == remote.value {
        ok := db.UpsertFolder(chosen);
        if !ok {
          return;
        }
      }
      merged := merged + [chosen];
    } else if local.Some? {
      if previous.Some? && FolderHash(local.value) == previous.value {
        ok := db.DeleteFolder(id);
        return;
      }
      merged := merged + [local.value];
    } else if remote.Some? {
      if previous.Some? {
        return;
      }
      ok := db.UpsertFolder(remote.value);
      if !ok {
        return;
      }
      merged := merged + [remote.value];
    }
  }

  // Stops at the first statement that fails, in turn `stop`.
  method MergeRemoteFolders(db: Database, local: seq<Folder>, remote: seq<Folder>, snapshot: Items)
    returns (merged: seq<Folder>, ok: bool, ghost order: seq<string>, ghost stop: nat)
    modifies db`folders, db`connections, db`left
    ensures DistinctIDs(local, FolderID) ==> NoDuplicates(order)
    ensures forall x :: x in order <==> x in ByID(local, FolderID) || x in ByID(remote, FolderID)
    ensures !ok ==> db.left == 0 && stop < |order|
    ensures var start := FolderState(old(db.connections), old(db.folders), []);
            var mine, theirs := ByID(local, FolderID), ByID(remote, FolderID);
            if ok then FolderState(db.connections, db.folders, merged)
                       == VisitFolders(start, order, mine, theirs, snapshot)
            else FolderBroken(VisitFolders(start, order[..stop], mine, theirs, snapshot), order[stop],
                              db.connections, db.folders)
  {
    var ids, localByID, remoteByID := Index(local, remote, FolderID);
    order, stop := ids, 0;
    merged, ok := [], true;
    ghost var start := FolderState(db.connections, db.folders, []);
    for i := 0 to |ids|
      invariant FolderState(db.connections, db.folders, merged)
             == VisitFolders(start, ids[..i], localByID, remoteByID, snapshot)
    {
      assert ids[..i + 1][..i] == ids[..i];
      var id := ids[i];
      merged, ok := MergeOneFolder(db, id, Lookup(localByID, id), Lookup(remoteByID, id),
                                   Lookup(snapshot, FolderKey(id)), merged);
      if !ok {
        stop := i;
        return;
      }
    }
    ok := true;
    assert ids[..|ids|] == ids;
  }

  /****** Connections ******/

  function HashOf(c: Connection): Hash { ConnHash(ConnectionHash(c)) }

  function ChooseConnection(local: Connection, remote: Connection, previous: Option<Hash>): Connection {
    if HashOf(local) == HashOf(remote) then local
    else if previous == Some(HashOf(local)) && Some(HashOf(remote)) != previous then remote
    else local
  }

  // Keys of the device, the sync key candidates and the randomness of one call.
  datatype Context = Context(localKey: Key, keys: seq<Option<Key>>, entropy: Entropy)

  // `refused` is set when storing a record with an unknown protocol stops the merge.
  datatype ConnState = ConnState(rows: Rows, merged: seq<Connection>, refused: bool)

  function Storing(s: ConnState, c: Connection, cx: Context): ConnState {
    var toStore := TranslateConnection(c, cx.localKey, cx.keys, cx.entropy);
    if !ValidProtocol(toStore) then s.(refused := true)
    else ConnState(s.rows[toStore.id := StoredRow(Lookup(s.rows, toStore.id), toStore, cx.entropy.uuid)],
                   s.merged + [c], s.refused)
  }

  function VisitConnection(s: ConnState, id: string, local: Option<Connection>, remote: Option<Connection>,
                           previous: Option<Hash>, cx: Context): ConnState {
    if s.refused then s
    else match (local, remote)
      case (Some(l), Some(r)) =>
        var chosen := ChooseConnection(l, r, previous);
        if HashOf(chosen) == HashOf(r) then Storing(s, chosen, cx) else s.(merged := s.merged + [chosen])
      case (Some(l), None) =>
        if previous == Some(HashOf(l)) then s.(rows := s.rows - {id}) else s.(merged := s.merged + [l])
      case (None, Some(r)) =>
        if previous.Some? then s else Storing(s, r, cx)
      case (None, None) => s
  }

  function VisitConnections(s: ConnState, order: seq<string>, local: Rows, remote: Rows,
                            snapshot: Items, cx: Context): ConnState {
    if order == [] then s
    else
      var id := order[|order| - 1];
      VisitConnection(VisitConnections(s, order[..|order| - 1], local, remote, snapshot, cx), id,
                      Lookup(local, id), Lookup(remote, id), Previous(snapshot, ConnKey(id)), cx)
  }

  lemma VisitNext(s: ConnState, order: seq<string>, i: nat, local: Rows, remote: Rows, snapshot: Items, cx: Context)
    requires i < |order|
    ensures VisitConnections(s, order[..i + 1], local, remote, snapshot, cx)
         == VisitConnection(VisitConnections(s, order[..i], local, remote, snapshot, cx), order[i],
                            Lookup(local, order[i]), Lookup(remote, order[i]),
                            Previous(snapshot, ConnKey(order[i])), cx)
  {
    assert order[..i + 1][..i] == order[..i];
  }

  lemma {:induction false} RefusedStays(s: ConnState, order: seq<string>, i: nat, local: Rows, remote: Rows,
                                        snapshot: Items, cx: Context)
    requires i <= |order| && VisitConnections(s, order[..i], local, remote, snapshot, cx).refused
    ensures VisitConnections(s, order, local, remote, snapshot, cx)
         == VisitConnections(s, order[..i], local, remote, snapshot, cx)
    decreases |order|
  {
    if i == |order| {
      assert order[..i] == order;
    } else {
      assert order[..|order| - 1][..i] == order[..i];
      RefusedStays(s, order[..|order| - 1], i, local, remote, snapshot, cx);
    }
  }

  function ConnID(c: Connection): string { c.id }

  // The first of the two statements that store a record.
  function HalfStoring(rows: Rows, c: Connection, cx: Context): Rows {
    var toStore := TranslateConnection(c, cx.localKey, cx.keys, cx.entropy);
    rows[toStore.id := WrittenRow(Lookup(rows, toStore.id), toStore)]
  }

  method StoreRemote(db: Database, c: Connection, cx: Context) returns (w: Write)
    modifies db`connections, db`left
    ensures w.Broken? ==> db.left == 0
    ensures if w.Broken?
            then db.connections == old(db.connections) || db.connections == HalfStoring(old(db.connections), c, cx)
            else var after := Storing(ConnState(old(db.connections), [], false), c, cx);
                 db.connections == after.rows && w.BadProtocol? == after.refused
  {
    w := db.UpsertConnection(TranslateConnection(c, cx.localKey, cx.keys, cx.entropy), cx.entropy.uuid);
  }

  // The rows after the first of the two statements of a turn that has any.
  function HalfVisit(rows: Rows, id: string, local: Option<Connection>, remote: Option<Connection>,
                     previous: Option<Hash>, cx: Context): Rows {
    match (local, remote)
    case (Some(l), Some(r)) =>
      var chosen := ChooseConnection(l, r, previous);
      if HashOf(chosen) == HashOf(r) then HalfStoring(rows, chosen, cx) else rows
    case (Some(l), None) => if previous == Some(HashOf(l)) then Stripped(rows, id) else rows
    case (None, Some(r)) => if previous.Some? then rows else HalfStoring(rows, r, cx)
    case (None, None) => rows
  }

  // One pass of the loop: the three cases of the switch.
  method MergeOneConnection(db: Database, id: string, local: Option<Connection>, remote: Option<Connection>,
                            previous: Option<Hash>, before: seq<Connection>, cx: Context)
    returns (merged: seq<Connection>, w: Write)
    modifies db`connections, db`left
    ensures w.Broken? ==> db.left == 0
    ensures if w.Broken?
            then db.connections == old(db.connections)
                 || db.connections == HalfVisit(old(db.connections), id, local, remote, previous, cx)
            else ConnState(db.connections, merged, w.BadProtocol?)
                 == VisitConnection(ConnState(old(db.connections), before, false), id, local, remote, previous, cx)
  {
    merged, w := before, Written;
    if local.Some? && remote.Some? {
      var chosen := ChooseConnection(local.value, remote.value, previous);
      if HashOf(chosen) == HashOf(remote.value) {
        w := StoreRemote(db, chosen, cx);
        if !w.Written? {
          return;
        }
      }
      merged := merged + [chosen];
    } else if local.Some? {
      if previous.Some? && HashOf(local.value) == previous.value {
        var ok := db.DeleteConnection(id);
        w := if ok then Written else Broken;
        return;
      }
      merged := merged + [local.value];
    } else if remote.Some? {
      if previous.Some? {
        return;
      }
      w := StoreRemote(db, remote.value, cx);
      if !w.Written? {
        return;
      }
      merged := merged + [remote.value];
    }
  }

  // A turn that broke off: nothing written yet, or the first of two statements.
  ghost predicate ConnectionBroken(s: ConnState, id: string, local: Rows, remote: Rows, snapshot: Items, cx: Context,
                                   rows: Rows) {
    !s.refused
    && (rows == s.rows || rows == HalfVisit(s.rows, id, Lookup(local, id), Lookup(remote, id),
                                            Previous(snapshot, ConnKey(id)), cx))
  }

  // Stops at the first record refused or statement that fails, in turn `stop`.
  method MergeRemoteConnections(db: Database, local: seq<Connection>, remote: seq<Connection>, snapshot: Items,
                                cx: Context)
    returns (merged: seq<Connection>, w: Write, ghost order: seq<string>, ghost stop: nat)
    modifies db`connections, db`left
    ensures DistinctIDs(local, ConnID) ==> NoDuplicates(order)
    ensures forall x :: x in order <==> x in ByID(local, ConnID) || x in ByID(remote, ConnID)
    ensures w.Broken? ==> db.left == 0 && stop < |order|
    ensures var start := ConnState(old(db.connections), [], false);
            var mine, theirs := ByID(local, ConnID), ByID(remote, ConnID);
            if w.Broken? then
              ConnectionBroken(VisitConnections(start, order[..stop], mine, theirs, snapshot, cx), order[stop],
                               mine, theirs, snapshot, cx, db.connections)
            else
              ConnState(db.connections, merged, w.BadProtocol?)
              == VisitConnections(start, order, mine, theirs, snapshot, cx)
  {
    hide VisitConnection, HalfVisit;
    var ids, localByID, remoteByID := Index(local, remote, ConnID);
    order, stop := ids, 0;
    merged, w := [], Written;
    ghost var start := ConnState(old(db.connections), [], false);
    var i := 0;
    while i < |ids| && w.Written?
      invariant 0 <= i <= |ids|
      invariant !w.Broken?
      invariant ConnState(db.connections, merged, w.BadProtocol?)
             == VisitConnections(start, ids[..i], localByID, remoteByID, snapshot, cx)
    {
      VisitNext(start, ids, i, localByID, remoteByID, snapshot, cx);
      var id := ids[i];
      var previous := Lookup(snapshot, ConnKey(id));
      if previous.None? {
        previous := Lookup(snapshot, LegacyKey(id));
      }
      merged, w := MergeOneConnection(db, id, Lookup(localByID, id), Lookup(remoteByID, id), previous, merged, cx);
      if w.Broken? {
        stop := i;
        return;
      }
      i := i + 1;
    }
    if w.Written? {
      assert ids[..i] == ids;
    } else {
      RefusedStays(start, ids, i, localByID, remoteByID, snapshot, cx);
    }
  }
}
