// SyncNow on the concrete database, server blob and keys (app_account.go).
module SyncNow {
  import opened Common
  import opened Vault
  import opened Models
  import opened Storage
  import opened Envelope
  import opened HashStability
  import opened SyncProtocol
  import opened Merge
  import opened MergeMeaning
  import opened MergeView
  import opened SetHash
  import opened Retry
  import opened MergeStops

  /****** From lists to indexes ******/

  lemma SameIndex<T(!new)>(list: seq<T>, m: map<string, T>, id: T -> string)
    requires NoDuplicates(list) && KeyedBy(m, id)
    requires forall x :: x in list <==> id(x) in m && m[id(x)] == x
    ensures DistinctIDs(list, id) && ByID(list, id) == m
  {
    forall i, j | 0 <= i < j < |list| ensures id(list[i]) != id(list[j]) {
      assert list[i] in list && list[j] in list;
    }
    forall x | x in list ensures id(x) != "" {
    }
    ByIDOfDistinct(list, id);
    ByIDKeys(list, id);
    forall k | k in m ensures k in ByID(list, id) && ByID(list, id)[k] == m[k] {
      assert m[k] in list;
    }
  }

  // `prepared` answers the listed rows one by one.
  ghost predicate Answers(list: seq<Connection>, prepared: seq<Connection>, localKey: Key, syncKey: Key) {
    |prepared| == |list| && forall i :: 0 <= i < |list| ==> Mirrors(Some(list[i]), Some(prepared[i]), localKey, syncKey)
  }

  lemma PreparedAnswers(list: seq<Connection>, prepared: seq<Connection>, localKey: Key, syncKey: Key, e: Entropy)
    requires |prepared| == |list| && forall c :: c in list ==> RowGood(c, localKey, syncKey)
    requires forall i :: 0 <= i < |list| ==> PrepareConnection(list[i], localKey, syncKey, e) == Ok(prepared[i])
    ensures Answers(list, prepared, localKey, syncKey)
  {
    forall i | 0 <= i < |list| ensures Mirrors(Some(list[i]), Some(prepared[i]), localKey, syncKey) {
      assert list[i] in list;
      PreparedGood(list[i], localKey, syncKey, e);
    }
  }

  lemma AnswersDistinct(list: seq<Connection>, prepared: seq<Connection>, localKey: Key, syncKey: Key)
    requires Answers(list, prepared, localKey, syncKey) && DistinctIDs(list, ConnID)
    ensures DistinctIDs(prepared, ConnID)
  {}

  // Two lists with the same ids in the same order are indexed alike.
  lemma {:induction false} IndexedAlike(a: seq<Connection>, b: seq<Connection>, id: string)
    requires |a| == |b| && forall i :: 0 <= i < |a| ==> a[i].id == b[i].id
    ensures id in ByID(a, ConnID) <==> id in ByID(b, ConnID)
    ensures id in ByID(a, ConnID)
            ==> exists i :: 0 <= i < |a| && ByID(a, ConnID)[id] == a[i] && ByID(b, ConnID)[id] == b[i]
    decreases |a|
  {
    if a != [] {
      var n := |a| - 1;
      IndexedAlike(a[..n], b[..n], id);
      if id in ByID(a[..n], ConnID) {
        var i :| 0 <= i < n && ByID(a[..n], ConnID)[id] == a[..n][i] && ByID(b[..n], ConnID)[id] == b[..n][i];
        assert a[..n][i] == a[i] && b[..n][i] == b[i];
      }
    }
  }

  lemma AnswersIndexed(list: seq<Connection>, prepared: seq<Connection>, localKey: Key, syncKey: Key, id: string)
    requires Answers(list, prepared, localKey, syncKey)
    ensures Mirrors(Lookup(ByID(list, ConnID), id), Lookup(ByID(prepared, ConnID), id), localKey, syncKey)
  {
    forall i | 0 <= i < |list| ensures list[i].id == prepared[i].id {
      assert Mirrors(Some(list[i]), Some(prepared[i]), localKey, syncKey);
    }
    IndexedAlike(list, prepared, id);
    if id in ByID(list, ConnID) {
      var i :| 0 <= i < |list| && ByID(list, ConnID)[id] == list[i] && ByID(prepared, ConnID)[id] == prepared[i];
      assert Mirrors(Some(list[i]), Some(prepared[i]), localKey, syncKey);
    }
  }

  lemma PreparedIndex(rows: Rows, list: seq<Connection>, prepared: seq<Connection>, localKey: Key, syncKey: Key)
    requires NoDuplicates(list) && KeyedBy(rows, ConnID)
    requires forall c :: c in list <==> c.id in rows && rows[c.id] == c
    requires Answers(list, prepared, localKey, syncKey)
    ensures DistinctIDs(prepared, ConnID) && KeyedBy(ByID(prepared, ConnID), ConnID)
    ensures forall id :: Mirrors(Lookup(rows, id), Lookup(ByID(prepared, ConnID), id), localKey, syncKey)
  {
    SameIndex(list, rows, ConnID);
    AnswersDistinct(list, prepared, localKey, syncKey);
    forall id ensures Mirrors(Lookup(rows, id), Lookup(ByID(prepared, ConnID), id), localKey, syncKey) {
      AnswersIndexed(list, prepared, localKey, syncKey, id);
    }
    ByIDKeys(prepared, ConnID);
  }

  lemma KeptIDs(list: seq<Connection>, prepared: seq<Connection>, localKey: Key, syncKey: Key, e: Entropy)
    requires DistinctIDs(list, ConnID) && |prepared| == |list|
    requires forall i :: 0 <= i < |list| ==> PrepareConnection(list[i], localKey, syncKey, e) == Ok(prepared[i])
    ensures DistinctIDs(prepared, ConnID) && forall i :: 0 <= i < |list| ==> prepared[i].id == list[i].id
  {
    forall i | 0 <= i < |list| ensures prepared[i].id == list[i].id {
      assert PrepareConnection(list[i], localKey, syncKey, e) == Ok(prepared[i]);
    }
  }

  // A list of mirrored connections carries the store's own items.
  lemma LocalWire(i: Input)
    requires GoodInput(i)
    ensures WireItems(i.local, i.folders) == LocalItems(i)
  {
    forall k ensures Lookup(WireItems(i.local, i.folders), k) == Lookup(LocalItems(i), k) {
      WireItemsAt(i.local, i.folders, k);
      StoreItemsAt(i.rows, i.folders, i.cx.localKey, i.syncKey, k);
      if k.ConnKey? {
        assert Mirrors(Lookup(i.rows, k.id), Lookup(i.local, k.id), i.cx.localKey, i.syncKey);
      }
    }
    SameItems(WireItems(i.local, i.folders), LocalItems(i));
  }

  /****** The loops reach the outcome ******/

  lemma SameDropped(i: Input, order: seq<string>)
    requires forall x :: x in order <==> x in i.folders || x in i.remoteFolders
    ensures DroppedFolders(order, i.folders, i.remoteFolders, i.snapshot)
         == Dropped(LocalItems(i), RemoteItems(i), i.snapshot)
  {
    var d := Dropped(LocalItems(i), RemoteItems(i), i.snapshot);
    forall x ensures x in DroppedFolders(order, i.folders, i.remoteFolders, i.snapshot) <==> x in d {
      var k := FolderKey(x);
      StoreItemsAt(i.rows, i.folders, i.cx.localKey, i.syncKey, k);
      WireItemsAt(i.remote, i.remoteFolders, k);
      KeptFolderHash(Lookup(i.folders, x), Lookup(i.remoteFolders, x), Lookup(i.snapshot, k));
      assert x in d <==> k in LocalItems(i) && MergedAt(LocalItems(i), RemoteItems(i), i.snapshot, k).None?;
    }
  }

  lemma FolderLoopReaches(i: Input, order: seq<string>, f: FolderState, x: string)
    requires GoodInput(i)
    requires NoDuplicates(order) && forall y :: y in order <==> y in i.folders || y in i.remoteFolders
    requires f == VisitFolders(FolderState(i.rows, i.folders, []), order, i.folders, i.remoteFolders, i.snapshot)
    ensures Lookup(f.folders, x) == KeptFolderAt(i.folders, i.remoteFolders, i.snapshot, x)
    ensures Lookup(ByID(f.merged, FolderID), x) == KeptFolderAt(i.folders, i.remoteFolders, i.snapshot, x)
  {
    FolderLoop(i.rows, i.folders, order, i.remoteFolders, i.snapshot, x);
  }

  lemma ConnectionLoopReaches(i: Input, order: seq<string>, c: ConnState, x: string)
    requires GoodInput(i)
    requires NoDuplicates(order) && forall y :: y in order <==> y in i.local || y in i.remote
    requires c == VisitConnections(ConnState(ClearedRows(i), [], false), order, i.local, i.remote, i.snapshot, i.cx)
    ensures !c.refused
    ensures Lookup(c.rows, x) == NewRowAt(ClearedRows(i), i.local, i.remote, i.snapshot, i.cx, x)
    ensures Lookup(ByID(c.merged, ConnID), x) == KeptConnectionAt(i.local, i.remote, i.snapshot, x)
  {
    ProtocolsKnown(i);
    ConnectionLoopRows(ClearedRows(i), order, i.local, i.remote, i.snapshot, i.cx, x);
    ConnectionLoop(ClearedRows(i), order, i.local, i.remote, i.snapshot, i.cx, x);
    if x !in order {
      AbsentRow(i, x);
    }
  }

  // The folder loop clears just the connections filed in folders it deletes.
  lemma FolderLoopClears(i: Input, folderOrder: seq<string>, f: FolderState)
    requires GoodInput(i)
    requires NoDuplicates(folderOrder) && forall x :: x in folderOrder <==> x in i.folders || x in i.remoteFolders
    requires f == VisitFolders(FolderState(i.rows, i.folders, []), folderOrder, i.folders, i.remoteFolders, i.snapshot)
    ensures f.rows == ClearedRows(i)
  {
    FolderLoopRows(i.rows, i.folders, folderOrder, i.remoteFolders, i.snapshot);
    SameDropped(i, folderOrder);
  }

  lemma LoopsReachOutcome(i: Input, folderOrder: seq<string>, order: seq<string>, f: FolderState, c: ConnState)
    requires GoodInput(i)
    requires NoDuplicates(folderOrder) && forall x :: x in folderOrder <==> x in i.folders || x in i.remoteFolders
    requires NoDuplicates(order) && forall x :: x in order <==> x in i.local || x in i.remote
    requires f == VisitFolders(FolderState(i.rows, i.folders, []), folderOrder, i.folders, i.remoteFolders, i.snapshot)
    requires c == VisitConnections(ConnState(f.rows, [], false), order, i.local, i.remote, i.snapshot, i.cx)
    ensures !c.refused
    ensures IsOutcome(i, Outcome(c.rows, f.folders, ByID(c.merged, ConnID), ByID(f.merged, FolderID)))
  {
    FolderLoopClears(i, folderOrder, f);
    forall x
      ensures Lookup(f.folders, x) == KeptFolderAt(i.folders, i.remoteFolders, i.snapshot, x)
      ensures Lookup(ByID(f.merged, FolderID), x) == KeptFolderAt(i.folders, i.remoteFolders, i.snapshot, x)
    {
      FolderLoopReaches(i, folderOrder, f, x);
    }
    forall x
      ensures Lookup(c.rows, x) == NewRowAt(ClearedRows(i), i.local, i.remote, i.snapshot, i.cx, x)
      ensures Lookup(ByID(c.merged, ConnID), x) == KeptConnectionAt(i.local, i.remote, i.snapshot, x)
    {
      ConnectionLoopReaches(i, order, c, x);
    }
    ConnectionLoopReaches(i, order, c, "");
  }

  lemma AbsentRow(i: Input, x: string)
    requires GoodInput(i) && x !in i.local && x !in i.remote
    ensures NewRowAt(ClearedRows(i), i.local, i.remote, i.snapshot, i.cx, x) == Lookup(ClearedRows(i), x) == None
    ensures KeptConnectionAt(i.local, i.remote, i.snapshot, x) == None
  {
    assert Mirrors(Lookup(i.rows, x), Lookup(i.local, x), i.cx.localKey, i.syncKey);
  }

  lemma ProtocolsKnown(i: Input)
    requires GoodInput(i)
    ensures forall id :: id in i.local ==> ValidProtocol(i.local[id])
    ensures forall id :: id in i.remote ==> ValidProtocol(i.remote[id])
  {
    forall id | id in i.local ensures ValidProtocol(i.local[id]) {
      assert Mirrors(Lookup(i.rows, id), Lookup(i.local, id), i.cx.localKey, i.syncKey);
    }
  }

  /****** One merge, from the database to the database ******/

  // Two lists holding what the store holds, ready for upload.
  ghost predicate LocalCopy(rows: Rows, stored: Folders, connections: seq<Connection>, folders: seq<Folder>,
                            localKey: Key, syncKey: Key) {
    && DistinctIDs(connections, ConnID)
    && (forall id :: Mirrors(Lookup(rows, id), Lookup(ByID(connections, ConnID), id), localKey, syncKey))
    && DistinctIDs(folders, FolderID) && ByID(folders, FolderID) == stored
  }

  // What merging `remote` into this store starts from.
  function MergeInput(rows: Rows, stored: Folders, local: seq<Connection>, remote: seq<Connection>,
                      remoteFolders: seq<Folder>,
                      snapshot: Items, syncKey: Key, cx: Context): Input {
    Input(rows, stored, ByID(local, ConnID), ByID(remote, ConnID), ByID(remoteFolders, FolderID), snapshot, syncKey, cx)
  }

  lemma GoodMergeInput(rows: Rows, stored: Folders, local: seq<Connection>, localFolders: seq<Folder>,
                       remote: seq<Connection>, remoteFolders: seq<Folder>, snapshot: Items, syncKey: Key, cx: Context)
    requires StoreGood(rows, stored, cx.localKey, syncKey)
             && LocalCopy(rows, stored, local, localFolders, cx.localKey, syncKey)
    requires WiresGood(ByID(remote, ConnID), syncKey) && Some(syncKey) in cx.keys
    ensures var i := MergeInput(rows, stored, local, remote, remoteFolders, snapshot, syncKey, cx);
            GoodInput(i) && LocalItems(i) == ItemsOf(local, localFolders)
  {
    ByIDKeys(local, ConnID);
    ByIDKeys(remote, ConnID);
    ByIDKeys(remoteFolders, FolderID);
    ItemsOfMeaning(local, localFolders);
    LocalWire(MergeInput(rows, stored, local, remote, remoteFolders, snapshot, syncKey, cx));
  }

  // The prepared lists hold the set the store shows.
  lemma LocalIsStore(rows: Rows, stored: Folders, local: seq<Connection>, localFolders: seq<Folder>, syncKey: Key,
                     cx: Context)
    requires StoreGood(rows, stored, cx.localKey, syncKey)
             && LocalCopy(rows, stored, local, localFolders, cx.localKey, syncKey)
    requires Some(syncKey) in cx.keys
    ensures ItemsOf(local, localFolders) == StoreItems(rows, stored, cx.localKey, syncKey)
  {
    GoodMergeInput(rows, stored, local, localFolders, [], [], map[], syncKey, cx);
  }

  lemma MergedOnce(rows: Rows, stored: Folders, local: seq<Connection>, localFolders: seq<Folder>,
                   remote: seq<Connection>, remoteFolders: seq<Folder>, snapshot: Items, cx: Context,
                   folderOrder: seq<string>, order: seq<string>)
    requires NoDuplicates(folderOrder) && NoDuplicates(order)
    ensures var f := VisitFolders(FolderState(rows, stored, []), folderOrder, ByID(localFolders, FolderID),
                                  ByID(remoteFolders, FolderID), snapshot);
            var c := VisitConnections(ConnState(f.rows, [], false), order, ByID(local, ConnID), ByID(remote, ConnID),
                                      snapshot, cx);
            DistinctIDs(f.merged, FolderID) && DistinctIDs(c.merged, ConnID)
  {
    ByIDKeys(local, ConnID);
    ByIDKeys(remote, ConnID);
    ByIDKeys(localFolders, FolderID);
    ByIDKeys(remoteFolders, FolderID);
    var f0 := FolderState(rows, stored, []);
    FoldersMergedOnce(f0, folderOrder, ByID(localFolders, FolderID), ByID(remoteFolders, FolderID), snapshot);
    var f := VisitFolders(f0, folderOrder, ByID(localFolders, FolderID), ByID(remoteFolders, FolderID), snapshot);
    ConnectionsMergedOnce(ConnState(f.rows, [], false), order, ByID(local, ConnID), ByID(remote, ConnID), snapshot, cx);
  }

  // The two loops, run one after the other, perform the three-way merge.
  lemma LoopsMerge(i: Input, folderOrder: seq<string>, order: seq<string>, f: FolderState, c: ConnState)
    requires GoodInput(i)
    requires NoDuplicates(folderOrder) && forall x :: x in folderOrder <==> x in i.folders || x in i.remoteFolders
    requires NoDuplicates(order) && forall x :: x in order <==> x in i.local || x in i.remote
    requires f == VisitFolders(FolderState(i.rows, i.folders, []), folderOrder, i.folders, i.remoteFolders, i.snapshot)
    requires c == VisitConnections(ConnState(f.rows, [], false), order, i.local, i.remote, i.snapshot, i.cx)
    ensures !c.refused
    ensures ItemsOf(c.merged, f.merged) == Merged(LocalItems(i), RemoteItems(i), i.snapshot)
    ensures StoreItems(c.rows, f.folders, i.cx.localKey, i.syncKey)
            == StoreAfter(LocalItems(i), RemoteItems(i), i.snapshot)
    ensures StoreGood(c.rows, f.folders, i.cx.localKey, i.syncKey)
    ensures WiresGood(ByID(c.merged, ConnID), i.syncKey)
  {
    var o := Outcome(c.rows, f.folders, ByID(c.merged, ConnID), ByID(f.merged, FolderID));
    LoopsReachOutcome(i, folderOrder, order, f, c);
    MergeIsThreeWay(i, o);
    ItemsOfMeaning(c.merged, f.merged);
    FoldersKeyed(i, o);
    RowsKeyed(i, o);
  }

  lemma FoldersKeyed(i: Input, o: Outcome)
    requires GoodInput(i) && IsOutcome(i, o)
    ensures KeyedBy(o.folders, FolderID)
  {
    forall x | x in o.folders ensures x != "" && o.folders[x].id == x {
      assert Lookup(o.folders, x) == KeptFolderAt(i.folders, i.remoteFolders, i.snapshot, x);
    }
  }

  lemma RowsKeyed(i: Input, o: Outcome)
    requires RowsGood(o.rows, i.cx.localKey, i.syncKey)
    ensures KeyedBy(o.rows, ConnID)
  {
  }

  // All that the two loops, on any lists, leave behind.
  lemma MergeConcludes(rows: Rows, stored: Folders, local: seq<Connection>, localFolders: seq<Folder>,
                       remote: seq<Connection>, remoteFolders: seq<Folder>, snapshot: Items, syncKey: Key, cx: Context,
                       folderOrder: seq<string>, order: seq<string>, f: FolderState, c: ConnState)
    requires StoreGood(rows, stored, cx.localKey, syncKey)
             && LocalCopy(rows, stored, local, localFolders, cx.localKey, syncKey)
    requires WiresGood(ByID(remote, ConnID), syncKey) && Some(syncKey) in cx.keys
    requires NoDuplicates(folderOrder)
    requires forall x :: x in folderOrder <==> x in ByID(localFolders, FolderID) || x in ByID(remoteFolders, FolderID)
    requires NoDuplicates(order) && forall x :: x in order <==> x in ByID(local, ConnID) || x in ByID(remote, ConnID)
    requires f == VisitFolders(FolderState(rows, stored, []), folderOrder, ByID(localFolders, FolderID),
                               ByID(remoteFolders, FolderID), snapshot)
    requires c == VisitConnections(ConnState(f.rows, [], false), order, ByID(local, ConnID), ByID(remote, ConnID),
                                   snapshot, cx)
    ensures !c.refused
    ensures MergedFrom(local, localFolders, remote, remoteFolders, snapshot, syncKey, cx.localKey, c.rows, f.folders,
                       c.merged, f.merged)
  {
    GoodMergeInput(rows, stored, local, localFolders, remote, remoteFolders, snapshot, syncKey, cx);
    ItemsOfMeaning(remote, remoteFolders);
    LoopsMerge(MergeInput(rows, stored, local, remote, remoteFolders, snapshot, syncKey, cx), folderOrder, order, f, c);
  }

  lemma MergeTranslates(f: FolderState, folderOrder: seq<string>, rows: Rows, stored: Folders, local: seq<Connection>,
                        localFolders: seq<Folder>, remote: seq<Connection>, remoteFolders: seq<Folder>, snapshot: Items,
                        cx: Context, order: seq<string>)
    requires NoDuplicates(order)
    requires f == VisitFolders(FolderState(rows, stored, []), folderOrder, ByID(localFolders, FolderID),
                               ByID(remoteFolders, FolderID), snapshot)
    ensures var mine, theirs := ByID(local, ConnID), ByID(remote, ConnID);
            NewRowsFrom(rows, VisitConnections(ConnState(f.rows, [], false), order, mine, theirs, snapshot, cx).rows,
                        mine, theirs, cx)
  {
    ByIDKeys(local, ConnID);
    ByIDKeys(remote, ConnID);
    FolderLoopIDs(FolderState(rows, stored, []), folderOrder, ByID(localFolders, FolderID),
                  ByID(remoteFolders, FolderID), snapshot);
    LoopTranslates(ConnState(f.rows, [], false), order, ByID(local, ConnID), ByID(remote, ConnID), snapshot, cx);
    assert f.rows.Keys == rows.Keys;
  }

  // What a merge broken off in one of its loops leaves behind.
  ghost predicate BrokenFrom(local: seq<Connection>, localFolders: seq<Folder>, remote: seq<Connection>,
                             remoteFolders: seq<Folder>, snapshot: Items, syncKey: Key, localKey: Key,
                             rows: Rows, stored: Folders) {
    && StoreGood(rows, stored, localKey, syncKey)
    && StoppedMerge(ItemsOf(local, localFolders), ItemsOf(remote, remoteFolders), snapshot,
                    StoreItems(rows, stored, localKey, syncKey))
  }

  lemma FoldersBreakOff(rows: Rows, stored: Folders, local: seq<Connection>, localFolders: seq<Folder>,
                        remote: seq<Connection>, remoteFolders: seq<Folder>, snapshot: Items, syncKey: Key, cx: Context,
                        folderOrder: seq<string>, stop: nat, rows': Rows, stored': Folders)
    requires StoreGood(rows, stored, cx.localKey, syncKey)
             && LocalCopy(rows, stored, local, localFolders, cx.localKey, syncKey)
    requires WiresGood(ByID(remote, ConnID), syncKey) && Some(syncKey) in cx.keys
    requires NoDuplicates(folderOrder) && stop < |folderOrder|
    requires forall x :: x in folderOrder <==> x in ByID(localFolders, FolderID) || x in ByID(remoteFolders, FolderID)
    requires FolderBroken(VisitFolders(FolderState(rows, stored, []), folderOrder[..stop], ByID(localFolders, FolderID),
                                       ByID(remoteFolders, FolderID), snapshot), folderOrder[stop], rows', stored')
    ensures BrokenFrom(local, localFolders, remote, remoteFolders, snapshot, syncKey, cx.localKey, rows', stored')
  {
    GoodMergeInput(rows, stored, local, localFolders, remote, remoteFolders, snapshot, syncKey, cx);
    ItemsOfMeaning(remote, remoteFolders);
    FolderTurnStops(MergeInput(rows, stored, local, remote, remoteFolders, snapshot, syncKey, cx), folderOrder, stop,
                    rows', stored');
  }

  lemma LoopStands(i: Input, folderOrder: seq<string>, order: seq<string>, stop: nat, f: FolderState)
    returns (o: Outcome)
    requires GoodInput(i)
    requires NoDuplicates(folderOrder) && forall x :: x in folderOrder <==> x in i.folders || x in i.remoteFolders
    requires NoDuplicates(order) && forall x :: x in order <==> x in i.local || x in i.remote
    requires f == VisitFolders(FolderState(i.rows, i.folders, []), folderOrder, i.folders, i.remoteFolders, i.snapshot)
    requires stop < |order|
    ensures f.rows == ClearedRows(i) && o.folders == f.folders && KeyedBy(f.folders, FolderID)
    ensures var start := ConnState(ClearedRows(i), [], false);
            Before(i, order, stop, o,
                   VisitConnections(start, order[..stop], i.local, i.remote, i.snapshot, i.cx).rows)
  {
    hide VisitConnections, VisitFolders, IsOutcome, GoodInput, ClearedRows;
    FolderLoopClears(i, folderOrder, f);
    var c := VisitConnections(ConnState(f.rows, [], false), order, i.local, i.remote, i.snapshot, i.cx);
    o := Outcome(c.rows, f.folders, ByID(c.merged, ConnID), ByID(f.merged, FolderID));
    LoopsReachOutcome(i, folderOrder, order, f, c);
    FoldersKeyed(i, o);
    LoopKnown(i, order);
  }

  lemma LoopKnown(i: Input, order: seq<string>)
    requires GoodInput(i) && NoDuplicates(order) && forall x :: x in order <==> x in i.local || x in i.remote
    ensures LoopInput(order, i.local, i.remote)
  {
    ProtocolsKnown(i);
  }

  lemma LoopStops(i: Input, folderOrder: seq<string>, order: seq<string>, stop: nat, f: FolderState, rows: Rows)
    requires GoodInput(i)
    requires NoDuplicates(folderOrder) && forall x :: x in folderOrder <==> x in i.folders || x in i.remoteFolders
    requires NoDuplicates(order) && forall x :: x in order <==> x in i.local || x in i.remote
    requires f == VisitFolders(FolderState(i.rows, i.folders, []), folderOrder, i.folders, i.remoteFolders, i.snapshot)
    requires stop < |order|
    requires ConnectionBroken(VisitConnections(ConnState(f.rows, [], false), order[..stop], i.local, i.remote,
                                               i.snapshot, i.cx),
                              order[stop], i.local, i.remote, i.snapshot, i.cx, rows)
    ensures CutShort(i, rows, f.folders)
  {
    hide VisitConnections, VisitFolders, Before, HalfVisit, CutShort;
    var o := LoopStands(i, folderOrder, order, stop, f);
    var start := ConnState(f.rows, [], false);
    var before := VisitConnections(start, order[..stop], i.local, i.remote, i.snapshot, i.cx);
    ConnectionTurnStops(i, order, stop, o, before.rows, rows);
  }

  lemma ConnectionsBreakOff(rows: Rows, stored: Folders, local: seq<Connection>, localFolders: seq<Folder>,
                            remote: seq<Connection>, remoteFolders: seq<Folder>, snapshot: Items, syncKey: Key,
                            cx: Context, folderOrder: seq<string>, order: seq<string>, stop: nat, f: FolderState,
                            rows': Rows)
    requires StoreGood(rows, stored, cx.localKey, syncKey)
             && LocalCopy(rows, stored, local, localFolders, cx.localKey, syncKey)
    requires WiresGood(ByID(remote, ConnID), syncKey) && Some(syncKey) in cx.keys
    requires NoDuplicates(folderOrder)
    requires forall x :: x in folderOrder <==> x in ByID(localFolders, FolderID) || x in ByID(remoteFolders, FolderID)
    requires NoDuplicates(order) && forall x :: x in order <==> x in ByID(local, ConnID) || x in ByID(remote, ConnID)
    requires f == VisitFolders(FolderState(rows, stored, []), folderOrder, ByID(localFolders, FolderID),
                               ByID(remoteFolders, FolderID), snapshot)
    requires stop < |order|
    requires ConnectionBroken(VisitConnections(ConnState(f.rows, [], false), order[..stop], ByID(local, ConnID),
                                               ByID(remote, ConnID), snapshot, cx),
                              order[stop], ByID(local, ConnID), ByID(remote, ConnID), snapshot, cx, rows')
    ensures BrokenFrom(local, localFolders, remote, remoteFolders, snapshot, syncKey, cx.localKey, rows', f.folders)
  {
    GoodMergeInput(rows, stored, local, localFolders, remote, remoteFolders, snapshot, syncKey, cx);
    ItemsOfMeaning(remote, remoteFolders);
    LoopStops(MergeInput(rows, stored, local, remote, remoteFolders, snapshot, syncKey, cx), folderOrder, order, stop,
              f, rows');
  }

  // The returned set and the store after a merge, against the sets before it.
  ghost predicate MergedFrom(local: seq<Connection>, localFolders: seq<Folder>, remote: seq<Connection>,
                             remoteFolders: seq<Folder>,
                             snapshot: Items, syncKey: Key, localKey: Key,
                             rows: Rows, stored: Folders, merged: seq<Connection>, mergedFolders: seq<Folder>) {
    var mine, theirs := ItemsOf(local, localFolders), ItemsOf(remote, remoteFolders);
    && StoreGood(rows, stored, localKey, syncKey)
    && ItemsOf(merged, mergedFolders) == Merged(mine, theirs, snapshot)
    && StoreItems(rows, stored, localKey, syncKey) == StoreAfter(mine, theirs, snapshot)
    && WiresGood(ByID(merged, ConnID), syncKey)
  }

  // Every secret of the row opens here, or waits for another sync key.
  predicate Preparable(c: Connection, localKey: Key, syncKey: Key) {
    OpenFields(Secrets(Normalised(c)), localKey, syncKey).Ok?
  }

  lemma AllPrepared(rows: seq<Connection>, localKey: Key, syncKey: Key, e: Entropy)
    ensures Each(rows, Preparing(localKey, syncKey, e)).Ok?
       <==> forall c :: c in rows ==> Preparable(c, localKey, syncKey)
  {
    var prepare := Preparing(localKey, syncKey, e);
    assert forall c :: prepare(c).Ok? <==> Preparable(c, localKey, syncKey);
    if Each(rows, prepare).Ok? {
      forall c | c in rows ensures prepare(c).Ok? {
        var i :| 0 <= i < |rows| && rows[i] == c;
      }
    } else {
      var i :| 0 <= i < |rows| && prepare(rows[i]).Err?;
      assert rows[i] in rows;
    }
  }

  /****** The server and the device ******/

  class SyncServer {
    var connections: seq<Connection>
    var folders: seq<Folder>
    var meta: Option<Meta>              // absent when there is no blob

    ghost function View(): Server
      reads this
    {
      if meta.Some? then Some(Blob(ItemsOf(connections, folders), meta.value)) else None
    }

    ghost predicate Good(syncKey: Key)
      reads this
    {
      WiresGood(ByID(connections, ConnID), syncKey)
    }

    function CurrentMeta(): Meta
      reads this
    {
      if meta.Some? then meta.value else NO_META
    }

    method Store(cs: seq<Connection>, fs: seq<Folder>, checksum: string)
      modifies this
      ensures connections == cs && folders == fs
      ensures meta == Some(Meta(old(CurrentMeta()).version + 1, checksum))
    {
      meta := Some(Meta(CurrentMeta().version + 1, checksum));
      connections, folders := cs, fs;
    }
  }

  // Which steps outside succeed in this SyncNow: refreshing the token and setting
  // up and saving the account, reading the database, and each remote call; the
  // checksum of an upload; and how many setting writes work before one fails.
  datatype Network =
    Network(accountOK: bool, readOK: bool, metaOK: bool, fetchOK: bool, uploadOK: bool, confirmOK: bool,
            checksum: string, writes: nat)

  predicate Undisturbed(net: Network) {
    net.accountOK && net.readOK && net.metaOK && net.fetchOK && net.uploadOK && net.confirmOK && net.writes >= 4
  }

  // What a sync keeps for the next one.
  datatype Settings = Settings(snapshot: Items, setHash: Option<Models.SetHash>, meta: Option<Meta>)

  // The settings of a set after so many writes, in the order of a download: the
  // snapshot, the set hash, the description.
  function Downloaded(was: Settings, items: Items, meta: Meta, writes: nat): Settings {
    Settings(if writes >= 1 then items else was.snapshot,
             if writes >= 2 then Some(Fingerprint(items)) else was.setHash,
             if writes >= 3 then Some(meta) else was.meta)
  }

  // In the order of an upload: the description, the set hash, the snapshot.
  function UploadSaved(was: Settings, items: Items, meta: Meta, writes: nat): Settings {
    Settings(if writes >= 3 then items else was.snapshot,
             if writes >= 2 then Some(Fingerprint(items)) else was.setHash,
             if writes >= 1 then Some(meta) else was.meta)
  }

  datatype Tier = Pro | Capped(limit: Option<int>)

  datatype SyncResult =
    | Done
    | VaultLocked
    | NotLoggedIn
    | AccountFailed
    | ReadFailed
    | KeyMissing
    | CannotPrepare
    | RemoteFailed
    | Refused
    | StoreBroken
    | SettingFailed

  class App {
    const db: Database
    var masterKey: Option<Key>
    var loggedIn: bool
    var accountKey: Option<Key>
    var vaultKey: Option<Key>
    var tier: Tier

    constructor (db: Database, masterKey: Option<Key>, accountKey: Option<Key>, vaultKey: Option<Key>, loggedIn: bool,
                 tier: Tier)
      ensures this.db == db && this.masterKey == masterKey && this.accountKey == accountKey
      ensures this.vaultKey == vaultKey && this.loggedIn == loggedIn && this.tier == tier
    {
      this.db, this.masterKey, this.accountKey, this.vaultKey, this.loggedIn, this.tier :=
        db, masterKey, accountKey, vaultKey, loggedIn, tier;
    }

    function PreferredSyncKey(): Option<Key>
      reads this
    {
      if accountKey.Some? then accountKey else vaultKey
    }

    function SyncKeyCandidates(): seq<Option<Key>>
      reads this
    {
      (if accountKey.Some? then [accountKey] else []) + (if vaultKey.Some? then [vaultKey] else [])
    }

    // Vault open, logged in, and every stored record in good form.
    ghost predicate Ready()
      reads this, db
    {
      && masterKey.Some? && loggedIn && PreferredSyncKey().Some?
      && StoreGood(db.connections, db.folders, masterKey.value, PreferredSyncKey().value)
    }

    // Every stored and uploaded record is in good form under this key.
    ghost predicate GoodUnder(syncKey: Option<Key>, server: SyncServer)
      reads this, db, server
    {
      && masterKey.Some? && syncKey.Some?
      && StoreGood(db.connections, db.folders, masterKey.value, syncKey.value) && server.Good(syncKey.value)
    }

    // A device with both keys opens what was sealed under either; only the account
    // key is tried first.
    lemma BothKeysOpen(plain: Text, nonce: nat)
      requires accountKey.Some? && vaultKey.Some?
      ensures SyncKeyCandidates() == [accountKey, vaultKey]
      ensures DecryptFromSync(EncryptForSync(plain, accountKey.value, nonce), SyncKeyCandidates()) == Ok(plain)
      ensures DecryptFromSync(EncryptForSync(plain, vaultKey.value, nonce), SyncKeyCandidates()) == Ok(plain)
    {
      SyncRoundTrip(plain, accountKey.value, nonce, SyncKeyCandidates());
      SyncRoundTrip(plain, vaultKey.value, nonce, SyncKeyCandidates());
    }

    ghost function View(): Device
      reads this, db
      requires masterKey.Some? && PreferredSyncKey().Some?
    {
      ViewWith(masterKey.value, PreferredSyncKey().value)
    }

    // The lists are the stored records, all in good form, ready to be synced.
    ghost predicate Prepared(local: seq<Connection>, localFolders: seq<Folder>, syncKey: Key, cx: Context)
      reads db
    {
      && Some(syncKey) in cx.keys && StoreGood(db.connections, db.folders, cx.localKey, syncKey)
      && LocalCopy(db.connections, db.folders, local, localFolders, cx.localKey, syncKey)
    }

    ghost function ViewWith(localKey: Key, syncKey: Key): Device
      reads db
    {
      Device(StoreItems(db.connections, db.folders, localKey, syncKey), db.snapshot, db.setHash, db.remoteMeta)
    }

    // The call was an event of the protocol, and every record stays readable.
    ghost predicate Synced(d: Device, before: Server, net: Network, server: SyncServer, syncKey: Key, localKey: Key,
                           r: SyncResult)
      reads db, server
    {
      && StoreGood(db.connections, db.folders, localKey, syncKey) && server.Good(syncKey)
      && SyncedFrom(d, before, net, ViewWith(localKey, syncKey), server.View(), r)
    }

    ghost function Saved(): Settings
      reads db
    {
      Settings(db.snapshot, db.setHash, db.remoteMeta)
    }

    method LoadPrepared(localKey: Key, syncKey: Key, e: Entropy)
      returns (ok: bool, connections: seq<Connection>, folders: seq<Folder>)
      requires db.Valid()
      ensures ok <==> forall id :: id in db.connections ==> Preparable(db.connections[id], localKey, syncKey)
      ensures StoreGood(db.connections, db.folders, localKey, syncKey)
              ==> ok && LocalCopy(db.connections, db.folders, connections, folders, localKey, syncKey)
      ensures ok ==> DistinctIDs(connections, ConnID) && DistinctIDs(folders, FolderID)
                     && forall id :: id in ByID(connections, ConnID) <==> id in db.connections
    {
      var rows := db.GetConnections();
      folders := db.GetFolders();
      var prepared := ReencryptConnectionsForSync(rows, localKey, syncKey, e);
      AllPrepared(rows, localKey, syncKey, e);
      assert (forall c :: c in rows ==> Preparable(c, localKey, syncKey))
        <==> forall id :: id in db.connections ==> Preparable(db.connections[id], localKey, syncKey) by {
        assert forall id :: id in db.connections ==> db.connections[id] in rows;
      }
      if RowsGood(db.connections, localKey, syncKey) {
        forall i | 0 <= i < |rows| ensures PrepareConnection(rows[i], localKey, syncKey, e).Ok? {
          assert rows[i] in rows;
          PreparedGood(rows[i], localKey, syncKey, e);
        }
      }
      if prepared.Err? {
        return false, [], folders;
      }
      ok, connections := true, prepared.value;
      SameIndex(rows, db.connections, ConnID);
      SameIndex(folders, db.folders, FolderID);
      KeptIDs(rows, connections, localKey, syncKey, e);
      forall id ensures id in ByID(connections, ConnID) <==> id in db.connections {
        IndexedAlike(rows, connections, id);
      }
      if RowsGood(db.connections, localKey, syncKey) {
        forall c | c in rows ensures RowGood(c, localKey, syncKey) {
          assert c == db.connections[c.id];
        }
        PreparedAnswers(rows, connections, localKey, syncKey, e);
        PreparedIndex(db.connections, rows, connections, localKey, syncKey);
      }
    }

    method MergeRemoteSyncData(server: SyncServer, local: seq<Connection>, localFolders: seq<Folder>, net: Network,
                               ghost syncKey: Key, cx: Context)
      returns (r: SyncResult, connections: seq<Connection>, folders: seq<Folder>)
      modifies db`connections, db`folders, db`left
      ensures r.Done? || r.RemoteFailed? || r.Refused? || r.StoreBroken?
      ensures r.StoreBroken? ==> db.left == 0
      ensures !r.StoreBroken? && DistinctIDs(local, ConnID) ==>
                NewRowsFrom(old(db.connections), db.connections, ByID(local, ConnID),
                            ByID(server.connections, ConnID), cx)
      ensures !net.fetchOK
              ==> r == RemoteFailed && db.connections == old(db.connections) && db.folders == old(db.folders)
      ensures net.fetchOK && server.meta.None? ==>
                r == Done && connections == local && folders == localFolders
                && db.connections == old(db.connections) && db.folders == old(db.folders)
      ensures net.fetchOK && server.meta.Some? && Some(syncKey) in cx.keys
              && StoreGood(old(db.connections), old(db.folders), cx.localKey, syncKey)
              && LocalCopy(old(db.connections), old(db.folders), local, localFolders, cx.localKey, syncKey)
              && server.Good(syncKey) ==>
                || (r == Done
                    && MergedFrom(local, localFolders, server.connections, server.folders, db.snapshot, syncKey,
                                  cx.localKey, db.connections, db.folders, connections, folders))
                || (r == StoreBroken
                    && BrokenFrom(local, localFolders, server.connections, server.folders, db.snapshot, syncKey,
                                  cx.localKey, db.connections, db.folders))
      ensures r == Done && DistinctIDs(local, ConnID) && DistinctIDs(localFolders, FolderID)
              ==> DistinctIDs(connections, ConnID) && DistinctIDs(folders, FolderID)
    {
      if !net.fetchOK {
        return RemoteFailed, [], [];
      }
      if server.meta.None? {
        return Done, local, localFolders;
      }
      ghost var rows, stored := db.connections, db.folders;
      ghost var fit := StoreGood(rows, stored, cx.localKey, syncKey)
                       && LocalCopy(rows, stored, local, localFolders, cx.localKey, syncKey)
                       && server.Good(syncKey) && Some(syncKey) in cx.keys;
      ghost var folderOrder, order, stop;
      var ok;
      folders, ok, folderOrder, stop := MergeRemoteFolders(db, localFolders, server.folders, db.snapshot);
      if !ok {
        if fit {
          FoldersBreakOff(rows, stored, local, localFolders, server.connections, server.folders, db.snapshot, syncKey,
                          cx, folderOrder, stop, db.connections, db.folders);
        }
        return StoreBroken, [], [];
      }
      ghost var f := FolderState(db.connections, db.folders, folders);
      var w;
      connections, w, order, stop := MergeRemoteConnections(db, local, server.connections, db.snapshot, cx);
      if w.Broken? {
        if fit {
          ConnectionsBreakOff(rows, stored, local, localFolders, server.connections, server.folders, db.snapshot,
                              syncKey, cx, folderOrder, order, stop, f, db.connections);
        }
        return StoreBroken, [], [];
      }
      ghost var c := ConnState(db.connections, connections, w.BadProtocol?);
      r := if w.Written? then Done else Refused;
      if DistinctIDs(local, ConnID) && DistinctIDs(localFolders, FolderID) {
        MergedOnce(rows, stored, local, localFolders, server.connections, server.folders, db.snapshot, cx,
                   folderOrder, order);
      }
      if DistinctIDs(local, ConnID) {
        MergeTranslates(f, folderOrder, rows, stored, local, localFolders, server.connections, server.folders,
                        db.snapshot, cx, order);
      }
      if fit {
        MergeConcludes(rows, stored, local, localFolders, server.connections, server.folders, db.snapshot, syncKey, cx,
                       folderOrder, order, f, c);
      }
    }

    // After a download: the snapshot, the set hash, the blob description and the
    // time of the sync, up to the first write that fails.
    method SaveDownloaded(connections: seq<Connection>, folders: seq<Folder>, meta: Meta, writes: nat)
        returns (ok: bool)
      requires DistinctIDs(connections, ConnID) && DistinctIDs(folders, FolderID)
      modifies db`snapshot, db`setHash, db`remoteMeta
      ensures Saved() == Downloaded(old(Saved()), ItemsOf(connections, folders), meta, writes)
      ensures ok == (writes >= 4)
    {
      SetHashMeaning(connections, folders);
      if writes < 1 { return false; }
      var snapshot := SyncSnapshot(connections, folders);
      db.snapshot := snapshot;
      if writes < 2 { return false; }
      var hash := SyncSetHash(connections, folders);
      db.setHash := Some(hash);
      if writes < 3 { return false; }
      db.remoteMeta := Some(meta);
      ok := writes >= 4;
    }

    // After an upload: the description, the set hash, the snapshot and the time.
    method SaveUploaded(connections: seq<Connection>, folders: seq<Folder>, meta: Meta, writes: nat) returns (ok: bool)
      requires DistinctIDs(connections, ConnID) && DistinctIDs(folders, FolderID)
      modifies db`snapshot, db`setHash, db`remoteMeta
      ensures Saved() == UploadSaved(old(Saved()), ItemsOf(connections, folders), meta, writes)
      ensures ok == (writes >= 4)
    {
      SetHashMeaning(connections, folders);
      if writes < 1 { return false; }
      db.remoteMeta := Some(meta);
      if writes < 2 { return false; }
      var hash := SyncSetHash(connections, folders);
      db.setHash := Some(hash);
      if writes < 3 { return false; }
      var snapshot := SyncSnapshot(connections, folders);
      db.snapshot := snapshot;
      ok := writes >= 4;
    }

    // The first half of the pro branch: the two change checks and the merge.
    method Reconcile(server: SyncServer, local: seq<Connection>, localFolders: seq<Folder>, net: Network,
                     ghost syncKey: Key, cx: Context)
      returns (plan: Plan)
      modifies db`connections, db`folders, db`left
      ensures plan.Stop? ==> plan.result in {Done, RemoteFailed, Refused, StoreBroken, SettingFailed}
      ensures plan.Stop? && plan.result.StoreBroken? ==> db.left == 0
      ensures !(plan.Stop? && plan.result.StoreBroken?) && DistinctIDs(local, ConnID) ==>
                NewRowsFrom(old(db.connections), db.connections, ByID(local, ConnID),
                            ByID(server.connections, ConnID), cx)
      ensures old(Prepared(local, localFolders, syncKey, cx)) && server.Good(syncKey) ==>
                StoreGood(db.connections, db.folders, cx.localKey, syncKey)
                && PlanFor(old(ViewWith(cx.localKey, syncKey)), server.View(), net, syncKey, plan,
                           StoreItems(db.connections, db.folders, cx.localKey, syncKey))
      ensures plan.Proceed? && DistinctIDs(local, ConnID) && DistinctIDs(localFolders, FolderID)
              ==> DistinctIDs(plan.connections, ConnID) && DistinctIDs(plan.folders, FolderID)
    {
      if Prepared(local, localFolders, syncKey, cx) {
        LocalIsStore(db.connections, db.folders, local, localFolders, syncKey, cx);
        SetHashMeaning(local, localFolders);
        LocalGood(db.connections, local, cx.localKey, syncKey);
      }
      var localHash := SyncSetHash(local, localFolders);
      if !net.metaOK {
        return Plan.Stop(RemoteFailed);
      }
      var remoteMeta := server.CurrentMeta();
      var remoteChanged := RemoteMetaChanged(Some(remoteMeta), db.remoteMeta);
      var localChanged := Some(localHash) != db.setHash;
      if !remoteChanged && !localChanged {
        return Plan.Stop(if net.writes >= 1 then Done else SettingFailed);
      }
      if !remoteChanged {
        return Proceed(local, localFolders, true, remoteMeta);
      }
      var r, connections, folders := MergeRemoteSyncData(server, local, localFolders, net, syncKey, cx);
      plan := if r == Done then Proceed(connections, folders, localChanged, remoteMeta) else Plan.Stop(r);
    }

    // The second half: record the merged set, or upload it and record it.
    method Conclude(server: SyncServer, plan: Plan, net: Network)
      returns (r: SyncResult)
      requires plan.Proceed?
      requires DistinctIDs(plan.connections, ConnID) && DistinctIDs(plan.folders, FolderID)
      modifies db`snapshot, db`setHash, db`remoteMeta, server
      ensures Concluded(plan, net, old(Saved()), old(server.View()), Saved(), server.View(), r)
      ensures server.connections == if plan.upload && net.uploadOK then plan.connections else old(server.connections)
    {
      var ok: bool;
      if !plan.upload {
        ok := SaveDownloaded(plan.connections, plan.folders, plan.meta, net.writes);
        return if ok then Done else SettingFailed;
      }
      if !net.uploadOK {
        return RemoteFailed;
      }
      server.Store(plan.connections, plan.folders, net.checksum);
      if !net.confirmOK {
        return RemoteFailed;
      }
      ok := SaveUploaded(plan.connections, plan.folders, server.CurrentMeta(), net.writes);
      r := if ok then Done else SettingFailed;
    }

    method SyncPro(server: SyncServer, local: seq<Connection>, localFolders: seq<Folder>, net: Network,
                   ghost syncKey: Key, cx: Context)
      returns (r: SyncResult)
      requires DistinctIDs(local, ConnID) && DistinctIDs(localFolders, FolderID)
      modifies db, server
      ensures r in {Done, RemoteFailed, Refused, StoreBroken, SettingFailed}
      ensures r.StoreBroken? ==> db.left == 0
      ensures !r.StoreBroken? ==>
                NewRowsFrom(old(db.connections), db.connections, ByID(local, ConnID),
                            ByID(old(server.connections), ConnID), cx)
      ensures !r.Done? && !r.SettingFailed? ==> Saved() == old(Saved())
      ensures old(Prepared(local, localFolders, syncKey, cx) && server.Good(syncKey)) ==>
                Synced(old(ViewWith(cx.localKey, syncKey)), old(server.View()), net, server, syncKey, cx.localKey, r)
    {
      hide PlanFor, SyncedFrom, Concluded;
      ghost var d, before := ViewWith(cx.localKey, syncKey), server.View();
      ghost var fit := Prepared(local, localFolders, syncKey, cx) && server.Good(syncKey);
      var plan := Reconcile(server, local, localFolders, net, syncKey, cx);
      ghost var store := StoreItems(db.connections, db.folders, cx.localKey, syncKey);
      if plan.Stop? {
        if fit {
          PlanStopped(d, before, net, syncKey, plan, store);
        }
        return plan.result;
      }
      r := Conclude(server, plan, net);
      if fit {
        PlanCarriedOut(d, before, net, syncKey, plan, store, Saved(), server.View(), r);
        assert Device(store, Saved().snapshot, Saved().setHash, Saved().meta) == ViewWith(cx.localKey, syncKey);
        assert server.Good(syncKey);
      }
    }

    // The free branch uploads a capped set without merging and saves only the
    // snapshot.
    method SyncCapped(server: SyncServer, local: seq<Connection>, folders: seq<Folder>, net: Network)
        returns (r: SyncResult)
      requires tier.Capped?
      modifies db`snapshot, server
      ensures var limit := if tier.limit.Some? && 0 <= tier.limit.value < |local| then tier.limit.value else |local|;
              var items := ItemsOf(local[..limit], folders);
              && r == (if !(net.uploadOK && net.confirmOK) then RemoteFailed
                       else if net.writes >= 2 then Done
                       else SettingFailed)
              && server.View()
                 == (if net.uploadOK then Uploaded(old(server.View()), items, net.checksum) else old(server.View()))
              && db.snapshot == if net.uploadOK && net.confirmOK && net.writes >= 1 then items else old(db.snapshot)
    {
      var connections := local;
      if tier.limit.Some? && tier.limit.value >= 0 && |connections| > tier.limit.value {
        connections := connections[..tier.limit.value];
      } else {
        assert local[..|local|] == local;
      }
      if !net.uploadOK {
        return RemoteFailed;
      }
      server.Store(connections, folders, net.checksum);
      if !net.confirmOK {
        return RemoteFailed;
      }
      if net.writes < 1 {
        return SettingFailed;
      }
      var snapshot := SyncSnapshot(connections, folders);
      db.snapshot := snapshot;
      r := if net.writes >= 2 then Done else SettingFailed;
    }

    // The call once the vault is open and the account ready.
    method SyncUnlocked(server: SyncServer, net: Network, localKey: Key, syncKey: Key, e: Entropy)
      returns (r: SyncResult)
      requires db.Valid() && masterKey == Some(localKey) && PreferredSyncKey() == Some(syncKey)
      modifies db, server
      ensures !r.Done? && !r.SettingFailed? ==> Saved() == old(Saved())
      ensures r.StoreBroken? ==> db.left == 0
      ensures !r.VaultLocked? && !r.NotLoggedIn? && !r.AccountFailed? && !r.ReadFailed? && !r.KeyMissing?
      ensures !r.StoreBroken? ==>
                NewRowsFrom(old(db.connections), db.connections, map[], ByID(old(server.connections), ConnID),
                            Context(localKey, SyncKeyCandidates(), e))
      ensures r.CannotPrepare? ==> db.connections == old(db.connections) && db.folders == old(db.folders)
                                   && server.View() == old(server.View())
      ensures tier.Pro? && old(StoreGood(db.connections, db.folders, localKey, syncKey) && server.Good(syncKey)) ==>
                Synced(old(ViewWith(localKey, syncKey)), old(server.View()), net, server, syncKey, localKey, r)
      ensures tier.Capped? ==> db.connections == old(db.connections) && db.folders == old(db.folders)
                               && db.setHash == old(db.setHash) && db.remoteMeta == old(db.remoteMeta)
                               && (r == Done ==> server.View().Some? && db.snapshot == ItemsOn(server.View()))
    {
      hide SyncedFrom;
      var ok, connections, folders := LoadPrepared(localKey, syncKey, e);
      if !ok {
        return CannotPrepare;
      }
      if tier.Capped? {
        r := SyncCapped(server, connections, folders, net);
        return;
      }
      assert Some(syncKey) in SyncKeyCandidates();
      r := SyncPro(server, connections, folders, net, syncKey, Context(localKey, SyncKeyCandidates(), e));
    }

    method SyncNow(server: SyncServer, net: Network, e: Entropy) returns (r: SyncResult)
      requires db.Valid()
      modifies db, server
      ensures !r.Done? && !r.SettingFailed? ==> Saved() == old(Saved())
      ensures r.StoreBroken? ==> db.left == 0
      ensures r == VaultLocked <==> masterKey.None?
      ensures r == NotLoggedIn <==> masterKey.Some? && !loggedIn
      ensures r == AccountFailed <==> masterKey.Some? && loggedIn && !net.accountOK
      ensures r == ReadFailed <==> masterKey.Some? && loggedIn && net.accountOK && !net.readOK
      ensures r == KeyMissing
         <==> masterKey.Some? && loggedIn && net.accountOK && net.readOK && PreferredSyncKey().None?
      ensures r.VaultLocked? || r.NotLoggedIn? || r.AccountFailed? || r.ReadFailed? || r.KeyMissing? || r.CannotPrepare?
              ==> db.connections == old(db.connections) && db.folders == old(db.folders)
                  && server.View() == old(server.View())
      ensures tier.Pro? && old(Ready() && server.Good(PreferredSyncKey().value)) ==>
                Ready() && server.Good(PreferredSyncKey().value)
                && SyncedFrom(old(View()), old(server.View()), net, View(), server.View(), r)
      // What is new here was translated with both keys this device may have.
      ensures !r.StoreBroken? && masterKey.Some? ==>
                NewRowsFrom(old(db.connections), db.connections, map[], ByID(old(server.connections), ConnID),
                            Context(masterKey.value, SyncKeyCandidates(), e))
      // Uploads are sealed under the account key, and under the vault key only
      // when there is no account key.
      ensures tier.Pro? && loggedIn && accountKey.Some? && old(GoodUnder(accountKey, server))
              ==> GoodUnder(accountKey, server)
      ensures tier.Pro? && loggedIn && accountKey.None? && old(GoodUnder(vaultKey, server))
              ==> GoodUnder(vaultKey, server)
      ensures (tier.Pro? && old(Ready() && server.Good(PreferredSyncKey().value))
               && net.accountOK && net.readOK && net.metaOK && net.fetchOK && net.uploadOK && net.confirmOK
               && net.writes >= 4)
              ==> r.Done? || r.StoreBroken?
      ensures tier.Capped? ==> db.connections == old(db.connections) && db.folders == old(db.folders)
                               && db.setHash == old(db.setHash) && db.remoteMeta == old(db.remoteMeta)
                               && (r == Done ==> server.View().Some? && db.snapshot == ItemsOn(server.View()))
    {
      hide SyncedFrom;
      ghost var d, before := if Ready() then Some(View()) else None, server.View();
      if masterKey.None? {
        return VaultLocked;
      }
      if !loggedIn {
        return NotLoggedIn;
      }
      if !net.accountOK || !net.readOK {
        r := if net.accountOK then ReadFailed else AccountFailed;
        if PreferredSyncKey().Some? {
          NothingDone(View(), server.View(), net, r);
        }
        return;
      }
      var syncKey := PreferredSyncKey();
      if syncKey.None? {
        return KeyMissing;
      }
      ghost var fit := tier.Pro? && Ready() && server.Good(syncKey.value);
      r := SyncUnlocked(server, net, masterKey.value, syncKey.value, e);
      if fit {
        Completes(d.value, before, net, View(), server.View(), r);
      }
    }
  }

  // What the first half decides: stop, or go on with a set to record or upload.
  datatype Plan =
    | Stop(result: SyncResult)
    | Proceed(connections: seq<Connection>, folders: seq<Folder>, upload: bool, meta: Meta)

  ghost predicate PlanFor(d: Device, server: Server, net: Network, syncKey: Key, plan: Plan, store: Items) {
    match plan
    case Stop(StoreBroken) => StoppedMerge(d.store, ItemsOn(server), d.snapshot, store)
    case Stop(r) =>
      && store == d.store
      && (if r == Done then SyncStep(d, server, net.checksum) == (d, server)
          else if r == SettingFailed then SyncStep(d, server, net.checksum) == (d, server) && net.writes < 4
          else !(net.metaOK && net.fetchOK))
    case Proceed(connections, folders, upload, meta) =>
      var items := ItemsOf(connections, folders);
      var server' := if upload then Uploaded(server, items, net.checksum) else server;
      && WiresGood(ByID(connections, ConnID), syncKey) && meta == MetaOf(server) && upload == Uploads(d)
      && SyncStep(d, server, net.checksum)
          == (Device(store, items, Some(Fingerprint(items)), Some(MetaOf(server'))), server')
  }

  // What the second half does with such a plan.
  ghost predicate Concluded(plan: Plan, net: Network, was: Settings, server: Server, now: Settings, server': Server,
                            r: SyncResult)
    requires plan.Proceed?
  {
    var items := ItemsOf(plan.connections, plan.folders);
    && server' == (if plan.upload && net.uploadOK then Uploaded(server, items, net.checksum) else server)
    && if plan.upload && !(net.uploadOK && net.confirmOK) then r == RemoteFailed && now == was
       else
         && r == (if net.writes >= 4 then Done else SettingFailed)
         && now == if plan.upload then UploadSaved(was, items, MetaOf(server'), net.writes)
                   else Downloaded(was, items, plan.meta, net.writes)
  }

  lemma PlanStopped(d: Device, server: Server, net: Network, syncKey: Key, plan: Plan, store: Items)
    requires PlanFor(d, server, net, syncKey, plan, store) && plan.Stop?
    ensures SyncedFrom(d, server, net, d.(store := store), server, plan.result)
  {}

  // Both halves together take the step, or stop inside it.
  lemma PlanCarriedOut(d: Device, server: Server, net: Network, syncKey: Key, plan: Plan, store: Items,
                       now: Settings, server': Server, r: SyncResult)
    requires PlanFor(d, server, net, syncKey, plan, store) && plan.Proceed?
    requires Concluded(plan, net, Settings(d.snapshot, d.setHash, d.meta), server, now, server', r)
    ensures WiresGood(ByID(plan.connections, ConnID), syncKey)
    ensures SyncedFrom(d, server, net, Device(store, now.snapshot, now.setHash, now.meta), server', r)
  {}

  // The result of a call against the step of the protocol. A completed call is
  // that step; one whose setting writes failed is that step stopped there; one
  // whose merge broke off has left a store that Retry.dfy describes; any other has
  // saved no setting, and either has done nothing yet, or has merged the store, or
  // has uploaded as well. Only a failure outside keeps a call from completing.
  ghost predicate SyncedFrom(d: Device, server: Server, net: Network, d': Device, server': Server, r: SyncResult) {
    var (after, uploaded) := SyncStep(d, server, net.checksum);
    if r == Done then d' == after && server' == uploaded
    else if r == StoreBroken then
      && d' == d.(store := d'.store) && server' == server
      && StoppedMerge(d.store, ItemsOn(server), d.snapshot, d'.store)
    else
      && !Undisturbed(net)
      && if r == SettingFailed then (d', server') == Stopped(d, server, net.checksum, net.writes)
         else
           && d' == d.(store := d'.store)
           && ((d'.store == d.store && server' == server)
               || (d'.store == after.store && (server' == server || server' == uploaded)))
  }

  // Nothing but a failure outside, or of a statement, keeps a call from completing.
  lemma Completes(d: Device, server: Server, net: Network, d': Device, server': Server, r: SyncResult)
    requires SyncedFrom(d, server, net, d', server', r)
    ensures net.accountOK && net.readOK && net.metaOK && net.fetchOK && net.uploadOK && net.confirmOK && net.writes >= 4
            ==> r.Done? || r.StoreBroken?
  {}

  lemma NothingDone(d: Device, server: Server, net: Network, r: SyncResult)
    requires !Undisturbed(net) && !r.Done? && !r.StoreBroken? && !r.SettingFailed?
    ensures SyncedFrom(d, server, net, d, server, r)
  {}

  // Every call of SyncNow, completed or failed, is one event of the protocol,
  // so the results about runs cover it.
  lemma CallIsEvent(sys: System, i: nat, net: Network, d: Device, server: Server, r: SyncResult)
    requires i < |sys.devices| && SyncedFrom(sys.devices[i], sys.server, net, d, server, r) && NoLegacy(d.store)
    ensures exists e: Event ::
              && e.device == i && Allowed(|sys.devices|, e) && Apply(sys, e) == System(sys.devices[i := d], server)
              && (r == Done ==> e == Sync(i, net.checksum))
              && (r == SettingFailed ==> e == Event.Stop(i, net.checksum, net.writes))
              && (r == StoreBroken ==> e == Edit(i, d.store))
  {
    var e := if r == Done then Sync(i, net.checksum)
             else if r == SettingFailed then Event.Stop(i, net.checksum, net.writes)
             else if server == sys.server then Edit(i, d.store)
             else Event.Stop(i, net.checksum, 0);
    assert Apply(sys, e) == System(sys.devices[i := d], server);
  }

  lemma LocalGood(rows: Rows, local: seq<Connection>, localKey: Key, syncKey: Key)
    requires forall id :: Mirrors(Lookup(rows, id), Lookup(ByID(local, ConnID), id), localKey, syncKey)
    ensures WiresGood(ByID(local, ConnID), syncKey)
  {
    ByIDKeys(local, ConnID);
    forall id | id in ByID(local, ConnID) ensures WireGood(ByID(local, ConnID)[id], syncKey) {
      assert Mirrors(Lookup(rows, id), Lookup(ByID(local, ConnID), id), localKey, syncKey);
    }
  }
}
