// The store when the merge loops stop between two turns is a half-merged store,
// so the results of Retry.dfy are about these very loops. MergeStops.dfy adds the
// stops inside a turn.
module MergePrefix {
  import opened Common
  import opened Vault
  import opened Models
  import opened Storage
  import opened Envelope
  import opened HashStability
  import opened SyncProtocol
  import opened Merge
  import opened MergeMeaning
  import opened MergeView
  import opened Retry

  // All folders, and the connections of the first turns of the loop.
  function Seen(i: Input, ids: seq<string>): set<ItemKey> {
    set k | k in LocalItems(i).Keys + RemoteItems(i).Keys && (k.FolderKey? || (k.ConnKey? && k.id in ids))
  }

  // Folders of the first turns of the folder loop.
  function SeenFolders(i: Input, ids: seq<string>): set<ItemKey> {
    set k | k in LocalItems(i).Keys + RemoteItems(i).Keys && k.FolderKey? && k.id in ids
  }

  function DroppedBy(i: Input): set<string> {
    Dropped(LocalItems(i), RemoteItems(i), i.snapshot)
  }

  lemma ConnectionViews(i: Input, x: string)
    requires GoodInput(i)
    ensures Lookup(LocalItems(i), ConnKey(x)) == RowHashAt(i.rows, i.cx.localKey, i.syncKey, x)
    ensures ConnKey(x) in LocalItems(i) <==> x in i.rows
    ensures x in i.rows <==> x in i.local
    ensures ConnKey(x) in RemoteItems(i) <==> x in i.remote
    ensures var dropped := Dropped(LocalItems(i), RemoteItems(i), i.snapshot);
            x in i.rows ==> FiledIn(LocalItems(i)[ConnKey(x)], dropped) == ClearedAt(i, x)
  {
    StoreItemsAt(i.rows, i.folders, i.cx.localKey, i.syncKey, ConnKey(x));
    WireItemsAt(i.remote, i.remoteFolders, ConnKey(x));
    assert Mirrors(Lookup(i.rows, x), Lookup(i.local, x), i.cx.localKey, i.syncKey);
  }

  // A connection whose turn has not come: its row, cleared if its folder went.
  lemma UnseenRow(i: Input, ids: seq<string>, rows: Rows, folders: Folders, x: string)
    requires GoodInput(i) && x !in ids && Lookup(rows, x) == RowBefore(i, x)
    requires x in i.rows || x in i.remote
    ensures Lookup(StoreItems(rows, folders, i.cx.localKey, i.syncKey), ConnKey(x))
         == Lookup(HalfMerged(LocalItems(i), RemoteItems(i), i.snapshot, Seen(i, ids), DroppedBy(i)), ConnKey(x))
  {
    var k := ConnKey(x);
    ConnectionViews(i, x);
    StoreItemsAt(rows, folders, i.cx.localKey, i.syncKey, k);
    HalfMergedAt(LocalItems(i), RemoteItems(i), i.snapshot, Seen(i, ids), DroppedBy(i), k);
    if x in i.rows {
      assert Mirrors(Lookup(i.rows, x), Lookup(i.local, x), i.cx.localKey, i.syncKey);
      ClearedGood(i.rows[x], i.cx.localKey, i.syncKey);
    }
  }

  // A connection whose turn has come: as at the end of the loop.
  lemma SeenRow(i: Input, ids: seq<string>, o: Outcome, x: string)
    requires GoodInput(i) && IsOutcome(i, o) && x in ids && (x in i.local || x in i.remote)
    ensures Lookup(StoreItems(o.rows, o.folders, i.cx.localKey, i.syncKey), ConnKey(x))
         == Lookup(HalfMerged(LocalItems(i), RemoteItems(i), i.snapshot, Seen(i, ids), DroppedBy(i)), ConnKey(x))
  {
    var k := ConnKey(x);
    ConnectionViews(i, x);
    ConnectionItemAt(i, o, x);
    assert k in Seen(i, ids);
    HalfMergedAt(LocalItems(i), RemoteItems(i), i.snapshot, Seen(i, ids), DroppedBy(i), k);
  }

  lemma PrefixInput(order: seq<string>, n: nat, local: Rows, remote: Rows)
    requires LoopInput(order, local, remote) && n <= |order|
    ensures LoopInput(order[..n], local, remote)
  {}

  lemma PrefixRow(i: Input, ids: seq<string>, x: string)
    requires LoopInput(ids, i.local, i.remote)
    ensures var s := VisitConnections(ConnState(ClearedRows(i), [], false), ids, i.local, i.remote, i.snapshot, i.cx);
            Lookup(s.rows, x) == if x in ids then NewRowAt(ClearedRows(i), i.local, i.remote, i.snapshot, i.cx, x)
                                 else RowBefore(i, x)
  {
    ConnectionLoopRows(ClearedRows(i), ids, i.local, i.remote, i.snapshot, i.cx, x);
    ClearedRowsAt(i, x);
  }

  lemma PrefixConnection(i: Input, order: seq<string>, n: nat, o: Outcome, rows: Rows, x: string)
    requires GoodInput(i) && LoopInput(order, i.local, i.remote) && n <= |order|
    requires forall y :: y in i.local || y in i.remote ==> y in order
    requires IsOutcome(i, o)
    requires var start := ConnState(ClearedRows(i), [], false);
             rows == VisitConnections(start, order[..n], i.local, i.remote, i.snapshot, i.cx).rows
    ensures Lookup(StoreItems(rows, o.folders, i.cx.localKey, i.syncKey), ConnKey(x))
         == Lookup(HalfMerged(LocalItems(i), RemoteItems(i), i.snapshot, Seen(i, order[..n]), DroppedBy(i)), ConnKey(x))
  {
    PrefixInput(order, n, i.local, i.remote);
    PrefixRow(i, order[..n], x);
    ConnectionViews(i, x);
    if x in order[..n] {
      assert x in order;
      SeenRow(i, order[..n], o, x);
      SameRow(i, o, rows, x);
    } else if x in i.rows || x in i.remote {
      UnseenRow(i, order[..n], rows, o.folders, x);
    } else {
      StoreItemsAt(rows, o.folders, i.cx.localKey, i.syncKey, ConnKey(x));
    }
  }

  lemma SameRow(i: Input, o: Outcome, rows: Rows, x: string)
    requires IsOutcome(i, o) && Lookup(rows, x) == NewRowAt(ClearedRows(i), i.local, i.remote, i.snapshot, i.cx, x)
    ensures Lookup(StoreItems(rows, o.folders, i.cx.localKey, i.syncKey), ConnKey(x))
         == Lookup(StoreItems(o.rows, o.folders, i.cx.localKey, i.syncKey), ConnKey(x))
  {
    assert Lookup(o.rows, x) == Lookup(rows, x);
    StoreItemsAt(rows, o.folders, i.cx.localKey, i.syncKey, ConnKey(x));
    StoreItemsAt(o.rows, o.folders, i.cx.localKey, i.syncKey, ConnKey(x));
  }

  lemma PrefixFolder(i: Input, ids: seq<string>, o: Outcome, rows: Rows, x: string)
    requires GoodInput(i) && IsOutcome(i, o)
    ensures Lookup(StoreItems(rows, o.folders, i.cx.localKey, i.syncKey), FolderKey(x))
         == Lookup(HalfMerged(LocalItems(i), RemoteItems(i), i.snapshot, Seen(i, ids), DroppedBy(i)), FolderKey(x))
  {
    var k := FolderKey(x);
    FolderItemAt(i, o, x);
    StoreItemsAt(rows, o.folders, i.cx.localKey, i.syncKey, k);
    StoreItemsAt(o.rows, o.folders, i.cx.localKey, i.syncKey, k);
    if k in LocalItems(i) || k in RemoteItems(i) {
      assert k in Seen(i, ids);
      FoldersNotFiled(i, ids, k);
      HalfMergedAt(LocalItems(i), RemoteItems(i), i.snapshot, Seen(i, ids), DroppedBy(i), k);
    } else {
      FolderAbsent(i, o, x);
    }
  }

  lemma FoldersNotFiled(i: Input, ids: seq<string>, k: ItemKey)
    requires k.FolderKey?
    ensures !Cleared(LocalItems(i), RemoteItems(i), i.snapshot, Seen(i, ids), DroppedBy(i), k)
  {}

  lemma FolderAbsent(i: Input, o: Outcome, x: string)
    requires GoodInput(i) && IsOutcome(i, o)
    requires FolderKey(x) !in LocalItems(i) && FolderKey(x) !in RemoteItems(i)
    ensures Lookup(o.folders, x) == None
  {
    StoreItemsAt(i.rows, i.folders, i.cx.localKey, i.syncKey, FolderKey(x));
    WireItemsAt(i.remote, i.remoteFolders, FolderKey(x));
    assert Lookup(o.folders, x) == KeptFolderAt(i.folders, i.remoteFolders, i.snapshot, x);
  }

  /****** Stops inside the folder loop ******/

  lemma FolderStopFolder(i: Input, order: seq<string>, n: nat, rows: Rows, folders: Folders, gone: set<string>,
                         x: string)
    requires FolderStop(i, order, n, folders) && GoodInput(i)
    ensures var k := FolderKey(x);
            Lookup(StoreItems(rows, folders, i.cx.localKey, i.syncKey), k)
            == Lookup(HalfMerged(LocalItems(i), RemoteItems(i), i.snapshot, SeenFolders(i, order[..n]), gone), k)
  {
    var k := FolderKey(x);
    FolderLoop(i.rows, i.folders, order[..n], i.remoteFolders, i.snapshot, x);
    StoreItemsAt(rows, folders, i.cx.localKey, i.syncKey, k);
    StoreItemsAt(i.rows, i.folders, i.cx.localKey, i.syncKey, k);
    WireItemsAt(i.remote, i.remoteFolders, k);
    KeptFolderHash(Lookup(i.folders, x), Lookup(i.remoteFolders, x), Lookup(i.snapshot, k));
    if k in LocalItems(i) || k in RemoteItems(i) {
      HalfMergedAt(LocalItems(i), RemoteItems(i), i.snapshot, SeenFolders(i, order[..n]), gone, k);
    }
  }

  lemma FolderStopRow(i: Input, ids: seq<string>, rows: Rows, folders: Folders, gone: set<string>, x: string)
    requires GoodInput(i) && rows == UnfileAll(i.rows, gone)
    ensures var k := ConnKey(x);
            Lookup(StoreItems(rows, folders, i.cx.localKey, i.syncKey), k)
            == Lookup(HalfMerged(LocalItems(i), RemoteItems(i), i.snapshot, SeenFolders(i, ids), gone), k)
  {
    var k := ConnKey(x);
    ConnectionViews(i, x);
    StoreItemsAt(rows, folders, i.cx.localKey, i.syncKey, k);
    if x in i.rows || x in i.remote {
      HalfMergedAt(LocalItems(i), RemoteItems(i), i.snapshot, SeenFolders(i, ids), gone, k);
    }
    if x in i.rows {
      assert Mirrors(Lookup(i.rows, x), Lookup(i.local, x), i.cx.localKey, i.syncKey);
      ClearedGood(i.rows[x], i.cx.localKey, i.syncKey);
    }
  }

  // The folders after the first `n` turns of the folder loop.
  ghost predicate FolderStop(i: Input, order: seq<string>, n: nat, folders: Folders) {
    && n <= |order| && NoDuplicates(order) && (forall x :: x in order ==> x in i.folders || x in i.remoteFolders)
    && var start := FolderState(i.rows, i.folders, []);
       folders == VisitFolders(start, order[..n], i.folders, i.remoteFolders, i.snapshot).folders
  }

  function HalfAfter(i: Input, ids: seq<string>, gone: set<string>): Items {
    HalfMerged(LocalItems(i), RemoteItems(i), i.snapshot, SeenFolders(i, ids), gone)
  }

  // After any number of turns of the folder loop the store is half merged, too,
  // whichever folders have had their connections cleared.
  lemma FolderStopIsHalfMerged(i: Input, order: seq<string>, n: nat, folders: Folders, gone: set<string>)
    requires GoodInput(i) && FolderStop(i, order, n, folders)
    ensures StoreItems(UnfileAll(i.rows, gone), folders, i.cx.localKey, i.syncKey) == HalfAfter(i, order[..n], gone)
  {
    var rows := UnfileAll(i.rows, gone);
    var store := StoreItems(rows, folders, i.cx.localKey, i.syncKey);
    var half := HalfAfter(i, order[..n], gone);
    forall k ensures Lookup(store, k) == Lookup(half, k) {
      match k
      case ConnKey(x) => FolderStopRow(i, order[..n], rows, folders, gone, x);
      case FolderKey(x) => FolderStopFolder(i, order, n, rows, folders, gone, x);
      case LegacyKey(_) =>
        StoreItemsAt(rows, folders, i.cx.localKey, i.syncKey, k);
        StoreItemsAt(i.rows, i.folders, i.cx.localKey, i.syncKey, k);
        WireItemsAt(i.remote, i.remoteFolders, k);
    }
    SameItems(store, half);
  }

  // Between two turns the cleared folders are those deleted so far; inside a
  // deletion, one more.
  lemma FolderLoopStops(i: Input, order: seq<string>, n: nat)
    requires GoodInput(i) && n <= |order| && NoDuplicates(order)
    requires forall x :: x in order ==> x in i.folders || x in i.remoteFolders
    ensures var start := FolderState(i.rows, i.folders, []);
            var f := VisitFolders(start, order[..n], i.folders, i.remoteFolders, i.snapshot);
            var gone := DroppedFolders(order[..n], i.folders, i.remoteFolders, i.snapshot);
            && StoreItems(f.rows, f.folders, i.cx.localKey, i.syncKey) == HalfAfter(i, order[..n], gone)
            && (n < |order| ==> StoreItems(Unfile(f.rows, order[n]), f.folders, i.cx.localKey, i.syncKey)
                                == HalfAfter(i, order[..n], gone + {order[n]}))
  {
    var f := VisitFolders(FolderState(i.rows, i.folders, []), order[..n], i.folders, i.remoteFolders, i.snapshot);
    var gone := DroppedFolders(order[..n], i.folders, i.remoteFolders, i.snapshot);
    FolderLoopRows(i.rows, i.folders, order[..n], i.remoteFolders, i.snapshot);
    FolderStopIsHalfMerged(i, order, n, f.folders, gone);
    if n < |order| {
      UnfileOneMore(i.rows, gone, order[n]);
      FolderStopIsHalfMerged(i, order, n, f.folders, gone + {order[n]});
    }
  }

  /****** Stops inside the connection loop ******/

  // After the folder loop and any number of turns of the connection loop, the
  // store is half merged.
  lemma PrefixIsHalfMerged(i: Input, order: seq<string>, n: nat, o: Outcome, rows: Rows)
    requires GoodInput(i) && LoopInput(order, i.local, i.remote) && n <= |order|
    requires forall y :: y in i.local || y in i.remote ==> y in order
    requires IsOutcome(i, o)
    requires var start := ConnState(ClearedRows(i), [], false);
             rows == VisitConnections(start, order[..n], i.local, i.remote, i.snapshot, i.cx).rows
    ensures StoreItems(rows, o.folders, i.cx.localKey, i.syncKey)
         == HalfMerged(LocalItems(i), RemoteItems(i), i.snapshot, Seen(i, order[..n]), DroppedBy(i))
  {
    var store := StoreItems(rows, o.folders, i.cx.localKey, i.syncKey);
    var half := HalfMerged(LocalItems(i), RemoteItems(i), i.snapshot, Seen(i, order[..n]), DroppedBy(i));
    forall k ensures Lookup(store, k) == Lookup(half, k) {
      match k
      case ConnKey(x) => PrefixConnection(i, order, n, o, rows, x);
      case FolderKey(x) => PrefixFolder(i, order[..n], o, rows, x);
      case LegacyKey(_) =>
        StoreItemsAt(rows, o.folders, i.cx.localKey, i.syncKey, k);
        StoreItemsAt(i.rows, i.folders, i.cx.localKey, i.syncKey, k);
        WireItemsAt(i.remote, i.remoteFolders, k);
    }
    SameItems(store, half);
  }
}
