// Merges broken off by a statement that fails, between two turns of a loop or
// inside one: what they leave behind is a store of Retry.dfy, in good form.
module MergeStops {
  import opened Common
  import opened Vault
  import opened Models
  import opened Storage
  import opened Envelope
  import opened HashStability
  import opened SyncProtocol
  import opened Merge
  import opened MergeMeaning
  import opened MergeView
  import opened Retry
  import opened MergePrefix

  // What a broken-off merge leaves behind.
  ghost predicate CutShort(i: Input, rows: Rows, folders: Folders) {
    && StoreGood(rows, folders, i.cx.localKey, i.syncKey)
    && StoppedMerge(LocalItems(i), RemoteItems(i), i.snapshot, StoreItems(rows, folders, i.cx.localKey, i.syncKey))
  }

  /****** In the folder loop ******/

  lemma UnfiledGood(i: Input, gone: set<string>)
    requires GoodInput(i)
    ensures RowsGood(UnfileAll(i.rows, gone), i.cx.localKey, i.syncKey) && KeyedBy(UnfileAll(i.rows, gone), ConnID)
  {
    forall x | x in i.rows
      ensures var r := UnfileAll(i.rows, gone)[x]; r.id == x && RowGood(r, i.cx.localKey, i.syncKey)
    {
      ClearedGood(i.rows[x], i.cx.localKey, i.syncKey);
    }
  }

  lemma FolderStopKeyed(i: Input, order: seq<string>, n: nat, folders: Folders)
    requires GoodInput(i) && FolderStop(i, order, n, folders)
    ensures KeyedBy(folders, FolderID)
  {
    forall x | x in folders ensures x != "" && folders[x].id == x {
      FolderLoop(i.rows, i.folders, order[..n], i.remoteFolders, i.snapshot, x);
    }
  }

  lemma FolderStopCuts(i: Input, order: seq<string>, n: nat, folders: Folders, gone: set<string>)
    requires GoodInput(i) && FolderStop(i, order, n, folders)
    ensures CutShort(i, UnfileAll(i.rows, gone), folders)
  {
    FolderStopIsHalfMerged(i, order, n, folders, gone);
    FolderStopKeyed(i, order, n, folders);
    UnfiledGood(i, gone);
    var c := Cut(SeenFolders(i, order[..n]), gone, None);
    assert IsCut(LocalItems(i), RemoteItems(i), i.snapshot, c);
    assert CutStore(LocalItems(i), RemoteItems(i), i.snapshot, c) == HalfAfter(i, order[..n], gone);
  }

  // A turn of the folder loop broke off.
  lemma FolderTurnStops(i: Input, order: seq<string>, n: nat, rows: Rows, folders: Folders)
    requires GoodInput(i) && n < |order| && NoDuplicates(order)
    requires forall x :: x in order ==> x in i.folders || x in i.remoteFolders
    requires var start := FolderState(i.rows, i.folders, []);
             var before := VisitFolders(start, order[..n], i.folders, i.remoteFolders, i.snapshot);
             FolderBroken(before, order[n], rows, folders)
    ensures CutShort(i, rows, folders)
  {
    hide CutShort;
    var gone := DroppedFolders(order[..n], i.folders, i.remoteFolders, i.snapshot);
    FolderLoopRows(i.rows, i.folders, order[..n], i.remoteFolders, i.snapshot);
    UnfileOneMore(i.rows, gone, order[n]);
    FolderStopCuts(i, order, n, folders, gone);
    FolderStopCuts(i, order, n, folders, gone + {order[n]});
  }

  /****** One connection ******/

  // The row of one id after the first statement of its turn.
  function HalfRow(row: Option<Connection>, local: Option<Connection>, remote: Option<Connection>,
                   previous: Option<Hash>, cx: Context): Option<Connection> {
    var kept := KeptConnection(local, remote, previous);
    if kept.None? then
      if local.Some? && row.Some? then Some(row.value.(tunnels := Some([]))) else row
    else if remote.Some? && HashOf(kept.value) == HashOf(remote.value) then
      Some(WrittenRow(row, TranslateConnection(kept.value, cx.localKey, cx.keys, cx.entropy)))
    else row
  }

  lemma HalfVisitRow(rows: Rows, id: string, local: Option<Connection>, remote: Option<Connection>,
                     previous: Option<Hash>, cx: Context, x: string)
    requires Visitable(id, local, remote)
    ensures Lookup(HalfVisit(rows, id, local, remote, previous, cx), x)
         == if x == id then HalfRow(Lookup(rows, id), local, remote, previous, cx) else Lookup(rows, x)
  {}

  // Other tunnels leave the rest of a row and of its hash alone.
  lemma RetunnelledGood(r: Connection, tunnels: seq<TunnelInfo>, localKey: Key, syncKey: Key)
    requires RowGood(r, localKey, syncKey) && TunnelForm(r.id, tunnels)
    ensures var r' := r.(tunnels := Some(tunnels));
            RowGood(r', localKey, syncKey)
            && RowHash(r', localKey, syncKey) == RowHash(r, localKey, syncKey).(tunnels := Some(tunnels))
  {
    var r' := r.(tunnels := Some(tunnels));
    assert Secrets(Normalised(r')) == Secrets(Normalised(r));
  }

  function HashRow(row: Option<Connection>, localKey: Key, syncKey: Key): Option<Hash> {
    if row.Some? then Some(ConnHash(RowHash(row.value, localKey, syncKey))) else None
  }

  lemma WrittenGood(c: Connection, row: Option<Connection>, syncKey: Key, cx: Context)
    requires WireGood(c, syncKey) && Some(syncKey) in cx.keys
    requires row.Some? ==> RowGood(row.value, cx.localKey, syncKey) && row.value.id == c.id
    ensures var r := WrittenRow(row, TranslateConnection(c, cx.localKey, cx.keys, cx.entropy));
            RowGood(r, cx.localKey, syncKey) && r.id == c.id
            && Some(ConnHash(RowHash(r, cx.localKey, syncKey)))
               == Torn(HashRow(row, cx.localKey, syncKey), Some(HashOf(c)))
  {
    RewrittenGood(c, row, syncKey, cx);
    var tunnels := if row.Some? then row.value.tunnels.value else [];
    RetunnelledGood(Rewritten(row, c, cx).value, tunnels, cx.localKey, syncKey);
  }

  // Half a turn, seen through hashes.
  lemma HalfRowView(row: Option<Connection>, now: Option<Connection>, local: Option<Connection>,
                    remote: Option<Connection>, previous: Option<Hash>, syncKey: Key, cx: Context)
    requires Mirrors(row, local, cx.localKey, syncKey) && Some(syncKey) in cx.keys
    requires remote.Some? ==> WireGood(remote.value, syncKey)
    requires remote.Some? && local.Some? ==> remote.value.id == local.value.id
    requires now == row || (row.Some? && now == Some(row.value.(folderID := None)))
    ensures var half := HalfRow(now, local, remote, previous, cx);
            && (half.Some? ==> RowGood(half.value, cx.localKey, syncKey))
            && (half.Some? && local.Some? ==> half.value.id == local.value.id)
            && (half.Some? && remote.Some? ==> half.value.id == remote.value.id)
            && HashRow(half, cx.localKey, syncKey)
               == (if (local.Some? || remote.Some?)
                      && MergeOne(HashConnection(local), HashConnection(remote), previous) == HashConnection(remote)
                   then Torn(HashRow(now, cx.localKey, syncKey), HashConnection(remote))
                   else HashRow(now, cx.localKey, syncKey))
  {
    if row.Some? {
      ClearedGood(row.value, cx.localKey, syncKey);
    }
    KeptConnectionHash(local, remote, previous);
    var kept := KeptConnection(local, remote, previous);
    if kept.None? {
      if now.Some? {
        RetunnelledGood(now.value, [], cx.localKey, syncKey);
      }
    } else if remote.Some? && HashOf(kept.value) == HashOf(remote.value) {
      WrittenGood(kept.value, now, syncKey, cx);
    }
  }

  /****** In the connection loop ******/

  // The loop stands before turn `n`.
  ghost predicate Before(i: Input, order: seq<string>, n: nat, o: Outcome, rows: Rows) {
    && GoodInput(i) && LoopInput(order, i.local, i.remote) && n < |order| && IsOutcome(i, o)
    && (forall y :: y in i.local || y in i.remote ==> y in order)
    && var start := ConnState(ClearedRows(i), [], false);
       rows == VisitConnections(start, order[..n], i.local, i.remote, i.snapshot, i.cx).rows
  }

  lemma RowStands(i: Input, order: seq<string>, n: nat, o: Outcome, rows: Rows, x: string)
    requires Before(i, order, n, o, rows)
    ensures x in rows ==> rows[x].id == x && RowGood(rows[x], i.cx.localKey, i.syncKey)
    ensures x !in order[..n] ==> Lookup(rows, x) == RowBefore(i, x)
  {
    hide GoodInput, RowGood, LocalItems, RemoteItems, NewRowAt, RowBefore;
    PrefixInput(order, n, i.local, i.remote);
    PrefixRow(i, order[..n], x);
    if x in order[..n] {
      assert Lookup(o.rows, x) == NewRowAt(ClearedRows(i), i.local, i.remote, i.snapshot, i.cx, x);
      if x in o.rows {
        NewRowGood(i, o, x);
      }
    } else if RowBefore(i, x).Some? {
      RowBeforeGood(i, x);
    }
  }

  lemma RowBeforeGood(i: Input, x: string)
    requires GoodInput(i) && RowBefore(i, x).Some?
    ensures var r := RowBefore(i, x).value; r.id == x && RowGood(r, i.cx.localKey, i.syncKey)
  {
    ClearedGood(i.rows[x], i.cx.localKey, i.syncKey);
  }

  lemma NewRowGood(i: Input, o: Outcome, x: string)
    requires GoodInput(i) && IsOutcome(i, o) && x in o.rows
    ensures o.rows[x].id == x && RowGood(o.rows[x], i.cx.localKey, i.syncKey)
  {
    ConnectionAgrees(i, o, x);
    MergedIDs(i, o, x);
  }

  // And the first statement of the turn has been carried out.
  function HalfRows(i: Input, order: seq<string>, n: nat, rows: Rows): Rows
    requires n < |order|
  {
    var id := order[n];
    HalfVisit(rows, id, Lookup(i.local, id), Lookup(i.remote, id), Previous(i.snapshot, ConnKey(id)), i.cx)
  }

  // The connection of the turn is then torn, if the turn has two statements.
  function TurnCut(i: Input, order: seq<string>, n: nat): Cut
    requires n < |order|
  {
    var k := ConnKey(order[n]);
    Cut(Seen(i, order[..n]), DroppedBy(i),
        if Writes(LocalItems(i), RemoteItems(i), i.snapshot, k) then Some(k) else None)
  }

  lemma LoopVisitable(i: Input, order: seq<string>, n: nat)
    requires LoopInput(order, i.local, i.remote) && n < |order|
    ensures Visitable(order[n], Lookup(i.local, order[n]), Lookup(i.remote, order[n])) && order[n] !in order[..n]
    ensures order[n] in i.local || order[n] in i.remote
  {
    assert order[n] in order;
  }

  // The copies of the connection of the turn, as rows and as hashes.
  lemma TurnCopies(i: Input, order: seq<string>, n: nat, o: Outcome, rows: Rows)
    requires Before(i, order, n, o, rows)
    ensures var id := order[n];
            && Mirrors(Lookup(i.rows, id), Lookup(i.local, id), i.cx.localKey, i.syncKey)
            && (id in i.remote ==> WireGood(i.remote[id], i.syncKey))
            && Lookup(LocalItems(i), ConnKey(id)) == HashConnection(Lookup(i.local, id))
            && Lookup(RemoteItems(i), ConnKey(id)) == HashConnection(Lookup(i.remote, id))
            && (Lookup(rows, id) == Lookup(i.rows, id)
                || (id in i.rows && Lookup(rows, id) == Some(i.rows[id].(folderID := None))))
  {
    var id := order[n];
    LoopVisitable(i, order, n);
    RowStands(i, order, n, o, rows, id);
    ConnectionKeptAt(i, o, id);
  }

  lemma TurnIsCut(i: Input, order: seq<string>, n: nat, o: Outcome, rows: Rows)
    requires Before(i, order, n, o, rows)
    ensures IsCut(LocalItems(i), RemoteItems(i), i.snapshot, TurnCut(i, order, n))
  {
    TurnCopies(i, order, n, o, rows);
    LoopVisitable(i, order, n);
  }

  lemma TurnView(i: Input, order: seq<string>, n: nat, o: Outcome, rows: Rows)
    requires Before(i, order, n, o, rows)
    ensures var k := ConnKey(order[n]);
            var now := Lookup(rows, order[n]);
            var half := HalfRow(now, Lookup(i.local, order[n]), Lookup(i.remote, order[n]),
                                Previous(i.snapshot, k), i.cx);
            && (half.Some? ==> half.value.id == order[n] && RowGood(half.value, i.cx.localKey, i.syncKey))
            && HashRow(half, i.cx.localKey, i.syncKey)
               == if TurnCut(i, order, n).torn == Some(k)
                  then Torn(HashRow(now, i.cx.localKey, i.syncKey), Lookup(RemoteItems(i), k))
                  else HashRow(now, i.cx.localKey, i.syncKey)
  {
    hide IsOutcome, VisitConnections, LocalItems, RemoteItems, HalfRow, HashRow, Mirrors, Torn;
    var id := order[n];
    LoopVisitable(i, order, n);
    TurnCopies(i, order, n, o, rows);
    HalfRowView(Lookup(i.rows, id), Lookup(rows, id), Lookup(i.local, id), Lookup(i.remote, id),
                Previous(i.snapshot, ConnKey(id)), i.syncKey, i.cx);
  }

  lemma OtherTorn(i: Input, order: seq<string>, n: nat, x: string)
    requires n < |order| && x != order[n]
    ensures TurnCut(i, order, n).torn != Some(ConnKey(x))
  {}

  lemma HalfTurnRow(i: Input, order: seq<string>, n: nat, o: Outcome, rows: Rows, x: string)
    requires Before(i, order, n, o, rows)
    ensures var k := ConnKey(x);
            var now := HashRow(Lookup(rows, x), i.cx.localKey, i.syncKey);
            var half := Lookup(HalfRows(i, order, n, rows), x);
            && (half.Some? ==> half.value.id == x && RowGood(half.value, i.cx.localKey, i.syncKey))
            && HashRow(half, i.cx.localKey, i.syncKey)
               == if TurnCut(i, order, n).torn == Some(k) then Torn(now, Lookup(RemoteItems(i), k)) else now
  {
    hide IsOutcome, VisitConnections, LocalItems, RemoteItems, HalfRow, HashRow, HalfVisit, Torn, RowGood, Visitable,
         GoodInput, TurnCut;
    var id := order[n];
    LoopVisitable(i, order, n);
    HalfVisitRow(rows, id, Lookup(i.local, id), Lookup(i.remote, id), Previous(i.snapshot, ConnKey(id)), i.cx, x);
    if x == id {
      TurnView(i, order, n, o, rows);
    } else {
      RowStands(i, order, n, o, rows, x);
      OtherTorn(i, order, n, x);
    }
  }

  // Before the turn the store is half merged; after half of it, the connection of
  // the turn is torn.
  lemma HalfTurnItem(i: Input, order: seq<string>, n: nat, o: Outcome, rows: Rows, k: ItemKey)
    requires Before(i, order, n, o, rows)
    ensures var cut := Lookup(StoreItems(HalfRows(i, order, n, rows), o.folders, i.cx.localKey, i.syncKey), k);
            var now := Lookup(StoreItems(rows, o.folders, i.cx.localKey, i.syncKey), k);
            cut == if TurnCut(i, order, n).torn == Some(k) then Torn(now, Lookup(RemoteItems(i), k)) else now
  {
    hide IsOutcome, VisitConnections, LocalItems, RemoteItems, HalfVisit, Torn, StoreItems, RowGood;
    StoreItemsAt(HalfRows(i, order, n, rows), o.folders, i.cx.localKey, i.syncKey, k);
    StoreItemsAt(rows, o.folders, i.cx.localKey, i.syncKey, k);
    if k.ConnKey? {
      HalfTurnRow(i, order, n, o, rows, k.id);
    }
  }

  lemma StandsHalfMerged(i: Input, order: seq<string>, n: nat, o: Outcome, rows: Rows)
    requires Before(i, order, n, o, rows)
    ensures StoreItems(rows, o.folders, i.cx.localKey, i.syncKey)
         == HalfMerged(LocalItems(i), RemoteItems(i), i.snapshot, Seen(i, order[..n]), DroppedBy(i))
  {
    PrefixIsHalfMerged(i, order, n, o, rows);
  }

  lemma StandsGood(i: Input, order: seq<string>, n: nat, o: Outcome, rows: Rows)
    requires n < |order| && Before(i, order, n, o, rows)
    ensures RowsGood(rows, i.cx.localKey, i.syncKey) && KeyedBy(rows, ConnID)
    ensures var half := HalfRows(i, order, n, rows);
            RowsGood(half, i.cx.localKey, i.syncKey) && KeyedBy(half, ConnID)
  {
    hide Before, HalfRows, TurnCut, LocalItems, RemoteItems;
    forall x ensures x in rows ==> rows[x].id == x && RowGood(rows[x], i.cx.localKey, i.syncKey) {
      RowStands(i, order, n, o, rows, x);
    }
    var half := HalfRows(i, order, n, rows);
    forall x ensures x in half ==> half[x].id == x && RowGood(half[x], i.cx.localKey, i.syncKey) {
      HalfTurnRow(i, order, n, o, rows, x);
    }
  }

  // Half-merged but for one item.
  lemma CutItems(local: Items, remote: Items, snapshot: Items, c: Cut, store: Items, now: Items)
    requires now == HalfMerged(local, remote, snapshot, c.seen, c.gone)
    requires forall k :: Lookup(store, k) == if c.torn == Some(k) then Torn(Lookup(now, k), Lookup(remote, k))
                                             else Lookup(now, k)
    ensures store == CutStore(local, remote, snapshot, c)
  {
    var cut := CutStore(local, remote, snapshot, c);
    forall k ensures Lookup(store, k) == Lookup(cut, k) {
    }
    SameItems(store, cut);
  }

  lemma HalfTurnStore(i: Input, order: seq<string>, n: nat, o: Outcome, rows: Rows)
    requires n < |order| && Before(i, order, n, o, rows)
    ensures StoreItems(HalfRows(i, order, n, rows), o.folders, i.cx.localKey, i.syncKey)
         == CutStore(LocalItems(i), RemoteItems(i), i.snapshot, TurnCut(i, order, n))
  {
    hide Before, CutStore, HalfMerged, HalfRows, StoreItems, LocalItems, RemoteItems, Torn;
    var store := StoreItems(HalfRows(i, order, n, rows), o.folders, i.cx.localKey, i.syncKey);
    var now := StoreItems(rows, o.folders, i.cx.localKey, i.syncKey);
    var c := TurnCut(i, order, n);
    StandsHalfMerged(i, order, n, o, rows);
    forall x ensures Lookup(store, x) == if c.torn == Some(x) then Torn(Lookup(now, x), Lookup(RemoteItems(i), x))
                                         else Lookup(now, x) {
      HalfTurnItem(i, order, n, o, rows, x);
    }
    CutItems(LocalItems(i), RemoteItems(i), i.snapshot, c, store, now);
  }

  // A turn of the connection loop broke off.
  lemma ConnectionTurnStops(i: Input, order: seq<string>, n: nat, o: Outcome, before: Rows, rows: Rows)
    requires n < |order| && Before(i, order, n, o, before) && KeyedBy(o.folders, FolderID)
    requires rows == before || rows == HalfRows(i, order, n, before)
    ensures CutShort(i, rows, o.folders)
  {
    hide Before, HalfRows, StoreItems, LocalItems, RemoteItems, HalfMerged;
    StandsGood(i, order, n, o, before);
    if rows == before {
      StandsHalfMerged(i, order, n, o, before);
      var c := Cut(Seen(i, order[..n]), DroppedBy(i), None);
      assert IsCut(LocalItems(i), RemoteItems(i), i.snapshot, c);
      assert StoreItems(rows, o.folders, i.cx.localKey, i.syncKey)
          == CutStore(LocalItems(i), RemoteItems(i), i.snapshot, c);
    } else {
      HalfTurnStore(i, order, n, o, before);
      TurnIsCut(i, order, n, o, before);
    }
  }
}
