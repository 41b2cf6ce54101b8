// The merge loops seen through hashes: they perform the three-way merge of
// SyncProtocol on the set, and StoreAfter on the store.
module MergeView {
  import opened Common
  import opened Vault
  import opened Models
  import opened Storage
  import opened Envelope
  import opened HashStability
  import opened SyncProtocol
  import opened Merge
  import opened MergeMeaning

  /****** Views ******/

  function StoreItems(rows: Rows, folders: Folders, localKey: Key, syncKey: Key): Items {
    (map id | id in rows :: ConnKey(id) := ConnHash(RowHash(rows[id], localKey, syncKey))) + FolderItems(folders)
  }

  function ConnectionItems(connections: Rows): Items {
    map id | id in connections :: ConnKey(id) := HashOf(connections[id])
  }

  function FolderItems(folders: Folders): Items {
    map id | id in folders :: FolderKey(id) := FolderHash(folders[id])
  }

  function WireItems(connections: Rows, folders: Folders): Items {
    ConnectionItems(connections) + FolderItems(folders)
  }

  function RowHashAt(rows: Rows, localKey: Key, syncKey: Key, id: string): Option<Hash> {
    if id in rows then Some(ConnHash(RowHash(rows[id], localKey, syncKey))) else None
  }

  lemma StoreItemsAt(rows: Rows, folders: Folders, localKey: Key, syncKey: Key, k: ItemKey)
    ensures Lookup(StoreItems(rows, folders, localKey, syncKey), k)
         == match k
            case ConnKey(id) => RowHashAt(rows, localKey, syncKey, id)
            case FolderKey(id) => HashFolder(Lookup(folders, id))
            case LegacyKey(_) => None
  {
  }

  lemma WireItemsAt(connections: Rows, folders: Folders, k: ItemKey)
    ensures Lookup(WireItems(connections, folders), k)
         == match k
            case ConnKey(id) => HashConnection(Lookup(connections, id))
            case FolderKey(id) => HashFolder(Lookup(folders, id))
            case LegacyKey(_) => None
  {
  }

  /****** Records in good form ******/

  predicate RowGood(r: Connection, localKey: Key, syncKey: Key) {
    RowForm(r) && Opens(r, localKey, syncKey) && NoEmptySecret(Plaintexts(r, localKey, syncKey))
  }

  predicate WireGood(c: Connection, syncKey: Key) {
    WireForm(c, syncKey) && NoEmptySecret(c.syncSecretsHash.secrets)
  }

  ghost predicate RowsGood(rows: Rows, localKey: Key, syncKey: Key) {
    forall id :: id in rows ==> rows[id].id == id && RowGood(rows[id], localKey, syncKey)
  }

  ghost predicate WiresGood(connections: Rows, syncKey: Key) {
    forall id :: id in connections ==> connections[id].id == id && WireGood(connections[id], syncKey)
  }

  // The rows of a database in good form.
  ghost predicate StoreGood(rows: Rows, folders: Folders, localKey: Key, syncKey: Key) {
    RowsGood(rows, localKey, syncKey) && KeyedBy(rows, ConnID) && KeyedBy(folders, FolderID)
  }

  lemma PreparedGood(r: Connection, localKey: Key, syncKey: Key, e: Entropy)
    requires RowGood(r, localKey, syncKey)
    ensures var c := PrepareConnection(r, localKey, syncKey, e);
            c.Ok? && WireGood(c.value, syncKey) && c.value.id == r.id
            && HashOf(c.value) == ConnHash(RowHash(r, localKey, syncKey))
  {
    PreparedIsWire(r, localKey, syncKey, e);
    PreparedHash(r, localKey, syncKey, e);
  }

  lemma RewrittenGood(c: Connection, row: Option<Connection>, syncKey: Key, cx: Context)
    requires WireGood(c, syncKey) && Some(syncKey) in cx.keys
    ensures var r := Rewritten(row, c, cx).value;
            RowGood(r, cx.localKey, syncKey) && r.id == c.id
            && ConnHash(RowHash(r, cx.localKey, syncKey)) == HashOf(c)
  {
    StoredWire(c, row, syncKey, cx.localKey, cx.keys, cx.entropy);
    KeptIffNonEmpty(c.syncSecretsHash.secrets);
    var r := Rewritten(row, c, cx).value;
    var h := ConnectionHash(c);
    assert h.syncSecretsHash == c.syncSecretsHash;
    DigestDecides(h, RowHash(r, cx.localKey, syncKey), syncKey, c.syncSecretsHash.secrets,
                  Kept(c.syncSecretsHash.secrets));
  }

  lemma ClearedGood(r: Connection, localKey: Key, syncKey: Key)
    requires RowGood(r, localKey, syncKey)
    ensures var r' := r.(folderID := None);
            RowGood(r', localKey, syncKey)
            && ConnHash(RowHash(r', localKey, syncKey)) == Unfiled(ConnHash(RowHash(r, localKey, syncKey)))
  {
    var r' := r.(folderID := None);
    assert Secrets(Normalised(r')) == Secrets(Normalised(r));
  }

  /****** One connection ******/

  // The local copy is what preparing the stored row gave.
  predicate Mirrors(row: Option<Connection>, local: Option<Connection>, localKey: Key, syncKey: Key) {
    (row.Some? <==> local.Some?)
    && (row.Some? ==> RowGood(row.value, localKey, syncKey) && WireGood(local.value, syncKey)
                      && row.value.id == local.value.id
                      && HashOf(local.value) == ConnHash(RowHash(row.value, localKey, syncKey)))
  }

  // A merged connection and its row: both present or both absent, and equal
  // hashes unless the row lost its folder.
  predicate Agree(kept: Option<Connection>, row: Option<Connection>, lost: bool, localKey: Key, syncKey: Key) {
    (kept.Some? <==> row.Some?)
    && (kept.Some? ==> WireGood(kept.value, syncKey) && RowGood(row.value, localKey, syncKey)
                       && row.value.id == kept.value.id
                       && ConnHash(RowHash(row.value, localKey, syncKey))
                          == if lost then Unfiled(HashOf(kept.value)) else HashOf(kept.value))
  }

  lemma ConnectionView(row: Option<Connection>, cleared: bool, now: Option<Connection>, local: Option<Connection>,
                       remote: Option<Connection>, previous: Option<Hash>, syncKey: Key, cx: Context)
    requires Mirrors(row, local, cx.localKey, syncKey) && Some(syncKey) in cx.keys
    requires remote.Some? ==> WireGood(remote.value, syncKey)
    requires now == if cleared && row.Some? then Some(row.value.(folderID := None)) else row
    ensures Agree(KeptConnection(local, remote, previous), NewRow(now, local, remote, previous, cx),
                  cleared && local.Some? && HashConnection(local) != previous
                      && HashConnection(local) != HashConnection(remote),
                  cx.localKey, syncKey)
  {
    var kept := KeptConnection(local, remote, previous);
    if kept.Some? {
      if remote.Some? && HashOf(kept.value) == HashOf(remote.value) {
        RewrittenGood(kept.value, now, syncKey, cx);
      } else if cleared {
        ClearedGood(row.value, cx.localKey, syncKey);
      }
    }
  }

  /****** The whole merge ******/

  lemma MergedLookup(local: Items, remote: Items, snapshot: Items, k: ItemKey)
    ensures !k.LegacyKey? || k in local || k in remote
            ==> Lookup(Merged(local, remote, snapshot), k)
                == if k in local || k in remote then MergedAt(local, remote, snapshot, k) else None
    ensures Lookup(StoreAfter(local, remote, snapshot), k)
         == if LosesFolder(local, remote, snapshot, k) && k in Merged(local, remote, snapshot)
            then Some(Unfiled(Merged(local, remote, snapshot)[k])) else Lookup(Merged(local, remote, snapshot), k)
  {
  }

  // The input of a merge.
  datatype Input = Input(rows: Rows, folders: Folders, local: Rows, remote: Rows, remoteFolders: Folders,
                         snapshot: Items, syncKey: Key, cx: Context)

  ghost predicate GoodInput(i: Input) {
    && RowsGood(i.rows, i.cx.localKey, i.syncKey) && KeyedBy(i.folders, FolderID) && KeyedBy(i.rows, ConnID)
    && KeyedBy(i.local, ConnID) && WiresGood(i.remote, i.syncKey) && KeyedBy(i.remote, ConnID)
    && KeyedBy(i.remoteFolders, FolderID) && Some(i.syncKey) in i.cx.keys
    && forall id :: Mirrors(Lookup(i.rows, id), Lookup(i.local, id), i.cx.localKey, i.syncKey)
  }

  function LocalItems(i: Input): Items {
    StoreItems(i.rows, i.folders, i.cx.localKey, i.syncKey)
  }

  function RemoteItems(i: Input): Items {
    WireItems(i.remote, i.remoteFolders)
  }

  function ClearedRows(i: Input): Rows {
    UnfileAll(i.rows, Dropped(LocalItems(i), RemoteItems(i), i.snapshot))
  }

  // The outcome of a merge, id by id.
  datatype Outcome = Outcome(rows: Rows, folders: Folders, merged: Rows, mergedFolders: Folders)

  ghost predicate IsOutcome(i: Input, o: Outcome) {
    && (forall x :: Lookup(o.rows, x) == NewRowAt(ClearedRows(i), i.local, i.remote, i.snapshot, i.cx, x))
    && (forall x :: Lookup(o.merged, x) == KeptConnectionAt(i.local, i.remote, i.snapshot, x))
    && (forall x :: Lookup(o.folders, x) == KeptFolderAt(i.folders, i.remoteFolders, i.snapshot, x))
    && (forall x :: Lookup(o.mergedFolders, x) == KeptFolderAt(i.folders, i.remoteFolders, i.snapshot, x))
  }

  lemma FolderItemAt(i: Input, o: Outcome, x: string)
    requires IsOutcome(i, o)
    ensures var k := FolderKey(x);
            Lookup(WireItems(o.merged, o.mergedFolders), k) == MergedAt(LocalItems(i), RemoteItems(i), i.snapshot, k)
            && Lookup(StoreItems(o.rows, o.folders, i.cx.localKey, i.syncKey), k)
               == MergedAt(LocalItems(i), RemoteItems(i), i.snapshot, k)
  {
    var k := FolderKey(x);
    StoreItemsAt(i.rows, i.folders, i.cx.localKey, i.syncKey, k);
    WireItemsAt(i.remote, i.remoteFolders, k);
    WireItemsAt(o.merged, o.mergedFolders, k);
    StoreItemsAt(o.rows, o.folders, i.cx.localKey, i.syncKey, k);
    KeptFolderHash(Lookup(i.folders, x), Lookup(i.remoteFolders, x), Lookup(i.snapshot, k));
    assert Lookup(o.mergedFolders, x) == KeptFolderAt(i.folders, i.remoteFolders, i.snapshot, x);
    assert Lookup(o.folders, x) == KeptFolderAt(i.folders, i.remoteFolders, i.snapshot, x);
  }

  // The three views of one connection and what the merge makes of them.
  lemma ConnectionKeptAt(i: Input, o: Outcome, x: string)
    requires GoodInput(i) && IsOutcome(i, o)
    ensures var k := ConnKey(x);
            && Lookup(LocalItems(i), k) == HashConnection(Lookup(i.local, x))
            && Lookup(RemoteItems(i), k) == HashConnection(Lookup(i.remote, x))
            && Lookup(WireItems(o.merged, o.mergedFolders), k) == MergedAt(LocalItems(i), RemoteItems(i), i.snapshot, k)
            && Lookup(o.merged, x) == KeptConnectionAt(i.local, i.remote, i.snapshot, x)
  {
    var k := ConnKey(x);
    StoreItemsAt(i.rows, i.folders, i.cx.localKey, i.syncKey, k);
    WireItemsAt(i.remote, i.remoteFolders, k);
    WireItemsAt(o.merged, o.mergedFolders, k);
    KeptConnectionHash(Lookup(i.local, x), Lookup(i.remote, x), Previous(i.snapshot, k));
    assert Mirrors(Lookup(i.rows, x), Lookup(i.local, x), i.cx.localKey, i.syncKey);
    assert Lookup(o.merged, x) == KeptConnectionAt(i.local, i.remote, i.snapshot, x);
  }

  predicate ClearedAt(i: Input, x: string) {
    x in i.rows && i.rows[x].folderID.Some?
    && i.rows[x].folderID.value in Dropped(LocalItems(i), RemoteItems(i), i.snapshot)
  }

  function RowBefore(i: Input, x: string): Option<Connection> {
    if ClearedAt(i, x) then Some(i.rows[x].(folderID := None)) else Lookup(i.rows, x)
  }

  lemma ClearedRowsAt(i: Input, x: string)
    ensures Lookup(ClearedRows(i), x) == RowBefore(i, x)
  {
  }

  lemma ConnectionStoredAt(i: Input, o: Outcome, x: string)
    requires GoodInput(i) && IsOutcome(i, o)
    ensures Lookup(o.rows, x)
            == NewRow(RowBefore(i, x), Lookup(i.local, x), Lookup(i.remote, x), Previous(i.snapshot, ConnKey(x)), i.cx)
  {
    ClearedRowsAt(i, x);
    assert Lookup(o.rows, x) == NewRowAt(ClearedRows(i), i.local, i.remote, i.snapshot, i.cx, x);
  }

  lemma FiledAsStored(i: Input, x: string)
    requires GoodInput(i) && x in i.local
    ensures FiledIn(HashOf(i.local[x]), Dropped(LocalItems(i), RemoteItems(i), i.snapshot)) == ClearedAt(i, x)
  {
    assert Mirrors(Lookup(i.rows, x), Lookup(i.local, x), i.cx.localKey, i.syncKey);
    assert HashOf(i.local[x]).connection.folderID == i.rows[x].folderID;
  }

  lemma ConnectionAgrees(i: Input, o: Outcome, x: string)
    requires GoodInput(i) && IsOutcome(i, o)
    ensures Agree(Lookup(o.merged, x), Lookup(o.rows, x),
            LosesFolder(LocalItems(i), RemoteItems(i), i.snapshot, ConnKey(x)),
                  i.cx.localKey, i.syncKey)
  {
    hide Agree;
    ConnectionKeptAt(i, o, x);
    ConnectionStoredAt(i, o, x);
    if x in i.local {
      FiledAsStored(i, x);
    }
    assert Mirrors(Lookup(i.rows, x), Lookup(i.local, x), i.cx.localKey, i.syncKey);
    ConnectionView(Lookup(i.rows, x), ClearedAt(i, x), RowBefore(i, x), Lookup(i.local, x), Lookup(i.remote, x),
                   Previous(i.snapshot, ConnKey(x)), i.syncKey, i.cx);
  }

  lemma ConnectionItemAt(i: Input, o: Outcome, x: string)
    requires GoodInput(i) && IsOutcome(i, o)
    ensures var k := ConnKey(x);
            var m := MergedAt(LocalItems(i), RemoteItems(i), i.snapshot, k);
            && Lookup(WireItems(o.merged, o.mergedFolders), k) == m
            && Lookup(StoreItems(o.rows, o.folders, i.cx.localKey, i.syncKey), k)
               == (if LosesFolder(LocalItems(i), RemoteItems(i), i.snapshot, k) && m.Some?
                   then Some(Unfiled(m.value)) else m)
            && (x in o.rows ==> RowGood(o.rows[x], i.cx.localKey, i.syncKey))
            && (x in o.merged ==> WireGood(o.merged[x], i.syncKey))
            && (x in o.rows && x in o.merged ==> o.rows[x].id == o.merged[x].id)
  {
    var k := ConnKey(x);
    ConnectionKeptAt(i, o, x);
    ConnectionAgrees(i, o, x);
    StoreItemsAt(o.rows, o.folders, i.cx.localKey, i.syncKey, k);
    WireItemsAt(o.merged, o.mergedFolders, k);
    assert x in o.rows <==> x in o.merged;
  }

  lemma MergedIDs(i: Input, o: Outcome, x: string)
    requires GoodInput(i) && IsOutcome(i, o) && x in o.merged
    ensures o.merged[x].id == x
  {
    KeptIsEither(Lookup(i.local, x), Lookup(i.remote, x), Previous(i.snapshot, ConnKey(x)));
    assert Lookup(o.merged, x) == KeptConnectionAt(i.local, i.remote, i.snapshot, x);
  }

  // Both merges together: the returned set is the three-way merge of the
  // local, remote and previous sets, and the store ends as StoreAfter, with
  // every record still in good form.
  lemma MergeIsThreeWay(i: Input, o: Outcome)
    requires GoodInput(i) && IsOutcome(i, o)
    ensures WireItems(o.merged, o.mergedFolders) == Merged(LocalItems(i), RemoteItems(i), i.snapshot)
    ensures StoreItems(o.rows, o.folders, i.cx.localKey, i.syncKey)
            == StoreAfter(LocalItems(i), RemoteItems(i), i.snapshot)
    ensures RowsGood(o.rows, i.cx.localKey, i.syncKey) && WiresGood(o.merged, i.syncKey)
  {
    var l, r := LocalItems(i), RemoteItems(i);
    var m, s := Merged(l, r, i.snapshot), StoreAfter(l, r, i.snapshot);
    var wire, store := WireItems(o.merged, o.mergedFolders), StoreItems(o.rows, o.folders, i.cx.localKey, i.syncKey);
    forall k ensures Lookup(wire, k) == Lookup(m, k) && Lookup(store, k) == Lookup(s, k) {
      ItemAt(i, o, k);
    }
    SameItems(wire, m);
    SameItems(store, s);
    forall x ensures (x in o.rows ==> o.rows[x].id == x && RowGood(o.rows[x], i.cx.localKey, i.syncKey))
                  && (x in o.merged ==> o.merged[x].id == x && WireGood(o.merged[x], i.syncKey)) {
      ConnectionAgrees(i, o, x);
      if x in o.merged {
        MergedIDs(i, o, x);
      }
      assert x in o.rows <==> x in o.merged;
    }
  }

  lemma ItemAt(i: Input, o: Outcome, k: ItemKey)
    requires GoodInput(i) && IsOutcome(i, o)
    ensures Lookup(WireItems(o.merged, o.mergedFolders), k)
            == Lookup(Merged(LocalItems(i), RemoteItems(i), i.snapshot), k)
    ensures Lookup(StoreItems(o.rows, o.folders, i.cx.localKey, i.syncKey), k)
         == Lookup(StoreAfter(LocalItems(i), RemoteItems(i), i.snapshot), k)
  {
    var l, r := LocalItems(i), RemoteItems(i);
    StoreItemsAt(i.rows, i.folders, i.cx.localKey, i.syncKey, k);
    WireItemsAt(i.remote, i.remoteFolders, k);
    MergedLookup(l, r, i.snapshot, k);
    match k
    case ConnKey(x) =>
      ConnectionItemAt(i, o, x);
    case FolderKey(x) =>
      FolderItemAt(i, o, x);
      assert KeptLocal(l, r, i.snapshot, k) ==> !FiledIn(l[k], Dropped(l, r, i.snapshot));
    case LegacyKey(_) =>
      WireItemsAt(o.merged, o.mergedFolders, k);
      StoreItemsAt(o.rows, o.folders, i.cx.localKey, i.syncKey, k);
  }
}
