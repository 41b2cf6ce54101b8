// Merges cut short and run again.
module Retry {
  import opened Common
  import opened Models
  import opened SyncProtocol
  import opened Convergence

  function HalfAt(local: Items, remote: Items, snapshot: Items, seen: set<ItemKey>, k: ItemKey): Option<Hash> {
    if k in seen then MergedAt(local, remote, snapshot, k) else Lookup(local, k)
  }

  // A connection cleared out of a folder in `gone` and not written back.
  predicate Cleared(local: Items, remote: Items, snapshot: Items, seen: set<ItemKey>, gone: set<string>, k: ItemKey) {
    && k in local && (k !in seen || KeptLocal(local, remote, snapshot, k))
    && FiledIn(local[k], gone)
  }

  // The store when the merge loops stop after the ids in `seen`, the connections
  // filed in the folders `gone` having been cleared. A folder is cleared before
  // it is deleted, so it may be gone and not seen.
  function HalfMerged(local: Items, remote: Items, snapshot: Items, seen: set<ItemKey>, gone: set<string>): Items {
    map k | k in local.Keys + remote.Keys && HalfAt(local, remote, snapshot, seen, k).Some?
      :: var h := HalfAt(local, remote, snapshot, seen, k).value;
         if Cleared(local, remote, snapshot, seen, gone, k) then Unfiled(h) else h
  }

  lemma HalfMergedAt(local: Items, remote: Items, snapshot: Items, seen: set<ItemKey>, gone: set<string>, k: ItemKey)
    requires k in local || k in remote
    ensures var h := HalfAt(local, remote, snapshot, seen, k);
            Lookup(HalfMerged(local, remote, snapshot, seen, gone), k)
            == if h.Some? && Cleared(local, remote, snapshot, seen, gone, k) then Some(Unfiled(h.value)) else h
  {
  }

  /****** Stops inside a write ******/

  // Where a merge stopped: the ids whose turns were over, the folders cleared so
  // far, and the connection whose write or deletion was half done, if any.
  datatype Cut = Cut(seen: set<ItemKey>, gone: set<string>, torn: Option<ItemKey>)

  function TunnelsOf(h: Hash): Option<seq<TunnelInfo>> {
    if h.ConnHash? then h.connection.tunnels else None
  }

  function WithTunnels(h: Hash, tunnels: Option<seq<TunnelInfo>>): Hash {
    if h.ConnHash? then ConnHash(h.connection.(tunnels := tunnels)) else h
  }

  // A deletion takes the tunnels first. A write takes everything else first, so
  // that the tunnels are still those of the row that was.
  function Torn(was: Option<Hash>, remote: Option<Hash>): Option<Hash> {
    if remote.None? then
      if was.Some? then Some(WithTunnels(was.value, Some([]))) else None
    else Some(WithTunnels(remote.value, if was.Some? then TunnelsOf(was.value) else Some([])))
  }

  // The merge writes or deletes the stored connection.
  predicate Writes(local: Items, remote: Items, snapshot: Items, k: ItemKey) {
    && k.ConnKey? && (k in local || k in remote)
    && MergedAt(local, remote, snapshot, k) == Lookup(remote, k)
  }

  predicate IsCut(local: Items, remote: Items, snapshot: Items, c: Cut) {
    c.torn.Some? ==>
      && c.torn.value !in c.seen && Writes(local, remote, snapshot, c.torn.value)
      && (c.torn.value in local ==> local[c.torn.value].ConnHash?)
      && (c.torn.value in remote ==> remote[c.torn.value].ConnHash?)
  }

  // The store the stopped merge leaves behind.
  function CutStore(local: Items, remote: Items, snapshot: Items, c: Cut): Items {
    var half := HalfMerged(local, remote, snapshot, c.seen, c.gone);
    if c.torn.None? then half
    else
      var torn := Torn(Lookup(half, c.torn.value), Lookup(remote, c.torn.value));
      if torn.Some? then half[c.torn.value := torn.value] else half
  }

  // The store may be what a stopped merge leaves behind.
  ghost predicate StoppedMerge(local: Items, remote: Items, snapshot: Items, store: Items) {
    exists c :: IsCut(local, remote, snapshot, c) && store == CutStore(local, remote, snapshot, c)
  }

  // Stopping nowhere is the old store; stopping at the end is the new one.
  lemma HalfMergedEnds(local: Items, remote: Items, snapshot: Items)
    ensures CutStore(local, remote, snapshot, Cut({}, {}, None)) == local
    ensures var all := Cut(local.Keys + remote.Keys, Dropped(local, remote, snapshot), None);
            CutStore(local, remote, snapshot, all) == StoreAfter(local, remote, snapshot)
  {}

  /****** Running the merge again ******/

  // Merging the half-merged store decides a cleared item as the uncut merge would.
  predicate SameVerdict(local: Items, remote: Items, snapshot: Items, k: ItemKey)
    requires k in local
  {
    if Lookup(local, k) == Previous(snapshot, k) then Lookup(remote, k) == Some(Unfiled(local[k]))
    else Previous(snapshot, k) == Some(Unfiled(local[k])) && Lookup(remote, k) == Lookup(local, k)
  }

  // A half-done deletion is recovered from when there were no tunnels to take and
  // no folder to clear, a half-done insertion when there are no tunnels to come,
  // and a half-done overwriting when the tunnels stay, or nothing but they change.
  predicate Recovered(local: Items, remote: Items, gone: set<string>, k: ItemKey) {
    match (Lookup(local, k), Lookup(remote, k))
    case (Some(l), None) => TunnelsOf(l) == Some([]) && !FiledIn(l, gone)
    case (None, Some(r)) => TunnelsOf(r) == Some([])
    case (Some(l), Some(r)) => TunnelsOf(l) == TunnelsOf(r) || WithTunnels(l, TunnelsOf(r)) == r
    case (None, None) => true
  }

  // What rerunning the merge takes, item by item.
  predicate Rerunnable(local: Items, remote: Items, snapshot: Items, c: Cut, k: ItemKey) {
    if c.torn == Some(k) then Recovered(local, remote, c.gone, k)
    else Cleared(local, remote, snapshot, c.seen, c.gone, k) ==> SameVerdict(local, remote, snapshot, k)
  }

  lemma HalfAgain(local: Items, remote: Items, snapshot: Items, c: Cut, k: ItemKey)
    requires c.torn != Some(k)
    ensures Lookup(CutStore(local, remote, snapshot, c), k)
         == Lookup(HalfMerged(local, remote, snapshot, c.seen, c.gone), k)
    ensures MergedAt(CutStore(local, remote, snapshot, c), remote, snapshot, k) == MergedAt(local, remote, snapshot, k)
       <==> (Cleared(local, remote, snapshot, c.seen, c.gone, k) ==> SameVerdict(local, remote, snapshot, k))
  {}

  lemma TornAgain(local: Items, remote: Items, snapshot: Items, c: Cut, k: ItemKey)
    requires IsCut(local, remote, snapshot, c) && c.torn == Some(k)
    ensures var torn := Lookup(CutStore(local, remote, snapshot, c), k);
            && torn == Torn(Lookup(HalfMerged(local, remote, snapshot, c.seen, c.gone), k), Lookup(remote, k))
            && (MergeOne(torn, Lookup(remote, k), Previous(snapshot, k)) == MergedAt(local, remote, snapshot, k)
                <==> Recovered(local, remote, c.gone, k))
  {
    HalfMergedAt(local, remote, snapshot, c.seen, c.gone, k);
  }

  lemma RetryAt(local: Items, remote: Items, snapshot: Items, c: Cut, k: ItemKey)
    requires IsCut(local, remote, snapshot, c)
    ensures MergedAt(CutStore(local, remote, snapshot, c), remote, snapshot, k) == MergedAt(local, remote, snapshot, k)
       <==> Rerunnable(local, remote, snapshot, c, k)
  {
    if c.torn == Some(k) {
      TornAgain(local, remote, snapshot, c, k);
    } else {
      HalfAgain(local, remote, snapshot, c, k);
    }
  }

  lemma NothingNew(local: Items, remote: Items, snapshot: Items, c: Cut, k: ItemKey)
    requires IsCut(local, remote, snapshot, c)
    ensures k in CutStore(local, remote, snapshot, c) ==> k in local || k in remote
    ensures Rerunnable(local, remote, snapshot, c, k) || k in CutStore(local, remote, snapshot, c)
  {
    if c.torn == Some(k) {
      TornAgain(local, remote, snapshot, c, k);
      HalfMergedAt(local, remote, snapshot, c.seen, c.gone, k);
    } else {
      HalfAgain(local, remote, snapshot, c, k);
    }
  }

  lemma MergedWhere(local: Items, remote: Items, snapshot: Items, k: ItemKey)
    ensures Lookup(Merged(local, remote, snapshot), k)
         == if k in local || k in remote then MergedAt(local, remote, snapshot, k) else None
  {}

  // Running the merge again after stopping anywhere, in the middle of a write
  // included, gives the uninterrupted result if and only if every connection
  // already cleared out of a deleted folder is one the remote side cleared as
  // well, and the connection half written, if any, is one to recover from.
  lemma RetryMerges(local: Items, remote: Items, snapshot: Items, c: Cut)
    requires IsCut(local, remote, snapshot, c)
    ensures Merged(CutStore(local, remote, snapshot, c), remote, snapshot) == Merged(local, remote, snapshot)
       <==> forall k :: Rerunnable(local, remote, snapshot, c, k)
  {
    var half := CutStore(local, remote, snapshot, c);
    var again, once := Merged(half, remote, snapshot), Merged(local, remote, snapshot);
    forall k ensures Lookup(again, k) == Lookup(once, k) <==> Rerunnable(local, remote, snapshot, c, k) {
      RetryAt(local, remote, snapshot, c, k);
      NothingNew(local, remote, snapshot, c, k);
      MergedWhere(local, remote, snapshot, k);
      MergedWhere(half, remote, snapshot, k);
    }
    if forall k :: Rerunnable(local, remote, snapshot, c, k) {
      SameItems(again, once);
    }
  }

  lemma CutHasNoLegacy(local: Items, remote: Items, snapshot: Items, c: Cut)
    requires IsCut(local, remote, snapshot, c) && NoLegacy(local) && NoLegacy(remote)
    ensures NoLegacy(CutStore(local, remote, snapshot, c))
  {}

  // The same of whole syncs: when the call after a stopped merge completes, the
  // server holds what the stopped call would have put there, under that very
  // condition.
  lemma RetriedSync(d: Device, server: Server, c: Cut, first: string, second: string)
    requires DeviceInv(d, server) && IsCut(d.store, ItemsOn(server), d.snapshot, c)
    ensures var torn := d.(store := CutStore(d.store, ItemsOn(server), d.snapshot, c));
            (ItemsOn(SyncStep(torn, server, second).1) == ItemsOn(SyncStep(d, server, first).1)
             <==> forall k :: Rerunnable(d.store, ItemsOn(server), d.snapshot, c, k))
  {
    CutHasNoLegacy(d.store, ItemsOn(server), d.snapshot, c);
    var torn := d.(store := CutStore(d.store, ItemsOn(server), d.snapshot, c));
    SyncOutcome(d, server, first);
    SyncOutcome(torn, server, second);
    RetryMerges(d.store, ItemsOn(server), d.snapshot, c);
  }

  // When the merge deletes no folder that a local connection is filed in, and a
  // connection half written is one to recover from, the retried merge also leaves
  // the same store; in particular merging is idempotent.
  lemma RetryStores(local: Items, remote: Items, snapshot: Items, c: Cut)
    requires IsCut(local, remote, snapshot, c) && c.gone <= Dropped(local, remote, snapshot)
    requires c.torn.Some? ==> Recovered(local, remote, c.gone, c.torn.value)
    requires forall k :: k in local ==> !FiledIn(local[k], Dropped(local, remote, snapshot))
    ensures var half := CutStore(local, remote, snapshot, c);
            Merged(half, remote, snapshot) == Merged(local, remote, snapshot)
            && StoreAfter(half, remote, snapshot) == StoreAfter(local, remote, snapshot)
  {
    var half := CutStore(local, remote, snapshot, c);
    forall k | k in local ensures !Cleared(local, remote, snapshot, c.seen, c.gone, k) {
      assert !FiledIn(local[k], Dropped(local, remote, snapshot));
    }
    RetryMerges(local, remote, snapshot, c);
    forall f | f in Dropped(half, remote, snapshot) ensures f in Dropped(local, remote, snapshot) {
      var k := FolderKey(f);
      RetryAt(local, remote, snapshot, c, k);
      HalfAgain(local, remote, snapshot, c, k);
      assert Lookup(half, k).Some?;
    }
    forall k | k in half ensures !LosesFolder(half, remote, snapshot, k) {
      KeptAsBefore(local, remote, snapshot, c, k);
    }
    StoreAgreement(half, remote, snapshot);
    StoreAgreement(local, remote, snapshot);
  }

  // What the rerun keeps for edited is as it was.
  lemma KeptAsBefore(local: Items, remote: Items, snapshot: Items, c: Cut, k: ItemKey)
    requires IsCut(local, remote, snapshot, c) && !Cleared(local, remote, snapshot, c.seen, c.gone, k)
    requires c.torn == Some(k) ==> Recovered(local, remote, c.gone, k)
    ensures var half := CutStore(local, remote, snapshot, c);
            KeptLocal(half, remote, snapshot, k) ==> Lookup(half, k) == Lookup(local, k)
  {
    if c.torn == Some(k) {
      TornAgain(local, remote, snapshot, c, k);
      HalfMergedAt(local, remote, snapshot, c.seen, c.gone, k);
    } else {
      HalfAgain(local, remote, snapshot, c, k);
    }
  }

  /****** Stops after which the rerun goes wrong ******/

  // The condition can fail: a connection and its folder were both deleted
  // remotely and not touched here, and the merge stops after the folders. The
  // uncut merge deletes both; the rerun takes the cleared connection for edited
  // and keeps it.
  lemma RetryCanKeep(h: Hash)
    requires FiledIn(h, {"f"})
    ensures var local, remote := Both(h), map[];
            var half := CutStore(local, remote, local, Cut({FolderKey("f")}, {"f"}, None));
            && {"f"} == Dropped(local, remote, local)
            && Merged(local, remote, local) == map[] && Merged(half, remote, local) == Alone(Unfiled(h))
  {
    var local: Items, remote: Items := Both(h), map[];
    var half := HalfMerged(local, remote, local, {FolderKey("f")}, {"f"});
    var c, f := ConnKey("c"), FolderKey("f");
    assert MergedAt(local, remote, local, f) == None == MergedAt(local, remote, local, c);
    assert f in local && "f" in Dropped(local, remote, local);
    assert half == Alone(Unfiled(h)) by {
      HalfMergedAt(local, remote, local, {f}, {"f"}, c);
      HalfMergedAt(local, remote, local, {f}, {"f"}, f);
    }
    assert Lookup(half, c) != Lookup(local, c);
    assert Merged(half, remote, local) == half;
  }

  // One connection under two names, with and without a tunnel.
  function Record(name: string, tunnels: seq<TunnelInfo>): Hash {
    ConnHash(Connection(NoDigest, "c", "ssh", Some(true), None, None, None, None, None, false, Some(tunnels),
                        Details(name, "host", 22, "root", "password", None, None, None, None, false)))
  }

  const TUNNEL := TunnelInfo("t", "c", 5432, "db", 5432, false)

  // Stopped inside the deletion of a connection with a tunnel, deleted remotely and
  // not touched here: the rerun keeps it, without the tunnel.
  lemma TornDeletion()
    ensures var local, remote: Items := Alone(Record("a", [TUNNEL])), map[];
            var c := Cut({}, {}, Some(ConnKey("c")));
            && IsCut(local, remote, local, c) && Merged(local, remote, local) == map[]
            && Merged(CutStore(local, remote, local, c), remote, local) == Alone(Record("a", []))
  {
    var local, remote: Items := Alone(Record("a", [TUNNEL])), map[];
    var k := ConnKey("c");
    TornAgain(local, remote, local, Cut({}, {}, Some(k)), k);
  }

  // Stopped inside the insertion of a new remote connection with a tunnel: the
  // rerun takes the tunnel for removed here.
  lemma TornInsertion()
    ensures var local, remote: Items := map[], Alone(Record("a", [TUNNEL]));
            var c := Cut({}, {}, Some(ConnKey("c")));
            && IsCut(local, remote, map[], c) && Merged(local, remote, map[]) == remote
            && Merged(CutStore(local, remote, map[], c), remote, map[]) == Alone(Record("a", []))
  {
    var local, remote: Items := map[], Alone(Record("a", [TUNNEL]));
    var k := ConnKey("c");
    TornAgain(local, remote, map[], Cut({}, {}, Some(k)), k);
  }

  // Stopped inside the overwriting of a connection that was renamed remotely and
  // given a tunnel: the rerun keeps the new name and loses the tunnel.
  lemma TornOverwriting()
    ensures var local, remote := Alone(Record("a", [])), Alone(Record("b", [TUNNEL]));
            var c := Cut({}, {}, Some(ConnKey("c")));
            && IsCut(local, remote, local, c) && Merged(local, remote, local) == remote
            && Merged(CutStore(local, remote, local, c), remote, local) == Alone(Record("b", []))
  {
    var local, remote := Alone(Record("a", [])), Alone(Record("b", [TUNNEL]));
    var k := ConnKey("c");
    assert Record("a", []) != Record("b", []);
    TornAgain(local, remote, local, Cut({}, {}, Some(k)), k);
  }
}
