// Many devices and one server: what repeated SyncNow calls achieve.
//
// A device is seen through its hashes: the hashes of what it stores, the saved
// snapshot, the saved set hash and the saved blob description. SyncNow.dfy
// proves that the concrete SyncNow performs exactly `SyncStep` on this view.
module SyncProtocol {
  import opened Common
  import opened Models

  /****** Three-way merge of keyed sets ******/

  // The previous hash of an item; connections fall back on the bare id.
  function Previous(snapshot: Items, k: ItemKey): Option<Hash> {
    if k.ConnKey? && k !in snapshot then Lookup(snapshot, LegacyKey(k.id)) else Lookup(snapshot, k)
  }

  // An item untouched since the last sync follows the remote copy; a changed,
  // added or removed one keeps its local state. Absence counts as a value.
  function MergeOne(local: Option<Hash>, remote: Option<Hash>, previous: Option<Hash>): Option<Hash> {
    if local == previous then remote else local
  }

  function MergedAt(local: Items, remote: Items, snapshot: Items, k: ItemKey): Option<Hash> {
    MergeOne(Lookup(local, k), Lookup(remote, k), Previous(snapshot, k))
  }

  function Merged(local: Items, remote: Items, snapshot: Items): Items {
    map k | k in local.Keys + remote.Keys && MergedAt(local, remote, snapshot, k).Some?
      :: MergedAt(local, remote, snapshot, k).value
  }

  // Folders the merge deletes from the local store.
  function Dropped(local: Items, remote: Items, snapshot: Items): set<string> {
    set k | k in local.Keys && k.FolderKey? && MergedAt(local, remote, snapshot, k).None? :: k.id
  }

  // The merge leaves the stored copy of such an item alone.
  predicate KeptLocal(local: Items, remote: Items, snapshot: Items, k: ItemKey) {
    k in local && Lookup(local, k) != Previous(snapshot, k) && Lookup(local, k) != Lookup(remote, k)
  }

  // A deleted folder is cleared behind the back of kept connections.
  predicate LosesFolder(local: Items, remote: Items, snapshot: Items, k: ItemKey) {
    KeptLocal(local, remote, snapshot, k) && FiledIn(local[k], Dropped(local, remote, snapshot))
  }

  function StoreAfter(local: Items, remote: Items, snapshot: Items): Items {
    var m := Merged(local, remote, snapshot);
    map k | k in m :: if LosesFolder(local, remote, snapshot, k) then Unfiled(m[k]) else m[k]
  }

  // The store equals the merged set if and only if no kept connection is filed
  // in a folder this merge deletes.
  lemma StoreAgreement(local: Items, remote: Items, snapshot: Items)
    ensures StoreAfter(local, remote, snapshot) == Merged(local, remote, snapshot)
       <==> forall k :: k in local ==> !LosesFolder(local, remote, snapshot, k)
  {}

  /****** Sets that differ ******/

  lemma SameItems(a: Items, b: Items)
    requires forall k :: Lookup(a, k) == Lookup(b, k)
    ensures a == b
  {
    forall k ensures (k in a <==> k in b) && (k in a ==> a[k] == b[k]) {
      assert Lookup(a, k) == Lookup(b, k);
    }
  }

  lemma DifferAt(a: Items, b: Items) returns (k: ItemKey)
    requires a != b
    ensures Lookup(a, k) != Lookup(b, k)
  {
    if forall x :: x in a ==> x in b && a[x] == b[x] {
      assert a.Keys != b.Keys;
      k :| k in b && k !in a;
    } else {
      k :| k in a && !(k in b && a[k] == b[k]);
    }
  }

  // An upload from a device with a saved set hash records a new set.
  // A set that differs from `own` in one item that `own` changed.
  lemma Contrary(own: Items, snapshot: Items) returns (other: Items)
    requires own != snapshot && NoLegacy(own) && NoLegacy(snapshot)
    ensures NoLegacy(other) && other != own
    ensures Merged(own, other, snapshot) == own && StoreAfter(own, other, snapshot) == own
  {
    var k := DifferAt(own, snapshot);
    other := if k in own then own - {k} else own[k := snapshot[k]];
    assert Lookup(other, k) != Lookup(own, k);
    forall x ensures Lookup(Merged(own, other, snapshot), x) == Lookup(own, x) {
      if x != k {
        assert Lookup(other, x) == Lookup(own, x);
      }
    }
    SameItems(Merged(own, other, snapshot), own);
    assert Dropped(own, other, snapshot) == {};
    StoreAgreement(own, other, snapshot);
  }

  /****** One SyncNow on the pro tier ******/

  datatype Device = Device(store: Items, snapshot: Items, setHash: Option<SetHash>, meta: Option<Meta>)

  datatype Blob = Blob(items: Items, meta: Meta)
  type Server = Option<Blob>

  const NEW_DEVICE := Device(map[], map[], None, None)

  function ItemsOn(server: Server): Items {
    if server.Some? then server.value.items else map[]
  }

  // A missing blob is described by an empty, non-nil record.
  function MetaOf(server: Server): Meta {
    if server.Some? then server.value.meta else NO_META
  }

  function RemoteMetaChanged(current: Option<Meta>, previous: Option<Meta>): bool {
    if current.None? then previous.Some?
    else if previous.None? then true
    else current.value.version != previous.value.version || current.value.checksum != previous.value.checksum
  }

  // Any difference counts, of version or checksum, and so does a missing one.
  lemma MetaChanges(current: Option<Meta>, previous: Option<Meta>)
    ensures RemoteMetaChanged(current, previous) <==> current != previous
  {}

  // Every upload gets a fresh version; the checksum is the server's.
  function Uploaded(server: Server, items: Items, checksum: string): Server {
    Some(Blob(items, Meta(MetaOf(server).version + 1, checksum)))
  }

  function SyncStep(d: Device, server: Server, checksum: string): (Device, Server) {
    var remoteChanged := RemoteMetaChanged(Some(MetaOf(server)), d.meta);
    var localChanged := Some(Fingerprint(d.store)) != d.setHash;
    if !remoteChanged && !localChanged then (d, server)
    else
      var merging := remoteChanged && server.Some?;
      var items := if merging then Merged(d.store, ItemsOn(server), d.snapshot) else d.store;
      var store := if merging then StoreAfter(d.store, ItemsOn(server), d.snapshot) else d.store;
      if localChanged then
        var server' := Uploaded(server, items, checksum);
        (Device(store, items, Some(Fingerprint(items)), Some(MetaOf(server'))), server')
      else
        (Device(store, items, Some(Fingerprint(items)), Some(MetaOf(server))), server)
  }

  predicate Uploads(d: Device) {
    Some(Fingerprint(d.store)) != d.setHash
  }

  // The same call stopped after `saved` of its three setting writes. After an
  // upload they are the description, the set hash and the snapshot; after a
  // download the snapshot, the set hash and the description.
  function Stopped(d: Device, server: Server, checksum: string, saved: nat): (Device, Server) {
    var (d', server') := SyncStep(d, server, checksum);
    var first, third := saved >= 1, saved >= 3;
    var snapshot := if Uploads(d) then third else first;
    var meta := if Uploads(d) then first else third;
    (Device(d'.store, if snapshot then d'.snapshot else d.snapshot,
            if saved >= 2 then d'.setHash else d.setHash, if meta then d'.meta else d.meta), server')
  }

  // The same call without its two shortcuts: always merge, always upload.
  function PlainSync(d: Device, server: Server): (Items, Items) {
    (StoreAfter(d.store, ItemsOn(server), d.snapshot), Merged(d.store, ItemsOn(server), d.snapshot))
  }

  /****** Runs ******/

  datatype System = System(devices: seq<Device>, server: Server)

  datatype Event =
    | Edit(device: nat, store: Items)             // any local change, or a merge cut short
    | Sync(device: nat, checksum: string)
    | Stop(device: nat, checksum: string, saved: nat)

  predicate NoLegacy(items: Items) {
    forall k :: k in items ==> !k.LegacyKey?
  }

  // Events of a run of `n` devices.
  predicate Allowed(n: nat, e: Event) {
    e.device < n && (e.Edit? ==> NoLegacy(e.store))
  }

  predicate AllAllowed(n: nat, events: seq<Event>) {
    forall e :: e in events ==> Allowed(n, e)
  }

  function Apply(sys: System, e: Event): (r: System)
    requires Allowed(|sys.devices|, e)
    ensures |r.devices| == |sys.devices|
  {
    var d := sys.devices[e.device];
    match e
    case Edit(i, store) => sys.(devices := sys.devices[i := d.(store := store)])
    case Sync(i, checksum) =>
      var (d', server') := SyncStep(d, sys.server, checksum);
      System(sys.devices[i := d'], server')
    case Stop(i, checksum, saved) =>
      var (d', server') := Stopped(d, sys.server, checksum, saved);
      System(sys.devices[i := d'], server')
  }

  function Run(sys: System, events: seq<Event>): (r: System)
    requires AllAllowed(|sys.devices|, events)
    ensures |r.devices| == |sys.devices|
  {
    if events == [] then sys
    else
      var last := |events| - 1;
      assert events[last] in events;
      Apply(Run(sys, events[..last]), events[last])
  }

  // New devices and an empty account.
  function Start(n: nat): System {
    System(seq(n, _ => NEW_DEVICE), None)
  }

  // What the two shortcuts rely on.
  ghost predicate DeviceInv(d: Device, server: Server) {
    && NoLegacy(d.store) && NoLegacy(d.snapshot) && NoLegacy(ItemsOn(server))
    && (d.setHash.Some? ==> d.setHash == Some(Fingerprint(d.snapshot)) && d.meta.Some? && server.Some?)
    && (d.setHash.None? ==> d.snapshot == map[])
    && (d.meta.Some? ==> 1 <= d.meta.value.version <= MetaOf(server).version)
    && (d.meta.Some? && d.meta.value.version == MetaOf(server).version
        ==> d.snapshot == ItemsOn(server) && d.meta.value == MetaOf(server))
    && (server.Some? ==> MetaOf(server).version >= 1)
  }

  ghost predicate Inv(sys: System) {
    forall d :: d in sys.devices ==> DeviceInv(d, sys.server)
  }

  // What a sync promises. Whatever it skips, the device and the server end as if
  // the device had merged and uploaded, and the device is left recording exactly
  // what the server now holds.
  ghost predicate Promised(d: Device, server: Server, checksum: string) {
    var (d', server') := SyncStep(d, server, checksum);
    var (store, items) := PlainSync(d, server);
    && server'.Some? && d' == Device(store, items, Some(Fingerprint(items)), Some(MetaOf(server')))
    && ItemsOn(server') == items
  }

  // Shortcut soundness.
  lemma SyncOutcome(d: Device, server: Server, checksum: string)
    requires DeviceInv(d, server)
    ensures Promised(d, server, checksum)
    ensures var (d', server') := SyncStep(d, server, checksum);
            && DeviceInv(d', server') && MetaOf(server').version >= MetaOf(server).version
            && (server' != server ==> MetaOf(server').version > MetaOf(server).version)
    ensures !Uploads(d) ==> SyncStep(d, server, checksum).1 == server
  {
    var remote := ItemsOn(server);
    var items, store := Merged(d.store, remote, d.snapshot), StoreAfter(d.store, remote, d.snapshot);
    if !Uploads(d) {
      FingerprintInjective(d.store, d.snapshot);
      assert items == remote;
      StoreAgreement(d.store, remote, d.snapshot);
      assert store == remote;
    }
    if !RemoteMetaChanged(Some(MetaOf(server)), d.meta) || server.None? {
      assert d.snapshot == remote;
      assert items == d.store;
      StoreAgreement(d.store, remote, d.snapshot);
      assert store == d.store;
    }
  }

  // The server is as it was, or something was uploaded since.
  predicate Follows(server: Server, later: Server) {
    later == server || (later.Some? && NoLegacy(ItemsOn(later)) && MetaOf(later).version > MetaOf(server).version)
  }

  lemma InvFollows(d: Device, server: Server, later: Server)
    requires DeviceInv(d, server) && Follows(server, later)
    ensures DeviceInv(d, later)
  {
  }

  /****** Which stops do no harm ******/

  // Saving nothing or everything does none. In between, an upload must have
  // started from nothing, and a download must have saved the set hash or brought
  // nothing new.
  predicate SafeStop(d: Device, server: Server, saved: nat) {
    saved == 0 || saved >= 3
    || (if Uploads(d) then d.setHash.None? && d.store == map[] && ItemsOn(server) == map[]
        else saved == 2 || ItemsOn(server) == d.snapshot)
  }

  lemma UploadIsNew(d: Device, server: Server)
    requires DeviceInv(d, server) && Uploads(d)
    ensures Merged(d.store, ItemsOn(server), d.snapshot) == d.snapshot
       <==> d.setHash.None? && d.store == map[] && ItemsOn(server) == map[]
  {
    var remote := ItemsOn(server);
    var items := Merged(d.store, remote, d.snapshot);
    if d.store != d.snapshot {
      var k := DifferAt(d.store, d.snapshot);
      assert MergedAt(d.store, remote, d.snapshot, k) == Lookup(d.store, k);
      assert Lookup(items, k) == Lookup(d.store, k);
    } else {
      assert d.setHash.None?;
      assert forall k :: Lookup(items, k) == Lookup(remote, k) || k.LegacyKey?;
    }
  }

  // Exactly the safe stops keep the invariant.
  lemma StopKeeps(d: Device, server: Server, checksum: string, saved: nat)
    requires DeviceInv(d, server)
    ensures var (d', server') := Stopped(d, server, checksum, saved);
            DeviceInv(d', server') <==> SafeStop(d, server, saved)
  {
    SyncOutcome(d, server, checksum);
    if Uploads(d) {
      UploadIsNew(d, server);
      var (d', server') := Stopped(d, server, checksum, saved);
      if d'.setHash == Some(Fingerprint(d'.snapshot)) && saved == 2 {
        FingerprintInjective(Merged(d.store, ItemsOn(server), d.snapshot), d.snapshot);
      }
    } else {
      FingerprintInjective(d.store, d.snapshot);
      if saved == 1 && Fingerprint(ItemsOn(server)) == Fingerprint(d.snapshot) {
        FingerprintInjective(ItemsOn(server), d.snapshot);
      }
    }
  }

  /****** Runs with stops ******/

  predicate SafeEvent(sys: System, e: Event)
    requires Allowed(|sys.devices|, e)
  {
    e.Stop? ==> SafeStop(sys.devices[e.device], sys.server, e.saved)
  }

  // Every stop of the run is safe where it happens.
  predicate SafeRun(sys: System, events: seq<Event>)
    requires AllAllowed(|sys.devices|, events)
  {
    events == [] ||
    var last := |events| - 1;
    assert events[last] in events;
    SafeRun(sys, events[..last]) && SafeEvent(Run(sys, events[..last]), events[last])
  }

  lemma ServerFollows(d: Device, server: Server, checksum: string)
    requires DeviceInv(d, server)
    ensures Follows(server, SyncStep(d, server, checksum).1)
  {
    SyncOutcome(d, server, checksum);
  }

  // Every edit, every completed sync and exactly the safe stops keep the
  // invariant of all devices.
  lemma InvStep(sys: System, e: Event)
    requires Inv(sys) && Allowed(|sys.devices|, e)
    ensures Inv(Apply(sys, e)) <==> SafeEvent(sys, e)
  {
    var d, sys' := sys.devices[e.device], Apply(sys, e);
    var mine := sys'.devices[e.device];
    assert d in sys.devices && mine in sys'.devices;
    assert e.Stop? ==> (mine, sys'.server) == Stopped(d, sys.server, e.checksum, e.saved);
    if !e.Edit? {
      SyncOutcome(d, sys.server, e.checksum);
      ServerFollows(d, sys.server, e.checksum);
    }
    if e.Stop? {
      StopKeeps(d, sys.server, e.checksum, e.saved);
    }
    forall x | x in sys'.devices && x != mine ensures DeviceInv(x, sys'.server) {
      var i :| 0 <= i < |sys'.devices| && sys'.devices[i] == x;
      assert sys.devices[i] in sys.devices;
      InvFollows(sys.devices[i], sys.server, sys'.server);
    }
  }

  lemma {:induction false} InvRun(sys: System, events: seq<Event>)
    requires Inv(sys) && AllAllowed(|sys.devices|, events) && SafeRun(sys, events)
    ensures Inv(Run(sys, events))
  {
    if events != [] {
      var last := |events| - 1;
      assert events[last] in events;
      InvRun(sys, events[..last]);
      InvStep(Run(sys, events[..last]), events[last]);
    }
  }

  // At the start and after every event.
  ghost predicate AlwaysInv(sys: System, events: seq<Event>)
    requires AllAllowed(|sys.devices|, events)
  {
    Inv(Run(sys, events)) && (events == [] || AlwaysInv(sys, events[..|events| - 1]))
  }

  // A run keeps the invariant at every moment if and only if all its stops are
  // safe. While it holds, a saved description equal to the server's means the
  // snapshot is the server's set, and a saved set hash is the snapshot's.
  lemma {:induction false} InvHolds(n: nat, events: seq<Event>)
    requires AllAllowed(n, events)
    ensures AlwaysInv(Start(n), events) <==> SafeRun(Start(n), events)
  {
    if events != [] {
      var last := |events| - 1;
      assert events[last] in events;
      InvHolds(n, events[..last]);
      if Inv(Run(Start(n), events[..last])) {
        InvStep(Run(Start(n), events[..last]), events[last]);
      }
    }
  }
}
