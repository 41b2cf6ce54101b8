// Runs with any stops at all: from which of the states they reach the devices
// still converge, whatever is edited and synced afterwards.
module Aftermath {
  import opened Common
  import opened Models
  import opened SyncProtocol
  import opened Convergence

  /****** What every run keeps ******/

  ghost predicate HashOfSome(h: SetHash) {
    exists items :: NoLegacy(items) && h == Fingerprint(items)
  }

  // Holds after every run, whatever its stops: descriptions come from the
  // server, and a set hash is the hash of some set.
  ghost predicate Sane(d: Device, server: Server) {
    && NoLegacy(d.store) && NoLegacy(d.snapshot) && NoLegacy(ItemsOn(server))
    && (server.Some? ==> MetaOf(server).version >= 1)
    && (d.setHash.Some? ==> server.Some? && HashOfSome(d.setHash.value))
    && (d.meta.Some? ==> 1 <= d.meta.value.version <= MetaOf(server).version)
    && (d.meta.Some? && d.meta.value.version == MetaOf(server).version ==> d.meta.value == MetaOf(server))
  }

  ghost predicate AllSane(sys: System) {
    forall d :: d in sys.devices ==> Sane(d, sys.server)
  }

  lemma StoppedSane(d: Device, server: Server, checksum: string, saved: nat)
    requires Sane(d, server)
    ensures var (d', server') := Stopped(d, server, checksum, saved);
            Sane(d', server') && Follows(server, server')
  {
    var items := Merged(d.store, ItemsOn(server), d.snapshot);
    assert NoLegacy(items);
    assert HashOfSome(Fingerprint(items)) && HashOfSome(Fingerprint(d.store));
  }

  lemma SaneFollows(d: Device, server: Server, later: Server)
    requires Sane(d, server) && Follows(server, later)
    ensures Sane(d, later)
  {}

  lemma SaneStep(sys: System, e: Event)
    requires AllSane(sys) && Allowed(|sys.devices|, e)
    ensures AllSane(Apply(sys, e))
  {
    var d, after := sys.devices[e.device], Apply(sys, e);
    assert d in sys.devices;
    if !e.Edit? {
      StoppedSane(d, sys.server, e.checksum, if e.Sync? then 3 else e.saved);
      forall x | x in sys.devices ensures Sane(x, after.server) {
        SaneFollows(x, sys.server, after.server);
      }
    }
  }

  lemma {:induction false} RunSane(sys: System, events: seq<Event>)
    requires AllSane(sys) && AllAllowed(|sys.devices|, events)
    ensures AllSane(Run(sys, events))
  {
    if events != [] {
      var last := |events| - 1;
      assert events[last] in events;
      RunSane(sys, events[..last]);
      SaneStep(Run(sys, events[..last]), events[last]);
    }
  }

  /****** The condition ******/

  // The saved set hash is that of the saved snapshot.
  ghost predicate Anchored(d: Device) {
    d.setHash.Some? ==> d.setHash == Some(Fingerprint(d.snapshot))
  }

  // The saved description is the server's and the saved snapshot is not.
  predicate Misled(d: Device, server: Server) {
    d.setHash.Some? && d.meta == Some(MetaOf(server)) && d.snapshot != ItemsOn(server)
  }

  // Every set hash fits its snapshot, and no device is misled, unless one has
  // yet to make its first upload.
  ghost predicate Settling(sys: System) {
    && (forall d :: d in sys.devices ==> Anchored(d))
    && ((forall d :: d in sys.devices ==> !Misled(d, sys.server)) || exists d :: d in sys.devices && d.setHash.None?)
  }

  predicate NoStops(events: seq<Event>) {
    forall e :: e in events ==> !e.Stop?
  }

  ghost predicate RoundsConverge(sys: System) {
    forall r1, r2, r3 :: Round(|sys.devices|, r1) && Round(|sys.devices|, r2) && Round(|sys.devices|, r3)
      ==> Converged(Run(Run(Run(sys, r1), r2), r3))
  }

  // Whatever is edited and synced from now on, three rounds after the last edit
  // all stores equal the server's set.
  ghost predicate WillConverge(sys: System) {
    forall more :: AllAllowed(|sys.devices|, more) && NoStops(more) ==> RoundsConverge(Run(sys, more))
  }

  /****** It suffices ******/

  // One turn makes up for whatever the device had missed.
  lemma AnchoredTurn(d: Device, server: Server, checksum: string)
    requires Sane(d, server) && Anchored(d)
    ensures var (d', server') := SyncStep(d, server, checksum);
            && Tidy(d') && d'.meta == Some(MetaOf(server'))
            && (if Uploads(d) then !Misled(d', server') && MetaOf(server').version > MetaOf(server).version
                else Clean(d') && server' == server && d.setHash.Some? && (Misled(d', server) ==> d' == d))
  {
    var remote := ItemsOn(server);
    if !Uploads(d) {
      FingerprintInjective(d.store, d.snapshot);
      assert Merged(d.store, remote, d.snapshot) == remote;
      StoreAgreement(d.store, remote, d.snapshot);
    }
  }

  lemma SettlingStep(sys: System, e: Event)
    requires AllSane(sys) && Settling(sys) && Allowed(|sys.devices|, e) && !e.Stop?
    ensures AllSane(Apply(sys, e)) && Settling(Apply(sys, e))
  {
    SaneStep(sys, e);
    if e.Sync? {
      SettlingSync(sys, e.device, e.checksum);
    } else {
      SettlingEdit(sys, e.device, e.store);
    }
  }

  lemma SettlingSync(sys: System, i: nat, checksum: string)
    requires AllSane(sys) && Settling(sys) && i < |sys.devices|
    ensures Settling(Apply(sys, Sync(i, checksum)))
  {
    var d, after := sys.devices[i], Apply(sys, Sync(i, checksum));
    assert d in sys.devices;
    AnchoredTurn(d, sys.server, checksum);
    if Uploads(d) {
      forall x | x in after.devices ensures !Misled(x, after.server) {
        assert x in sys.devices || x == after.devices[i];
      }
    } else if x :| x in sys.devices && x.setHash.None? {
      var j :| 0 <= j < |sys.devices| && sys.devices[j] == x;
      assert after.devices[j] in after.devices;
    } else {
      forall x | x in after.devices ensures !Misled(x, after.server) {
        assert x in sys.devices || x == after.devices[i];
      }
    }
  }

  lemma SettlingEdit(sys: System, i: nat, store: Items)
    requires Settling(sys) && i < |sys.devices|
    ensures Settling(sys.(devices := sys.devices[i := sys.devices[i].(store := store)]))
  {
    var d := sys.devices[i];
    var after := sys.devices[i := d.(store := store)];
    assert d in sys.devices && after[i] in after;
    if exists x :: x in sys.devices && x.setHash.None? {
      var x :| x in sys.devices && x.setHash.None?;
      var j :| 0 <= j < |sys.devices| && sys.devices[j] == x;
      assert after[j] in after && after[j].setHash.None?;
    }
  }

  lemma {:induction false} SettlingRun(sys: System, events: seq<Event>)
    requires AllSane(sys) && Settling(sys) && AllAllowed(|sys.devices|, events) && NoStops(events)
    ensures AllSane(Run(sys, events)) && Settling(Run(sys, events))
  {
    if events != [] {
      var last := |events| - 1;
      assert events[last] in events;
      SettlingRun(sys, events[..last]);
      SettlingStep(Run(sys, events[..last]), events[last]);
    }
  }

  lemma OwnTurn(sys: System, e: Event)
    requires AllSane(sys) && Settling(sys) && e.Sync? && e.device < |sys.devices|
    ensures var d := Apply(sys, e).devices[e.device]; Tidy(d) && d.meta.Some?
  {
    assert sys.devices[e.device] in sys.devices;
    AnchoredTurn(sys.devices[e.device], sys.server, e.checksum);
  }

  lemma {:induction false} TurnTaken(sys: System, turns: seq<Event>, i: nat)
    requires AllSane(sys) && Settling(sys) && Syncs(|sys.devices|, turns) && i < |sys.devices| && TakesTurn(turns, i)
    ensures Tidy(Run(sys, turns).devices[i]) && Run(sys, turns).devices[i].meta.Some?
  {
    if turns != [] {
      LastTurn(sys, turns);
      var last := |turns| - 1;
      var before := Run(sys, turns[..last]);
      if turns[last].device == i {
        SettlingRun(sys, turns[..last]);
        OwnTurn(before, turns[last]);
      } else {
        LastTaker(turns, i);
        TurnTaken(sys, turns[..last], i);
      }
    }
  }

  // The first round brings the invariant of all devices back.
  lemma RoundRestores(sys: System, r: seq<Event>)
    requires AllSane(sys) && Settling(sys) && Round(|sys.devices|, r)
    ensures Inv(Run(sys, r)) && forall d :: d in Run(sys, r).devices ==> Tidy(d)
  {
    var after := Run(sys, r);
    SettlingRun(sys, r);
    forall d | d in after.devices ensures Tidy(d) && d.meta.Some? {
      var i :| 0 <= i < |after.devices| && after.devices[i] == d;
      TurnTaken(sys, r, i);
    }
  }

  lemma SettlingConverges(sys: System)
    requires AllSane(sys) && Settling(sys)
    ensures RoundsConverge(sys)
  {
    var n := |sys.devices|;
    forall r1, r2, r3 | Round(n, r1) && Round(n, r2) && Round(n, r3) ensures Converged(Run(Run(Run(sys, r1), r2), r3)) {
      RoundRestores(sys, r1);
      TidyConverges(Run(sys, r1), r2, r3);
    }
  }

  /****** A device astray ******/

  // The device has nothing to upload, and its next sync, if it looks at the
  // server at all, keeps a set that is not the server's.
  ghost predicate Astray(d: Device, server: Server) {
    && server.Some? && d.setHash == Some(Fingerprint(d.store)) && d.store != ItemsOn(server)
    && (d.meta == Some(MetaOf(server))
        || (Merged(d.store, ItemsOn(server), d.snapshot) == d.store
            && StoreAfter(d.store, ItemsOn(server), d.snapshot) == d.store))
  }

  // And no other device has anything to upload.
  ghost predicate Led(sys: System, i: nat) {
    && i < |sys.devices| && Astray(sys.devices[i], sys.server)
    && forall j :: 0 <= j < |sys.devices| && j != i ==> Clean(sys.devices[j])
  }

  lemma LedTurn(sys: System, i: nat, e: Event)
    requires Led(sys, i) && e.Sync? && e.device < |sys.devices|
    ensures Led(Apply(sys, e), i)
  {
    var d := sys.devices[e.device];
    if e.device != i {
      var remote := ItemsOn(sys.server);
      assert Clean(d);
      if RemoteMetaChanged(Some(MetaOf(sys.server)), d.meta) {
        assert forall k :: Lookup(Merged(d.store, remote, d.snapshot), k) == MergedAt(d.store, remote, d.snapshot, k);
      }
    }
  }

  lemma {:induction false} LedRun(sys: System, i: nat, turns: seq<Event>)
    requires Led(sys, i) && Syncs(|sys.devices|, turns)
    ensures Led(Run(sys, turns), i)
  {
    if turns != [] {
      LastTurn(sys, turns);
      LedRun(sys, i, turns[..|turns| - 1]);
      LedTurn(Run(sys, turns[..|turns| - 1]), i, turns[|turns| - 1]);
    }
  }

  lemma LedNeverConverges(sys: System, i: nat)
    requires Led(sys, i)
    ensures !RoundsConverge(sys)
  {
    var n := |sys.devices|;
    var r := TurnsBut(n, n);
    forall k | 0 <= k < n ensures TakesTurn(r, k) {
      TurnsButAll(n, n, k);
    }
    LedRun(sys, i, r);
    LedRun(Run(sys, r), i, r);
    LedRun(Run(Run(sys, r), r), i, r);
    var end := Run(Run(Run(sys, r), r), r);
    assert end.devices[i] in end.devices;
    assert Round(n, r) && !Converged(end);
  }

  /****** It is needed: a misled device ******/

  // Every device below `m` puts back what it has in its snapshot.
  lemma {:induction false} PutBack(sys: System, m: nat) returns (more: seq<Event>)
    requires AllSane(sys) && m <= |sys.devices|
    ensures AllAllowed(|sys.devices|, more) && NoStops(more) && Run(sys, more).server == sys.server
    ensures forall j :: 0 <= j < |sys.devices| ==>
              var d := sys.devices[j];
              Run(sys, more).devices[j] == if j < m then d.(store := d.snapshot) else d
  {
    more := [];
    if m > 0 {
      var fewer := PutBack(sys, m - 1);
      var d := sys.devices[m - 1];
      assert d in sys.devices;
      more := fewer + [Edit(m - 1, d.snapshot)];
      var before := Run(sys, fewer);
      EditNext(sys, fewer, before, m - 1, d.snapshot);
    }
  }

  lemma MisledStays(sys: System, i: nat)
    requires AllSane(sys) && i < |sys.devices| && Misled(sys.devices[i], sys.server)
    requires forall d :: d in sys.devices ==> Anchored(d) && d.setHash.Some?
    ensures !WillConverge(sys)
  {
    var more := PutBack(sys, |sys.devices|);
    assert forall j :: 0 <= j < |sys.devices| ==> sys.devices[j] in sys.devices;
    LedNeverConverges(Run(sys, more), i);
  }

  /****** It is needed: a set hash without its snapshot ******/

  // A set the device's saved hash is not the hash of.
  function News(d: Device): Items {
    if d.setHash == Some(Fingerprint(map[])) then map[FolderKey("f") := FolderHash(Folder("f", "f", None))] else map[]
  }

  lemma NewsIsNew(d: Device)
    ensures NoLegacy(News(d)) && Uploads(d.(store := News(d)))
  {
    var items, none: Items := News(d), map[];
    assert d.setHash == Some(Fingerprint(none)) ==> FolderKey("f") in items;
    if Fingerprint(items) == Fingerprint(none) {
      FingerprintInjective(items, none);
    }
  }

  // Two syncs of a device put any set on the server.
  lemma Publishes(d: Device, server: Server, items: Items)
    requires Sane(d, server) && NoLegacy(items)
    ensures var (d1, s1) := SyncStep(d.(store := News(d)), server, "");
            var (d2, s2) := SyncStep(d1.(store := items), s1, "");
            && Clean(d2) && s2.Some? && ItemsOn(s2) == items && Follows(server, s2) && s2 != server && Sane(d2, s2)
  {
    NewsIsNew(d);
    var start := d.(store := News(d));
    StoppedSane(start, server, "", 3);
    var (d1, s1) := SyncStep(start, server, "");
    StoppedSane(d1.(store := items), s1, "", 3);
    if !Uploads(d1.(store := items)) {
      FingerprintInjective(items, d1.snapshot);
    }
  }

  // An edit and a sync of one device.
  lemma EditSync(sys: System, events: seq<Event>, before: System, j: nat, store: Items, d: Device, server: Server)
    returns (more: seq<Event>)
    requires AllAllowed(|sys.devices|, events) && NoStops(events) && Run(sys, events) == before
    requires j < |before.devices| && NoLegacy(store)
    requires SyncStep(before.devices[j].(store := store), before.server, "") == (d, server)
    ensures AllAllowed(|sys.devices|, more) && NoStops(more)
    ensures Run(sys, more) == System(before.devices[j := d], server)
  {
    hide SyncStep, Run;
    EditNext(sys, events, before, j, store);
    var mid := System(before.devices[j := before.devices[j].(store := store)], before.server);
    SyncNext(sys, events + [Edit(j, store)], mid, j, d, server);
    more := events + [Edit(j, store)] + [Sync(j, "")];
    assert mid.devices[j := d] == before.devices[j := d];
  }

  lemma PublishAt(sys: System, events: seq<Event>, before: System, j: nat, items: Items) returns (more: seq<Event>)
    requires AllAllowed(|sys.devices|, events) && NoStops(events) && Run(sys, events) == before
    requires AllSane(before) && j < |before.devices| && NoLegacy(items)
    ensures AllAllowed(|sys.devices|, more) && NoStops(more)
    ensures var after := Run(sys, more);
            && AllSane(after) && after.devices == before.devices[j := after.devices[j]] && Clean(after.devices[j])
            && after.server.Some? && ItemsOn(after.server) == items
            && MetaOf(after.server).version > MetaOf(before.server).version
  {
    var d := before.devices[j];
    assert d in before.devices;
    NewsIsNew(d);
    Publishes(d, before.server, items);
    var (d1, s1) := SyncStep(d.(store := News(d)), before.server, "");
    var (d2, s2) := SyncStep(d1.(store := items), s1, "");
    more := EditSync(sys, events, before, j, News(d), d1, s1);
    more := EditSync(sys, more, System(before.devices[j := d1], s1), j, items, d2, s2);
    assert before.devices[j := d1][j := d2] == before.devices[j := d2];
    forall x | x in before.devices[j := d2] ensures Sane(x, s2) {
      if x != d2 {
        SaneFollows(x, before.server, s2);
      }
    }
  }

  // Every device below `m` but `i` puts the set on the server in turn.
  lemma {:induction false} PublishBut(sys: System, i: nat, m: nat, items: Items) returns (more: seq<Event>)
    requires AllSane(sys) && i < |sys.devices| && m <= |sys.devices| && NoLegacy(items)
    ensures AllAllowed(|sys.devices|, more) && NoStops(more)
    ensures var after := Run(sys, more);
            && AllSane(after) && after.devices[i] == sys.devices[i]
            && (forall j :: 0 <= j < m && j != i ==> Clean(after.devices[j]))
            && (if m == 0 || (m == 1 && i == 0) then after.server == sys.server
                else after.server.Some? && ItemsOn(after.server) == items
                     && MetaOf(after.server).version > MetaOf(sys.server).version)
  {
    more := [];
    if m > 0 {
      more := PublishBut(sys, i, m - 1, items);
      if m - 1 != i {
        more := PublishAt(sys, more, Run(sys, more), m - 1, items);
      }
    }
  }

  lemma BecomesAstray(d: Device, later: Server, own: Items, other: Items)
    requires d.setHash == Some(Fingerprint(own)) && own != other
    requires later.Some? && ItemsOn(later) == other
    requires Merged(own, other, d.snapshot) == own && StoreAfter(own, other, d.snapshot) == own
    ensures Astray(d.(store := own), later)
  {}

  // A device whose set hash is not that of its snapshot takes the set it hashes
  // for synced; when the others hold another one, it goes astray.
  lemma UnanchoredStrays(sys: System, i: nat)
    requires AllSane(sys) && |sys.devices| >= 2 && i < |sys.devices| && !Anchored(sys.devices[i])
    ensures !WillConverge(sys)
  {
    var n, d := |sys.devices|, sys.devices[i];
    assert d in sys.devices;
    var own :| NoLegacy(own) && d.setHash.value == Fingerprint(own);
    var other := Contrary(own, d.snapshot);
    var most := PublishBut(sys, i, n, other);
    var before := Run(sys, most);
    EditNext(sys, most, before, i, own);
    BecomesAstray(d, before.server, own, other);
    LedNeverConverges(Run(sys, most + [Edit(i, own)]), i);
  }

  /****** Exactly when devices converge ******/

  // After any run of at least two devices, whatever its stops.
  lemma ConvergesExactly(n: nat, events: seq<Event>)
    requires n >= 2 && AllAllowed(n, events)
    ensures WillConverge(Run(Start(n), events)) <==> Settling(Run(Start(n), events))
  {
    var sys := Run(Start(n), events);
    RunSane(Start(n), events);
    if Settling(sys) {
      forall more | AllAllowed(n, more) && NoStops(more) ensures RoundsConverge(Run(sys, more)) {
        SettlingRun(sys, more);
        SettlingConverges(Run(sys, more));
      }
    } else if d :| d in sys.devices && !Anchored(d) {
      var i :| 0 <= i < n && sys.devices[i] == d;
      UnanchoredStrays(sys, i);
    } else {
      var d :| d in sys.devices && Misled(d, sys.server);
      var i :| 0 <= i < n && sys.devices[i] == d;
      MisledStays(sys, i);
    }
  }

  /****** Which stops spoil it ******/

  // A stop that is not safe still does no harm after the description of an
  // upload, while some device has yet to make its first upload.
  predicate HarmlessStop(sys: System, i: nat, saved: nat)
    requires i < |sys.devices|
  {
    var d := sys.devices[i];
    || SafeStop(d, sys.server, saved)
    || (saved == 1 && Uploads(d) && exists x :: x in sys.devices && x.setHash.None?)
  }

  lemma InvSettles(sys: System)
    requires Inv(sys)
    ensures Settling(sys)
  {}

  lemma HarmfulStop(d: Device, server: Server, checksum: string, saved: nat)
    requires DeviceInv(d, server) && !SafeStop(d, server, saved)
    ensures var (d', server') := Stopped(d, server, checksum, saved);
            if saved == 1 && Uploads(d)
            then Anchored(d') && d'.setHash == d.setHash && (Misled(d', server') <==> d.setHash.Some?)
            else !Anchored(d')
  {
    if Uploads(d) {
      UploadIsNew(d, server);
      var items := Merged(d.store, ItemsOn(server), d.snapshot);
      SyncOutcome(d, server, checksum);
      if Fingerprint(items) == Fingerprint(d.snapshot) {
        FingerprintInjective(items, d.snapshot);
      }
    } else {
      SyncOutcome(d, server, checksum);
      FingerprintInjective(d.store, d.snapshot);
      if Fingerprint(ItemsOn(server)) == Fingerprint(d.snapshot) {
        FingerprintInjective(ItemsOn(server), d.snapshot);
      }
    }
  }

  // From a state in order, exactly the harmless stops leave one from which the
  // devices converge.
  lemma StopSettles(sys: System, i: nat, checksum: string, saved: nat)
    requires Inv(sys) && i < |sys.devices|
    ensures Settling(Apply(sys, Event.Stop(i, checksum, saved))) <==> HarmlessStop(sys, i, saved)
  {
    var e := Event.Stop(i, checksum, saved);
    var d, after := sys.devices[i], Apply(sys, e);
    assert d in sys.devices && after.devices[i] in after.devices;
    InvStep(sys, e);
    if SafeStop(d, sys.server, saved) {
      InvSettles(after);
    } else {
      HarmfulStop(d, sys.server, checksum, saved);
      if saved == 1 && Uploads(d) {
        StopBeforeHash(sys, e);
      }
    }
  }

  lemma StopBeforeHash(sys: System, e: Event)
    requires Inv(sys) && e.Stop? && e.saved == 1 && e.device < |sys.devices| && Uploads(sys.devices[e.device])
    requires !SafeStop(sys.devices[e.device], sys.server, 1)
    ensures Settling(Apply(sys, e)) <==> exists x :: x in sys.devices && x.setHash.None?
  {
    var d, after := sys.devices[e.device], Apply(sys, e);
    assert d in sys.devices && after.devices[e.device] in after.devices;
    HarmfulStop(d, sys.server, e.checksum, 1);
    forall x | x in after.devices ensures Anchored(x) {
      assert x in sys.devices || x == after.devices[e.device];
    }
    if x :| x in sys.devices && x.setHash.None? {
      var j :| 0 <= j < |sys.devices| && sys.devices[j] == x;
      assert after.devices[j] in after.devices && after.devices[j].setHash.None?;
    } else {
      forall x | x in after.devices ensures x.setHash.Some? {
        assert x in sys.devices || x == after.devices[e.device];
      }
    }
  }
}
