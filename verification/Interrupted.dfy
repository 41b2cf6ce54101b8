// Syncs stopped between their setting writes: which of them break what SyncNow
// promises, how a device then drifts from the server, and for how long.
module Interrupted {
  import opened Common
  import opened Models
  import opened SyncProtocol
  import opened Convergence

  /****** Exactly the safe stops keep the promise ******/

  // Whatever is edited here and uploaded elsewhere, the next sync does what a
  // sync promises.
  ghost predicate Sound(d: Device, server: Server) {
    forall store, later, checksum ::
      NoLegacy(store) && Follows(server, later) ==> Promised(d.(store := store), later, checksum)
  }

  lemma InvIsSound(d: Device, server: Server)
    requires DeviceInv(d, server)
    ensures Sound(d, server)
  {
    forall store, later, checksum | NoLegacy(store) && Follows(server, later)
      ensures Promised(d.(store := store), later, checksum)
    {
      InvFollows(d.(store := store), server, later);
      SyncOutcome(d.(store := store), later, checksum);
    }
  }

  // Stopped after the description: taking the edits back goes unnoticed.
  lemma SavedMetaOnly(d: Device, server: Server, checksum: string)
    requires DeviceInv(d, server) && Uploads(d) && !SafeStop(d, server, 1)
    ensures var (p, later) := Stopped(d, server, checksum, 1);
            !Promised(p.(store := d.snapshot), later, "")
  {
    UploadIsNew(d, server);
    SyncOutcome(d, server, checksum);
    var (p, later) := Stopped(d, server, checksum, 1);
    Untouched(d.snapshot, ItemsOn(later));
  }

  lemma Untouched(snapshot: Items, remote: Items)
    requires NoLegacy(snapshot) && NoLegacy(remote)
    ensures Merged(snapshot, remote, snapshot) == remote
  {}

  // Stopped before the snapshot: a later change elsewhere is not downloaded.
  lemma SavedAllButSnapshot(d: Device, server: Server, checksum: string)
    requires DeviceInv(d, server) && Uploads(d) && !SafeStop(d, server, 2)
    ensures !Sound(Stopped(d, server, checksum, 2).0, Stopped(d, server, checksum, 2).1)
  {
    UploadIsNew(d, server);
    SyncOutcome(d, server, checksum);
    var (p, now) := Stopped(d, server, checksum, 2);
    var items := ItemsOn(now);
    var other := Contrary(items, d.snapshot);
    var later := Some(Blob(other, Meta(MetaOf(now).version + 1, "")));
    assert !Promised(p.(store := items), later, "");
  }

  lemma KeepsOwn(local: Items, remote: Items, snapshot: Items, k: ItemKey)
    requires NoLegacy(local) && NoLegacy(remote) && NoLegacy(snapshot)
    requires Lookup(local, k) != Lookup(snapshot, k) && Lookup(remote, k) != Lookup(local, k)
    ensures Merged(local, remote, snapshot) != remote
  {
    assert MergedAt(local, remote, snapshot, k) == Lookup(local, k);
    assert Lookup(Merged(local, remote, snapshot), k) == Lookup(local, k);
  }

  // Stopped after the snapshot of a download: taking the download back goes
  // unnoticed.
  lemma SavedSnapshotOnly(d: Device, server: Server, checksum: string)
    requires DeviceInv(d, server) && !Uploads(d) && !SafeStop(d, server, 1)
    ensures var (p, later) := Stopped(d, server, checksum, 1);
            !Promised(p.(store := d.snapshot), later, "")
  {
    SyncOutcome(d, server, checksum);
    FingerprintInjective(d.store, d.snapshot);
    var k := DifferAt(d.snapshot, ItemsOn(server));
    KeepsOwn(d.snapshot, ItemsOn(server), ItemsOn(server), k);
  }

  // After exactly the safe stops, every later sync does what it promises.
  lemma SoundExactly(d: Device, server: Server, checksum: string, saved: nat)
    requires DeviceInv(d, server)
    ensures Sound(Stopped(d, server, checksum, saved).0, Stopped(d, server, checksum, saved).1)
            <==> SafeStop(d, server, saved)
  {
    var (p, later) := Stopped(d, server, checksum, saved);
    StopKeeps(d, server, checksum, saved);
    if SafeStop(d, server, saved) {
      InvIsSound(p, later);
    } else if saved == 2 {
      SavedAllButSnapshot(d, server, checksum);
    } else if Uploads(d) {
      SavedMetaOnly(d, server, checksum);
      assert Follows(later, later);
    } else {
      SavedSnapshotOnly(d, server, checksum);
      assert Follows(later, later);
    }
  }

  ghost predicate AllSound(sys: System) {
    forall d :: d in sys.devices ==> Sound(d, sys.server)
  }

  lemma StepSound(sys: System, e: Event)
    requires Inv(sys) && Allowed(|sys.devices|, e)
    ensures AllSound(Apply(sys, e)) <==> SafeEvent(sys, e)
  {
    var d, after := sys.devices[e.device], Apply(sys, e);
    assert d in sys.devices && after.devices[e.device] in after.devices;
    InvStep(sys, e);
    if SafeEvent(sys, e) {
      forall x | x in after.devices ensures Sound(x, after.server) {
        InvIsSound(x, after.server);
      }
    } else {
      SoundExactly(d, sys.server, e.checksum, e.saved);
    }
  }

  ghost predicate AlwaysSound(sys: System, events: seq<Event>)
    requires AllAllowed(|sys.devices|, events)
  {
    AllSound(Run(sys, events)) && (events == [] || AlwaysSound(sys, events[..|events| - 1]))
  }

  // So in a run every sync at every moment does what it promises if and only if
  // all stops of the run are safe.
  lemma {:induction false} RunSound(n: nat, events: seq<Event>)
    requires AllAllowed(n, events)
    ensures AlwaysSound(Start(n), events) <==> SafeRun(Start(n), events)
  {
    if events == [] {
      forall d | d in Start(n).devices ensures Sound(d, None) {
        InvIsSound(d, None);
      }
    } else {
      var last := |events| - 1;
      assert events[last] in events;
      RunSound(n, events[..last]);
      if SafeRun(Start(n), events[..last]) {
        Reached(n, events[..last]);
        StepSound(Run(Start(n), events[..last]), events[last]);
      }
    }
  }

  /****** Drifting from the server ******/

  // A device that takes itself for up to date and is not.
  ghost predicate Diverged(d: Device, server: Server) {
    && Clean(d) && server.Some? && d.meta == Some(MetaOf(server)) && d.store != ItemsOn(server)
    && NoLegacy(d.store) && NoLegacy(ItemsOn(server)) && MetaOf(server).version >= 1
  }

  // How it gets there: its set hash was saved and its snapshot was not, and it
  // then meets a remote change to an item it had uploaded.
  lemma StaleSnapshotDiverges(d: Device, server: Server, k: ItemKey, checksum: string)
    requires server.Some? && RemoteMetaChanged(Some(MetaOf(server)), d.meta) && MetaOf(server).version >= 1
    requires NoLegacy(d.store) && NoLegacy(ItemsOn(server)) && !Uploads(d) && LossFreeTurn(d, server)
    requires Lookup(d.store, k) != Previous(d.snapshot, k) && Lookup(d.store, k) != Lookup(ItemsOn(server), k)
    ensures var (d', server') := SyncStep(d, server, checksum);
            server' == server && Diverged(d', server) && Lookup(d'.store, k) == Lookup(d.store, k)
  {
    StoreAgreement(d.store, ItemsOn(server), d.snapshot);
    assert MergedAt(d.store, ItemsOn(server), d.snapshot, k) == Lookup(d.store, k);
    assert Lookup(Merged(d.store, ItemsOn(server), d.snapshot), k) == Lookup(d.store, k);
  }

  // Its own syncs do not help.
  lemma DivergedTurn(d: Device, server: Server, checksum: string)
    requires Diverged(d, server)
    ensures SyncStep(d, server, checksum) == (d, server)
  {}

  // Any later upload elsewhere does: the next sync downloads the whole set.
  lemma DivergenceEnds(d: Device, server: Server, later: Server, checksum: string)
    requires Diverged(d, server) && Follows(server, later) && later != server
    ensures DeviceInv(d, later)
    ensures SyncStep(d, later, checksum).1 == later && Current(SyncStep(d, later, checksum).0, later)
  {
    CleanTurn(d, later, checksum);
  }

  // So does a local edit, at the price of what the others had changed: the
  // device's own set replaces the server's.
  lemma OwnEditReplaces(d: Device, server: Server, store: Items, checksum: string)
    requires Diverged(d, server) && store != d.store && NoLegacy(store)
    ensures var (d', server') := SyncStep(d.(store := store), server, checksum);
            server'.Some? && ItemsOn(server') == store && Current(d', server')
  {
    if Fingerprint(store) == Fingerprint(d.store) {
      FingerprintInjective(store, d.store);
    }
  }

  // One device diverged, all others in order.
  ghost predicate OneDiverged(sys: System, i: nat) {
    && i < |sys.devices| && Diverged(sys.devices[i], sys.server)
    && forall j :: 0 <= j < |sys.devices| && j != i ==> DeviceInv(sys.devices[j], sys.server)
  }

  // Neither an edit of device `i` nor a stop.
  predicate Outer(e: Event, i: nat) {
    !e.Stop? && (e.Edit? ==> e.device != i)
  }

  lemma OuterStep(sys: System, e: Event, i: nat)
    requires OneDiverged(sys, i) && Allowed(|sys.devices|, e) && Outer(e, i)
    ensures var after := Apply(sys, e);
            if after.server == sys.server then after.devices[i] == sys.devices[i] && OneDiverged(after, i)
            else Inv(after) && MetaOf(after.server).version > MetaOf(sys.server).version
  {
    var d, after := sys.devices[e.device], Apply(sys, e);
    if e.device == i {
      DivergedTurn(d, sys.server, e.checksum);
    } else if e.Sync? {
      SyncOutcome(d, sys.server, e.checksum);
      ServerFollows(d, sys.server, e.checksum);
      if after.server != sys.server {
        DivergenceEnds(sys.devices[i], sys.server, after.server, "");
        forall j | 0 <= j < |after.devices| ensures DeviceInv(after.devices[j], after.server) {
          if j != i && j != e.device {
            InvFollows(sys.devices[j], sys.server, after.server);
          }
        }
      }
    }
  }

  // Syncs only ever raise the version.
  lemma VersionGrows(sys: System, e: Event)
    requires Allowed(|sys.devices|, e) && Inv(sys) && !e.Stop?
    ensures MetaOf(Apply(sys, e).server).version >= MetaOf(sys.server).version && Inv(Apply(sys, e))
  {
    InvStep(sys, e);
    assert sys.devices[e.device] in sys.devices;
    if e.Sync? {
      SyncOutcome(sys.devices[e.device], sys.server, e.checksum);
    }
  }

  // The divergence lasts exactly until the next upload. While nothing is
  // uploaded, no sync of anyone changes the diverged device; the first upload
  // brings the invariant of all devices back, and with it convergence.
  lemma {:induction false} DivergenceLasts(sys: System, events: seq<Event>, i: nat)
    requires OneDiverged(sys, i) && AllAllowed(|sys.devices|, events)
    requires forall e :: e in events ==> Outer(e, i)
    ensures var end := Run(sys, events);
            if end.server == sys.server then end.devices[i] == sys.devices[i] && OneDiverged(end, i)
            else Inv(end) && MetaOf(end.server).version > MetaOf(sys.server).version
  {
    if events != [] {
      var last := |events| - 1;
      assert events[last] in events;
      DivergenceLasts(sys, events[..last], i);
      var before := Run(sys, events[..last]);
      if before.server == sys.server {
        OuterStep(before, events[last], i);
      } else {
        VersionGrows(before, events[last]);
      }
    }
  }

  /****** A run that drifts ******/

  // Device 0 uploads a connection and is stopped before it saves the snapshot;
  // device 1 downloads the connection, changes it and uploads the change.
  function Drift(first: Hash, second: Hash): seq<Event> {
    [Edit(0, Alone(first))] + [Stop(0, "", 2)] + [Sync(1, "")]
    + [Edit(1, Alone(second))] + [Sync(1, "")] + [Sync(0, "")]
  }

  function Drifted(first: Hash, second: Hash): System {
    System([InSync(Alone(first), 3), InSync(Alone(second), 3)], Holding(Alone(second), 3))
  }

  lemma DriftSteps(first: Hash, second: Hash)
    requires first != second
    ensures Stopped(NEW_DEVICE.(store := Alone(first)), None, "", 2)
         == (InSync(Alone(first), 1).(snapshot := map[]), Holding(Alone(first), 1))
    ensures SyncStep(NEW_DEVICE, Holding(Alone(first), 1), "") == (InSync(Alone(first), 2), Holding(Alone(first), 2))
    ensures SyncStep(InSync(Alone(first), 2).(store := Alone(second)), Holding(Alone(first), 2), "")
         == (InSync(Alone(second), 3), Holding(Alone(second), 3))
    ensures SyncStep(InSync(Alone(first), 1).(snapshot := map[]), Holding(Alone(second), 3), "")
         == (InSync(Alone(first), 3), Holding(Alone(second), 3))
  {
    var one, two := Alone(first), Alone(second);
    assert one[ConnKey("c")] != two[ConnKey("c")];
    if Fingerprint(one) == Fingerprint(two) {
      FingerprintInjective(one, two);
    }
    assert Merged(map[], one, map[]) == one && StoreAfter(map[], one, map[]) == one;
    assert Merged(one, two, map[]) == one && StoreAfter(one, two, map[]) == one;
  }

  lemma StopNext(sys: System, events: seq<Event>, before: System, i: nat, saved: nat, d: Device, server: Server)
    requires AllAllowed(|sys.devices|, events) && Run(sys, events) == before && i < |before.devices|
    requires Stopped(before.devices[i], before.server, "", saved) == (d, server)
    ensures AllAllowed(|sys.devices|, events + [Stop(i, "", saved)])
    ensures Run(sys, events + [Stop(i, "", saved)]) == System(before.devices[i := d], server)
  {
    RunAppend(sys, events, Stop(i, "", saved));
  }

  lemma DriftRun(first: Hash, second: Hash)
    requires first != second
    ensures AllAllowed(2, Drift(first, second)) && Run(Start(2), Drift(first, second)) == Drifted(first, second)
  {
    DriftStarts(first, second);
    DriftOn(first, second, [Edit(0, Alone(first))] + [Stop(0, "", 2)] + [Sync(1, "")]);
  }

  lemma DriftStarts(first: Hash, second: Hash)
    requires first != second
    ensures var events := [Edit(0, Alone(first))] + [Stop(0, "", 2)] + [Sync(1, "")];
            && AllAllowed(2, events)
            && Run(Start(2), events)
               == System([InSync(Alone(first), 1).(snapshot := map[]), InSync(Alone(first), 2)],
                         Holding(Alone(first), 2))
  {
    DriftSteps(first, second);
    var one := Alone(first);
    var stale := InSync(one, 1).(snapshot := map[]);
    var e1 := [Edit(0, one)];
    TwoNewDevices([]);
    EditNext(Start(2), [], System([NEW_DEVICE, NEW_DEVICE], None), 0, one);
    assert [] + e1 == e1;
    StopNext(Start(2), e1, System([NEW_DEVICE.(store := one), NEW_DEVICE], None), 0, 2, stale, Holding(one, 1));
    var s2 := System([stale, NEW_DEVICE], Holding(one, 1));
    SyncNext(Start(2), e1 + [Stop(0, "", 2)], s2, 1, InSync(one, 2), Holding(one, 2));
  }

  lemma DriftOn(first: Hash, second: Hash, events: seq<Event>)
    requires first != second && AllAllowed(2, events)
    requires Run(Start(2), events)
          == System([InSync(Alone(first), 1).(snapshot := map[]), InSync(Alone(first), 2)], Holding(Alone(first), 2))
    ensures var more := events + [Edit(1, Alone(second))] + [Sync(1, "")] + [Sync(0, "")];
            AllAllowed(2, more) && Run(Start(2), more) == Drifted(first, second)
  {
    DriftSteps(first, second);
    var one, two := Alone(first), Alone(second);
    var stale := InSync(one, 1).(snapshot := map[]);
    EditNext(Start(2), events, System([stale, InSync(one, 2)], Holding(one, 2)), 1, two);
    var e4 := events + [Edit(1, two)];
    var s4 := System([stale, InSync(one, 2).(store := two)], Holding(one, 2));
    SyncNext(Start(2), e4, s4, 1, InSync(two, 3), Holding(two, 3));
    var s5 := System([stale, InSync(two, 3)], Holding(two, 3));
    SyncNext(Start(2), e4 + [Sync(1, "")], s5, 0, InSync(one, 3), Holding(two, 3));
  }

  // From the empty account, one stop before the snapshot leaves a device that no
  // number of rounds brings back: the promise of convergence fails.
  lemma OneStopDiverges(first: Hash, second: Hash, turns: seq<Event>)
    requires first != second && Syncs(2, turns)
    ensures AllAllowed(2, Drift(first, second)) && !SafeRun(Start(2), Drift(first, second))
    ensures var end := Run(Start(2), Drift(first, second));
            && OneDiverged(end, 0) && Run(end, turns) == end
            && end.devices[0].store != end.devices[1].store && !Converged(end)
  {
    DriftRun(first, second);
    var end := Drifted(first, second);
    assert Alone(first)[ConnKey("c")] != Alone(second)[ConnKey("c")];
    assert end.devices[0] in end.devices && !DeviceInv(end.devices[0], end.server);
    if SafeRun(Start(2), Drift(first, second)) {
      Reached(2, Drift(first, second));
    }
    Motionless(end, turns);
  }

  lemma {:induction false} Motionless(sys: System, turns: seq<Event>)
    requires Syncs(|sys.devices|, turns)
    requires forall d, checksum :: d in sys.devices ==> SyncStep(d, sys.server, checksum) == (d, sys.server)
    ensures Run(sys, turns) == sys
  {
    if turns != [] {
      LastTurn(sys, turns);
      Motionless(sys, turns[..|turns| - 1]);
      var j := turns[|turns| - 1].device;
      assert sys.devices[j] in sys.devices && sys.devices[j := sys.devices[j]] == sys.devices;
    }
  }
}
