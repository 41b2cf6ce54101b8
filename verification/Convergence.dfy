// Once edits stop, rounds of SyncNow bring every device and the server to the
// same set, and say which copy of each item wins.
module Convergence {
  import opened Common
  import opened Models
  import opened SyncProtocol

  /****** Quiet rounds ******/

  predicate Syncs(n: nat, turns: seq<Event>) {
    forall e :: e in turns ==> e.Sync? && e.device < n
  }

  // Every device takes at least one turn.
  ghost predicate Round(n: nat, turns: seq<Event>) {
    Syncs(n, turns) && forall i :: 0 <= i < n ==> TakesTurn(turns, i)
  }

  ghost predicate TakesTurn(turns: seq<Event>, i: nat) {
    exists e :: e in turns && e.device == i
  }

  // A device whose store differs from its snapshot, if at all, only in
  // connections that no folder deletion can touch again.
  ghost predicate Tidy(d: Device) {
    d.setHash == Some(Fingerprint(d.snapshot))
    && forall k :: k in d.store && Lookup(d.store, k) != Lookup(d.snapshot, k) ==> Unfiled(d.store[k]) == d.store[k]
  }

  ghost predicate Clean(d: Device) {
    d.setHash == Some(Fingerprint(d.snapshot)) && d.store == d.snapshot
  }

  ghost predicate Current(d: Device, server: Server) {
    Clean(d) && server.Some? && d.store == ItemsOn(server) && d.meta == Some(MetaOf(server))
  }

  // This device's next merge deletes no folder that a connection it keeps is
  // filed in.
  predicate LossFreeTurn(d: Device, server: Server) {
    forall k :: k in d.store ==> !LosesFolder(d.store, ItemsOn(server), d.snapshot, k)
  }

  // So for the last turn of every device but those in `later`.
  ghost predicate LossFreeBut(sys: System, turns: seq<Event>, later: set<nat>)
    requires Syncs(|sys.devices|, turns)
  {
    turns == [] ||
    var last := |turns| - 1;
    assert turns[last] in turns;
    var before, i := Run(sys, turns[..last]), turns[last].device;
    && LossFreeBut(sys, turns[..last], later + {i})
    && (i in later || LossFreeTurn(before.devices[i], before.server))
  }

  // No device's last turn of the round deletes a folder in use.
  ghost predicate LossFree(sys: System, turns: seq<Event>)
    requires Syncs(|sys.devices|, turns)
  {
    LossFreeBut(sys, turns, {})
  }

  lemma TurnMakesTidy(d: Device, server: Server, checksum: string)
    requires DeviceInv(d, server)
    ensures Tidy(SyncStep(d, server, checksum).0)
  {
    SyncOutcome(d, server, checksum);
  }

  lemma TidyTurnMakesClean(d: Device, server: Server, checksum: string)
    requires DeviceInv(d, server)
    requires Tidy(d) || LossFreeTurn(d, server)
    ensures Clean(SyncStep(d, server, checksum).0)
  {
    SyncOutcome(d, server, checksum);
    StoreAgreement(d.store, ItemsOn(server), d.snapshot);
  }

  lemma CleanTurn(d: Device, server: Server, checksum: string)
    requires DeviceInv(d, server) && Clean(d)
    ensures SyncStep(d, server, checksum).1 == server
    ensures Current(SyncStep(d, server, checksum).0, server)
  {
    SyncOutcome(d, server, checksum);
    TidyTurnMakesClean(d, server, checksum);
  }

  // A device that is current syncs without any effect.
  lemma CurrentTurn(d: Device, server: Server, checksum: string)
    requires Current(d, server)
    ensures SyncStep(d, server, checksum) == (d, server)
  {
  }

  // One turn leaves a device clean exactly when it deletes no folder in use.
  lemma CleanExactly(d: Device, server: Server, checksum: string)
    requires DeviceInv(d, server)
    ensures Clean(SyncStep(d, server, checksum).0) <==> LossFreeTurn(d, server)
  {
    SyncOutcome(d, server, checksum);
    StoreAgreement(d.store, ItemsOn(server), d.snapshot);
  }

  /****** What one round brings ******/

  lemma {:induction false} QuietIsSafe(sys: System, turns: seq<Event>)
    requires Syncs(|sys.devices|, turns)
    ensures SafeRun(sys, turns)
  {
    if turns != [] {
      var last := |turns| - 1;
      assert turns[last] in turns;
      QuietIsSafe(sys, turns[..last]);
    }
  }

  lemma QuietKeepsInv(sys: System, turns: seq<Event>)
    requires Inv(sys) && Syncs(|sys.devices|, turns)
    ensures Inv(Run(sys, turns))
  {
    QuietIsSafe(sys, turns);
    InvRun(sys, turns);
  }

  // Splits a quiet run at its last turn.
  lemma LastTurn(sys: System, turns: seq<Event>)
    requires turns != [] && Syncs(|sys.devices|, turns)
    ensures var last := |turns| - 1;
            && Syncs(|sys.devices|, turns[..last]) && turns[last] in turns
            && Run(sys, turns) == Apply(Run(sys, turns[..last]), turns[last])
            && (Inv(sys) ==> Inv(Run(sys, turns[..last])))
  {
    var last := |turns| - 1;
    if Inv(sys) {
      QuietKeepsInv(sys, turns[..last]);
    }
  }

  lemma LastTaker(turns: seq<Event>, i: nat)
    requires turns != [] && TakesTurn(turns, i) && turns[|turns| - 1].device != i
    ensures TakesTurn(turns[..|turns| - 1], i)
  {}

  lemma {:induction false} RoundMakesTidy(sys: System, turns: seq<Event>, i: nat)
    requires Inv(sys) && Syncs(|sys.devices|, turns) && i < |sys.devices|
    requires TakesTurn(turns, i) || Tidy(sys.devices[i])
    ensures Tidy(Run(sys, turns).devices[i])
  {
    if turns != [] {
      LastTurn(sys, turns);
      var last := |turns| - 1;
      var before := Run(sys, turns[..last]);
      if turns[last].device == i {
        assert before.devices[i] in before.devices;
        TurnMakesTidy(before.devices[i], before.server, turns[last].checksum);
      } else {
        if TakesTurn(turns, i) {
          LastTaker(turns, i);
        }
        RoundMakesTidy(sys, turns[..last], i);
      }
    }
  }

  lemma {:induction false} RoundMakesClean(sys: System, turns: seq<Event>, i: nat)
    requires Inv(sys) && Syncs(|sys.devices|, turns) && i < |sys.devices|
    requires Tidy(sys.devices[i])
    requires TakesTurn(turns, i) || Clean(sys.devices[i])
    ensures Clean(Run(sys, turns).devices[i])
  {
    if turns != [] {
      LastTurn(sys, turns);
      var last := |turns| - 1;
      var before := Run(sys, turns[..last]);
      if turns[last].device == i {
        assert before.devices[i] in before.devices;
        RoundMakesTidy(sys, turns[..last], i);
        TidyTurnMakesClean(before.devices[i], before.server, turns[last].checksum);
      } else {
        if TakesTurn(turns, i) {
          LastTaker(turns, i);
        }
        RoundMakesClean(sys, turns[..last], i);
      }
    }
  }

  lemma {:induction false} CleanRound(sys: System, turns: seq<Event>, i: nat)
    requires Inv(sys) && Syncs(|sys.devices|, turns) && i < |sys.devices|
    requires forall d :: d in sys.devices ==> Clean(d)
    requires TakesTurn(turns, i) || Current(sys.devices[i], sys.server)
    ensures Run(sys, turns).server == sys.server
    ensures forall d :: d in Run(sys, turns).devices ==> Clean(d)
    ensures Current(Run(sys, turns).devices[i], sys.server)
    decreases |turns|
  {
    if turns != [] {
      LastTurn(sys, turns);
      var last := |turns| - 1;
      var before, j := Run(sys, turns[..last]), turns[last].device;
      CleanPrefix(sys, turns[..last]);
      assert before.devices[j] in before.devices;
      CleanTurn(before.devices[j], before.server, turns[last].checksum);
      if j != i {
        if TakesTurn(turns, i) {
          LastTaker(turns, i);
        }
        CleanRound(sys, turns[..last], i);
      }
    }
  }

  lemma {:induction false} CleanPrefix(sys: System, turns: seq<Event>)
    requires Inv(sys) && Syncs(|sys.devices|, turns)
    requires forall d :: d in sys.devices ==> Clean(d)
    ensures Run(sys, turns).server == sys.server
    ensures forall d :: d in Run(sys, turns).devices ==> Clean(d)
  {
    if turns != [] {
      LastTurn(sys, turns);
      var last := |turns| - 1;
      var before, j := Run(sys, turns[..last]), turns[last].device;
      CleanPrefix(sys, turns[..last]);
      assert before.devices[j] in before.devices;
      CleanTurn(before.devices[j], before.server, turns[last].checksum);
    }
  }

  /****** Convergence ******/

  ghost predicate Converged(sys: System) {
    forall d :: d in sys.devices ==> Current(d, sys.server)
  }

  lemma CleanConverges(sys: System, turns: seq<Event>)
    requires Inv(sys) && Round(|sys.devices|, turns)
    requires forall d :: d in sys.devices ==> Clean(d)
    ensures Converged(Run(sys, turns)) && Run(sys, turns).server == sys.server
  {
    var after := Run(sys, turns);
    CleanPrefix(sys, turns);
    forall d | d in after.devices ensures Current(d, after.server) {
      var i :| 0 <= i < |after.devices| && after.devices[i] == d;
      CleanRound(sys, turns, i);
    }
  }

  lemma Reached(n: nat, events: seq<Event>)
    requires AllAllowed(n, events) && SafeRun(Start(n), events)
    ensures Inv(Run(Start(n), events))
  {
    InvRun(Start(n), events);
  }

  lemma TidyConverges(sys: System, r1: seq<Event>, r2: seq<Event>)
    requires Inv(sys) && Round(|sys.devices|, r1) && Round(|sys.devices|, r2)
    requires forall d :: d in sys.devices ==> Tidy(d)
    ensures Converged(Run(Run(sys, r1), r2))
  {
    QuietKeepsInv(sys, r1);
    var s1 := Run(sys, r1);
    forall d | d in s1.devices ensures Clean(d) {
      var i :| 0 <= i < |s1.devices| && s1.devices[i] == d;
      assert sys.devices[i] in sys.devices;
      RoundMakesClean(sys, r1, i);
    }
    CleanConverges(s1, r2);
  }

  lemma ThreeRoundsFrom(sys: System, r1: seq<Event>, r2: seq<Event>, r3: seq<Event>)
    requires Inv(sys) && Round(|sys.devices|, r1) && Round(|sys.devices|, r2) && Round(|sys.devices|, r3)
    ensures Converged(Run(Run(Run(sys, r1), r2), r3))
  {
    QuietKeepsInv(sys, r1);
    var s1 := Run(sys, r1);
    forall d | d in s1.devices ensures Tidy(d) {
      var i :| 0 <= i < |s1.devices| && s1.devices[i] == d;
      RoundMakesTidy(sys, r1, i);
    }
    TidyConverges(s1, r2, r3);
  }

  // From any state a run with safe stops can reach, three rounds after the last
  // edit every store equals the server's set, whatever folders the merges delete.
  lemma ThreeRoundsConverge(n: nat, events: seq<Event>, r1: seq<Event>, r2: seq<Event>, r3: seq<Event>)
    requires AllAllowed(n, events) && SafeRun(Start(n), events) && Round(n, r1) && Round(n, r2) && Round(n, r3)
    ensures Converged(Run(Run(Run(Run(Start(n), events), r1), r2), r3))
  {
    Reached(n, events);
    ThreeRoundsFrom(Run(Start(n), events), r1, r2, r3);
  }

  // After a round, the clean devices are those whose last turn deleted no folder
  // in use.
  lemma {:induction false} CleanButExactly(sys: System, turns: seq<Event>, later: set<nat>)
    requires Inv(sys) && Syncs(|sys.devices|, turns)
    ensures LossFreeBut(sys, turns, later)
       <==> forall e :: e in turns && e.device !in later ==> Clean(Run(sys, turns).devices[e.device])
  {
    if turns != [] {
      LastTurn(sys, turns);
      var last := |turns| - 1;
      var before, after, j := Run(sys, turns[..last]), Run(sys, turns), turns[last].device;
      CleanButExactly(sys, turns[..last], later + {j});
      assert before.devices[j] in before.devices;
      CleanExactly(before.devices[j], before.server, turns[last].checksum);
      assert forall e :: e in turns <==> e in turns[..last] || e == turns[last];
      assert forall e :: e in turns[..last] && e.device != j ==> after.devices[e.device] == before.devices[e.device];
    }
  }

  lemma RoundCleanExactly(sys: System, turns: seq<Event>)
    requires Inv(sys) && Round(|sys.devices|, turns)
    ensures LossFree(sys, turns) <==> forall d :: d in Run(sys, turns).devices ==> Clean(d)
  {
    CleanButExactly(sys, turns, {});
    var after := Run(sys, turns);
    if LossFree(sys, turns) {
      forall d | d in after.devices ensures Clean(d) {
        var i :| 0 <= i < |after.devices| && after.devices[i] == d;
        assert TakesTurn(turns, i);
      }
    }
    assert forall e :: e in turns ==> after.devices[e.device] in after.devices;
  }

  // Two rounds are enough when no device's last turn of the first deletes a folder
  // in use.
  lemma TwoRoundsConverge(n: nat, events: seq<Event>, r1: seq<Event>, r2: seq<Event>)
    requires AllAllowed(n, events) && SafeRun(Start(n), events) && Round(n, r1) && Round(n, r2)
    requires LossFree(Run(Start(n), events), r1)
    ensures Converged(Run(Run(Run(Start(n), events), r1), r2))
    ensures Run(Run(Run(Start(n), events), r1), r2).server == Run(Run(Start(n), events), r1).server
  {
    Reached(n, events);
    var s0 := Run(Start(n), events);
    QuietKeepsInv(s0, r1);
    var s1 := Run(s0, r1);
    RoundCleanExactly(s0, r1);
    CleanConverges(s1, r2);
  }

  // After convergence nothing moves: no store, no setting, no upload.
  lemma {:induction false} ConvergedIsFinal(sys: System, turns: seq<Event>)
    requires Converged(sys) && Syncs(|sys.devices|, turns)
    ensures Run(sys, turns) == sys
  {
    if turns != [] {
      LastTurn(sys, turns);
      var last := |turns| - 1;
      ConvergedIsFinal(sys, turns[..last]);
      var j := turns[last].device;
      assert sys.devices[j] in sys.devices;
      CurrentTurn(sys.devices[j], sys.server, turns[last].checksum);
      assert sys.devices[j := sys.devices[j]] == sys.devices;
    }
  }

  /****** Which copy wins ******/

  predicate Changed(d: Device, k: ItemKey) {
    Lookup(d.store, k) != Lookup(d.snapshot, k)
  }

  // The copy of the last device in the round that had changed the item, or
  // the server's copy when none had.
  function LastWriter(sys: System, turns: seq<Event>, k: ItemKey): Option<Hash>
    requires Syncs(|sys.devices|, turns)
  {
    if turns == [] then Lookup(ItemsOn(sys.server), k)
    else
      var last := |turns| - 1;
      assert turns[last] in turns;
      var d := sys.devices[turns[last].device];
      if Changed(d, k) then Lookup(d.store, k) else LastWriter(sys, turns[..last], k)
  }

  ghost predicate OneTurnEach(turns: seq<Event>) {
    forall i, j :: 0 <= i < j < |turns| ==> turns[i].device != turns[j].device
  }

  lemma {:induction false} UntouchedDevice(sys: System, turns: seq<Event>, i: nat)
    requires Syncs(|sys.devices|, turns) && i < |sys.devices|
    requires forall e :: e in turns ==> e.device != i
    ensures Run(sys, turns).devices[i] == sys.devices[i]
  {
    if turns != [] {
      LastTurn(sys, turns);
      assert forall e :: e in turns[..|turns| - 1] ==> e in turns;
      UntouchedDevice(sys, turns[..|turns| - 1], i);
    }
  }

  // One turn overwrites exactly the items its device had changed.
  lemma TurnServer(d: Device, server: Server, checksum: string, k: ItemKey)
    requires DeviceInv(d, server)
    ensures Lookup(ItemsOn(SyncStep(d, server, checksum).1), k)
         == if Changed(d, k) then Lookup(d.store, k) else Lookup(ItemsOn(server), k)
  {
    SyncOutcome(d, server, checksum);
    var items := Merged(d.store, ItemsOn(server), d.snapshot);
    assert ItemsOn(SyncStep(d, server, checksum).1) == items;
    assert Previous(d.snapshot, k) == Lookup(d.snapshot, k) || k.ConnKey?;
    if k.LegacyKey? {
      assert k !in items && k !in d.store && k !in ItemsOn(server);
    }
  }

  // After a round of one turn each, the server holds, item by item, the copy
  // of the last device that had changed it.
  lemma {:induction false} RoundServer(sys: System, turns: seq<Event>, k: ItemKey)
    requires Inv(sys) && Syncs(|sys.devices|, turns) && OneTurnEach(turns)
    ensures Lookup(ItemsOn(Run(sys, turns).server), k) == LastWriter(sys, turns, k)
  {
    if turns != [] {
      LastTurn(sys, turns);
      var last := |turns| - 1;
      var before, j := Run(sys, turns[..last]), turns[last].device;
      RoundServer(sys, turns[..last], k);
      NotYet(turns);
      UntouchedDevice(sys, turns[..last], j);
      assert before.devices[j] in before.devices;
      TurnServer(before.devices[j], before.server, turns[last].checksum, k);
    }
  }

  lemma NotYet(turns: seq<Event>)
    requires turns != [] && OneTurnEach(turns)
    ensures forall e :: e in turns[..|turns| - 1] ==> e.device != turns[|turns| - 1].device
    ensures OneTurnEach(turns[..|turns| - 1])
  {}

  // The set on which everyone agrees, item by item.
  lemma ConvergesToLastWriter(n: nat, events: seq<Event>, r1: seq<Event>, r2: seq<Event>, i: nat, k: ItemKey)
    requires AllAllowed(n, events) && SafeRun(Start(n), events)
    requires Round(n, r1) && OneTurnEach(r1) && Round(n, r2) && i < n
    requires LossFree(Run(Start(n), events), r1)
    ensures var quiet := Run(Start(n), events);
            Lookup(Run(Run(quiet, r1), r2).devices[i].store, k) == LastWriter(quiet, r1, k)
  {
    var quiet := Run(Start(n), events);
    TwoRoundsConverge(n, events, r1, r2);
    Reached(n, events);
    RoundServer(quiet, r1, k);
    var final := Run(Run(quiet, r1), r2);
    assert final.devices[i] in final.devices;
  }

  /****** When two rounds are enough ******/

  // Every device below `n` but `i`, once.
  function TurnsBut(n: nat, i: nat): (r: seq<Event>)
    ensures Syncs(n, r) && forall e :: e in r ==> e.device != i
  {
    if n == 0 then []
    else if n - 1 == i then TurnsBut(n - 1, i)
    else TurnsBut(n - 1, i) + [Sync(n - 1, "")]
  }

  lemma {:induction false} TurnsButAll(n: nat, i: nat, j: nat)
    requires j < n && j != i
    ensures Sync(j, "") in TurnsBut(n, i)
  {
    if j < n - 1 {
      TurnsButAll(n - 1, i, j);
    }
  }

  // A device that still has something to upload, left for the last turn of the
  // round, leaves every other device behind.
  lemma LeftForLast(sys: System, i: nat, j: nat)
    requires Inv(sys) && i < |sys.devices| && j < |sys.devices| && i != j && Uploads(sys.devices[i])
    ensures var r := TurnsBut(|sys.devices|, i) + [Sync(i, "")];
            Round(|sys.devices|, r) && !Current(Run(sys, r).devices[j], Run(sys, r).server)
  {
    var n := |sys.devices|;
    var first := TurnsBut(n, i);
    var r := first + [Sync(i, "")];
    assert r[..|r| - 1] == first;
    forall k | 0 <= k < n ensures TakesTurn(r, k) {
      if k == i {
        assert Sync(i, "") in r;
      } else {
        TurnsButAll(n, i, k);
        assert Sync(k, "") in r;
      }
    }
    QuietKeepsInv(sys, first);
    UntouchedDevice(sys, first, i);
    var before := Run(sys, first);
    assert before.devices[j] in before.devices;
  }

  lemma LossyRound(sys: System, r1: seq<Event>) returns (r2: seq<Event>)
    requires Inv(sys) && |sys.devices| >= 2 && Round(|sys.devices|, r1) && !LossFree(sys, r1)
    ensures Round(|sys.devices|, r2) && !Converged(Run(Run(sys, r1), r2))
  {
    RoundCleanExactly(sys, r1);
    QuietKeepsInv(sys, r1);
    var s1 := Run(sys, r1);
    var d :| d in s1.devices && !Clean(d);
    var i: nat :| i < |s1.devices| && s1.devices[i] == d;
    var j := if i == 0 then 1 else 0;
    RoundMakesTidy(sys, r1, i);
    if !Uploads(s1.devices[i]) {
      FingerprintInjective(s1.devices[i].store, s1.devices[i].snapshot);
    }
    LeftForLast(s1, i, j);
    r2 := TurnsBut(|sys.devices|, i) + [Sync(i, "")];
    assert Run(s1, r2).devices[j] in Run(s1, r2).devices;
  }

  // With at least two devices, a first round is enough for every second round if
  // and only if no device's last turn of it deletes a folder in use.
  lemma TwoRoundsExactly(n: nat, events: seq<Event>, r1: seq<Event>)
    requires n >= 2 && AllAllowed(n, events) && SafeRun(Start(n), events) && Round(n, r1)
    ensures LossFree(Run(Start(n), events), r1)
       <==> forall r2 :: Round(n, r2) ==> Converged(Run(Run(Run(Start(n), events), r1), r2))
  {
    var quiet := Run(Start(n), events);
    Reached(n, events);
    if LossFree(quiet, r1) {
      forall r2 | Round(n, r2) ensures Converged(Run(Run(quiet, r1), r2)) {
        TwoRoundsConverge(n, events, r1, r2);
      }
    } else {
      var r2 := LossyRound(quiet, r1);
      assert Round(n, r2) && !Converged(Run(Run(quiet, r1), r2));
    }
  }

  /****** Why the third round ******/

  function Both(h: Hash): Items {
    map[FolderKey("f") := FolderHash(Folder("f", "f", None)), ConnKey("c") := h]
  }

  function Alone(h: Hash): Items {
    map[ConnKey("c") := h]
  }

  function InSync(items: Items, version: int): Device {
    Device(items, items, Some(Fingerprint(items)), Some(Meta(version, "")))
  }

  function Holding(items: Items, version: int): Server {
    Some(Blob(items, Meta(version, "")))
  }

  lemma RunAppend(sys: System, events: seq<Event>, e: Event)
    requires AllAllowed(|sys.devices|, events) && Allowed(|sys.devices|, e)
    ensures AllAllowed(|sys.devices|, events + [e]) && Run(sys, events + [e]) == Apply(Run(sys, events), e)
  {
    assert (events + [e])[..|events|] == events;
  }

  lemma SyncNext(sys: System, events: seq<Event>, before: System, i: nat, d: Device, server: Server)
    requires AllAllowed(|sys.devices|, events) && Run(sys, events) == before && i < |before.devices|
    requires SyncStep(before.devices[i], before.server, "") == (d, server)
    ensures AllAllowed(|sys.devices|, events + [Sync(i, "")])
    ensures Run(sys, events + [Sync(i, "")]) == System(before.devices[i := d], server)
  {
    RunAppend(sys, events, Sync(i, ""));
  }

  lemma EditNext(sys: System, events: seq<Event>, before: System, i: nat, store: Items)
    requires AllAllowed(|sys.devices|, events) && Run(sys, events) == before && i < |before.devices| && NoLegacy(store)
    ensures AllAllowed(|sys.devices|, events + [Edit(i, store)])
    ensures Run(sys, events + [Edit(i, store)])
         == System(before.devices[i := before.devices[i].(store := store)], before.server)
  {
    RunAppend(sys, events, Edit(i, store));
  }

  lemma TwoNewDevices(events: seq<Event>)
    requires events == []
    ensures AllAllowed(2, events) && Run(Start(2), events) == System([NEW_DEVICE, NEW_DEVICE], None)
  {
    assert Start(2).devices == [NEW_DEVICE, NEW_DEVICE];
  }

  // Two devices share a connection filed in a folder; device 1 then deletes the
  // folder and syncs while device 0 edits the connection.
  function Shared(first: Hash): seq<Event> {
    [Edit(0, Both(first))] + [Sync(0, "")] + [Sync(1, "")]
  }

  function Story(first: Hash, second: Hash): seq<Event> {
    Shared(first) + [Edit(1, Alone(Unfiled(first)))] + [Sync(1, "")] + [Edit(0, Both(second))]
  }

  lemma StorySteps(first: Hash)
    requires first.ConnHash?
    ensures SyncStep(NEW_DEVICE.(store := Both(first)), None, "") == (InSync(Both(first), 1), Holding(Both(first), 1))
    ensures SyncStep(NEW_DEVICE, Holding(Both(first), 1), "") == (InSync(Both(first), 2), Holding(Both(first), 2))
    ensures SyncStep(InSync(Both(first), 2).(store := Alone(Unfiled(first))), Holding(Both(first), 2), "")
         == (InSync(Alone(Unfiled(first)), 3), Holding(Alone(Unfiled(first)), 3))
  {
    var both, loose := Both(first), Alone(Unfiled(first));
    assert Merged(map[], both, map[]) == both && StoreAfter(map[], both, map[]) == both;
    assert FolderKey("f") in both && FolderKey("f") !in loose;
    if Fingerprint(loose) == Fingerprint(both) {
      FingerprintInjective(loose, both);
    }
  }

  function StoryState(first: Hash, second: Hash): System {
    System([InSync(Both(first), 1).(store := Both(second)), InSync(Alone(Unfiled(first)), 3)],
           Holding(Alone(Unfiled(first)), 3))
  }

  lemma SharedState(first: Hash)
    requires first.ConnHash?
    ensures AllAllowed(2, Shared(first))
    ensures Run(Start(2), Shared(first))
         == System([InSync(Both(first), 1), InSync(Both(first), 2)], Holding(Both(first), 2))
  {
    StorySteps(first);
    var both := Both(first);
    var e1 := [Edit(0, both)];
    TwoNewDevices([]);
    EditNext(Start(2), [], System([NEW_DEVICE, NEW_DEVICE], None), 0, both);
    assert [] + e1 == e1;
    var s1 := System([NEW_DEVICE.(store := both), NEW_DEVICE], None);
    SyncNext(Start(2), e1, s1, 0, InSync(both, 1), Holding(both, 1));
    var s2 := System([InSync(both, 1), NEW_DEVICE], Holding(both, 1));
    SyncNext(Start(2), e1 + [Sync(0, "")], s2, 1, InSync(both, 2), Holding(both, 2));
  }

  lemma StoryBegins(first: Hash, second: Hash)
    requires first.ConnHash?
    ensures AllAllowed(2, Story(first, second)) && SafeRun(Start(2), Story(first, second))
    ensures Run(Start(2), Story(first, second)) == StoryState(first, second)
  {
    SharedState(first);
    StoryGoesOn(first, second, Shared(first));
    StopFree(Start(2), Story(first, second));
  }

  lemma StoryGoesOn(first: Hash, second: Hash, events: seq<Event>)
    requires first.ConnHash? && AllAllowed(2, events)
    requires Run(Start(2), events) == System([InSync(Both(first), 1), InSync(Both(first), 2)], Holding(Both(first), 2))
    ensures var more := events + [Edit(1, Alone(Unfiled(first)))] + [Sync(1, "")] + [Edit(0, Both(second))];
            AllAllowed(2, more) && Run(Start(2), more) == StoryState(first, second)
  {
    StorySteps(first);
    var both, loose := Both(first), Alone(Unfiled(first));
    EditNext(Start(2), events, System([InSync(both, 1), InSync(both, 2)], Holding(both, 2)), 1, loose);
    var s1 := System([InSync(both, 1), InSync(both, 2).(store := loose)], Holding(both, 2));
    var e1 := events + [Edit(1, loose)];
    SyncNext(Start(2), e1, s1, 1, InSync(loose, 3), Holding(loose, 3));
    var s2 := System([InSync(both, 1), InSync(loose, 3)], Holding(loose, 3));
    EditNext(Start(2), e1 + [Sync(1, "")], s2, 0, Both(second));
  }

  lemma {:induction false} StopFree(sys: System, events: seq<Event>)
    requires AllAllowed(|sys.devices|, events) && forall e :: e in events ==> !e.Stop?
    ensures SafeRun(sys, events)
  {
    if events != [] {
      var last := |events| - 1;
      assert events[last] in events;
      StopFree(sys, events[..last]);
    }
  }

  // First round: device 0 uploads the connection it keeps while its store
  // loses the folder, and device 1 downloads it. Second round: device 1 finds
  // nothing to do, then device 0 uploads the cleared connection.
  lemma StoryEnds(first: Hash, second: Hash)
    requires first != second && FiledIn(first, {"f"}) && FiledIn(second, {"f"})
    ensures SyncStep(InSync(Both(first), 1).(store := Both(second)), Holding(Alone(Unfiled(first)), 3), "")
         == (InSync(Alone(second), 4).(store := Alone(Unfiled(second))), Holding(Alone(second), 4))
    ensures SyncStep(InSync(Alone(Unfiled(first)), 3), Holding(Alone(second), 4), "")
         == (InSync(Alone(second), 4), Holding(Alone(second), 4))
    ensures SyncStep(InSync(Alone(second), 4), Holding(Alone(second), 4), "")
         == (InSync(Alone(second), 4), Holding(Alone(second), 4))
    ensures SyncStep(InSync(Alone(second), 4).(store := Alone(Unfiled(second))), Holding(Alone(second), 4), "")
         == (InSync(Alone(Unfiled(second)), 5), Holding(Alone(Unfiled(second)), 5))
  {
    var f, c := FolderKey("f"), ConnKey("c");
    var both, mine, loose := Both(first), Both(second), Alone(Unfiled(first));
    var kept, cleared := Alone(second), Alone(Unfiled(second));
    assert both[c] != mine[c] && kept[c] != cleared[c];
    if Fingerprint(mine) == Fingerprint(both) {
      FingerprintInjective(mine, both);
    }
    if Fingerprint(cleared) == Fingerprint(kept) {
      FingerprintInjective(cleared, kept);
    }
    assert Merged(mine, loose, both) == kept;
    assert "f" in Dropped(mine, loose, both) by {
      assert f in mine && MergedAt(mine, loose, both, f) == None;
    }
    assert FiledIn(second, Dropped(mine, loose, both));
    assert StoreAfter(mine, loose, both) == cleared;
    assert Merged(loose, kept, loose) == kept;
    assert StoreAfter(loose, kept, loose) == kept;
  }

  // From the empty account, two devices that both sync twice after their last
  // edit end with different stores, so a third round is needed.
  lemma TwoRoundsCanDisagree(first: Hash, second: Hash)
    requires first != second && FiledIn(first, {"f"}) && FiledIn(second, {"f"})
    ensures var r1, r2 := [Sync(0, "")] + [Sync(1, "")], [Sync(1, "")] + [Sync(0, "")];
            && AllAllowed(2, Story(first, second)) && Round(2, r1) && OneTurnEach(r1) && Round(2, r2)
            && var end := Run(Run(Run(Start(2), Story(first, second)), r1), r2);
               end.devices[0].store == Alone(Unfiled(second)) != Alone(second) == end.devices[1].store
               && !Converged(end)
  {
    var r1, r2 := [Sync(0, "")] + [Sync(1, "")], [Sync(1, "")] + [Sync(0, "")];
    StoryBegins(first, second);
    BothTakeTurns();
    StoryRounds(first, second);
    assert Alone(Unfiled(second))[ConnKey("c")] != Alone(second)[ConnKey("c")];
    var end := Run(Run(StoryState(first, second), r1), r2);
    assert end.devices[1] in end.devices;
  }

  lemma BothTakeTurns()
    ensures var r1, r2 := [Sync(0, "")] + [Sync(1, "")], [Sync(1, "")] + [Sync(0, "")];
            Round(2, r1) && OneTurnEach(r1) && Round(2, r2)
  {
    var r1, r2 := [Sync(0, "")] + [Sync(1, "")], [Sync(1, "")] + [Sync(0, "")];
    assert Sync(0, "") in r1 && Sync(1, "") in r1 && Sync(0, "") in r2 && Sync(1, "") in r2;
  }

  // A run of two turns on two devices.
  lemma TwoTurns(sys: System, a: nat, b: nat, d: Device, server: Server, d': Device, server': Server)
    requires |sys.devices| == 2 && a < 2 && b == 1 - a
    requires SyncStep(sys.devices[a], sys.server, "") == (d, server)
    requires SyncStep(sys.devices[b], server, "") == (d', server')
    ensures Run(sys, [Sync(a, "")] + [Sync(b, "")]) == System(if a == 0 then [d, d'] else [d', d], server')
  {
    assert [] + [Sync(a, "")] == [Sync(a, "")];
    SyncNext(sys, [], sys, a, d, server);
    var mid := System(sys.devices[a := d], server);
    SyncNext(sys, [Sync(a, "")], mid, b, d', server');
  }

  lemma StoryRounds(first: Hash, second: Hash)
    requires first != second && FiledIn(first, {"f"}) && FiledIn(second, {"f"})
    ensures Run(Run(StoryState(first, second), [Sync(0, "")] + [Sync(1, "")]), [Sync(1, "")] + [Sync(0, "")])
         == System([InSync(Alone(Unfiled(second)), 5), InSync(Alone(second), 4)], Holding(Alone(Unfiled(second)), 5))
  {
    StoryEnds(first, second);
    var kept, cleared := Alone(second), Alone(Unfiled(second));
    var lossy := InSync(kept, 4).(store := cleared);
    TwoTurns(StoryState(first, second), 0, 1, lossy, Holding(kept, 4), InSync(kept, 4), Holding(kept, 4));
    var mid := System([lossy, InSync(kept, 4)], Holding(kept, 4));
    TwoTurns(mid, 1, 0, InSync(kept, 4), Holding(kept, 4), InSync(cleared, 5), Holding(cleared, 5));
  }
}
