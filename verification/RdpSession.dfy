// The session's side of remote desktop input (app_rdp_input.go), and what the
// batches of a browser binding do to it.
module RdpSession {
  import opened Common
  import opened RdpInput

  /****** The remote side ******/

  // Button1 is the left, Button2 the right and Button3 the middle button.
  datatype Flag = Button1 | Button2 | Button3

  datatype Thing = Scancode(code: int) | Character(code: int) | Mouse(flag: Flag)

  datatype Wire =
    | Keyboard(code: int, down: bool)
    | Text(code: int, down: bool)
    | Pointer(x: int, y: int)
    | Click(flag: Flag, down: bool, x: int, y: int)
    | Scroll(delta: int, x: int, y: int)

  // What it holds, where its pointer is, and all it was told but plain moves.
  datatype Remote = Remote(held: set<Thing>, x: int, y: int, acts: seq<Wire>)

  function Receive(r: Remote, w: Wire): Remote {
    match w
    case Keyboard(c, d) => r.(held := Hold(r.held, Scancode(c), d), acts := r.acts + [w])
    case Text(c, d) => r.(held := Hold(r.held, Character(c), d), acts := r.acts + [w])
    case Pointer(x, y) => r.(x := x, y := y)
    case Click(f, d, x, y) => Remote(Hold(r.held, Mouse(f), d), x, y, r.acts + [w])
    case Scroll(_, x, y) => r.(x := x, y := y, acts := r.acts + [w])
  }

  function Hold(held: set<Thing>, t: Thing, down: bool): set<Thing> {
    if down then held + {t} else held - {t}
  }

  /****** One event ******/

  type HeldMap = m: map<Name, Event> |
    forall n :: n in m ==> Holdable(m[n]) && NameOf(m[n]) == n && Sound(m[n]) && m[n].down

  datatype State = State(pressed: HeldMap, remote: Remote)

  datatype Size = Size(width: int, height: int)

  function Clamp(v: int, size: int): int {
    var below := if v < size - 1 then v else size - 1;
    if below < 0 then 0 else below
  }

  function Clamped(e: Event, size: Size): Event {
    if e.Move? || e.Button? || e.Wheel? then e.(x := Clamp(e.x, size.width), y := Clamp(e.y, size.height)) else e
  }

  // The browser counts left, middle, right.
  function FlagOf(button: int): Flag {
    if button == 0 then Button1 else if button == 1 then Button3 else Button2
  }

  function WireOf(e: Event): Wire
    requires Sound(e) && !e.Release?
  {
    match e
    case Key(code, down) => Keyboard(code, down)
    case Unicode(code, down) => Text(code, down)
    case Move(x, y) => Pointer(x, y)
    case Button(b, down, x, y) => Click(FlagOf(b), down, x, y)
    case Wheel(delta, x, y) => Scroll(if delta > 120 then 120 else if delta < -120 then -120 else delta, x, y)
  }

  function Press(pressed: HeldMap, e: Event): HeldMap
    requires Sound(e)
  {
    if !Holdable(e) then pressed
    else if e.down then pressed[NameOf(e) := e]
    else pressed - {NameOf(e)}
  }

  function Apply(s: State, e: Event, size: Size): State
    requires Sound(e) && !e.Release?
  {
    var c := Clamped(e, size);
    State(Press(s.pressed, c), Receive(s.remote, WireOf(c)))
  }

  // One held thing let go.
  function Drop(s: State, n: Name, size: Size): (t: State)
    requires n in s.pressed
    ensures t.pressed == s.pressed - {n}
  {
    Apply(s, Up(s.pressed[n]), size)
  }

  // All of them let go one after the other, in any order.
  ghost predicate LetsGo(s: State, t: State, size: Size)
    decreases s.pressed.Keys
  {
    if s.pressed == map[] then s == t
    else exists n :: n in s.pressed && LetsGo(Drop(s, n, size), t, size)
  }

  // A release lets the held things go in the order the map happens to give.
  ghost predicate Step(s: State, e: Event, t: State, size: Size) {
    if e.Release? then LetsGo(s, t, size) else Sound(e) && t == Apply(s, e, size)
  }

  function Init(events: seq<Event>): seq<Event>
    requires events != []
  {
    events[..|events| - 1]
  }

  function Last(events: seq<Event>): Event
    requires events != []
  {
    events[|events| - 1]
  }

  ghost predicate Reaches(events: seq<Event>, s: State, t: State, size: Size)
    decreases |events|
  {
    if events == [] then s == t
    else exists m :: Reaches(Init(events), s, m, size) && Step(m, Last(events), t, size)
  }

  /****** The map and the remote side agree ******/

  function NameFor(t: Thing): Name {
    match t
    case Scancode(c) => KeyName(c)
    case Character(c) => UnicodeName(c)
    case Mouse(Button1) => ButtonName(0)
    case Mouse(Button2) => ButtonName(2)
    case Mouse(Button3) => ButtonName(1)
  }

  ghost predicate Agree(s: State) {
    forall t: Thing :: t in s.remote.held <==> NameFor(t) in s.pressed
  }

  // They agree on everything but one thing.
  ghost predicate AgreeBut(s: State, n: Name) {
    forall t: Thing :: NameFor(t) != n ==> (t in s.remote.held <==> NameFor(t) in s.pressed)
  }

  function Suspect(e: Event): Name {
    if Holdable(e) then NameOf(e) else KeyName(0)
  }

  lemma ApplyAgrees(s: State, e: Event, size: Size)
    requires Sound(e) && !e.Release? && Agree(s)
    ensures Agree(Apply(s, e, size))
  {
    var c := Clamped(e, size);
    if Holdable(c) {
      assert forall t: Thing :: NameFor(t) == NameOf(c) <==>
        t == (match c
              case Key(k, _) => Scancode(k)
              case Unicode(k, _) => Character(k)
              case Button(b, _, _, _) => Mouse(FlagOf(b)));
    }
  }

  lemma {:induction false} LetsGoAgrees(s: State, t: State, size: Size)
    requires Agree(s) && LetsGo(s, t, size)
    ensures Agree(t) && t.pressed == map[]
    decreases s.pressed.Keys
  {
    if s.pressed != map[] {
      var n :| n in s.pressed && LetsGo(Drop(s, n, size), t, size);
      ApplyAgrees(s, Up(s.pressed[n]), size);
      LetsGoAgrees(Drop(s, n, size), t, size);
    }
  }

  lemma StepAgrees(s: State, e: Event, t: State, size: Size)
    requires Agree(s) && Step(s, e, t, size)
    ensures Agree(t) && (e.Release? ==> t.pressed == map[])
    ensures !e.Release? ==> t.pressed.Keys == Press(s.pressed, Clamped(e, size)).Keys
  {
    if e.Release? {
      LetsGoAgrees(s, t, size);
    } else {
      ApplyAgrees(s, e, size);
    }
  }

  const FRESH := State(map[], Remote({}, 0, 0, []))

  // From a fresh session, the map holds exactly what the events leave held, and
  // so does the remote side.
  lemma {:induction false} HoldsExactly(events: seq<Event>, t: State, size: Size)
    requires Reaches(events, FRESH, t, size)
    ensures Agree(t) && t.pressed.Keys == HeldAfter(events)
  {
    if events != [] {
      var init, e := Init(events), Last(events);
      var m :| Reaches(init, FRESH, m, size) && Step(m, e, t, size);
      HoldsExactly(init, m, size);
      StepAgrees(m, e, t, size);
    }
  }

  /****** Coalescing changes nothing ******/

  lemma ReachesItself(s: State, size: Size)
    ensures Reaches([], s, s, size)
  {}

  lemma ReachesLast(events: seq<Event>, e: Event, s: State, t: State, size: Size)
    ensures Reaches(events + [e], s, t, size) <==> exists m :: Reaches(events, s, m, size) && Step(m, e, t, size)
  {
    assert Init(events + [e]) == events && Last(events + [e]) == e;
  }

  lemma MoveTwice(events: seq<Event>, a: Event, b: Event, s: State, t: State, size: Size)
    requires a.Move? && b.Move?
    ensures Reaches(events + [a] + [b], s, t, size) <==> Reaches(events + [b], s, t, size)
  {
    ReachesLast(events + [a], b, s, t, size);
    ReachesLast(events, b, s, t, size);
    if Reaches(events + [a] + [b], s, t, size) {
      var m :| Reaches(events + [a], s, m, size) && Step(m, b, t, size);
      ReachesLast(events, a, s, m, size);
      var k :| Reaches(events, s, k, size) && Step(k, a, m, size);
      assert Step(k, b, t, size);
    }
    if Reaches(events + [b], s, t, size) {
      var k :| Reaches(events, s, k, size) && Step(k, b, t, size);
      var m := Apply(k, a, size);
      ReachesLast(events, a, s, m, size);
      assert Step(k, a, m, size) && Step(m, b, t, size);
    }
  }

  // A thinned sequence reaches exactly the states the full one does: the same
  // held things, pointer and actions, in the same order.
  lemma {:induction false} ThinReaches(full: seq<Event>, thin: seq<Event>, s: State, t: State, size: Size)
    requires Thins(full, thin)
    ensures Reaches(full, s, t, size) <==> Reaches(thin, s, t, size)
    decreases |full|
  {
    if full == [] {
      ThinsNothing(thin);
    } else {
      ThinsLast(full, thin);
      var rest, shorter, e := full[..|full| - 1], thin[..|thin| - 1], full[|full| - 1];
      assert full == rest + [e] && thin == shorter + [e];
      ReachesLast(rest, e, s, t, size);
      if Thins(rest, shorter) {
        ReachesLast(shorter, e, s, t, size);
        forall m ensures Reaches(rest, s, m, size) <==> Reaches(shorter, s, m, size) {
          ThinReaches(rest, shorter, s, m, size);
        }
      } else {
        var a := rest[|rest| - 1];
        ReachesLast(shorter + [a], e, s, t, size);
        forall m ensures Reaches(rest, s, m, size) <==> Reaches(shorter + [a], s, m, size) {
          ThinReaches(rest, shorter + [a], s, m, size);
        }
        MoveTwice(shorter, a, e, s, t, size);
      }
    }
  }

  lemma {:induction false} ReachesAppend(a: seq<Event>, b: seq<Event>, s: State, m: State, t: State, size: Size)
    requires Reaches(a, s, m, size) && Reaches(b, m, t, size)
    ensures Reaches(a + b, s, t, size)
    decreases |b|
  {
    if b == [] {
      assert a + b == a;
    } else {
      var k := StateBefore(b, m, t, size);
      ReachesAppend(a, Init(b), s, m, k, size);
      InitAppend(a, b);
      assert Reaches(Init(a + b), s, k, size) && Step(k, Last(a + b), t, size);
    }
  }

  lemma InitAppend(a: seq<Event>, b: seq<Event>)
    requires b != []
    ensures Init(a + b) == a + Init(b) && Last(a + b) == Last(b)
  {}

  lemma StateBefore(b: seq<Event>, m: State, t: State, size: Size) returns (k: State)
    requires b != [] && Reaches(b, m, t, size)
    ensures Reaches(Init(b), m, k, size) && Step(k, Last(b), t, size)
  {
    k :| Reaches(Init(b), m, k, size) && Step(k, Last(b), t, size);
  }

  /****** The session ******/

  class Client {
    const sends: nat -> bool
    var sendCount: nat
    var remote: Remote

    constructor (sends: nat -> bool)
      ensures remote == FRESH.remote && this.sends == sends
    {
      this.sends, sendCount, remote := sends, 0, FRESH.remote;
    }

    // One event on the wire; a failed send does not arrive.
    method Send(w: Wire) returns (ok: bool)
      modifies this
      ensures ok == sends(old(sendCount))
      ensures remote == if ok then Receive(old(remote), w) else old(remote)
    {
      ok := sends(sendCount);
      sendCount := sendCount + 1;
      if ok {
        remote := Receive(remote, w);
      }
    }
  }

  class Session {
    const client: Client
    const size: Size
    // Whether the session is still open at its n-th check.
    const opens: nat -> bool
    var checks: nat
    var pressed: HeldMap

    constructor (client: Client, size: Size, opens: nat -> bool)
      ensures pressed == map[] && this.client == client && this.size == size && this.opens == opens
    {
      this.client, this.size, this.opens, checks, pressed := client, size, opens, 0, map[];
    }

    ghost function Now(): State
      reads this, client
    {
      State(pressed, client.remote)
    }

    ghost predicate Smooth()
      reads this, client
    {
      (forall n :: opens(n)) && (forall n :: client.sends(n))
    }

    method Check() returns (ok: bool)
      modifies this`checks
      ensures ok == opens(old(checks))
    {
      ok := opens(checks);
      checks := checks + 1;
    }

    // One event. On failure the map and the remote side still agree but for the
    // one thing whose send failed.
    method Input(event: Event) returns (ok: bool, ghost suspect: Name)
      modifies this`checks, this`pressed, client
      ensures ok ==> Step(old(Now()), event, Now(), size)
      ensures !Sound(event) ==> !ok && Now() == old(Now())
      ensures Sound(event) && Smooth() ==> ok
      ensures !ok && old(Agree(Now())) ==> AgreeBut(Now(), suspect)
      decreases if event.Release? then 2 else 0
    {
      suspect := KeyName(0);
      ok := Check();
      if !ok {
        return;
      }
      var e := Clamped(event, size);
      match e
      case Release => ok, suspect := ReleaseHeld();
      case Unsupported => ok := false;
      case _ =>
        suspect := Suspect(e);
        ok := Act(e);
    }

    method Act(e: Event) returns (ok: bool)
      requires !e.Release? && !e.Unsupported? && e == Clamped(e, size)
      modifies this`pressed, client
      ensures ok ==> Sound(e) && Now() == Apply(old(Now()), e, size)
      ensures !Sound(e) ==> !ok && Now() == old(Now())
      ensures Sound(e) && Smooth() ==> ok
      ensures !ok && old(Agree(Now())) ==> AgreeBut(Now(), Suspect(e))
    {
      match e
      case Key(code, down) =>
        if code < 0 || code > 65535 { return false; }
        pressed := if down then pressed[KeyName(code) := e] else pressed - {KeyName(code)};
        ok := client.Send(Keyboard(code, down));
      case Unicode(code, down) =>
        if code < 0 || code > 65535 { return false; }
        pressed := if down then pressed[UnicodeName(code) := e] else pressed - {UnicodeName(code)};
        ok := client.Send(Text(code, down));
      case Move(x, y) =>
        ok := client.Send(Pointer(x, y));
      case Button(button, down, x, y) =>
        if button < 0 || button >= 3 { return false; }
        pressed := if down then pressed[ButtonName(button) := e] else pressed - {ButtonName(button)};
        ok := client.Send(Click([Button1, Button3, Button2][button], down, x, y));
      case Wheel(delta, x, y) =>
        ok := client.Send(Scroll(if delta > 120 then 120 else if delta < -120 then -120 else delta, x, y));
    }

    // Lets go of everything in the map, in the order the map happens to give.
    method ReleaseHeld() returns (ok: bool, ghost suspect: Name)
      modifies this`checks, this`pressed, client
      ensures ok ==> Step(old(Now()), Release, Now(), size)
      ensures Smooth() ==> ok
      ensures !ok && old(Agree(Now())) ==> AgreeBut(Now(), suspect)
      decreases 1
    {
      ghost var start := Now();
      while pressed != map[]
        invariant forall t :: LetsGo(Now(), t, size) ==> LetsGo(start, t, size)
        invariant Agree(start) ==> Agree(Now())
        decreases |pressed|
      {
        var name :| name in pressed;
        ghost var before := Now();
        ok, suspect := Input(Up(pressed[name]));
        if !ok {
          return;
        }
        assert Now() == Drop(before, name, size);
        if Agree(start) {
          ApplyAgrees(before, Up(before.pressed[name]), size);
        }
      }
      ok, suspect := true, KeyName(0);
    }

    // One batch.
    method SendRDPInput(events: seq<Event>) returns (ok: bool)
      modifies this`checks, this`pressed, client
      ensures ok ==> |events| <= 256 && Reaches(events, old(Now()), Now(), size)
      ensures |events| > 256 ==> Now() == old(Now())
      ensures |events| <= 256 && AllSound(events) && Smooth() ==> ok
    {
      hide Reaches, Step;
      if |events| > 256 {
        return false;
      }
      ReachesItself(Now(), size);
      for i := 0 to |events|
        invariant Reaches(events[..i], old(Now()), Now(), size)
      {
        ghost var before := Now();
        ghost var suspect;
        ok, suspect := Input(events[i]);
        if !ok {
          return;
        }
        ReachesLast(events[..i], events[i], old(Now()), Now(), size);
        assert events[..i + 1] == events[..i] + [events[i]];
      }
      assert events[..|events|] == events;
      ok := true;
    }
  }

  // The binding's chain of sends: a failed batch is reported, and the next one
  // is sent all the same.
  method SendChain(session: Session, batches: seq<seq<Event>>) returns (failed: bool)
    requires forall b :: b in batches ==> |b| <= BATCH
    modifies session`checks, session`pressed, session.client
    ensures !failed ==> Reaches(Flat(batches), old(session.Now()), session.Now(), session.size)
    ensures (forall b :: b in batches ==> AllSound(b)) && session.Smooth() ==> !failed
  {
    failed := false;
    for i := 0 to |batches|
      invariant !failed ==> Reaches(Flat(batches[..i]), old(session.Now()), session.Now(), session.size)
      invariant (forall b :: b in batches ==> AllSound(b)) && session.Smooth() ==> !failed
    {
      ghost var before := session.Now();
      var ok := session.SendRDPInput(batches[i]);
      failed := failed || !ok;
      assert batches[..i + 1] == batches[..i] + [batches[i]];
      FlatAppend(batches[..i], batches[i]);
      if !failed {
        ReachesAppend(Flat(batches[..i]), batches[i], old(session.Now()), before, session.Now(), session.size);
      }
    }
    assert batches[..|batches|] == batches;
  }

  /****** Both sides ******/

  lemma ReleasedHoldsNothing(gestures: seq<Gesture>, scans: Scans)
    requires gestures != [] && Releasing(gestures[|gestures| - 1])
    ensures HeldAfter(Uncoalesced(gestures, scans).events) == {}
  {}

  lemma ButtonFlags(t: State)
    requires Agree(t)
    ensures Mouse(Button1) in t.remote.held <==> ButtonName(0) in t.pressed
    ensures Mouse(Button3) in t.remote.held <==> ButtonName(1) in t.pressed
    ensures Mouse(Button2) in t.remote.held <==> ButtonName(2) in t.pressed
  {
    assert NameFor(Mouse(Button1)) == ButtonName(0) && NameFor(Mouse(Button3)) == ButtonName(1);
    assert NameFor(Mouse(Button2)) == ButtonName(2);
  }

  // When everything pushed has been sent and no send failed, the session stands
  // where the uncoalesced gestures would have put it. Every key it holds belongs
  // to a key still down in the browser, the remote side holds just what its map
  // says, the pointer buttons are held that were pressed last, and after a
  // releasing gesture nothing is.
  lemma NoStuckKeys(gestures: seq<Gesture>, scans: Scans, sent: seq<seq<Event>>, t: State, size: Size)
    requires Thins(Uncoalesced(gestures, scans).events, Flat(sent))
    requires Reaches(Flat(sent), FRESH, t, size)
    ensures Reaches(Uncoalesced(gestures, scans).events, FRESH, t, size)
    ensures forall n :: n in t.pressed && !n.ButtonName? ==> Backed(Uncoalesced(gestures, scans).pressed, n)
    ensures forall b: nat :: ButtonName(b) in t.pressed <==> b <= 2 && ButtonDown(gestures, b)
    ensures Mouse(Button1) in t.remote.held <==> ButtonDown(gestures, 0)
    ensures Mouse(Button3) in t.remote.held <==> ButtonDown(gestures, 1)
    ensures Mouse(Button2) in t.remote.held <==> ButtonDown(gestures, 2)
    ensures Agree(t)
    ensures gestures != [] && Releasing(gestures[|gestures| - 1]) ==> t.pressed == map[] && t.remote.held == {}
  {
    var m := Uncoalesced(gestures, scans);
    ThinReaches(m.events, Flat(sent), FRESH, t, size);
    HoldsExactly(m.events, t, size);
    if gestures != [] && Releasing(gestures[|gestures| - 1]) {
      ReleasedHoldsNothing(gestures, scans);
    }
    forall n | n in t.pressed && !n.ButtonName? ensures Backed(m.pressed, n) {
      HeldIsBacked(gestures, scans, n);
    }
    forall b: nat ensures ButtonName(b) in t.pressed <==> b <= 2 && ButtonDown(gestures, b) {
      ButtonsHeld(gestures, scans, b);
    }
    ButtonFlags(t);
  }

  lemma {:induction false} FlatHolds(batches: seq<seq<Event>>, b: seq<Event>, e: Event)
    requires b in batches && e in b
    ensures e in Flat(batches)
  {
    if b != batches[|batches| - 1] {
      FlatHolds(batches[..|batches| - 1], b, e);
    }
  }

  // No batch of a binding is ever refused: with an open session and working
  // sends its whole chain succeeds (SendChain).
  lemma BatchesAccepted(gestures: seq<Gesture>, scans: Scans, sent: seq<seq<Event>>, queue: seq<Event>)
    requires Thins(Uncoalesced(gestures, scans).events, Flat(sent) + queue)
    ensures forall b :: b in sent ==> AllSound(b)
  {
    var full := Uncoalesced(gestures, scans).events;
    HeldIsBacked(gestures, scans, KeyName(0));
    OthersKept(full, Flat(sent) + queue);
    forall b, e | b in sent && e in b ensures Sound(e) {
      FlatHolds(sent, b, e);
      assert e in Flat(sent) + queue;
    }
  }

  // The converse of NoStuckKeys fails whenever two keys that are down typed the
  // same character: letting go of one lets go of the character.
  lemma LetGoWhileDown(gestures: seq<Gesture>, g: Gesture, scans: Scans, other: Units, n: Name)
    requires g.KeyUp? && KeyId(g) != other
    requires var pressed := Uncoalesced(gestures, scans).pressed;
      KeyId(g) in pressed && other in pressed && Has(pressed[KeyId(g)], n) && Has(pressed[other], n)
    ensures var after := Uncoalesced(gestures + [g], scans);
      other in after.pressed && Backed(after.pressed, n) && n !in HeldAfter(after.events)
  {
    var before, after := Uncoalesced(gestures, scans), Uncoalesced(gestures + [g], scans);
    UncoalescedAppend(gestures, g, scans);
    HeldAfterUps(before.events, before.pressed[KeyId(g)], n);
    assert other in after.pressed && Has(after.pressed[other], n);
  }

  /****** When every key that is down is held ******/

  // The keys held are exactly those of the keys that are down.
  ghost predicate Mirrored(m: Meaning) {
    forall n: Name :: !n.ButtonName? ==> (n in HeldAfter(m.events) <==> Backed(m.pressed, n))
  }

  // A lifted key shares a character with another key that is down.
  ghost predicate SharedLift(g: Gesture, pressed: Pressed) {
    g.KeyUp? && KeyId(g) in pressed
    && exists n, other :: other in pressed && other != KeyId(g) && Has(pressed[KeyId(g)], n) && Has(pressed[other], n)
  }

  function After(m: Meaning, g: Gesture, scans: Scans): Meaning {
    var next := React(g, m.pressed, scans);
    Meaning(m.events + next.events, next.pressed)
  }

  lemma DownMirrors(m: Meaning, g: Gesture, scans: Scans, n: Name)
    requires Mirrored(m) && g.KeyDown? && !n.ButtonName?
    ensures var after := After(m, g, scans);
            n in HeldAfter(after.events) <==> Backed(after.pressed, n)
  {
    var next, id := React(g, m.pressed, scans), KeyId(g);
    HeldAfterDowns(m.events, next.events, n);
    if Backed(m.pressed, n) {
      var k :| k in m.pressed && Has(m.pressed[k], n);
      assert k in next.pressed;
    }
    if Has(next.events, n) {
      assert id in next.pressed && next.pressed[id] == next.events;
    }
  }

  lemma UpMirrors(m: Meaning, g: Gesture, scans: Scans, n: Name)
    requires Mirrored(m) && g.KeyUp? && KeyId(g) in m.pressed && !n.ButtonName?
    ensures var after := After(m, g, scans);
            (n in HeldAfter(after.events) <==> Backed(after.pressed, n))
            <==> !(Has(m.pressed[KeyId(g)], n)
                   && exists other :: other in m.pressed && other != KeyId(g) && Has(m.pressed[other], n))
  {
    var id, after := KeyId(g), After(m, g, scans);
    HeldAfterUps(m.events, m.pressed[id], n);
    assert Has(m.pressed[id], n) ==> Backed(m.pressed, n);
    assert forall other :: other in after.pressed <==> other in m.pressed && other != id;
  }

  lemma OtherMirrors(m: Meaning, g: Gesture, scans: Scans)
    requires Mirrored(m) && !g.KeyDown? && !(g.KeyUp? && KeyId(g) in m.pressed)
    ensures Mirrored(After(m, g, scans))
  {
    var next := React(g, m.pressed, scans);
    if next.events == [] {
      assert m.events + next.events == m.events;
    } else {
      assert (m.events + next.events)[..|m.events|] == m.events;
    }
  }

  // Only a key names something held down.
  lemma HasKey(inputs: seq<Event>, n: Name)
    requires Downs(inputs) && Has(inputs, n)
    ensures !n.ButtonName?
  {
    var i :| 0 <= i < |inputs| && Holdable(inputs[i]) && NameOf(inputs[i]) == n;
    assert inputs[i] in inputs;
  }

  // While held and down agree, a gesture keeps it so if and only if it does not
  // lift a key that shares a character with another key that is down.
  lemma MirroredStep(m: Meaning, g: Gesture, scans: Scans)
    requires Mirrored(m)
    ensures Mirrored(After(m, g, scans)) <==> !SharedLift(g, m.pressed)
  {
    if g.KeyDown? {
      forall n: Name | !n.ButtonName?
        ensures n in HeldAfter(After(m, g, scans).events) <==> Backed(After(m, g, scans).pressed, n)
      {
        DownMirrors(m, g, scans, n);
      }
    } else if g.KeyUp? && KeyId(g) in m.pressed {
      forall n: Name | !n.ButtonName?
        ensures (n in HeldAfter(After(m, g, scans).events) <==> Backed(After(m, g, scans).pressed, n))
           <==> !(Has(m.pressed[KeyId(g)], n)
                  && exists other :: other in m.pressed && other != KeyId(g) && Has(m.pressed[other], n))
      {
        UpMirrors(m, g, scans, n);
      }
      if SharedLift(g, m.pressed) {
        var n, other :|
          other in m.pressed && other != KeyId(g) && Has(m.pressed[KeyId(g)], n) && Has(m.pressed[other], n);
        HasKey(m.pressed[other], n);
      }
    } else {
      OtherMirrors(m, g, scans);
    }
  }

  // No gesture of the run is such a lift.
  ghost predicate NoSharedLift(gestures: seq<Gesture>, scans: Scans) {
    gestures == [] ||
    var n := |gestures| - 1;
    NoSharedLift(gestures[..n], scans) && !SharedLift(gestures[n], Uncoalesced(gestures[..n], scans).pressed)
  }

  // At the start and after every gesture.
  ghost predicate AlwaysMirrored(gestures: seq<Gesture>, scans: Scans) {
    Mirrored(Uncoalesced(gestures, scans)) && (gestures == [] || AlwaysMirrored(gestures[..|gestures| - 1], scans))
  }

  lemma LastMirrors(gestures: seq<Gesture>, scans: Scans)
    requires gestures != [] && Mirrored(Uncoalesced(gestures[..|gestures| - 1], scans))
    ensures var n := |gestures| - 1;
            Mirrored(Uncoalesced(gestures, scans))
            <==> !SharedLift(gestures[n], Uncoalesced(gestures[..n], scans).pressed)
  {
    hide Uncoalesced, Mirrored, SharedLift;
    var n := |gestures| - 1;
    assert gestures[..n] + [gestures[n]] == gestures;
    UncoalescedAppend(gestures[..n], gestures[n], scans);
    MirroredStep(Uncoalesced(gestures[..n], scans), gestures[n], scans);
  }

  // The converse of NoStuckKeys: at every moment of a run all keys that are down
  // are held, if and only if no gesture of the run is such a lift.
  lemma {:induction false} DownIsHeld(gestures: seq<Gesture>, scans: Scans)
    ensures AlwaysMirrored(gestures, scans) <==> NoSharedLift(gestures, scans)
  {
    if gestures != [] {
      var init := gestures[..|gestures| - 1];
      DownIsHeld(init, scans);
      if AlwaysMirrored(init, scans) {
        LastMirrors(gestures, scans);
      }
    }
  }

  /****** Two keys for one digit ******/

  const DIGIT: Units := [49]
  const ROW_KEY: Units := [68, 105, 103, 105, 116, 49]
  const PAD_KEY: Units := [78, 117, 109, 112, 97, 100, 49]

  function TwoKeys(): seq<Gesture> {
    [KeyDown(false, DIGIT, ROW_KEY, false, false, false)] + [KeyDown(false, DIGIT, PAD_KEY, false, false, false)]
  }

  lemma BothDown(scans: Scans)
    ensures Uncoalesced(TwoKeys(), scans).pressed == map[ROW_KEY := [Unicode(49, true)], PAD_KEY := [Unicode(49, true)]]
  {
    var row := KeyDown(false, DIGIT, ROW_KEY, false, false, false);
    var pad := KeyDown(false, DIGIT, PAD_KEY, false, false, false);
    assert [] + [row] == [row] && Typed(DIGIT) == [Unicode(49, true)];
    assert DIGIT != DEAD && ROW_KEY[0] != PAD_KEY[0];
    UncoalescedAppend([], row, scans);
    UncoalescedAppend([row], pad, scans);
  }

  lemma HasOnly(e: Event)
    requires Holdable(e)
    ensures Has([e], NameOf(e))
  {
    assert [e][0] == e;
  }

  // Both keys for a digit go down and one comes up: the other is still down and
  // the digit is no longer held.
  lemma DigitLetGo(scans: Scans)
    ensures var m := Uncoalesced(TwoKeys() + [KeyUp(DIGIT, ROW_KEY)], scans);
            PAD_KEY in m.pressed && Backed(m.pressed, UnicodeName(49)) && UnicodeName(49) !in HeldAfter(m.events)
  {
    BothDown(scans);
    assert ROW_KEY[0] != PAD_KEY[0];
    HasOnly(Unicode(49, true));
    LetGoWhileDown(TwoKeys(), KeyUp(DIGIT, ROW_KEY), scans, PAD_KEY, UnicodeName(49));
  }

  /****** What the last gesture does remotely ******/

  // A gesture that sends one event, which is no release.
  lemma LastEvent(gestures: seq<Gesture>, g: Gesture, scans: Scans, e: Event, t: State, size: Size) returns (m: State)
    requires React(g, Uncoalesced(gestures, scans).pressed, scans).events == [e] && !e.Release?
    requires Reaches(Uncoalesced(gestures + [g], scans).events, FRESH, t, size)
    ensures Reaches(Uncoalesced(gestures, scans).events, FRESH, m, size)
    ensures Sound(e) && t.remote == Receive(m.remote, WireOf(Clamped(e, size)))
  {
    var before := Uncoalesced(gestures, scans).events;
    UncoalescedAppend(gestures, g, scans);
    assert before + [e] == Uncoalesced(gestures + [g], scans).events;
    ReachesLast(before, e, FRESH, t, size);
    m :| Reaches(before, FRESH, m, size) && Step(m, e, t, size);
  }

  // A position on the canvas is sent as it is, one beside it as the nearest.
  lemma Nearest(v: int, size: int)
    requires size > 0
    ensures 0 <= Clamp(v, size) < size && (0 <= v < size ==> Clamp(v, size) == v)
    ensures (v < 0 ==> Clamp(v, size) == 0) && (v >= size ==> Clamp(v, size) == size - 1)
  {}

  // What the remote side is told by an event on the canvas.
  lemma Told(r: Remote, e: Event, size: Size)
    requires Sound(e) && (e.Move? || e.Button? || e.Wheel?) && 0 <= e.x < size.width && 0 <= e.y < size.height
    requires e.Wheel? ==> -120 <= e.delta <= 120
    ensures var now := Receive(r, WireOf(Clamped(e, size)));
            && now.x == e.x && now.y == e.y
            && (e.Button? ==> now.acts == r.acts + [Click([Button1, Button3, Button2][e.button], e.down, e.x, e.y)])
            && (e.Wheel? ==> now.acts == r.acts + [Scroll(e.delta, e.x, e.y)])
            && (e.Move? ==> now.acts == r.acts)
  {
    Nearest(e.x, size.width);
    Nearest(e.y, size.height);
  }

  lemma KeyTold(r: Remote, e: Event, size: Size)
    requires Sound(e) && (e.Key? || e.Unicode?)
    ensures var now := Receive(r, WireOf(Clamped(e, size)));
            && now.acts == r.acts + [if e.Key? then Keyboard(e.code, e.down) else Text(e.code, e.down)]
            && ((if e.Key? then Scancode(e.code) else Character(e.code)) in now.held <==> e.down)
  {}

  // The one event of a pointer gesture.
  function PointerEvent(g: Gesture): Event
    requires g.PointerMove? || g.PointerDown? || g.PointerUp? || g.WheelTurn?
  {
    match g
    case PointerMove(x, y) => Move(x, y)
    case PointerDown(b, x, y) => Button(b, true, x, y)
    case PointerUp(b, x, y) => Button(b, false, x, y)
    case WheelTurn(d, x, y) => Wheel(if d > 0 then -120 else 120, x, y)
  }

  // The pointer goes to where the gesture was; a button acts under the number the
  // remote side knows it by; the wheel turns one notch, down for positive deltas.
  lemma PointerFollows(gestures: seq<Gesture>, g: Gesture, scans: Scans, t: State, size: Size) returns (m: State)
    requires g.PointerMove? || ((g.PointerDown? || g.PointerUp?) && g.button <= 2) || (g.WheelTurn? && g.deltaY != 0)
    requires 0 <= g.x < size.width && 0 <= g.y < size.height
    requires Reaches(Uncoalesced(gestures + [g], scans).events, FRESH, t, size)
    ensures Reaches(Uncoalesced(gestures, scans).events, FRESH, m, size)
    ensures t.remote.x == g.x && t.remote.y == g.y
    ensures t.remote.acts
         == match g
            case PointerDown(b, x, y) => m.remote.acts + [Click([Button1, Button3, Button2][b], true, x, y)]
            case PointerUp(b, x, y) => m.remote.acts + [Click([Button1, Button3, Button2][b], false, x, y)]
            case WheelTurn(d, x, y) => m.remote.acts + [Scroll(if d > 0 then -120 else 120, x, y)]
            case _ => m.remote.acts
  {
    hide Reaches, Receive, WireOf, Clamped, Uncoalesced;
    var e := PointerEvent(g);
    m := LastEvent(gestures, g, scans, e, t, size);
    Told(m.remote, e, size);
  }

  // A key that sends one event acts by it.
  lemma KeyActs(gestures: seq<Gesture>, g: Gesture, scans: Scans, e: Event, t: State, size: Size) returns (m: State)
    requires e.Key? || e.Unicode?
    requires React(g, Uncoalesced(gestures, scans).pressed, scans).events == [e]
    requires Reaches(Uncoalesced(gestures + [g], scans).events, FRESH, t, size)
    ensures Reaches(Uncoalesced(gestures, scans).events, FRESH, m, size)
    ensures t.remote.acts == m.remote.acts + [if e.Key? then Keyboard(e.code, e.down) else Text(e.code, e.down)]
    ensures (if e.Key? then Scancode(e.code) else Character(e.code)) in t.remote.held <==> e.down
  {
    hide Reaches, Receive, WireOf, Clamped, Uncoalesced, React;
    m := LastEvent(gestures, g, scans, e, t, size);
    KeyTold(m.remote, e, size);
  }
}
