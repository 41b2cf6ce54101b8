// Browser input to a remote desktop session
// (frontend/src/components/rdp/rdpInput.js, bindRDPInput).
module RdpInput {
  import opened Common

  /****** Events ******/

  datatype Event =
    | Move(x: int, y: int)
    | Button(button: int, down: bool, x: int, y: int)
    | Wheel(delta: int, x: int, y: int)
    | Key(code: int, down: bool)
    | Unicode(code: int, down: bool)
    | Release
    | Unsupported

  // What can be held down.
  datatype Name = KeyName(code: int) | UnicodeName(code: int) | ButtonName(button: int)

  predicate Holdable(e: Event) { e.Key? || e.Unicode? || e.Button? }

  function NameOf(e: Event): Name
    requires Holdable(e)
  {
    match e
    case Key(code, _) => KeyName(code)
    case Unicode(code, _) => UnicodeName(code)
    case Button(button, _, _, _) => ButtonName(button)
  }

  // What is held after a sequence of events.
  function HeldAfter(events: seq<Event>): set<Name> {
    if events == [] then {}
    else
      var held, e := HeldAfter(events[..|events| - 1]), events[|events| - 1];
      if e.Release? then {}
      else if !Holdable(e) then held
      else if e.down then held + {NameOf(e)}
      else held - {NameOf(e)}
  }

  // The events the session accepts.
  predicate Sound(e: Event) {
    match e
    case Key(code, _) => 0 <= code < 65536
    case Unicode(code, _) => 0 <= code < 65536
    case Button(button, _, _, _) => 0 <= button <= 2
    case Unsupported => false
    case _ => true
  }

  predicate AllSound(events: seq<Event>) {
    forall e :: e in events ==> Sound(e)
  }

  /****** What the user's gestures mean ******/

  // Text is a sequence of UTF-16 code units.
  type Unit = n: nat | n < 65536
  type Units = seq<Unit>
  type Scans = m: map<Units, int> | forall k :: k in m ==> 0 < m[k] < 65536

  // Pointer positions are already those on the canvas; a frame is the callback
  // asked of requestAnimationFrame.
  datatype Gesture =
    | PointerMove(x: int, y: int)
    | PointerDown(button: nat, x: int, y: int)
    | PointerUp(button: nat, x: int, y: int)
    | PointerCancel
    | WheelTurn(deltaY: int, x: int, y: int)
    | KeyDown(composing: bool, key: Units, code: Units, ctrl: bool, alt: bool, meta: bool)
    | KeyUp(key: Units, code: Units)
    | Blur
    | Frame
    | Dispose

  const DEAD: Units := [68, 101, 97, 100]

  // One character: a single unit or a surrogate pair.
  predicate OneCharacter(s: Units) {
    |s| == 1 || (|s| == 2 && 0xD800 <= s[0] < 0xDC00 && 0xDC00 <= s[1] < 0xE000)
  }

  function KeyId(g: Gesture): Units
    requires g.KeyDown? || g.KeyUp?
  {
    if g.code != [] then g.code else g.key
  }

  function Typed(key: Units): (r: seq<Event>)
    ensures |r| == |key| && Downs(r)
  {
    seq(|key|, i requires 0 <= i < |key| => Unicode(key[i], true))
  }

  // What pressing a key not yet down sends, if anything.
  function Inputs(g: Gesture, scans: Scans): (r: Option<seq<Event>>)
    requires g.KeyDown?
    ensures r.Some? ==> Downs(r.value)
  {
    if OneCharacter(g.key) && !g.ctrl && !g.alt && !g.meta then Some(Typed(g.key))
    else if g.code in scans then Some([Key(scans[g.code], true)])
    else None
  }

  function Up(e: Event): Event
    requires Holdable(e)
  {
    e.(down := false)
  }

  predicate Downs(inputs: seq<Event>) {
    forall e :: e in inputs ==> Sound(e) && (e.Key? || e.Unicode?) && e.down
  }

  function Ups(inputs: seq<Event>): (r: seq<Event>)
    requires Downs(inputs)
    ensures |r| == |inputs| && forall i :: 0 <= i < |r| ==> r[i] == Up(inputs[i])
  {
    if inputs == [] then []
    else
      assert inputs[|inputs| - 1] in inputs;
      Ups(inputs[..|inputs| - 1]) + [Up(inputs[|inputs| - 1])]
  }

  // The keys down, each with what its press sent.
  type Pressed = m: map<Units, seq<Event>> | forall k :: k in m ==> Downs(m[k])

  // The events one gesture stands for, and the keys down after it.
  datatype Meaning = Meaning(events: seq<Event>, pressed: Pressed)

  function KeyDownMeans(g: Gesture, pressed: Pressed, scans: Scans): Meaning
    requires g.KeyDown?
  {
    var id := KeyId(g);
    if g.composing || g.key == DEAD then Meaning([], pressed)
    else if id in pressed then Meaning(pressed[id], pressed)
    else
      match Inputs(g, scans)
      case None => Meaning([], pressed)
      case Some(inputs) => Meaning(inputs, pressed[id := inputs])
  }

  function KeyUpMeans(g: Gesture, pressed: Pressed): Meaning
    requires g.KeyUp?
  {
    var id := KeyId(g);
    if id in pressed then Meaning(Ups(pressed[id]), pressed - {id}) else Meaning([], pressed)
  }

  function WheelMeans(deltaY: int, x: int, y: int): seq<Event> {
    if deltaY == 0 then [] else [Wheel(if deltaY > 0 then -120 else 120, x, y)]
  }

  function React(g: Gesture, pressed: Pressed, scans: Scans): Meaning {
    match g
    case PointerMove(x, y) => Meaning([Move(x, y)], pressed)
    case PointerDown(b, x, y) => Meaning(if b > 2 then [] else [Button(b, true, x, y)], pressed)
    case PointerUp(b, x, y) => Meaning(if b > 2 then [] else [Button(b, false, x, y)], pressed)
    case WheelTurn(d, x, y) => Meaning(WheelMeans(d, x, y), pressed)
    case KeyDown(_, _, _, _, _, _) => KeyDownMeans(g, pressed, scans)
    case KeyUp(_, _) => KeyUpMeans(g, pressed)
    case Frame => Meaning([], pressed)
    case _ => Meaning([Release], map[])
  }

  // A whole run, nothing coalesced.
  function Uncoalesced(gestures: seq<Gesture>, scans: Scans): Meaning {
    if gestures == [] then Meaning([], map[])
    else
      var before := Uncoalesced(gestures[..|gestures| - 1], scans);
      var m := React(gestures[|gestures| - 1], before.pressed, scans);
      Meaning(before.events + m.events, m.pressed)
  }

  /****** Every held key belongs to a key that is down ******/

  predicate Has(inputs: seq<Event>, n: Name) {
    exists i :: 0 <= i < |inputs| && Holdable(inputs[i]) && NameOf(inputs[i]) == n
  }

  predicate Backed(pressed: Pressed, n: Name) {
    exists k :: k in pressed && Has(pressed[k], n)
  }

  lemma HasLast(inputs: seq<Event>, n: Name)
    requires Downs(inputs) && inputs != []
    ensures var last := |inputs| - 1;
            Has(inputs, n) <==> Has(inputs[..last], n) || (Holdable(inputs[last]) && NameOf(inputs[last]) == n)
  {
    var init := inputs[..|inputs| - 1];
    if Has(init, n) {
      var i :| 0 <= i < |init| && Holdable(init[i]) && NameOf(init[i]) == n;
      assert inputs[i] == init[i];
    }
    if Has(inputs, n) {
      var i :| 0 <= i < |inputs| && Holdable(inputs[i]) && NameOf(inputs[i]) == n;
      assert i < |init| ==> inputs[i] == init[i];
    }
  }

  lemma HeldAfterLast(events: seq<Event>, e: Event)
    ensures HeldAfter(events + [e])
         == if e.Release? then {}
            else if !Holdable(e) then HeldAfter(events)
            else if e.down then HeldAfter(events) + {NameOf(e)}
            else HeldAfter(events) - {NameOf(e)}
  {
    assert (events + [e])[..|events|] == events;
  }

  lemma {:induction false} HeldAfterDowns(events: seq<Event>, inputs: seq<Event>, n: Name)
    requires Downs(inputs)
    ensures n in HeldAfter(events + inputs) <==> n in HeldAfter(events) || Has(inputs, n)
  {
    if inputs == [] {
      assert events + inputs == events;
    } else {
      var init, e := inputs[..|inputs| - 1], inputs[|inputs| - 1];
      assert e in inputs && events + inputs == events + init + [e];
      HeldAfterDowns(events, init, n);
      HeldAfterLast(events + init, e);
      HasLast(inputs, n);
    }
  }

  lemma {:induction false} HeldAfterUps(events: seq<Event>, inputs: seq<Event>, n: Name)
    requires Downs(inputs)
    ensures n in HeldAfter(events + Ups(inputs)) <==> n in HeldAfter(events) && !Has(inputs, n)
  {
    if inputs == [] {
      assert events + Ups(inputs) == events;
    } else {
      var init, e := inputs[..|inputs| - 1], inputs[|inputs| - 1];
      assert e in inputs && events + Ups(inputs) == events + Ups(init) + [Up(e)];
      HeldAfterUps(events, init, n);
      HeldAfterLast(events + Ups(init), Up(e));
      HasLast(inputs, n);
    }
  }

  lemma PressKeepsBacked(pressed: Pressed, g: Gesture, scans: Scans, n: Name)
    requires g.KeyDown?
    ensures var m := KeyDownMeans(g, pressed, scans); Backed(pressed, n) || Has(m.events, n) ==> Backed(m.pressed, n)
  {
    var m := KeyDownMeans(g, pressed, scans);
    if Has(m.events, n) {
      assert KeyId(g) in m.pressed && m.pressed[KeyId(g)] == m.events;
    } else if Backed(pressed, n) {
      var k :| k in pressed && Has(pressed[k], n);
      assert k in m.pressed && m.pressed[k] == pressed[k];
    }
  }

  lemma LiftKeepsBacked(pressed: Pressed, id: Units, n: Name)
    requires id in pressed && Backed(pressed, n) && !Has(pressed[id], n)
    ensures Backed(pressed - {id}, n)
  {
    var k :| k in pressed && Has(pressed[k], n);
    assert k in pressed - {id};
  }

  // One gesture keeps every held key backed. A key that is down need not be
  // held: another key that typed the same character may have let it go.
  lemma ReactKeepsBacked(events: seq<Event>, pressed: Pressed, g: Gesture, scans: Scans, n: Name)
    requires n in HeldAfter(events) && !n.ButtonName? ==> Backed(pressed, n)
    ensures var m := React(g, pressed, scans);
      n in HeldAfter(events + m.events) && !n.ButtonName? ==> Backed(m.pressed, n)
  {
    var m := React(g, pressed, scans);
    if m.events == [] {
      assert events + m.events == events;
      if g.KeyDown? {
        PressKeepsBacked(pressed, g, scans, n);
      }
    } else if g.KeyDown? {
      HeldAfterDowns(events, m.events, n);
      PressKeepsBacked(pressed, g, scans, n);
    } else if g.KeyUp? {
      HeldAfterUps(events, pressed[KeyId(g)], n);
      if Backed(pressed, n) && !Has(pressed[KeyId(g)], n) {
        LiftKeepsBacked(pressed, KeyId(g), n);
      }
    } else {
      assert (events + m.events)[..|events + m.events| - 1] == events;
    }
  }

  lemma ReactIsSound(pressed: Pressed, g: Gesture, scans: Scans)
    ensures AllSound(React(g, pressed, scans).events)
  {
    if g.KeyUp? && KeyId(g) in pressed {
      var inputs := pressed[KeyId(g)];
      forall e | e in Ups(inputs) ensures Sound(e) {
        var i :| 0 <= i < |inputs| && Ups(inputs)[i] == e;
        assert inputs[i] in inputs;
      }
    }
  }

  lemma {:induction false} HeldIsBacked(gestures: seq<Gesture>, scans: Scans, n: Name)
    ensures var m := Uncoalesced(gestures, scans);
      && AllSound(m.events)
      && (n in HeldAfter(m.events) && !n.ButtonName? ==> Backed(m.pressed, n))
  {
    if gestures != [] {
      var init, g := gestures[..|gestures| - 1], gestures[|gestures| - 1];
      var before := Uncoalesced(init, scans);
      HeldIsBacked(init, scans, n);
      ReactIsSound(before.pressed, g, scans);
      ReactKeepsBacked(before.events, before.pressed, g, scans, n);
    }
  }

  /****** Which pointer buttons are held ******/

  predicate Releasing(g: Gesture) { g.PointerCancel? || g.Blur? || g.Dispose? }

  // The last gesture that concerns the button pressed it.
  predicate ButtonDown(gestures: seq<Gesture>, button: nat) {
    if gestures == [] then false
    else
      var last := gestures[|gestures| - 1];
      if last.PointerDown? && last.button == button then true
      else if (last.PointerUp? && last.button == button) || Releasing(last) then false
      else ButtonDown(gestures[..|gestures| - 1], button)
  }

  lemma KeysAreNoButtons(inputs: seq<Event>, button: int)
    requires Downs(inputs)
    ensures !Has(inputs, ButtonName(button))
  {
    forall i | 0 <= i < |inputs| ensures !inputs[i].Button? {
      assert inputs[i] in inputs;
    }
  }

  lemma ReactToButton(events: seq<Event>, pressed: Pressed, g: Gesture, scans: Scans, button: nat)
    ensures ButtonName(button) in HeldAfter(events + React(g, pressed, scans).events)
       <==> if g.PointerDown? && g.button == button && button <= 2 then true
            else if (g.PointerUp? && g.button == button && button <= 2) || Releasing(g) then false
            else ButtonName(button) in HeldAfter(events)
  {
    hide HeldAfter;
    var m := React(g, pressed, scans);
    if m.events == [] {
      assert events + m.events == events;
    } else if g.KeyDown? {
      HeldAfterDowns(events, m.events, ButtonName(button));
      KeysAreNoButtons(m.events, button);
    } else if g.KeyUp? {
      HeldAfterUps(events, pressed[KeyId(g)], ButtonName(button));
      KeysAreNoButtons(pressed[KeyId(g)], button);
    } else {
      HeldAfterLast(events, m.events[0]);
      assert m.events == [m.events[0]];
    }
  }

  // A button is held just when the last gesture that concerns it, or releases
  // everything, pressed it; only the first three buttons ever are.
  lemma {:induction false} ButtonsHeld(gestures: seq<Gesture>, scans: Scans, button: nat)
    ensures ButtonName(button) in HeldAfter(Uncoalesced(gestures, scans).events)
       <==> button <= 2 && ButtonDown(gestures, button)
  {
    if gestures != [] {
      var init, g := gestures[..|gestures| - 1], gestures[|gestures| - 1];
      var before := Uncoalesced(init, scans);
      ButtonsHeld(init, scans, button);
      ReactToButton(before.events, before.pressed, g, scans, button);
    }
  }

  /****** What a key sends ******/

  // A character typed without a modifier is sent as text, both units of a pair;
  // any other known key as its scan code; what is being composed, dead keys and
  // unknown keys send nothing. A key that stays down repeats what it sent first.
  lemma KeySends(g: Gesture, pressed: Pressed, scans: Scans)
    requires g.KeyDown?
    ensures var m, id, plain := KeyDownMeans(g, pressed, scans), if g.code == [] then g.key else g.code,
                                !g.ctrl && !g.alt && !g.meta;
            if g.composing || g.key == [68, 101, 97, 100] then m == Meaning([], pressed)
            else if id in pressed then m == Meaning(pressed[id], pressed)
            else if plain && |g.key| == 1 then
              m == Meaning([Unicode(g.key[0], true)], pressed[id := [Unicode(g.key[0], true)]])
            else if plain && |g.key| == 2 && 55296 <= g.key[0] <= 56319 && 56320 <= g.key[1] <= 57343 then
              m.events == [Unicode(g.key[0], true), Unicode(g.key[1], true)] && m.pressed == pressed[id := m.events]
            else if g.code in scans then
              m == Meaning([Key(scans[g.code], true)], pressed[id := [Key(scans[g.code], true)]])
            else m == Meaning([], pressed)
  {
    if OneCharacter(g.key) {
      assert |g.key| == 1 ==> Typed(g.key) == [Unicode(g.key[0], true)];
      assert |g.key| == 2 ==> Typed(g.key) == [Unicode(g.key[0], true), Unicode(g.key[1], true)];
    }
  }

  /****** Coalescing ******/

  function Flat(batches: seq<seq<Event>>): seq<Event> {
    if batches == [] then [] else Flat(batches[..|batches| - 1]) + batches[|batches| - 1]
  }

  // A move directly followed by another.
  predicate Overtaken(full: seq<Event>, j: nat) {
    j + 1 < |full| && full[j].Move? && full[j + 1].Move?
  }

  // The positions of `full` that are kept in `thin`, in order.
  predicate Keeps(full: seq<Event>, thin: seq<Event>, kept: seq<nat>) {
    && |kept| == |thin|
    && (forall i :: 0 <= i < |kept| ==> kept[i] < |full| && full[kept[i]] == thin[i])
    && (forall i, j :: 0 <= i < j < |kept| ==> kept[i] < kept[j])
    && (forall j: nat :: j < |full| && j !in kept ==> Overtaken(full, j))
  }

  // Some moves directly followed by another move are left out of `full`.
  ghost predicate Thins(full: seq<Event>, thin: seq<Event>) {
    exists kept :: Keeps(full, thin, kept)
  }

  // The last event is always kept, as the last.
  lemma KeepsLast(full: seq<Event>, thin: seq<Event>, kept: seq<nat>)
    requires Keeps(full, thin, kept) && full != []
    ensures kept != [] && kept[|kept| - 1] == |full| - 1
  {
    assert !Overtaken(full, |full| - 1);
    var i :| 0 <= i < |kept| && kept[i] == |full| - 1;
  }

  lemma KeptFirst(full: seq<Event>, thin: seq<Event>, kept: seq<nat>)
    requires Keeps(full, thin, kept)
    ensures kept == [] || kept[0] < |full|
  {}

  lemma ThinsNothing(thin: seq<Event>)
    ensures Thins([], thin) <==> thin == []
  {
    var none: seq<nat> := [];
    assert Keeps([], [], none);
    forall kept | Keeps([], thin, kept) ensures kept == [] {
      KeptFirst([], thin, kept);
    }
  }

  // A thinning of a sequence is one of all but its last event; the event
  // before the last may then have to be put back.
  lemma ThinsLast(full: seq<Event>, thin: seq<Event>)
    requires Thins(full, thin) && full != []
    ensures thin != [] && thin[|thin| - 1] == full[|full| - 1]
    ensures var rest, shorter := full[..|full| - 1], thin[..|thin| - 1];
      || Thins(rest, shorter)
      || (full[|full| - 1].Move? && rest != [] && rest[|rest| - 1].Move? && Thins(rest, shorter + [rest[|rest| - 1]]))
  {
    var kept :| Keeps(full, thin, kept);
    KeepsLast(full, thin, kept);
    var rest, shorter, before := full[..|full| - 1], thin[..|thin| - 1], kept[..|kept| - 1];
    forall j: nat | j < |rest| && j !in before ensures j == |rest| - 1 || Overtaken(rest, j) {
      assert j !in kept;
      assert Overtaken(full, j);
    }
    if rest == [] || Overtaken(rest, |rest| - 1) || |rest| - 1 in before {
      assert Keeps(rest, shorter, before);
    } else {
      assert |rest| - 1 !in kept;
      assert Overtaken(full, |rest| - 1);
      assert Keeps(rest, shorter + [rest[|rest| - 1]], before + [|rest| - 1]);
    }
  }

  // What is left when all moves are.
  function Others(events: seq<Event>): seq<Event> {
    if events == [] then []
    else
      var before, e := Others(events[..|events| - 1]), events[|events| - 1];
      if e.Move? then before else before + [e]
  }

  lemma OthersLast(events: seq<Event>, e: Event)
    ensures Others(events + [e]) == if e.Move? then Others(events) else Others(events) + [e]
  {
    assert (events + [e])[..|events|] == events;
  }

  lemma {:induction false} OthersKept(full: seq<Event>, thin: seq<Event>)
    requires Thins(full, thin)
    ensures Others(full) == Others(thin) && |thin| <= |full|
    ensures AllSound(full) ==> AllSound(thin)
    decreases |full|
  {
    if full == [] {
      ThinsNothing(thin);
    } else {
      ThinsLast(full, thin);
      var rest, shorter, e := full[..|full| - 1], thin[..|thin| - 1], full[|full| - 1];
      assert full == rest + [e] && thin == shorter + [e];
      OthersLast(rest, e);
      OthersLast(shorter, e);
      if Thins(rest, shorter) {
        OthersKept(rest, shorter);
      } else {
        OthersKept(rest, shorter + [rest[|rest| - 1]]);
        OthersLast(shorter, rest[|rest| - 1]);
      }
    }
  }

  // The positions kept, and then the one of an event appended.
  lemma KeepsAppend(full: seq<Event>, thin: seq<Event>, kept: seq<nat>, e: Event)
    requires |kept| == |thin|
    requires forall i :: 0 <= i < |kept| ==> kept[i] < |full| && full[kept[i]] == thin[i]
    requires forall i, j :: 0 <= i < j < |kept| ==> kept[i] < kept[j]
    requires forall j: nat :: j < |full| && j !in kept ==> Overtaken(full + [e], j)
    ensures Thins(full + [e], thin + [e])
  {
    var end: nat := |full|;
    forall j: nat | j < |full + [e]| && j !in kept + [end] ensures Overtaken(full + [e], j) {
      assert (kept + [end])[|kept|] == end;
      assert forall k :: k in kept ==> k in kept + [end];
    }
    assert Keeps(full + [e], thin + [e], kept + [end]);
  }

  lemma ThinAppend(full: seq<Event>, thin: seq<Event>, e: Event)
    requires Thins(full, thin)
    ensures Thins(full + [e], thin + [e])
  {
    var kept :| Keeps(full, thin, kept);
    forall j: nat | j < |full| && j !in kept ensures Overtaken(full + [e], j) {
      assert Overtaken(full, j);
    }
    KeepsAppend(full, thin, kept, e);
  }

  lemma ThinReplace(full: seq<Event>, thin: seq<Event>, e: Event)
    requires Thins(full, thin) && thin != [] && thin[|thin| - 1].Move? && e.Move?
    ensures Thins(full + [e], thin[..|thin| - 1] + [e])
  {
    var kept :| Keeps(full, thin, kept);
    KeepsLast(full, thin, kept);
    var before := kept[..|kept| - 1];
    forall j: nat | j < |full| && j !in before ensures Overtaken(full + [e], j) {
      if j < |full| - 1 {
        assert kept == before + [kept[|kept| - 1]];
        assert Overtaken(full, j);
      }
    }
    KeepsAppend(full, thin[..|thin| - 1], before, e);
  }

  function Enqueue(queue: seq<Event>, e: Event): seq<Event> {
    if e.Move? && queue != [] && queue[|queue| - 1].Move? then queue[|queue| - 1 := e] else queue + [e]
  }

  lemma EnqueueThins(pushed: seq<Event>, flat: seq<Event>, queue: seq<Event>, e: Event)
    requires Thins(pushed, flat + queue)
    ensures Thins(pushed + [e], flat + Enqueue(queue, e))
  {
    if e.Move? && queue != [] && queue[|queue| - 1].Move? {
      ThinReplace(pushed, flat + queue, e);
      assert (flat + queue)[..|flat + queue| - 1] + [e] == flat + queue[|queue| - 1 := e];
    } else {
      ThinAppend(pushed, flat + queue, e);
      assert flat + queue + [e] == flat + (queue + [e]);
    }
  }

  lemma FlatAppend(sent: seq<seq<Event>>, batch: seq<Event>)
    ensures Flat(sent + [batch]) == Flat(sent) + batch
  {}

  lemma UncoalescedAppend(gestures: seq<Gesture>, g: Gesture, scans: Scans)
    ensures var before := Uncoalesced(gestures, scans);
      var m := React(g, before.pressed, scans);
      Uncoalesced(gestures + [g], scans) == Meaning(before.events + m.events, m.pressed)
  {}

  lemma UncoalescedRelease(gestures: seq<Gesture>, g: Gesture, scans: Scans)
    requires g.PointerCancel? || g.Blur? || g.Dispose?
    ensures Uncoalesced(gestures + [g], scans) == Meaning(Uncoalesced(gestures, scans).events + [Release], map[])
  {
    hide Uncoalesced;
    UncoalescedAppend(gestures, g, scans);
  }

  /****** The binding ******/

  const BATCH := 128

  predicate Batched(sent: seq<seq<Event>>) {
    forall b :: b in sent ==> 0 < |b| <= BATCH
  }

  class Binding {
    const scans: Scans
    var pressed: Pressed
    var queue: seq<Event>
    var scheduled: bool
    var disposed: bool
    // The batches handed to sendRDPInput, which runs one after the other.
    var sent: seq<seq<Event>>
    ghost var gestures: seq<Gesture>
    // The events pushed so far.
    ghost var pushed: seq<Event>

    ghost predicate Loaded()
      reads this
    {
      Batched(sent) && |queue| <= BATCH && Thins(pushed, Flat(sent) + queue)
    }

    ghost predicate Flowing()
      reads this
    {
      Loaded() && |queue| < BATCH && (scheduled <==> queue != [])
    }

    ghost predicate Silent()
      reads this
    {
      queue == [] && pressed == map[] && pushed != [] && pushed[|pushed| - 1].Release?
    }

    ghost predicate Valid()
      reads this
    {
      && Flowing()
      && Uncoalesced(gestures, scans) == Meaning(pushed, pressed)
      && (disposed ==> Silent())
    }

    constructor (scans: Scans)
      ensures Valid() && gestures == [] && !disposed && this.scans == scans
    {
      hide Thins;
      this.scans := scans;
      pressed, queue, scheduled, disposed, sent := map[], [], false, false, [];
      gestures, pushed := [], [];
      ThinsNothing([]);
      assert Flat([]) + [] == [];
    }

    // Keeps the batches and what they are a thinning of.
    method Flush()
      requires Loaded()
      modifies this`scheduled, this`queue, this`sent
      ensures Flowing() && queue == []
      ensures sent == if old(queue) == [] then old(sent) else old(sent) + [old(queue)]
    {
      scheduled := false;
      if queue == [] {
        return;
      }
      FlatAppend(sent, queue);
      assert Flat(sent) + queue == Flat(sent + [queue]) + [];
      sent, queue := sent + [queue], [];
    }

    // Appends the event, or puts a move in the place of a queued move.
    method Push(e: Event)
      requires Flowing()
      modifies this`scheduled, this`queue, this`sent, this`pushed
      ensures Flowing() && |queue| < 128
      ensures pushed == if disposed then old(pushed) else old(pushed) + [e]
      ensures sent == old(sent) || (exists b :: sent == old(sent) + [b] && |b| == 128 && queue == [])
      ensures disposed ==> queue == old(queue) && sent == old(sent)
      ensures !disposed && sent == old(sent) ==>
                var n := |old(queue)|;
                queue == (if e.Move? && n > 0 && old(queue)[n - 1].Move? then old(queue)[..n - 1] else old(queue)) + [e]
    {
      if disposed {
        return;
      }
      EnqueueThins(pushed, Flat(sent), queue, e);
      queue := Enqueue(queue, e);
      pushed := pushed + [e];
      if |queue| >= BATCH {
        Flush();
      } else if !scheduled {
        scheduled := true;
      }
    }

    method PushAll(events: seq<Event>)
      requires Flowing() && !disposed
      modifies this`scheduled, this`queue, this`sent, this`pushed
      ensures Flowing() && pushed == old(pushed) + events
    {
      hide Thins;
      for i := 0 to |events|
        invariant Flowing() && pushed == old(pushed) + events[..i]
      {
        assert events[..i + 1] == events[..i] + [events[i]];
        Push(events[i]);
      }
      assert events[..|events|] == events;
    }

    // Lets everything go, and sends what is queued. After the binding was
    // disposed of it sends nothing.
    method ReleaseAll()
      requires Flowing() && (disposed ==> queue == [])
      modifies this`pressed, this`scheduled, this`queue, this`sent, this`pushed
      ensures Flowing() && pressed == map[] && queue == []
      ensures pushed == if disposed then old(pushed) else old(pushed) + [Release]
      ensures disposed ==> sent == old(sent)
    {
      hide Thins;
      pressed := map[];
      Push(Release);
      Flush();
    }

    // Keeps what the press of a key sent, and sends it.
    method Press(id: Units, inputs: seq<Event>)
      requires Flowing() && !disposed && Downs(inputs)
      modifies this`pressed, this`scheduled, this`queue, this`sent, this`pushed
      ensures Flowing() && pushed == old(pushed) + inputs && pressed == old(pressed)[id := inputs]
    {
      pressed := pressed[id := inputs];
      PushAll(inputs);
    }

    method OnKeyDown(g: Gesture)
      requires Flowing() && !disposed && g.KeyDown?
      modifies this`pressed, this`scheduled, this`queue, this`sent, this`pushed
      ensures Flowing()
      ensures var m := KeyDownMeans(g, old(pressed), scans); pushed == old(pushed) + m.events && pressed == m.pressed
    {
      assert pushed + [] == pushed;
      var id := KeyId(g);
      if g.composing || g.key == DEAD {
        return;
      }
      if id in pressed {
        PushAll(pressed[id]);
        return;
      }
      var inputs := Inputs(g, scans);
      if inputs.Some? {
        Press(id, inputs.value);
      }
    }

    method OnKeyUp(g: Gesture)
      requires Flowing() && !disposed && g.KeyUp?
      modifies this`pressed, this`scheduled, this`queue, this`sent, this`pushed
      ensures Flowing()
      ensures var m := KeyUpMeans(g, old(pressed)); pushed == old(pushed) + m.events && pressed == m.pressed
    {
      assert pushed + [] == pushed;
      var id := KeyId(g);
      if id !in pressed {
        return;
      }
      var inputs := pressed[id];
      pressed := pressed - {id};
      PushAll(Ups(inputs));
    }

    method OnPointerDown(button: nat, x: int, y: int)
      requires Flowing() && !disposed
      modifies this`scheduled, this`queue, this`sent, this`pushed
      ensures Flowing() && pushed == old(pushed) + if button > 2 then [] else [Button(button, true, x, y)]
    {
      if button > 2 {
        assert pushed + [] == pushed;
        return;
      }
      Push(Button(button, true, x, y));
    }

    method OnPointerUp(button: nat, x: int, y: int)
      requires Flowing() && !disposed
      modifies this`scheduled, this`queue, this`sent, this`pushed
      ensures Flowing() && pushed == old(pushed) + if button > 2 then [] else [Button(button, false, x, y)]
    {
      assert pushed + [] == pushed;
      if button <= 2 {
        Push(Button(button, false, x, y));
      }
    }

    method OnWheel(deltaY: int, x: int, y: int)
      requires Flowing() && !disposed
      modifies this`scheduled, this`queue, this`sent, this`pushed
      ensures Flowing() && pushed == old(pushed) + WheelMeans(deltaY, x, y)
    {
      assert pushed + [] == pushed;
      if deltaY != 0 {
        Push(Wheel(if deltaY > 0 then -120 else 120, x, y));
      }
    }

    method OnPointer(g: Gesture)
      requires Flowing() && !disposed && (g.PointerMove? || g.PointerDown? || g.PointerUp? || g.WheelTurn?)
      modifies this`scheduled, this`queue, this`sent, this`pushed
      ensures Flowing() && pushed == old(pushed) + React(g, pressed, scans).events
    {
      match g
      case PointerMove(x, y) => Push(Move(x, y));
      case PointerDown(b, x, y) => OnPointerDown(b, x, y);
      case PointerUp(b, x, y) => OnPointerUp(b, x, y);
      case WheelTurn(d, x, y) => OnWheel(d, x, y);
    }

    // The listener of one gesture, disposal apart.
    method Dispatch(g: Gesture)
      requires Flowing() && !disposed && !g.Dispose?
      modifies this`pressed, this`scheduled, this`queue, this`sent, this`pushed
      ensures Flowing()
      ensures pushed == old(pushed) + React(g, old(pressed), scans).events
      ensures pressed == React(g, old(pressed), scans).pressed
      ensures g.Frame? || g.PointerCancel? || g.Blur? ==> queue == []
    {
      hide Thins;
      if g.KeyDown? {
        OnKeyDown(g);
      } else if g.KeyUp? {
        OnKeyUp(g);
      } else if g.PointerCancel? || g.Blur? {
        ReleaseAll();
      } else if g.Frame? {
        assert pushed + [] == pushed;
        Flush();
      } else {
        OnPointer(g);
      }
    }

    // Any gesture but disposal, reacted to in full.
    method Handle(g: Gesture)
      requires Valid() && !disposed && !g.Dispose?
      modifies this
      ensures Valid() && !disposed && gestures == old(gestures) + [g]
      ensures g.Frame? || g.PointerCancel? || g.Blur? ==> queue == []
    {
      hide Thins, Uncoalesced;
      UncoalescedAppend(gestures, g, scans);
      Dispatch(g);
      gestures := gestures + [g];
    }

    // Listens to nothing from then on.
    method Dispose()
      requires Valid()
      modifies this
      ensures Valid() && disposed && queue == []
      ensures gestures == if old(disposed) then old(gestures) else old(gestures) + [Gesture.Dispose]
      ensures old(disposed) ==> sent == old(sent)
    {
      hide Thins, Uncoalesced;
      ReleaseAll();
      if !disposed {
        UncoalescedRelease(gestures, Gesture.Dispose, scans);
        gestures := gestures + [Gesture.Dispose];
        disposed := true;
      }
    }
  }
}
