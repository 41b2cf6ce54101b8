// Local port forwarding (backend/tunnels/manager.go).
module Tunnels {
  import opened Common

  /****** State ******/

  // A listener is known by a number the operating system gave it. A tunnel asked
  // to listen on port 0 is bound to a port the system picks.
  datatype Tunnel = Tunnel(listener: nat, localPort: int, remoteHost: string, remotePort: int)

  datatype State = State(tunnels: map<string, Tunnel>, owners: map<string, string>, open_: map<nat, int>)

  const FRESH := State(map[], map[], map[])

  ghost predicate Listening(s: State, t: Tunnel) {
    t.listener in s.open_ && (t.localPort == 0 || s.open_[t.listener] == t.localPort)
  }

  // Both maps have the same keys, every tunnel has its own open listener on its
  // port, and no two open listeners share a port.
  ghost predicate Inv(s: State) {
    && s.tunnels.Keys == s.owners.Keys
    && (forall id :: id in s.tunnels ==> Listening(s, s.tunnels[id]))
    && (forall a, b :: a in s.tunnels && b in s.tunnels && s.tunnels[a].listener == s.tunnels[b].listener ==> a == b)
    && (forall l, m :: l in s.open_ && m in s.open_ && s.open_[l] == s.open_[m] ==> l == m)
  }

  ghost predicate Owned(s: State, l: nat) {
    exists id :: id in s.tunnels && s.tunnels[id].listener == l
  }

  // Every open listener belongs to a tunnel, which can still close it.
  ghost predicate NoLeak(s: State) {
    forall l :: l in s.open_ ==> Owned(s, l)
  }

  /****** Calls ******/

  // A call to switch on carries the system's answer: none when it refused.
  datatype Call =
    | SwitchOn(session: string, id: string, localPort: int, remoteHost: string, remotePort: int,
               answer: Option<(nat, int)>)
    | SwitchOff(id: string)
    | SessionEnds(session: string)

  // What the system may answer: a new listener, on a free port, the one asked for.
  predicate Possible(open_: map<nat, int>, port: int, answer: Option<(nat, int)>) {
    answer.Some? ==>
      var (l, p) := answer.value;
      && l !in open_ && (forall m :: m in open_ ==> open_[m] != p)
      && 0 < p < 65536 && (port == 0 || p == port)
  }

  predicate Answered(s: State, c: Call) {
    c.SwitchOn? ==> Possible(s.open_, c.localPort, c.answer)
  }

  // A tunnel that is on is switched on again, elsewhere.
  predicate Doubles(s: State, c: Call) {
    c.SwitchOn? && c.answer.Some? && c.id in s.tunnels
  }

  function Opened(s: State, c: Call): State
    requires c.SwitchOn? && c.answer.Some?
  {
    State(s.tunnels[c.id := Tunnel(c.answer.value.0, c.localPort, c.remoteHost, c.remotePort)],
          s.owners[c.id := c.session], s.open_[c.answer.value.0 := c.answer.value.1])
  }

  // Exactly these tunnels go, and with them their listeners.
  ghost predicate Without(s: State, t: State, gone: set<string>) {
    && t.tunnels == s.tunnels - gone && t.owners == s.owners - gone
    && forall l :: Lookup(t.open_, l) == if Lost(s, gone, l) then None else Lookup(s.open_, l)
  }

  ghost predicate Lost(s: State, gone: set<string>, l: nat) {
    exists id :: id in gone && id in s.tunnels && s.tunnels[id].listener == l
  }

  function Less(s: State, id: string): State {
    State(s.tunnels - {id}, s.owners - {id}, if id in s.tunnels then s.open_ - {s.tunnels[id].listener} else s.open_)
  }

  function OwnedBy(s: State, session: string): set<string> {
    set id | id in s.owners && s.owners[id] == session
  }

  ghost predicate Step(s: State, c: Call, t: State) {
    match c
    case SwitchOn(_, _, _, _, _, answer) => t == if answer.Some? then Opened(s, c) else s
    case SwitchOff(id) => Without(s, t, {id})
    case SessionEnds(session) => Without(s, t, OwnedBy(s, session))
  }

  /****** What one call keeps ******/

  lemma WithoutKeeps(s: State, t: State, gone: set<string>)
    requires Inv(s) && Without(s, t, gone)
    ensures Inv(t) && (NoLeak(t) <==> NoLeak(s))
  {
    forall id | id in t.tunnels ensures Listening(t, t.tunnels[id]) {
      assert Lookup(t.open_, t.tunnels[id].listener) == Lookup(s.open_, s.tunnels[id].listener);
    }
    forall l, m | l in t.open_ && m in t.open_ && t.open_[l] == t.open_[m] ensures l == m {
      assert Lookup(t.open_, l) == Lookup(s.open_, l) && Lookup(t.open_, m) == Lookup(s.open_, m);
    }
    forall l | NoLeak(s) && l in t.open_ ensures Owned(t, l) {
      assert Lookup(t.open_, l) == Lookup(s.open_, l) && Owned(s, l);
      var id :| id in s.tunnels && s.tunnels[id].listener == l;
      assert id in t.tunnels && t.tunnels[id].listener == l;
    }
    forall l | NoLeak(t) && l in s.open_ ensures Owned(s, l) {
      if l in t.open_ {
        assert Owned(t, l);
      } else {
        assert Lookup(t.open_, l) != Lookup(s.open_, l);
      }
    }
  }

  lemma OpenedInv(s: State, c: Call)
    requires Inv(s) && c.SwitchOn? && c.answer.Some? && Answered(s, c)
    ensures Inv(Opened(s, c))
  {}

  lemma OpenedOwns(s: State, c: Call, m: nat)
    requires Inv(s) && c.SwitchOn? && c.answer.Some? && Answered(s, c) && c.id !in s.tunnels && m in s.open_
    ensures Owned(Opened(s, c), m) <==> Owned(s, m)
  {
    var t := Opened(s, c);
    if Owned(s, m) {
      var id :| id in s.tunnels && s.tunnels[id].listener == m;
      assert t.tunnels[id].listener == m;
    }
    if Owned(t, m) {
      var id :| id in t.tunnels && t.tunnels[id].listener == m;
      assert s.tunnels[id].listener == m;
    }
  }

  lemma OpenedKeeps(s: State, c: Call)
    requires Inv(s) && c.SwitchOn? && c.answer.Some? && Answered(s, c) && c.id !in s.tunnels
    ensures NoLeak(Opened(s, c)) <==> NoLeak(s)
  {
    var t, l := Opened(s, c), c.answer.value.0;
    assert t.tunnels[c.id].listener == l && Owned(t, l);
    forall m | m in s.open_ ensures m in t.open_ && (Owned(t, m) <==> Owned(s, m)) {
      OpenedOwns(s, c, m);
    }
  }

  // The listener of a tunnel switched on twice is nobody's.
  lemma OpenedTwiceLeaks(s: State, c: Call)
    requires Inv(s) && c.SwitchOn? && c.answer.Some? && Answered(s, c) && c.id in s.tunnels
    ensures !NoLeak(Opened(s, c))
  {
    var t, lost := Opened(s, c), s.tunnels[c.id].listener;
    assert lost in t.open_ && !Owned(t, lost);
  }

  lemma StepKeeps(s: State, c: Call, t: State)
    requires Inv(s) && Answered(s, c) && Step(s, c, t)
    ensures Inv(t) && (NoLeak(t) <==> NoLeak(s) && !Doubles(s, c))
  {
    match c
    case SwitchOn(_, id, _, _, _, answer) =>
      if answer.Some? {
        OpenedInv(s, c);
        if id in s.tunnels {
          OpenedTwiceLeaks(s, c);
        } else {
          OpenedKeeps(s, c);
        }
      }
    case SwitchOff(id) => WithoutKeeps(s, t, {id});
    case SessionEnds(session) => WithoutKeeps(s, t, OwnedBy(s, session));
  }

  // What each call means for the tunnels, one by one. A tunnel switched on forwards
  // to the host and port asked for and belongs to its session; a session that ends
  // takes its own tunnels and no other, and no other tunnel loses its listener.
  lemma StepMeans(s: State, c: Call, t: State, id: string)
    requires Inv(s) && Answered(s, c) && Step(s, c, t)
    ensures c.SwitchOn? && c.answer.Some? && id == c.id ==>
              && id in t.tunnels && id in t.owners && t.owners[id] == c.session
              && t.tunnels[id].remoteHost == c.remoteHost && t.tunnels[id].remotePort == c.remotePort
              && t.tunnels[id].localPort == c.localPort && t.tunnels[id].listener in t.open_
              && t.open_[t.tunnels[id].listener] == c.answer.value.1
    ensures c.SwitchOn? && (c.answer.None? || id != c.id) ==>
              Lookup(t.tunnels, id) == Lookup(s.tunnels, id) && Lookup(t.owners, id) == Lookup(s.owners, id)
    ensures c.SwitchOff? ==> (id in t.tunnels <==> id in s.tunnels && id != c.id)
    ensures c.SessionEnds? ==> (id in t.tunnels <==> id in s.tunnels && s.owners[id] != c.session)
    ensures !c.SwitchOn? && id in t.tunnels ==>
              && t.tunnels[id] == s.tunnels[id] && t.owners[id] == s.owners[id]
              && Lookup(t.open_, t.tunnels[id].listener) == Lookup(s.open_, t.tunnels[id].listener)
    ensures !c.SwitchOn? && id in s.tunnels && id !in t.tunnels ==> s.tunnels[id].listener !in t.open_
  {
    assert id in s.tunnels <==> id in s.owners;
    if !c.SwitchOn? {
      var gone := if c.SwitchOff? then {c.id} else OwnedBy(s, c.session);
      if id in s.tunnels {
        var l := s.tunnels[id].listener;
        assert Lost(s, gone, l) <==> id in gone;
        assert Lookup(t.open_, l) == if Lost(s, gone, l) then None else Lookup(s.open_, l);
      }
    }
  }

  lemma WithoutOne(s: State, t: State, gone: set<string>, id: string)
    requires Inv(s) && Without(s, t, gone) && id in s.owners && id !in gone
    ensures id in t.tunnels && t.owners[id] == s.owners[id]
    ensures Without(s, Less(t, id), gone + {id})
  {
    var l := s.tunnels[id].listener;
    var u := Less(t, id);
    assert id in s.tunnels.Keys && t.tunnels[id] == s.tunnels[id];
    assert u.tunnels == s.tunnels - (gone + {id}) && u.owners == s.owners - (gone + {id});
    forall m ensures Lookup(u.open_, m) == if Lost(s, gone + {id}, m) then None else Lookup(s.open_, m) {
      LostOne(s, gone, id, m);
      assert Lookup(u.open_, m) == if m == l then None else Lookup(t.open_, m);
    }
  }

  lemma LostOne(s: State, gone: set<string>, id: string, l: nat)
    requires id in s.tunnels
    ensures Lost(s, gone + {id}, l) <==> l == s.tunnels[id].listener || Lost(s, gone, l)
  {}

  // The tunnels of a session not among `ids` are closed.
  ghost predicate Closing(s: State, t: State, ids: set<string>, session: string) {
    ids <= s.owners.Keys && Without(s, t, OwnedBy(s, session) - ids)
  }

  lemma CloseStarts(s: State, session: string)
    ensures Closing(s, s, s.owners.Keys, session)
  {}

  lemma CloseGoesOn(s: State, t: State, ids: set<string>, session: string, id: string)
    requires Inv(s) && Closing(s, t, ids, session) && id in ids
    ensures id in t.owners && id in t.tunnels && t.owners[id] == s.owners[id]
    ensures Closing(s, if t.owners[id] == session then Less(t, id) else t, ids - {id}, session)
  {
    var mine := OwnedBy(s, session);
    WithoutOne(s, t, mine - ids, id);
    if s.owners[id] == session {
      assert mine - ids + {id} == mine - (ids - {id});
    } else {
      assert mine - ids == mine - (ids - {id});
    }
  }

  lemma CloseEnds(s: State, t: State, session: string)
    requires Inv(s) && Closing(s, t, {}, session)
    ensures Inv(t) && Step(s, SessionEnds(session), t)
  {
    var mine := OwnedBy(s, session);
    assert mine - {} == mine;
    WithoutKeeps(s, t, mine);
  }

  /****** Whole runs ******/

  // The states a run of calls goes through.
  ghost predicate IsRun(calls: seq<Call>, states: seq<State>) {
    && |states| == |calls| + 1 && states[0] == FRESH
    && forall i :: 0 <= i < |calls| ==> Answered(states[i], calls[i]) && Step(states[i], calls[i], states[i + 1])
  }

  // The invariant holds after every run. Every open listener has its tunnel just
  // when no call of the run switched on a tunnel that was on already.
  lemma {:induction false} RunKeeps(calls: seq<Call>, states: seq<State>)
    requires IsRun(calls, states)
    ensures Inv(states[|calls|])
    ensures NoLeak(states[|calls|]) <==> forall i :: 0 <= i < |calls| ==> !Doubles(states[i], calls[i])
  {
    if calls != [] {
      var n := |calls| - 1;
      assert IsRun(calls[..n], states[..n + 1]);
      RunKeeps(calls[..n], states[..n + 1]);
      assert states[..n + 1][n] == states[n];
      assert forall i :: 0 <= i < n ==> calls[..n][i] == calls[i] && states[..n + 1][i] == states[i];
      StepKeeps(states[n], calls[n], states[n + 1]);
    }
  }

  /****** The manager ******/

  datatype TunnelInfo = TunnelInfo(id: string, localPort: int, remoteHost: string, remotePort: int, active: bool)

  // The system's table of this process's listeners, and its next answers.
  class Ports {
    var open_: map<nat, int>
    var calls: nat
    // The listener and port given at the n-th request, or a refusal.
    const answers: (nat, int, map<nat, int>) -> Option<(nat, int)>

    constructor (answers: (nat, int, map<nat, int>) -> Option<(nat, int)>)
      ensures open_ == map[] && this.answers == answers
    {
      open_, calls, this.answers := map[], 0, answers;
    }

    ghost predicate Sane()
      reads this
    {
      forall n, port, table :: Possible(table, port, answers(n, port, table))
    }

    method Listen(port: int) returns (answer: Option<(nat, int)>)
      requires Sane()
      modifies this
      ensures Possible(old(open_), port, answer)
      ensures open_ == if answer.Some? then old(open_)[answer.value.0 := answer.value.1] else old(open_)
    {
      answer := answers(calls, port, open_);
      calls := calls + 1;
      if answer.Some? {
        open_ := open_[answer.value.0 := answer.value.1];
      }
    }

    method Close(listener: nat)
      modifies this`open_
      ensures open_ == old(open_) - {listener}
    {
      open_ := open_ - {listener};
    }
  }

  class Manager {
    var runtimeTunnels: map<string, Tunnel>
    var tunnelSession: map<string, string>
    const ports: Ports

    constructor (ports: Ports)
      requires ports.open_ == map[]
      ensures Now() == FRESH && this.ports == ports
    {
      runtimeTunnels, tunnelSession, this.ports := map[], map[], ports;
    }

    ghost function Now(): State
      reads this, ports
    {
      State(runtimeTunnels, tunnelSession, ports.open_)
    }

    // Fails only when the system refuses the port, and then changes nothing.
    method Toggle(session: string, id: string, localPort: int, remoteHost: string, remotePort: int, activate: bool)
      returns (ok: bool, ghost call: Call)
      requires Inv(Now()) && ports.Sane()
      modifies this, ports
      ensures Inv(Now()) && Answered(old(Now()), call) && Step(old(Now()), call, Now())
      ensures if activate
              then call.SwitchOn? && call == SwitchOn(session, id, localPort, remoteHost, remotePort, call.answer)
              else call == SwitchOff(id)
      ensures ok <==> (activate ==> call.answer.Some?)
    {
      if !activate {
        call := SwitchOff(id);
        if id in runtimeTunnels {
          ports.Close(runtimeTunnels[id].listener);
          runtimeTunnels, tunnelSession := runtimeTunnels - {id}, tunnelSession - {id};
        }
        StepKeeps(old(Now()), call, Now());
        return true, call;
      }
      var answer := ports.Listen(localPort);
      call := SwitchOn(session, id, localPort, remoteHost, remotePort, answer);
      StepKeeps(old(Now()), call, if answer.Some? then Opened(old(Now()), call) else old(Now()));
      if answer.None? {
        return false, call;
      }
      runtimeTunnels := runtimeTunnels[id := Tunnel(answer.value.0, localPort, remoteHost, remotePort)];
      tunnelSession := tunnelSession[id := session];
      return true, call;
    }

    method CloseOne(id: string)
      requires id in tunnelSession
      modifies this, ports
      ensures Now() == Less(old(Now()), id)
    {
      if id in runtimeTunnels {
        ports.Close(runtimeTunnels[id].listener);
        runtimeTunnels := runtimeTunnels - {id};
      }
      tunnelSession := tunnelSession - {id};
    }

    // Closes all and only the tunnels this session opened.
    method CloseSession(session: string)
      requires Inv(Now())
      modifies this, ports
      ensures Inv(Now()) && Step(old(Now()), SessionEnds(session), Now())
    {
      ghost var start := Now();
      var ids := tunnelSession.Keys;
      CloseStarts(start, session);
      while ids != {}
        invariant Closing(start, Now(), ids, session)
        decreases |ids|
      {
        var id :| id in ids;
        CloseGoesOn(start, Now(), ids, session, id);
        ids := ids - {id};
        if tunnelSession[id] == session {
          CloseOne(id);
        }
      }
      CloseEnds(start, Now(), session);
    }

    // Marks a tunnel active just when it has a live listener.
    method MarkActive(tunnels: array<TunnelInfo>)
      modifies tunnels
      ensures forall i :: 0 <= i < tunnels.Length ==>
                tunnels[i] == old(tunnels[i]).(active := old(tunnels[i]).id in runtimeTunnels)
    {
      for i := 0 to tunnels.Length
        invariant forall j :: 0 <= j < tunnels.Length ==>
          tunnels[j] == if j < i then old(tunnels[j]).(active := old(tunnels[j]).id in runtimeTunnels)
                        else old(tunnels[j])
      {
        tunnels[i] := tunnels[i].(active := tunnels[i].id in runtimeTunnels);
      }
    }
  }

}
