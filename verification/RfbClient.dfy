// The sequential code of both handshakes over a connection
// (backend/vnc/rfb.go), against the protocol machine.
module RfbClient {
  import opened Common
  import opened Ard
  import opened Rfb

  // A connection: the bytes the peer sends in all, and which writes succeed.
  class Conn {
    const input: Bytes
    var pos: nat
    var output: Bytes
    const writes: nat -> bool
    var writeCount: nat

    constructor (input: Bytes, writes: nat -> bool)
      ensures this.input == input && this.writes == writes && pos == 0 && output == [] && writeCount == 0
    {
      this.input, this.writes, pos, output, writeCount := input, writes, 0, [], 0;
    }

    // All `n` bytes, or none: the stream ended before them.
    method ReadFull(n: nat) returns (r: Option<Bytes>)
      requires pos <= |input|
      modifies this`pos
      ensures pos <= |input| && (r.Some? <==> old(pos) + n <= |input|)
      ensures r.Some? ==> pos == old(pos) + n && r.value == input[old(pos)..pos]
      ensures r.None? ==> pos == |input|
    {
      if pos + n <= |input| {
        r := Some(input[pos..pos + n]);
        pos := pos + n;
      } else {
        r := None;
        pos := |input|;
      }
    }

    method Write(b: Bytes) returns (ok: bool)
      modifies this`output, this`writeCount
      ensures writeCount == old(writeCount) + 1 && ok == writes(old(writeCount))
      ensures output == if ok then old(output) + b else old(output)
    {
      ok := writes(writeCount);
      writeCount := writeCount + 1;
      if ok {
        output := output + b;
      }
    }
  }

  // A conversation that began at `start`, has sent `out`, and stands in `s`
  // ends as `goal`.
  predicate Tracks(input: Bytes, start: nat, pos: nat, out: Bytes, s: State, login: Login, goal: Outcome) {
    start <= pos <= |input| &&
    var r := Converse(s, input[pos..], login);
    goal == Outcome(r.state, pos - start + r.read, out + r.written)
  }

  lemma ReadOn(input: Bytes, start: nat, pos: nat, out: Bytes, s: State, login: Login, goal: Outcome, next: State,
               more: Bytes)
    requires Tracks(input, start, pos, out, s, login, goal) && !Ended(s) && pos + Need(s) <= |input|
    requires (next, more) == Feed(s, input[pos..pos + Need(s)], login)
    ensures Tracks(input, start, pos + Need(s), out + more, next, login, goal)
  {
    hide Converse, Feed;
    var n := Need(s);
    OneRead(input, pos, s, login, next, more);
    var r := Converse(next, input[pos + n..], login);
    Regroup(out, more, r.written);
  }

  lemma OneRead(input: Bytes, pos: nat, s: State, login: Login, next: State, more: Bytes)
    requires !Ended(s) && pos + Need(s) <= |input|
    requires (next, more) == Feed(s, input[pos..pos + Need(s)], login)
    ensures var r := Converse(next, input[pos + Need(s)..], login);
            Converse(s, input[pos..], login) == Outcome(r.state, Need(s) + r.read, more + r.written)
  {
    var data, rest := input[pos..pos + Need(s)], input[pos + Need(s)..];
    assert input[pos..] == data + rest;
    ConverseStep(s, data, rest, login);
  }

  lemma Regroup(a: Bytes, b: Bytes, c: Bytes)
    ensures a + (b + c) == a + b + c
  {}

  lemma CutShort(input: Bytes, start: nat, pos: nat, out: Bytes, s: State, login: Login, goal: Outcome)
    requires Tracks(input, start, pos, out, s, login, goal) && !Ended(s) && pos + Need(s) > |input|
    ensures goal == Outcome(Failed, |input| - start, out)
  {
    assert out + [] == out;
  }

  // What the connection shows of a conversation: it stands in `s`, or a write
  // has failed on the way.
  ghost predicate At(c: Conn, start: nat, base: Bytes, s: State, login: Login, goal: Outcome)
    reads c
  {
    base <= c.output && Tracks(c.input, start, c.pos, c.output[|base|..], s, login, goal)
  }

  // An error return: a write failed, or the conversation fails as well.
  ghost predicate Refused(c: Conn, start: nat, base: Bytes, goal: Outcome)
    reads c
  {
    start <= c.pos <= |c.input| &&
    ((exists n :: !c.writes(n)) || (base <= c.output && goal == Outcome(Failed, c.pos - start, c.output[|base|..])))
  }

  // The loop over the offered methods.
  method ChooseSecurity(methods: Bytes, username: Bytes, password: Bytes) returns (security: Byte)
    ensures security == Choice(methods, username, password)
  {
    security := 0;
    for i := 0 to |methods|
      invariant APPLE !in methods[..i] || username == []
      invariant VNC_PASSWORD !in methods[..i] || username != []
      invariant security == if username == [] && NONE in methods[..i] && password == [] then NONE else 0
    {
      var method_ := methods[i];
      if username != [] {
        if method_ == APPLE {
          return APPLE;
        }
        continue;
      }
      if method_ == VNC_PASSWORD {
        return VNC_PASSWORD;
      }
      if method_ == NONE && password == [] {
        security := NONE;
      }
    }
    assert methods[..|methods|] == methods;
  }

  // The bytes of the next read, and that the reaction to them is on track.
  method ReadStep(conn: Conn, n: nat, ghost s: State, ghost login: Login, ghost start: nat, ghost base: Bytes,
                  ghost goal: Outcome)
    returns (data: Option<Bytes>)
    requires At(conn, start, base, s, login, goal) && !Ended(s) && n == Need(s)
    modifies conn`pos
    ensures data.None? ==> Refused(conn, start, base, goal)
    ensures data.Some?
            ==> |data.value| == Need(s) && Answering(conn, start, base, Feed(s, data.value, login), login, goal)
  {
    ghost var pos, out := conn.pos, conn.output[|base|..];
    data := conn.ReadFull(n);
    if data.Some? {
      var (next, more) := Feed(s, data.value, login);
      ReadOn(conn.input, start, pos, out, s, login, goal, next, more);
    } else {
      CutShort(conn.input, start, pos, out, s, login, goal);
    }
  }

  // On track once the reaction's bytes are written.
  ghost predicate Answering(c: Conn, start: nat, base: Bytes, reaction: (State, Bytes), login: Login, goal: Outcome)
    reads c
  {
    base <= c.output && Tracks(c.input, start, c.pos, c.output[|base|..] + reaction.1, reaction.0, login, goal)
  }

  method WriteStep(conn: Conn, b: Bytes, ghost next: State, ghost login: Login, ghost start: nat, ghost base: Bytes,
                   ghost goal: Outcome)
    returns (ok: bool)
    requires Answering(conn, start, base, (next, b), login, goal)
    modifies conn`output, conn`writeCount
    ensures if ok then At(conn, start, base, next, login, goal) else Refused(conn, start, base, goal)
  {
    ghost var n, out := conn.writeCount, conn.output;
    ok := conn.Write(b);
    if ok {
      assert (out + b)[|base|..] == out[|base|..] + b;
    } else {
      assert !conn.writes(n);
    }
  }

  // Nothing to write: already there.
  lemma Silent(conn: Conn, next: State, login: Login, start: nat, base: Bytes, goal: Outcome)
    requires Answering(conn, start, base, (next, []), login, goal)
    ensures At(conn, start, base, next, login, goal)
    ensures next.Failed? ==> Refused(conn, start, base, goal)
  {
    var out := conn.output[|base|..];
    assert out + [] == out;
  }

  lemma AtEnd(conn: Conn, s: State, login: Login, start: nat, base: Bytes, goal: Outcome)
    requires At(conn, start, base, s, login, goal) && Ended(s)
    ensures goal == Outcome(s, conn.pos - start, conn.output[|base|..])
  {
    var out := conn.output[|base|..];
    assert out + [] == out;
  }

  // Greeting and version, then the security message and the choice.
  method Negotiate(conn: Conn, login: Login, ghost start: nat, ghost base: Bytes, ghost goal: Outcome)
    returns (ok: bool, minor: nat, security: Byte)
    requires At(conn, start, base, WantVersion, login, goal)
    modifies conn
    ensures ok ==> At(conn, start, base, After(minor, security, login), login, goal)
                   && (security == NONE || security == VNC_PASSWORD || security == APPLE)
    ensures !ok ==> Refused(conn, start, base, goal)
  {
    ok, minor, security := false, 8, 0;
    var version := ReadStep(conn, 12, WantVersion, login, start, base, goal);
    if version.None? {
      return;
    }
    var known := Minor(version.value);
    if known.None? {
      Silent(conn, Failed, login, start, base, goal);
      return;
    }
    minor := known.value;
    ok := WriteStep(conn, VersionReply(minor), Offered(minor), login, start, base, goal);
    if !ok {
      return;
    }
    if minor == 3 {
      ok, security := ReadSelected(conn, login, start, base, goal);
    } else {
      ok, security := ReadMethods(conn, minor, login, start, base, goal);
    }
  }

  method ReadSelected(conn: Conn, login: Login, ghost start: nat, ghost base: Bytes, ghost goal: Outcome)
    returns (ok: bool, security: Byte)
    requires At(conn, start, base, WantSelected, login, goal)
    modifies conn
    ensures ok ==> At(conn, start, base, After(3, security, login), login, goal)
                   && (security == NONE || security == VNC_PASSWORD || security == APPLE)
    ensures !ok ==> Refused(conn, start, base, goal)
  {
    ok, security := false, 0;
    var data := ReadStep(conn, 4, WantSelected, login, start, base, goal);
    if data.None? {
      return;
    }
    var selected := BigEndian(data.value);
    if selected != NONE && selected != VNC_PASSWORD && selected != APPLE {
      Silent(conn, Failed, login, start, base, goal);
      return;
    }
    ok, security := true, selected;
    Silent(conn, After(3, security, login), login, start, base, goal);
  }

  method ReadMethods(conn: Conn, minor: nat, login: Login, ghost start: nat, ghost base: Bytes, ghost goal: Outcome)
    returns (ok: bool, security: Byte)
    requires At(conn, start, base, WantCount(minor), login, goal)
    modifies conn
    ensures ok ==> At(conn, start, base, After(minor, security, login), login, goal)
                   && (security == NONE || security == VNC_PASSWORD || security == APPLE)
    ensures !ok ==> Refused(conn, start, base, goal)
  {
    ok, security := false, 0;
    var count := ReadStep(conn, 1, WantCount(minor), login, start, base, goal);
    if count.None? {
      return;
    }
    var n: nat := count.value[0];
    if n == 0 {
      Silent(conn, Failed, login, start, base, goal);
      return;
    }
    Silent(conn, WantMethods(minor, n), login, start, base, goal);
    var methods := ReadStep(conn, n, WantMethods(minor, n), login, start, base, goal);
    if methods.None? {
      return;
    }
    security := ChooseSecurity(methods.value, login.username, login.password);
    if security == 0 {
      Silent(conn, Failed, login, start, base, goal);
      return;
    }
    ok := WriteStep(conn, [security], After(minor, security, login), login, start, base, goal);
  }

  // Security type 30.
  method AuthenticateARD(conn: Conn, login: Login, ghost start: nat, ghost base: Bytes, ghost goal: Outcome)
      returns (ok: bool)
    requires At(conn, start, base, After(8, APPLE, login), login, goal) && BlockCipher(login.ciphers)
    modifies conn
    ensures if ok then At(conn, start, base, WantResult, login, goal) else Refused(conn, start, base, goal)
  {
    if login.username == [] || |login.username| > 63 || |login.password| > 63 {
      AtEnd(conn, Failed, login, start, base, goal);
      return false;
    }
    var header := ReadStep(conn, 4, WantOffer, login, start, base, goal);
    if header.None? {
      return false;
    }
    var length := BigEndian(header.value[2..]);
    if length < 64 || length > 512 {
      Silent(conn, Failed, login, start, base, goal);
      return false;
    }
    Silent(conn, WantParameters(header.value), login, start, base, goal);
    var parameters := ReadStep(conn, 2 * length, WantParameters(header.value), login, start, base, goal);
    if parameters.None? {
      return false;
    }
    var o := ReadOffer(header.value, parameters.value);
    if BitLength(o.prime) < 512 || o.prime % 2 != 1 || o.generator <= 1 || o.generator >= o.prime - 1
       || o.serverPublic <= 1 || o.serverPublic >= o.prime - 1 {
      Silent(conn, Failed, login, start, base, goal);
      return false;
    }
    PrimeIsLarge(o);
    var payload := Respond(o, login.username, login.password, login.random, login.ciphers);
    ok := WriteStep(conn, payload, WantResult, login, start, base, goal);
  }

  // Security type 2: the key buffer is filled and its bits reversed in place.
  method FillDesKey(password: Bytes) returns (key: array<Byte>)
    ensures fresh(key) && key[..] == DesKey(password)
  {
    key := new Byte[8](_ => 0);
    for i := 0 to 8
      invariant forall k :: 0 <= k < 8 ==> key[k] == if k < i && k < |password| then password[k] else 0
    {
      if i < |password| {
        key[i] := password[i];
      }
    }
    ghost var padded := key[..];
    for i := 0 to 8
      invariant forall k :: i <= k < 8 ==> key[k] == padded[k]
      invariant forall k :: 0 <= k < i ==> key[k] == Reverse8(padded[k])
    {
      key[i] := Reverse8(key[i]);
    }
  }

  method AnswerChallenge(conn: Conn, login: Login, ghost start: nat, ghost base: Bytes, ghost goal: Outcome)
      returns (ok: bool)
    requires At(conn, start, base, WantChallenge, login, goal)
    modifies conn
    ensures if ok then At(conn, start, base, WantResult, login, goal) else Refused(conn, start, base, goal)
  {
    var challenge := ReadStep(conn, 16, WantChallenge, login, start, base, goal);
    if challenge.None? {
      return false;
    }
    var key := FillDesKey(login.password);
    var answer := login.des(key[..], challenge.value[..8]) + login.des(key[..], challenge.value[8..]);
    ok := WriteStep(conn, answer, WantResult, login, start, base, goal);
  }

  // The viewer's handshake. It succeeds only as the protocol machine does,
  // having read and written exactly what the machine reads and writes; and
  // without write failures it succeeds whenever the machine does.
  method Authenticate(conn: Conn, login: Login) returns (ok: bool)
    requires conn.pos <= |conn.input| && BlockCipher(login.ciphers)
    modifies conn
    ensures old(conn.pos) <= conn.pos <= |conn.input|
    ensures var r := Converse(WantVersion, conn.input[old(conn.pos)..], login);
            if ok then old(conn.output) <= conn.output
                       && r == Outcome(Finished, conn.pos - old(conn.pos), conn.output[|old(conn.output)|..])
            else (exists n :: !conn.writes(n)) || r.state.Failed?
  {
    ghost var start, base := conn.pos, conn.output;
    ghost var goal := Converse(WantVersion, conn.input[start..], login);
    assert At(conn, start, base, WantVersion, login, goal) by {
      assert conn.output[|base|..] + goal.written == goal.written;
    }
    var minor, security;
    ok, minor, security := Negotiate(conn, login, start, base, goal);
    if !ok {
      return;
    }
    if login.username != [] && security != APPLE {
      AtEnd(conn, Failed, login, start, base, goal);
      return false;
    }
    if security == APPLE {
      ok := AuthenticateARD(conn, login, start, base, goal);
      if !ok {
        return;
      }
    }
    if security == NONE && login.password != [] {
      AtEnd(conn, Failed, login, start, base, goal);
      return false;
    }
    if security == VNC_PASSWORD {
      ok := AnswerChallenge(conn, login, start, base, goal);
      if !ok {
        return;
      }
    }
    if security == VNC_PASSWORD || security == APPLE || minor == 8 {
      var result := ReadStep(conn, 4, WantResult, login, start, base, goal);
      if result.None? {
        return false;
      }
      var failed := BigEndian(result.value) != 0;
      Silent(conn, if failed then Failed else Finished, login, start, base, goal);
      if failed {
        return false;
      }
    }
    AtEnd(conn, Finished, login, start, base, goal);
    ok := true;
  }
}
