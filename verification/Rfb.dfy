// The viewer's side of the RFB handshake (backend/vnc/rfb.go, authenticate), as
// a protocol machine and as the sequential code over a connection.
module Rfb {
  import opened Common
  import opened Ard

  function Ascii(s: string): Bytes {
    seq<Byte>(|s|, i requires 0 <= i < |s| => s[i] as int % 256)
  }

  // What a login brings: credentials, the DES block function, and what the
  // Apple exchange needs.
  datatype Login = Login(username: Bytes, password: Bytes, des: (Bytes, Bytes) -> Bytes, random: Random,
                         ciphers: Ciphers)

  const NONE := 1
  const VNC_PASSWORD := 2
  const APPLE := 30

  /****** The protocol machine ******/

  // What the viewer is about to read.
  datatype State =
    | WantVersion
    | WantSelected
    | WantCount(minor: nat)
    | WantMethods(minor: nat, count: nat)
    | WantOffer
    | WantParameters(header: Header)
    | WantChallenge
    | WantResult
    | Finished
    | Failed

  function Need(s: State): nat {
    match s
    case WantVersion => 12
    case WantSelected => 4
    case WantCount(_) => 1
    case WantMethods(_, count) => count
    case WantOffer => 4
    case WantParameters(header) => 2 * BigEndian(header[2..])
    case WantChallenge => 16
    case WantResult => 4
    case Finished => 0
    case Failed => 0
  }

  predicate Ended(s: State) {
    s.Finished? || s.Failed?
  }

  function Rank(s: State): nat {
    match s
    case WantVersion => 6
    case WantSelected => 5
    case WantCount(_) => 5
    case WantMethods(_, _) => 4
    case WantOffer => 3
    case WantParameters(_) => 2
    case WantChallenge => 2
    case WantResult => 1
    case Finished => 0
    case Failed => 0
  }

  // The minor version answered to a greeting; vendor greetings get 3.8.
  function Minor(greeting: Bytes): Option<nat> {
    if greeting == Ascii("RFB 003.003\n") || greeting == Ascii("RFB 003.006\n") then Some(3)
    else if greeting == Ascii("RFB 003.007\n") then Some(7)
    else if greeting == Ascii("RFB 003.008\n") || greeting == Ascii("RFB 003.889\n")
            || greeting == Ascii("RFB 004.000\n")
            || greeting == Ascii("RFB 004.001\n") || greeting == Ascii("RFB 005.000\n") then Some(8)
    else None
  }

  function VersionReply(minor: nat): Bytes {
    if minor == 3 then Ascii("RFB 003.003\n") else if minor == 7 then Ascii("RFB 003.007\n") else Ascii("RFB 003.008\n")
  }

  // The security type picked from an offer, 0 when none fits: Apple's exactly
  // when there is a username, else the VNC password when offered, else none
  // when there is no password to give.
  function Choice(methods: Bytes, username: Bytes, password: Bytes): Byte {
    if username != [] then if APPLE in methods then APPLE else 0
    else if VNC_PASSWORD in methods then VNC_PASSWORD
    else if NONE in methods && password == [] then NONE
    else 0
  }

  // Where a chosen security type leads.
  function After(minor: nat, security: Byte, login: Login): State {
    if login.username != [] && security != APPLE then Failed
    else if security == APPLE then
      if login.username == [] || |login.username| > 63 || |login.password| > 63 then Failed
      else WantOffer
    else if security == NONE then
      if login.password != [] then Failed else if minor == 8 then WantResult else Finished
    else WantChallenge
  }

  // The eight bits in the opposite order.
  function Reverse8(b: Byte): Byte {
    b % 2 * 128 + b / 2 % 2 * 64 + b / 4 % 2 * 32 + b / 8 % 2 * 16
    + b / 16 % 2 * 8 + b / 32 % 2 * 4 + b / 64 % 2 * 2 + b / 128
  }

  // The first eight password bytes, zero-padded, each with its bits reversed.
  function DesKey(password: Bytes): Bytes {
    seq<Byte>(8, i requires 0 <= i < 8 => Reverse8(if i < |password| then password[i] else 0))
  }

  function ChallengeReply(challenge: Bytes, login: Login): Bytes
    requires |challenge| == 16
  {
    login.des(DesKey(login.password), challenge[..8]) + login.des(DesKey(login.password), challenge[8..])
  }

  // The reaction to a complete read: the next state and the bytes written.
  function Feed(s: State, data: Bytes, login: Login): (State, Bytes)
    requires |data| == Need(s) && !Ended(s)
  {
    match s
    case WantVersion =>
      (match Minor(data)
       case None => (Failed, [])
       case Some(minor) => (if minor == 3 then WantSelected else WantCount(minor), VersionReply(minor)))
    case WantSelected =>
      var n := BigEndian(data);
      (if n == NONE || n == VNC_PASSWORD || n == APPLE then After(3, n, login) else Failed, [])
    case WantCount(minor) =>
      (if data[0] == 0 then Failed else WantMethods(minor, data[0]), [])
    case WantMethods(minor, _) =>
      var security := Choice(data, login.username, login.password);
      if security == 0 then (Failed, []) else (After(minor, security, login), [security])
    case WantOffer =>
      (if 64 <= BigEndian(data[2..]) <= 512 then WantParameters(data) else Failed, [])
    case WantParameters(header) =>
      var o := ReadOffer(header, data);
      if !Acceptable(o) || |login.username| > 63 || |login.password| > 63 then (Failed, [])
      else
        PrimeIsLarge(o);
        (WantResult, Payload(o, login.username, login.password, login.random, login.ciphers))
    case WantChallenge => (WantResult, ChallengeReply(data, login))
    case WantResult => (if BigEndian(data) == 0 then Finished else Failed, [])
  }

  lemma FeedDescends(s: State, data: Bytes, login: Login)
    requires |data| == Need(s) && !Ended(s)
    ensures Rank(Feed(s, data, login).0) < Rank(s)
  {
  }

  // The whole conversation over an input: final state, bytes read, bytes sent.
  datatype Outcome = Outcome(state: State, read: nat, written: Bytes)

  function Converse(s: State, input: Bytes, login: Login): (r: Outcome)
    ensures Ended(r.state) && r.read <= |input|
    decreases Rank(s)
  {
    if Ended(s) then Outcome(s, 0, [])
    else if |input| < Need(s) then Outcome(Failed, |input|, [])
    else
      FeedDescends(s, input[..Need(s)], login);
      var (s', out) := Feed(s, input[..Need(s)], login);
      var rest := Converse(s', input[Need(s)..], login);
      Outcome(rest.state, Need(s) + rest.read, out + rest.written)
  }

  /****** Exactly one handshake ******/

  // The server's messages: greeting, security message, exchange of the chosen
  // type, and result. (RFC 6143, sections 7.1.1 to 7.1.3 and 7.2.2, and its
  // Appendix A for the older versions.)
  datatype Messages = Messages(greeting: Bytes, offer: Bytes, exchange: Bytes, result: Bytes)

  function Encode(m: Messages): Bytes {
    m.greeting + (m.offer + (m.exchange + m.result))
  }

  // The security type an offer leads to, when it is well formed and fits.
  function OfferLeads(minor: nat, offer: Bytes, login: Login): Option<Byte> {
    if minor == 3 then
      if |offer| == 4 && (BigEndian(offer) == NONE || BigEndian(offer) == VNC_PASSWORD || BigEndian(offer) == APPLE)
      then Some(BigEndian(offer)) else None
    else if |offer| > 1 && offer[0] == |offer| - 1 && Choice(offer[1..], login.username, login.password) != 0
    then Some(Choice(offer[1..], login.username, login.password)) else None
  }

  function Agreed(m: Messages, login: Login): Option<Byte> {
    if Minor(m.greeting).None? then None else OfferLeads(Minor(m.greeting).value, m.offer, login)
  }

  predicate AppleExchange(x: Bytes) {
    |x| >= 4 && 64 <= BigEndian(x[..4][2..]) <= 512 && |x| == 4 + 2 * BigEndian(x[..4][2..])
    && Acceptable(ReadOffer(x[..4], x[4..]))
  }

  predicate ExchangeOf(security: Byte, x: Bytes) {
    if security == VNC_PASSWORD then |x| == 16 else if security == APPLE then AppleExchange(x) else x == []
  }

  predicate HasResult(minor: nat, security: Byte) {
    security != NONE || minor == 8
  }

  const SUCCESS: Bytes := [0, 0, 0, 0]

  predicate Proper(security: Byte, login: Login) {
    && (login.username != [] <==> security == APPLE)
    && (security == NONE ==> login.password == [])
    && (security == APPLE ==> |login.username| <= 63 && |login.password| <= 63)
  }

  predicate IsHandshake(m: Messages, login: Login) {
    && Agreed(m, login).Some?
    && Proper(Agreed(m, login).value, login)
    && ExchangeOf(Agreed(m, login).value, m.exchange)
    && m.result == if HasResult(Minor(m.greeting).value, Agreed(m, login).value) then SUCCESS else []
  }

  function ExchangeReply(security: Byte, x: Bytes, login: Login): Bytes
    requires ExchangeOf(security, x) && Proper(security, login)
  {
    if security == VNC_PASSWORD then ChallengeReply(x, login)
    else if security == APPLE then
      PrimeIsLarge(ReadOffer(x[..4], x[4..]));
      Payload(ReadOffer(x[..4], x[4..]), login.username, login.password, login.random, login.ciphers)
    else []
  }

  // The viewer's messages in such a handshake.
  function Reply(m: Messages, login: Login): Bytes
    requires IsHandshake(m, login)
  {
    var minor, security := Minor(m.greeting).value, Agreed(m, login).value;
    VersionReply(minor) + ((if minor == 3 then [] else [security]) + ExchangeReply(security, m.exchange, login))
  }

  lemma ConverseStep(s: State, data: Bytes, rest: Bytes, login: Login)
    requires !Ended(s) && |data| == Need(s)
    ensures var (s', out) := Feed(s, data, login);
            var r := Converse(s', rest, login);
            Converse(s, data + rest, login) == Outcome(r.state, |data| + r.read, out + r.written)
  {
    assert (data + rest)[..Need(s)] == data && (data + rest)[Need(s)..] == rest;
  }

  lemma ZeroResult(x: Bytes)
    requires |x| == 4
    ensures BigEndian(x) == 0 <==> x == SUCCESS
  {
    assert x == [x[0], x[1], x[2], x[3]];
    assert BigEndian(x) == 256 * BigEndian(x[..3]) + x[3];
    assert x[..3][..2] == x[..2] && BigEndian(x[..3]) == 256 * BigEndian(x[..2]) + x[2];
    assert x[..2][..1] == x[..1] && BigEndian(x[..2]) == 256 * BigEndian(x[..1]) + x[1];
    assert x[..1][..0] == [] && BigEndian(x[..1]) == x[0];
  }

  /****** From the exchange on ******/

  lemma ResultAccepted(rest: Bytes, login: Login)
    ensures Converse(WantResult, SUCCESS + rest, login) == Outcome(Finished, 4, [])
  {
    ZeroResult(SUCCESS);
    ConverseStep(WantResult, SUCCESS, rest, login);
  }

  lemma ChallengeAccepted(x: Bytes, rest: Bytes, login: Login)
    requires |x| == 16
    ensures Converse(WantChallenge, x + (SUCCESS + rest), login) == Outcome(Finished, 20, ChallengeReply(x, login))
  {
    ResultAccepted(rest, login);
    ConverseStep(WantChallenge, x, SUCCESS + rest, login);
  }

  lemma ParametersAccepted(header: Header, data: Bytes, rest: Bytes, login: Login)
    requires |data| == Need(WantParameters(header)) && Acceptable(ReadOffer(header, data))
    requires |login.username| <= 63 && |login.password| <= 63
    ensures ReadOffer(header, data).prime > 3
    ensures Converse(WantParameters(header), data + (SUCCESS + rest), login)
         == Outcome(Finished, |data| + 4,
                    Payload(ReadOffer(header, data), login.username, login.password, login.random, login.ciphers))
  {
    PrimeIsLarge(ReadOffer(header, data));
    ResultAccepted(rest, login);
    ConverseStep(WantParameters(header), data, SUCCESS + rest, login);
  }

  lemma SplitAt(x: Bytes, n: nat, tail: Bytes)
    requires n <= |x|
    ensures x + tail == x[..n] + (x[n..] + tail)
  {}

  lemma HeaderAccepted(header: Header, tail: Bytes, login: Login)
    requires 64 <= BigEndian(header[2..]) <= 512
    ensures var r := Converse(WantParameters(header), tail, login);
            Converse(WantOffer, header + tail, login) == Outcome(r.state, 4 + r.read, r.written)
  {
    ConverseStep(WantOffer, header, tail, login);
    var r := Converse(WantParameters(header), tail, login);
    assert [] + r.written == r.written;
  }

  lemma AppleAccepted(x: Bytes, rest: Bytes, login: Login)
    requires Proper(APPLE, login) && AppleExchange(x)
    ensures Converse(WantOffer, x + (SUCCESS + rest), login)
            == Outcome(Finished, |x| + 4, ExchangeReply(APPLE, x, login))
  {
    var header: Header := x[..4];
    SplitAt(x, 4, SUCCESS + rest);
    ParametersAccepted(header, x[4..], rest, login);
    HeaderAccepted(header, x[4..] + (SUCCESS + rest), login);
  }

  lemma ExchangeAccepted(minor: nat, security: Byte, x: Bytes, rest: Bytes, login: Login)
    requires security == NONE || security == VNC_PASSWORD || security == APPLE
    requires Proper(security, login) && ExchangeOf(security, x)
    ensures var result := if HasResult(minor, security) then SUCCESS else [];
            Converse(After(minor, security, login), x + (result + rest), login)
            == Outcome(Finished, |x| + |result|, ExchangeReply(security, x, login))
  {
    if security == VNC_PASSWORD {
      ChallengeAccepted(x, rest, login);
    } else if security == APPLE {
      AppleAccepted(x, rest, login);
    } else {
      ResultAccepted(rest, login);
      assert [] + (SUCCESS + rest) == SUCCESS + rest && [] + ([] + rest) == rest;
    }
  }

  function Offered(minor: nat): State {
    if minor == 3 then WantSelected else WantCount(minor)
  }

  lemma MethodsAccepted(minor: nat, offer: Bytes, tail: Bytes, login: Login)
    requires minor != 3 && OfferLeads(minor, offer, login).Some?
    ensures var security := OfferLeads(minor, offer, login).value;
            var r := Converse(After(minor, security, login), tail, login);
            Converse(WantMethods(minor, offer[0]), offer[1..] + tail, login)
            == Outcome(r.state, |offer| - 1 + r.read, [security] + r.written)
  {
    ConverseStep(WantMethods(minor, offer[0]), offer[1..], tail, login);
  }

  lemma OfferAccepted(minor: nat, offer: Bytes, tail: Bytes, login: Login)
    requires OfferLeads(minor, offer, login).Some?
    ensures var security := OfferLeads(minor, offer, login).value;
            var r := Converse(After(minor, security, login), tail, login);
            Converse(Offered(minor), offer + tail, login)
            == Outcome(r.state, |offer| + r.read, (if minor == 3 then [] else [security]) + r.written)
  {
    if minor == 3 {
      ConverseStep(WantSelected, offer, tail, login);
    } else {
      SplitAt(offer, 1, tail);
      ConverseStep(WantCount(minor), offer[..1], offer[1..] + tail, login);
      MethodsAccepted(minor, offer, tail, login);
    }
  }

  lemma VersionAccepted(greeting: Bytes, tail: Bytes, login: Login)
    requires Minor(greeting).Some?
    ensures var minor := Minor(greeting).value;
            var r := Converse(Offered(minor), tail, login);
            Converse(WantVersion, greeting + tail, login)
            == Outcome(r.state, |greeting| + r.read, VersionReply(minor) + r.written)
  {
    assert |greeting| == 12;
    ConverseStep(WantVersion, greeting, tail, login);
  }

  // A handshake followed by anything is read to its end and no further.
  lemma HandshakeAccepted(m: Messages, rest: Bytes, login: Login)
    requires IsHandshake(m, login)
    ensures Converse(WantVersion, Encode(m) + rest, login) == Outcome(Finished, |Encode(m)|, Reply(m, login))
  {
    var minor, security := Minor(m.greeting).value, Agreed(m, login).value;
    var tail := m.exchange + (m.result + rest);
    assert Encode(m) + rest == m.greeting + (m.offer + tail);
    ExchangeAccepted(minor, security, m.exchange, rest, login);
    OfferAccepted(minor, m.offer, tail, login);
    VersionAccepted(m.greeting, m.offer + tail, login);
  }

  /****** And nothing else is accepted ******/

  // The first read of an accepted conversation is complete and leads on.
  lemma AcceptedStep(s: State, input: Bytes, login: Login)
    requires !Ended(s) && Converse(s, input, login).state.Finished?
    ensures |input| >= Need(s)
    ensures var (s', _) := Feed(s, input[..Need(s)], login);
            Converse(s', input[Need(s)..], login).state.Finished? && !s'.Failed?
  {
  }

  lemma AcceptedResult(input: Bytes, login: Login)
    requires Converse(WantResult, input, login).state.Finished?
    ensures |input| >= 4 && input[..4] == SUCCESS
  {
    AcceptedStep(WantResult, input, login);
    ZeroResult(input[..4]);
  }

  lemma AcceptedParameters(header: Header, input: Bytes, login: Login)
    requires Converse(WantParameters(header), input, login).state.Finished?
    ensures var n := Need(WantParameters(header));
      && |input| >= n + 4 && Acceptable(ReadOffer(header, input[..n])) && input[n..][..4] == SUCCESS
      && |login.username| <= 63 && |login.password| <= 63
  {
    AcceptedStep(WantParameters(header), input, login);
    AcceptedResult(input[Need(WantParameters(header))..], login);
  }

  lemma AppleParts(header: Header, input: Bytes, n: nat) returns (x: Bytes)
    requires |input| >= 4 + n + 4 && header == input[..4] && n == Need(WantParameters(header))
    requires 64 <= BigEndian(header[2..]) <= 512
    requires Acceptable(ReadOffer(header, input[4..][..n])) && input[4..][n..][..4] == SUCCESS
    ensures AppleExchange(x) && x + SUCCESS <= input
  {
    x := input[..4 + n];
    assert x[..4] == header && x[4..] == input[4..][..n];
    assert input[4..][n..][..4] == input[4 + n..4 + n + 4];
    assert x + SUCCESS == input[..4 + n + 4];
  }

  lemma AcceptedOfferedKey(input: Bytes, login: Login) returns (x: Bytes)
    requires Converse(WantOffer, input, login).state.Finished?
    ensures AppleExchange(x) && x + SUCCESS <= input && |login.username| <= 63 && |login.password| <= 63
  {
    AcceptedStep(WantOffer, input, login);
    var header: Header := input[..4];
    AcceptedParameters(header, input[4..], login);
    x := AppleParts(header, input, Need(WantParameters(header)));
  }

  lemma AcceptedExchange(minor: nat, security: Byte, input: Bytes, login: Login) returns (x: Bytes)
    requires security == NONE || security == VNC_PASSWORD || security == APPLE
    requires Converse(After(minor, security, login), input, login).state.Finished?
    ensures Proper(security, login) && ExchangeOf(security, x)
    ensures x + (if HasResult(minor, security) then SUCCESS else []) <= input
  {
    if security == VNC_PASSWORD {
      AcceptedStep(WantChallenge, input, login);
      AcceptedResult(input[16..], login);
      x := input[..16];
    } else if security == APPLE {
      x := AcceptedOfferedKey(input, login);
    } else {
      x := [];
      if HasResult(minor, security) {
        AcceptedResult(input, login);
      }
    }
  }

  lemma AcceptedMethods(minor: nat, input: Bytes, login: Login) returns (offer: Bytes)
    requires minor == 7 || minor == 8
    requires Converse(WantCount(minor), input, login).state.Finished?
    ensures offer <= input && OfferLeads(minor, offer, login).Some?
    ensures var security := OfferLeads(minor, offer, login).value;
            Converse(After(minor, security, login), input[|offer|..], login).state.Finished?
  {
    AcceptedCount(minor, input, login);
    AcceptedChoice(minor, input[0], input[1..], login);
    offer := CountedParts(input, input[0]);
    assert OfferLeads(minor, offer, login) == Some(Choice(input[1..][..input[0]], login.username, login.password));
  }

  lemma AcceptedCount(minor: nat, input: Bytes, login: Login)
    requires Converse(WantCount(minor), input, login).state.Finished?
    ensures |input| >= 1 && input[0] != 0 && Converse(WantMethods(minor, input[0]), input[1..], login).state.Finished?
  {
    AcceptedStep(WantCount(minor), input, login);
  }

  lemma AcceptedChoice(minor: nat, count: nat, input: Bytes, login: Login)
    requires Converse(WantMethods(minor, count), input, login).state.Finished?
    ensures |input| >= count && Choice(input[..count], login.username, login.password) != 0
    ensures var security := Choice(input[..count], login.username, login.password);
            Converse(After(minor, security, login), input[count..], login).state.Finished?
  {
    AcceptedStep(WantMethods(minor, count), input, login);
  }

  lemma CountedParts(input: Bytes, count: nat) returns (offer: Bytes)
    requires 1 + count <= |input|
    ensures |offer| == 1 + count && offer <= input && offer[0] == input[0] && offer[1..] == input[1..][..count]
            && input[1..][count..] == input[|offer|..]
  {
    offer := input[..1 + count];
  }

  lemma AcceptedOffer(minor: nat, input: Bytes, login: Login) returns (offer: Bytes)
    requires minor == 3 || minor == 7 || minor == 8
    requires Converse(Offered(minor), input, login).state.Finished?
    ensures offer <= input && OfferLeads(minor, offer, login).Some?
    ensures var security := OfferLeads(minor, offer, login).value;
            Converse(After(minor, security, login), input[|offer|..], login).state.Finished?
  {
    if minor == 3 {
      AcceptedStep(WantSelected, input, login);
      offer := input[..4];
    } else {
      offer := AcceptedMethods(minor, input, login);
    }
  }

  lemma AcceptedVersion(input: Bytes, login: Login)
    requires Converse(WantVersion, input, login).state.Finished?
    ensures |input| >= 12 && Minor(input[..12]).Some?
    ensures var minor := Minor(input[..12]).value;
            (minor == 3 || minor == 7 || minor == 8) && Converse(Offered(minor), input[12..], login).state.Finished?
  {
    AcceptedStep(WantVersion, input, login);
  }

  lemma Assemble(greeting: Bytes, offer: Bytes, x: Bytes, login: Login) returns (m: Messages)
    requires Minor(greeting).Some? && OfferLeads(Minor(greeting).value, offer, login).Some?
    requires var security := OfferLeads(Minor(greeting).value, offer, login).value;
             Proper(security, login) && ExchangeOf(security, x)
    ensures var security := OfferLeads(Minor(greeting).value, offer, login).value;
            m == Messages(greeting, offer, x, if HasResult(Minor(greeting).value, security) then SUCCESS else [])
            && IsHandshake(m, login)
  {
    var minor := Minor(greeting).value;
    m := Messages(greeting, offer, x, if HasResult(minor, OfferLeads(minor, offer, login).value) then SUCCESS else []);
  }

  lemma FindHandshake(input: Bytes, login: Login) returns (m: Messages)
    requires Converse(WantVersion, input, login).state.Finished?
    ensures IsHandshake(m, login) && Encode(m) <= input
  {
    AcceptedVersion(input, login);
    var greeting := input[..12];
    var minor := Minor(greeting).value;
    var offer := AcceptedOffer(minor, input[12..], login);
    var security := OfferLeads(minor, offer, login).value;
    var x := AcceptedExchange(minor, security, input[12..][|offer|..], login);
    m := Assemble(greeting, offer, x, login);
    PrefixJoin(greeting, offer, x + m.result, input);
  }

  // Every conversation that succeeds read exactly one handshake: nothing of it
  // is missing and nothing after it was touched.
  lemma OnlyHandshakesAccepted(input: Bytes, login: Login) returns (m: Messages)
    requires Converse(WantVersion, input, login).state.Finished?
    ensures IsHandshake(m, login) && Encode(m) <= input
    ensures Converse(WantVersion, input, login) == Outcome(Finished, |Encode(m)|, Reply(m, login))
  {
    m := FindHandshake(input, login);
    var rest := input[|Encode(m)|..];
    assert Encode(m) + rest == input;
    HandshakeAccepted(m, rest, login);
  }

  lemma PrefixJoin(a: Bytes, b: Bytes, c: Bytes, input: Bytes)
    requires a <= input && b <= input[|a|..] && c <= input[|a|..][|b|..]
    ensures a + (b + c) <= input
  {
    assert input == a + input[|a|..];
    assert input[|a|..] == b + input[|a|..][|b|..];
  }
}
