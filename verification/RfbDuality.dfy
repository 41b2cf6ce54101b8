// The host's side of the handshake (backend/vnc/rfb.go, ViewerHandshake), and
// both sides run against each other over two byte channels.
module RfbDuality {
  import opened Common
  import opened Ard
  import opened Rfb
  import opened RfbClient

  const GREETING := Ascii("RFB 003.008\n")

  /****** The host ******/

  // The host writes its greeting, then reacts to two reads.
  datatype HostState = AwaitVersion | AwaitMethod | Served | Rejected

  function HostNeed(s: HostState): nat {
    match s
    case AwaitVersion => 12
    case AwaitMethod => 1
    case _ => 0
  }

  function HostFeed(s: HostState, data: Bytes): (HostState, Bytes)
    requires |data| == HostNeed(s) > 0
  {
    if s.AwaitVersion? then if data == GREETING then (AwaitMethod, [1, 1]) else (Rejected, [])
    else if data[0] == NONE then (Served, SUCCESS) else (Rejected, [])
  }

  // It succeeds only on the two expected reads, having written its three
  // messages and read nothing more; without write failures it then does.
  method ViewerHandshake(conn: Conn) returns (ok: bool)
    requires conn.pos == 0 && conn.output == []
    modifies conn
    ensures ok ==> conn.pos == 13 <= |conn.input|
                   && HostFeed(AwaitVersion, conn.input[..12]) == (AwaitMethod, [1, 1])
                   && HostFeed(AwaitMethod, conn.input[12..13]) == (Served, SUCCESS)
                   && conn.output == GREETING + [1, 1] + SUCCESS
    ensures !ok ==> (exists n :: !conn.writes(n)) || !(GREETING + [NONE] <= conn.input)
    ensures conn.output <= GREETING + [1, 1] + SUCCESS && (!ok ==> |conn.output| < 18)
  {
    ghost var n := conn.writeCount;
    assert |GREETING| == 12;
    ok := conn.Write(GREETING);
    if !ok {
      assert !conn.writes(n);
      return;
    }
    var version := conn.ReadFull(12);
    if version.None? || version.value != GREETING {
      return false;
    }
    ok := conn.Write([1, 1]);
    if !ok {
      assert !conn.writes(n + 1);
      return;
    }
    var method_ := conn.ReadFull(1);
    if method_.None? || method_.value[0] != NONE {
      assert method_.Some? ==> conn.input[12] == method_.value[0];
      assert (GREETING + [NONE])[12] == NONE;
      return false;
    }
    ok := conn.Write([0, 0, 0, 0]);
    assert !ok ==> !conn.writes(n + 2);
  }

  /****** Both sides over two channels ******/

  // A side: its state, the bytes of the current read so far, and the bytes of
  // its current write still to go out.
  datatype Viewer = Viewer(state: State, got: Bytes, pending: Bytes)
  datatype Host = Host(state: HostState, got: Bytes, pending: Bytes)

  datatype Net = Net(viewer: Viewer, host: Host, toViewer: Bytes, toHost: Bytes)

  // One byte is put on a channel or taken from it. A side reads only when its
  // write is complete.
  datatype Move = ViewerSends | ViewerReads | HostSends | HostReads

  predicate Enabled(n: Net, m: Move) {
    match m
    case ViewerSends => n.viewer.pending != []
    case ViewerReads => n.viewer.pending == [] && |n.viewer.got| < Need(n.viewer.state) && n.toViewer != []
    case HostSends => n.host.pending != []
    case HostReads => n.host.pending == [] && |n.host.got| < HostNeed(n.host.state) && n.toHost != []
  }

  function ViewerTakes(v: Viewer, b: Byte, login: Login): Viewer
    requires |v.got| < Need(v.state)
  {
    var got := v.got + [b];
    if |got| < Need(v.state) then v.(got := got)
    else
      var (s, out) := Feed(v.state, got, login);
      Viewer(s, [], out)
  }

  function HostTakes(h: Host, b: Byte): Host
    requires |h.got| < HostNeed(h.state)
  {
    var got := h.got + [b];
    if |got| < HostNeed(h.state) then h.(got := got)
    else
      var (s, out) := HostFeed(h.state, got);
      Host(s, [], out)
  }

  function Do(n: Net, m: Move, login: Login): Net
    requires Enabled(n, m)
  {
    match m
    case ViewerSends =>
      n.(viewer := n.viewer.(pending := n.viewer.pending[1..]), toHost := n.toHost + [n.viewer.pending[0]])
    case ViewerReads =>
      n.(viewer := ViewerTakes(n.viewer, n.toViewer[0], login), toViewer := n.toViewer[1..])
    case HostSends =>
      n.(host := n.host.(pending := n.host.pending[1..]), toViewer := n.toViewer + [n.host.pending[0]])
    case HostReads =>
      n.(host := HostTakes(n.host, n.toHost[0]), toHost := n.toHost[1..])
  }

  const START := Net(Viewer(WantVersion, [], []), Host(AwaitVersion, [], GREETING), [], [])

  predicate EmptyLogin(login: Login) {
    login.username == [] && login.password == []
  }

  /****** Where both sides stand ******/

  // All that either side ever sends.
  const FROM_HOST: Bytes := GREETING + ([1, 1] + SUCCESS)
  const FROM_VIEWER: Bytes := GREETING + [NONE]

  // Bytes read before the current read, and produced by the end of the current
  // write.
  function ViewerBase(s: State): nat {
    match s
    case WantVersion => 0
    case WantCount(_) => 12
    case WantMethods(_, _) => 13
    case WantResult => 14
    case _ => 18
  }

  function ViewerMade(s: State): nat {
    match s
    case WantVersion => 0
    case WantCount(_) => 12
    case WantMethods(_, _) => 12
    case _ => 13
  }

  function HostBase(s: HostState): nat {
    match s
    case AwaitVersion => 0
    case AwaitMethod => 12
    case _ => 13
  }

  function HostMade(s: HostState): nat {
    match s
    case AwaitVersion => 12
    case AwaitMethod => 14
    case _ => 18
  }

  predicate ViewerOnPath(v: Viewer) {
    && v.state in {WantVersion, WantCount(8), WantMethods(8, 1), WantResult, Finished}
    && |v.got| <= Need(v.state) && (v.state != Finished ==> |v.got| < Need(v.state))
    && |v.pending| <= ViewerMade(v.state)
  }

  predicate HostOnPath(h: Host) {
    && h.state in {AwaitVersion, AwaitMethod, Served}
    && |h.got| <= HostNeed(h.state) && (h.state != Served ==> |h.got| < HostNeed(h.state))
    && |h.pending| <= HostMade(h.state)
  }

  function ViewerRead(n: Net): nat { ViewerBase(n.viewer.state) + |n.viewer.got| }
  function HostRead(n: Net): nat { HostBase(n.host.state) + |n.host.got| }
  function ViewerSent(n: Net): int { ViewerMade(n.viewer.state) - |n.viewer.pending| }
  function HostSent(n: Net): int { HostMade(n.host.state) - |n.host.pending| }

  // One direction of the conversation: of all the bytes that ever pass, those
  // in the reader's current read, on the channel, and in the writer's current
  // write are consecutive.
  predicate Pipe(all: Bytes, base: nat, read: nat, sent: int, made: nat, got: Bytes, queue: Bytes, pending: Bytes) {
    && base <= read <= sent <= made <= |all|
    && got == all[base..read] && queue == all[read..sent] && pending == all[sent..made]
  }

  // Both directions, for whatever the sides send in all.
  predicate InvOf(n: Net, down: Bytes, up: Bytes) {
    && |down| == 18 && |up| == 13 && ViewerOnPath(n.viewer) && HostOnPath(n.host)
    && Pipe(down, ViewerBase(n.viewer.state), ViewerRead(n), HostSent(n), HostMade(n.host.state),
            n.viewer.got, n.toViewer, n.host.pending)
    && Pipe(up, HostBase(n.host.state), HostRead(n), ViewerSent(n), ViewerMade(n.viewer.state),
            n.host.got, n.toHost, n.viewer.pending)
  }

  predicate Inv(n: Net) {
    InvOf(n, FROM_HOST, FROM_VIEWER)
  }

  lemma PipeSend(all: Bytes, base: nat, read: nat, sent: int, made: nat, got: Bytes, queue: Bytes, pending: Bytes)
    requires Pipe(all, base, read, sent, made, got, queue, pending) && pending != []
    ensures Pipe(all, base, read, sent + 1, made, got, queue + [pending[0]], pending[1..])
  {}

  lemma PipeRead(all: Bytes, base: nat, read: nat, sent: int, made: nat, got: Bytes, queue: Bytes, pending: Bytes)
    requires Pipe(all, base, read, sent, made, got, queue, pending) && queue != []
    ensures Pipe(all, base, read + 1, sent, made, got + [queue[0]], queue[1..], pending)
  {}

  lemma PipeLast(all: Bytes, base: nat, read: nat, sent: int, made: nat, got: Bytes, queue: Bytes, pending: Bytes)
    requires Pipe(all, base, read, sent, made, got, queue, pending) && queue != []
    ensures Pipe(all, read + 1, read + 1, sent, made, [], queue[1..], pending)
  {
    PipeRead(all, base, read, sent, made, got, queue, pending);
    PipeTurn(all, base, read + 1, sent, made, got + [queue[0]], queue[1..], pending);
  }

  // A side that finishes a read starts the next one.
  lemma PipeTurn(all: Bytes, base: nat, read: nat, sent: int, made: nat, got: Bytes, queue: Bytes, pending: Bytes)
    requires Pipe(all, base, read, sent, made, got, queue, pending)
    ensures Pipe(all, read, read, sent, made, [], queue, pending)
  {}

  // A side with nothing pending may write on.
  lemma PipeMore(all: Bytes, base: nat, read: nat, made: nat, got: Bytes, queue: Bytes, more: nat)
    requires Pipe(all, base, read, made, made, got, queue, []) && made <= more <= |all|
    ensures Pipe(all, base, read, made, more, got, queue, all[made..more])
  {}

  // Bytes still to be sent or read.
  function Left(n: Net): int {
    18 - HostSent(n) + 18 - ViewerRead(n) + 13 - ViewerSent(n) + 13 - HostRead(n)
  }

  lemma Lengths()
    ensures |GREETING| == 12 && |FROM_HOST| == 18 && |FROM_VIEWER| == 13
  {}

  lemma PipeStart(all: Bytes, made: nat)
    requires made <= |all|
    ensures Pipe(all, 0, 0, 0, made, [], [], all[..made])
  {}

  lemma StartInv()
    ensures Inv(START) && Left(START) == 62
  {
    Lengths();
    PipeStart(FROM_HOST, 12);
    PipeStart(FROM_VIEWER, 0);
    assert FROM_HOST[..12] == GREETING;
    assert FROM_VIEWER[..0] == [];
  }

  // The viewer's four reactions to what the host sends.
  lemma ViewerReacts(login: Login)
    requires EmptyLogin(login)
    ensures |FROM_HOST| == 18
    ensures Feed(WantVersion, FROM_HOST[..12], login) == (WantCount(8), GREETING)
    ensures Feed(WantCount(8), FROM_HOST[12..13], login) == (WantMethods(8, 1), [])
    ensures Feed(WantMethods(8, 1), FROM_HOST[13..14], login) == (WantResult, [NONE])
    ensures Feed(WantResult, FROM_HOST[14..18], login) == (Finished, [])
  {
    assert FROM_HOST[..12] == GREETING;
    assert GREETING[10] == 56 && Ascii("RFB 003.003\n")[10] == 51 && Ascii("RFB 003.006\n")[10] == 54
        && Ascii("RFB 003.007\n")[10] == 55;
    assert FROM_HOST[12..13] == [1] && FROM_HOST[13..14] == [1] && FROM_HOST[14..18] == SUCCESS;
    ZeroResult(SUCCESS);
  }

  lemma HostReacts()
    ensures |FROM_VIEWER| == 13
    ensures HostFeed(AwaitVersion, FROM_VIEWER[..12]) == (AwaitMethod, [1, 1])
    ensures HostFeed(AwaitMethod, FROM_VIEWER[12..13]) == (Served, SUCCESS)
  {
    assert FROM_VIEWER[..12] == GREETING && FROM_VIEWER[12..13] == [NONE];
  }

  // The viewer after a complete read on the path.
  function ViewerNext(s: State): Viewer {
    match s
    case WantVersion => Viewer(WantCount(8), [], GREETING)
    case WantCount(_) => Viewer(WantMethods(8, 1), [], [])
    case WantMethods(_, _) => Viewer(WantResult, [], [NONE])
    case _ => Viewer(Finished, [], [])
  }

  lemma ViewerTakesNext(v: Viewer, b: Byte, login: Login)
    requires ViewerOnPath(v) && v.state != Finished && v.pending == [] && EmptyLogin(login) && |FROM_HOST| == 18
    requires var base := ViewerBase(v.state); v.got + [b] == FROM_HOST[base..base + |v.got| + 1]
    ensures ViewerTakes(v, b, login)
            == if |v.got| + 1 < Need(v.state) then v.(got := v.got + [b]) else ViewerNext(v.state)
  {
    ViewerReacts(login);
  }

  // What it writes next is where its writing stood.
  lemma ViewerNextWrites(s: State)
    requires s in {WantVersion, WantCount(8), WantMethods(8, 1), WantResult}
    ensures ViewerGoesOn(s, ViewerNext(s), FROM_VIEWER)
  {
    assert |GREETING| == 12;
    assert FROM_VIEWER[0..12] == GREETING && FROM_VIEWER[12..13] == [NONE];
    assert FROM_VIEWER[12..12] == [] == FROM_VIEWER[13..13];
  }

  lemma ViewerSendKeeps(n: Net, login: Login, down: Bytes, up: Bytes)
    requires InvOf(n, down, up) && Enabled(n, ViewerSends)
    ensures InvOf(Do(n, ViewerSends, login), down, up) && Left(Do(n, ViewerSends, login)) == Left(n) - 1
  {
    PipeSend(up, HostBase(n.host.state), HostRead(n), ViewerSent(n), ViewerMade(n.viewer.state),
             n.host.got, n.toHost, n.viewer.pending);
  }

  lemma HostSendKeeps(n: Net, login: Login, down: Bytes, up: Bytes)
    requires InvOf(n, down, up) && Enabled(n, HostSends)
    ensures InvOf(Do(n, HostSends, login), down, up) && Left(Do(n, HostSends, login)) == Left(n) - 1
  {
    PipeSend(down, ViewerBase(n.viewer.state), ViewerRead(n), HostSent(n), HostMade(n.host.state),
             n.viewer.got, n.toViewer, n.host.pending);
  }

  // The viewer takes a byte and its read goes on.
  lemma ViewerWaits(n: Net, down: Bytes, up: Bytes)
    requires InvOf(n, down, up) && Enabled(n, ViewerReads) && |n.viewer.got| + 1 < Need(n.viewer.state)
    ensures var next := n.(viewer := n.viewer.(got := n.viewer.got + [n.toViewer[0]]), toViewer := n.toViewer[1..]);
            InvOf(next, down, up) && Left(next) == Left(n) - 1
  {
    PipeRead(down, ViewerBase(n.viewer.state), ViewerRead(n), HostSent(n), HostMade(n.host.state),
             n.viewer.got, n.toViewer, n.host.pending);
  }

  // A next state of the viewer that starts a read and goes on writing.
  predicate ViewerGoesOn(s: State, next: Viewer, up: Bytes) {
    && ViewerOnPath(next) && next.got == [] && ViewerBase(next.state) == ViewerBase(s) + Need(s)
    && ViewerMade(s) <= ViewerMade(next.state) <= |up|
    && next.pending == up[ViewerMade(s)..ViewerMade(next.state)]
  }

  // The viewer takes the last byte of its read.
  lemma ViewerTurns(n: Net, next: Viewer, down: Bytes, up: Bytes)
    requires InvOf(n, down, up) && Enabled(n, ViewerReads) && |n.viewer.got| + 1 == Need(n.viewer.state)
    requires ViewerGoesOn(n.viewer.state, next, up)
    ensures var after := n.(viewer := next, toViewer := n.toViewer[1..]);
            InvOf(after, down, up) && Left(after) == Left(n) - 1
  {
    var v, h := n.viewer, n.host;
    PipeLast(down, ViewerBase(v.state), ViewerRead(n), HostSent(n), HostMade(h.state), v.got, n.toViewer, h.pending);
    PipeMore(up, HostBase(h.state), HostRead(n), ViewerMade(v.state), h.got, n.toHost, ViewerMade(next.state));
  }

  lemma HostWaits(n: Net, down: Bytes, up: Bytes)
    requires InvOf(n, down, up) && Enabled(n, HostReads) && |n.host.got| + 1 < HostNeed(n.host.state)
    ensures var next := n.(host := n.host.(got := n.host.got + [n.toHost[0]]), toHost := n.toHost[1..]);
            InvOf(next, down, up) && Left(next) == Left(n) - 1
  {
    PipeRead(up, HostBase(n.host.state), HostRead(n), ViewerSent(n), ViewerMade(n.viewer.state),
             n.host.got, n.toHost, n.viewer.pending);
  }

  predicate HostGoesOn(s: HostState, next: Host, down: Bytes) {
    && HostOnPath(next) && next.got == [] && HostBase(next.state) == HostBase(s) + HostNeed(s)
    && HostMade(s) <= HostMade(next.state) <= |down|
    && next.pending == down[HostMade(s)..HostMade(next.state)]
  }

  lemma HostTurns(n: Net, next: Host, down: Bytes, up: Bytes)
    requires InvOf(n, down, up) && Enabled(n, HostReads) && |n.host.got| + 1 == HostNeed(n.host.state)
    requires HostGoesOn(n.host.state, next, down)
    ensures var after := n.(host := next, toHost := n.toHost[1..]);
            InvOf(after, down, up) && Left(after) == Left(n) - 1
  {
    var v, h := n.viewer, n.host;
    var base, r := HostBase(h.state), HostRead(n);
    var got, queue := h.got + [n.toHost[0]], n.toHost[1..];
    PipeRead(up, base, r, ViewerSent(n), ViewerMade(v.state), h.got, n.toHost, v.pending);
    PipeTurn(up, base, r + 1, ViewerSent(n), ViewerMade(v.state), got, queue, v.pending);
    PipeMore(down, ViewerBase(v.state), ViewerRead(n), HostMade(h.state), v.got, n.toViewer, HostMade(next.state));
  }

  /****** Each move ******/

  // What the viewer has read, one byte further.
  lemma ViewerHasRead(n: Net, down: Bytes, up: Bytes)
    requires InvOf(n, down, up) && Enabled(n, ViewerReads)
    ensures var base := ViewerBase(n.viewer.state);
            base + |n.viewer.got| + 1 <= |down|
            && n.viewer.got + [n.toViewer[0]] == down[base..base + |n.viewer.got| + 1]
  {
    PipeRead(down, ViewerBase(n.viewer.state), ViewerRead(n), HostSent(n), HostMade(n.host.state),
             n.viewer.got, n.toViewer, n.host.pending);
  }

  lemma HostHasRead(n: Net, down: Bytes, up: Bytes)
    requires InvOf(n, down, up) && Enabled(n, HostReads)
    ensures var base := HostBase(n.host.state);
            base + |n.host.got| + 1 <= |up|
            && n.host.got + [n.toHost[0]] == up[base..base + |n.host.got| + 1]
  {
    PipeRead(up, HostBase(n.host.state), HostRead(n), ViewerSent(n), ViewerMade(n.viewer.state),
             n.host.got, n.toHost, n.viewer.pending);
  }

  lemma ViewerReadKeeps(n: Net, login: Login)
    requires Inv(n) && Enabled(n, ViewerReads) && EmptyLogin(login)
    ensures Inv(Do(n, ViewerReads, login)) && Left(Do(n, ViewerReads, login)) == Left(n) - 1
  {
    var v := n.viewer;
    ViewerHasRead(n, FROM_HOST, FROM_VIEWER);
    ViewerTakesNext(v, n.toViewer[0], login);
    if |v.got| + 1 == Need(v.state) {
      ViewerNextWrites(v.state);
      ViewerTurns(n, ViewerNext(v.state), FROM_HOST, FROM_VIEWER);
    } else {
      ViewerWaits(n, FROM_HOST, FROM_VIEWER);
    }
  }

  // The host after a complete read on the path.
  function HostNext(s: HostState): Host {
    if s.AwaitVersion? then Host(AwaitMethod, [], [1, 1]) else Host(Served, [], SUCCESS)
  }

  lemma HostNextWrites(s: HostState)
    requires s in {AwaitVersion, AwaitMethod}
    ensures HostGoesOn(s, HostNext(s), FROM_HOST)
  {
    assert |GREETING| == 12;
    assert FROM_HOST[12..14] == [1, 1] && FROM_HOST[14..18] == SUCCESS;
  }

  lemma HostTakesNext(h: Host, b: Byte)
    requires HostOnPath(h) && h.state != Served && h.pending == [] && |FROM_VIEWER| == 13
    requires var base := HostBase(h.state); h.got + [b] == FROM_VIEWER[base..base + |h.got| + 1]
    ensures HostTakes(h, b) == if |h.got| + 1 < HostNeed(h.state) then h.(got := h.got + [b]) else HostNext(h.state)
  {
    HostReacts();
  }

  lemma HostReadKeeps(n: Net, login: Login)
    requires Inv(n) && Enabled(n, HostReads)
    ensures Inv(Do(n, HostReads, login)) && Left(Do(n, HostReads, login)) == Left(n) - 1
  {
    var h := n.host;
    HostHasRead(n, FROM_HOST, FROM_VIEWER);
    HostTakesNext(h, n.toHost[0]);
    if |h.got| + 1 == HostNeed(h.state) {
      HostNextWrites(h.state);
      HostTurns(n, HostNext(h.state), FROM_HOST, FROM_VIEWER);
    } else {
      HostWaits(n, FROM_HOST, FROM_VIEWER);
    }
  }

  lemma MoveKeeps(n: Net, m: Move, login: Login)
    requires Inv(n) && Enabled(n, m) && EmptyLogin(login)
    ensures Inv(Do(n, m, login)) && Left(Do(n, m, login)) == Left(n) - 1
  {
    match m
    case ViewerSends => ViewerSendKeeps(n, login, FROM_HOST, FROM_VIEWER);
    case HostSends => HostSendKeeps(n, login, FROM_HOST, FROM_VIEWER);
    case ViewerReads => ViewerReadKeeps(n, login);
    case HostReads => HostReadKeeps(n, login);
  }

  // Both sides done, nothing left on either channel.
  predicate Met(n: Net) {
    n.viewer == Viewer(Finished, [], []) && n.host == Host(Served, [], []) && n.toViewer == [] && n.toHost == []
  }

  // The bytes on the two channels, counted.
  predicate Counted(n: Net) {
    && ViewerOnPath(n.viewer) && HostOnPath(n.host)
    && |n.toViewer| == HostSent(n) - ViewerRead(n) && |n.toHost| == ViewerSent(n) - HostRead(n)
  }

  lemma InvCounts(n: Net)
    requires Inv(n)
    ensures Counted(n)
  {}

  lemma CountedNeverStuck(n: Net)
    requires Counted(n) && !Enabled(n, ViewerSends) && !Enabled(n, ViewerReads)
    requires !Enabled(n, HostSends) && !Enabled(n, HostReads)
    ensures Met(n) && Left(n) == 0
  {}

  lemma NeverStuck(n: Net)
    requires Inv(n) && forall m :: !Enabled(n, m)
    ensures Met(n) && Left(n) == 0
  {
    InvCounts(n);
    CountedNeverStuck(n);
  }

  /****** Every interleaving ******/

  predicate Legal(n: Net, moves: seq<Move>, login: Login)
    decreases |moves|
  {
    moves == [] || (Enabled(n, moves[0]) && Legal(Do(n, moves[0], login), moves[1..], login))
  }

  function Play(n: Net, moves: seq<Move>, login: Login): Net
    requires Legal(n, moves, login)
    decreases |moves|
  {
    if moves == [] then n else Play(Do(n, moves[0], login), moves[1..], login)
  }

  lemma {:induction false} PlayKeeps(n: Net, moves: seq<Move>, login: Login)
    requires Inv(n) && Legal(n, moves, login) && EmptyLogin(login)
    ensures Inv(Play(n, moves, login)) && Left(Play(n, moves, login)) == Left(n) - |moves|
    decreases |moves|
  {
    if moves != [] {
      MoveKeeps(n, moves[0], login);
      PlayKeeps(Do(n, moves[0], login), moves[1..], login);
    }
  }

  // Whatever the order of sends and reads, with empty credentials the two
  // handshakes never block each other: no run exceeds 62 moves, and a run with
  // no move left has 62, with both sides successful and both channels empty.
  lemma HandshakesMeet(moves: seq<Move>, login: Login)
    requires EmptyLogin(login) && Legal(START, moves, login)
    ensures |moves| <= 62
    ensures (forall m :: !Enabled(Play(START, moves, login), m)) <==> |moves| == 62
    ensures |moves| == 62 ==> Met(Play(START, moves, login))
  {
    StartInv();
    PlayKeeps(START, moves, login);
    var n := Play(START, moves, login);
    if forall m :: !Enabled(n, m) {
      NeverStuck(n);
    }
    if exists m :: Enabled(n, m) {
      var m :| Enabled(n, m);
      MoveKeeps(n, m, login);
    }
  }
}
