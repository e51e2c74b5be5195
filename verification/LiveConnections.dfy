/**
 A GET that has its stream: it primes an empty listen stream, comes to serve live events, and misses
 none that its channel has room for.
 */
module LiveConnections {
  import opened Wrappers
  import opened EventIds
  import ES = EventStream
  import opened Sessions
  import C = Connection
  import D = Deliveries
  import R = Resumptions
  import S = Server

  type Session = Sessions.Session<nat>

  // Getting on.

  /** How many sections the handler makes between the moments `m` and `n`. */
  function Sections(moves: seq<C.Move>, m: nat, n: nat): nat
    requires m <= n <= |moves|
    decreases n
  {
    if m == n then 0 else Sections(moves, m, n - 1) + if moves[n - 1].Handler? then 1 else 0
  }

  /** How many it still has to make, at most, before it serves live events. */
  function Ahead(conn: C.Conn): nat {
    match conn.phase
    case Replaying(pending, _) => |pending| + 4
    case Checking => 3
    case Priming => 2
    case Subscribing => 1
    case _ => 0
  }

  predicate HasStream(conn: C.Conn) {
    !conn.phase.Choosing? && !conn.phase.Found?
  }

  predicate Stays(moves: seq<C.Move>, m: nat, n: nat) {
    forall i | m <= i < n && i < |moves| :: !moves[i].Gone?
  }

  lemma SectionGetsOn(sys: C.System, c: nat)
    requires C.Ready(sys) && HasStream(sys.conn)
    ensures HasStream(C.Advance(sys, c).conn)
    ensures Ahead(sys.conn) > 0 ==> Ahead(C.Advance(sys, c).conn) < Ahead(sys.conn)
    ensures Ahead(sys.conn) == 0 ==> Ahead(C.Advance(sys, c).conn) == 0
  {
  }

  lemma {:induction false} AheadShrinks(states: seq<C.System>, moves: seq<C.Move>, m: nat, n: nat)
    requires C.IsRun(states, moves) && SessionInv(states[0].session) && C.Sound(states[0])
    requires m <= n < |states| && HasStream(states[m].conn) && Stays(moves, m, n)
    ensures HasStream(states[n].conn)
    ensures Ahead(states[n].conn) == 0 || Ahead(states[n].conn) + Sections(moves, m, n) <= Ahead(states[m].conn)
    decreases n
  {
    if m < n {
      AheadShrinks(states, moves, m, n - 1);
      C.NextIsMove(states, moves, n - 1);
      if moves[n - 1].Handler? {
        SectionGetsOn(states[n - 1], moves[n - 1].c);
      }
    }
  }

  /**
   A GET that has its stream serves live events after as many sections as it has events to replay
   and four more, whatever the others do, unless its client goes away; the replay is then written.
   */
  lemma GetsLive(states: seq<C.System>, moves: seq<C.Move>, lastEventID: string, m: nat, n: nat)
    requires C.IsRun(states, moves) && SessionInv(states[0].session) && states[0] == C.Arrive(states[0].session, lastEventID)
    requires m <= n < |states| && states[m].conn.phase.Replaying? && Stays(moves, m, n)
    requires Sections(moves, m, n) >= |states[m].conn.phase.pending| + 4
    ensures states[n].conn.phase.Live? || states[n].conn.phase.Done?
    ensures states[n].conn.phase.Live? ==> states[m].conn.replay <= states[n].conn.written
  {
    C.NoNamelessStream(states[0].session);
    C.ArriveSound(states[0].session, lastEventID);
    AheadShrinks(states, moves, m, n);
    C.SettledRun(states, moves, m, n);
    C.ConnectionInOrder(states, moves, lastEventID, n);
  }

  // The prime event.

  /** Nothing has gone out yet to a client without a Last-Event-ID. */
  predicate Fresh(conn: C.Conn) {
    && conn.written == [] && conn.replay == [] && conn.blanks == 0
    && (conn.phase == C.Choosing("") || conn.phase == C.Replaying([], true) || conn.phase.Checking?)
  }

  /** The stream had events, so there is no prime, or it had none. */
  predicate Checked(conn: C.Conn, empty: bool) {
    match conn.phase
    case Priming => empty && conn.written == [] && conn.blanks == 0
    case Subscribing => IsPrimed(conn, empty)
    case _ => false
  }

  /** One event without data, with the stream's own number or none when the stream was closed; or nothing. */
  predicate IsPrimed(conn: C.Conn, empty: bool) {
    if empty then
      || (conn.blanks == 0 && |conn.written| == 1 && conn.written[0].data == "")
      || (conn.blanks == 1 && conn.written == [])
    else conn.blanks == 0 && conn.written == []
  }

  lemma CheckedNext(sys: C.System, move: C.Move, empty: bool)
    requires C.Ready(sys) && C.Possible(sys, move) && Checked(sys.conn, empty)
    ensures var next := C.Move1(sys, move).conn; Checked(next, empty) || next.phase.Live? || next.phase.Done?
  {
  }

  lemma FreshNext(sys: C.System, move: C.Move)
    requires C.Ready(sys) && C.Possible(sys, move) && Fresh(sys.conn)
    ensures var next := C.Move1(sys, move).conn;
            || Fresh(next) || next.phase.Done?
            || (sys.conn.phase.Checking? && move.Handler? && Checked(next, C.Served(sys).buffer == []))
  {
  }

  predicate Over(conn: C.Conn) {
    conn.phase.Live? || conn.phase.Done?
  }

  lemma OverNext(sys: C.System, move: C.Move)
    requires C.Ready(sys) && C.Possible(sys, move) && Over(sys.conn)
    ensures Over(C.Move1(sys, move).conn)
  {
  }

  lemma {:induction false} FreshRun(states: seq<C.System>, moves: seq<C.Move>, n: nat)
    requires C.IsRun(states, moves) && SessionInv(states[0].session) && states[0] == C.Arrive(states[0].session, "")
    requires n < |states|
    ensures Fresh(states[n].conn) || Over(states[n].conn) || exists empty :: Checked(states[n].conn, empty)
  {
    C.NoNamelessStream(states[0].session);
    C.ArriveSound(states[0].session, "");
    if n > 0 {
      FreshRun(states, moves, n - 1);
      C.NextIsMove(states, moves, n - 1);
      if Fresh(states[n - 1].conn) {
        FreshNext(states[n - 1], moves[n - 1]);
      } else if Over(states[n - 1].conn) {
        OverNext(states[n - 1], moves[n - 1]);
      } else {
        var empty :| Checked(states[n - 1].conn, empty);
        CheckedNext(states[n - 1], moves[n - 1], empty);
      }
    }
  }

  lemma {:induction false} CheckedRun(states: seq<C.System>, moves: seq<C.Move>, empty: bool, m: nat, n: nat)
    requires C.IsRun(states, moves) && SessionInv(states[0].session) && C.Sound(states[0])
    requires m <= n < |states| && Checked(states[m].conn, empty)
    ensures Checked(states[n].conn, empty) || Over(states[n].conn)
    decreases n
  {
    if m < n {
      CheckedRun(states, moves, empty, m, n - 1);
      C.NextIsMove(states, moves, n - 1);
      if Over(states[n - 1].conn) {
        OverNext(states[n - 1], moves[n - 1]);
      } else {
        CheckedNext(states[n - 1], moves[n - 1], empty);
      }
    }
  }

  /**
   Without a Last-Event-ID: the handler looks at the buffer of its stream once, and by the time it
   subscribes it has written one event without data if and only if the buffer was empty then.
   */
  lemma PrimedIfEmpty(states: seq<C.System>, moves: seq<C.Move>, m: nat, n: nat)
    requires C.IsRun(states, moves) && SessionInv(states[0].session) && states[0] == C.Arrive(states[0].session, "")
    requires m < n < |states| && states[m].conn.phase.Checking? && moves[m].Handler? && states[n].conn.phase.Subscribing?
    ensures states[m].conn.stream in states[m].session.objects && IsPrimed(states[n].conn, C.Served(states[m]).buffer == [])
  {
    C.NoNamelessStream(states[0].session);
    C.ArriveSound(states[0].session, "");
    FreshRun(states, moves, m);
    C.NextIsMove(states, moves, m);
    FreshNext(states[m], moves[m]);
    CheckedRun(states, moves, C.Served(states[m]).buffer == [], m + 1, n);
  }

  /** A prime on an open stream is on the wire and in its history; on a closed one it is blank and nowhere. */
  ghost predicate PrimedOnce(sys: C.System, next: C.System)
    requires sys.conn.stream in sys.session.objects && sys.conn.stream in next.session.objects
  {
    var before, after := sys.session.objects[sys.conn.stream], next.session.objects[sys.conn.stream];
    var prime := if before.closed then [] else [ES.Event(FormatEventID(sys.conn.stream, |before.history| + 1), "")];
    && next.conn.written == sys.conn.written + prime && after.history == before.history + prime
    && next.conn.blanks == sys.conn.blanks + if before.closed then 1 else 0
  }

  lemma PrimePrimes(sys: C.System)
    requires SessionInv(sys.session) && C.Ready(sys) && sys.conn.phase.Priming?
    ensures sys.conn.stream in C.Prime(sys).session.objects && PrimedOnce(sys, C.Prime(sys))
  {
    var s := C.Served(sys);
    assert ES.StreamInv(s) && s.id == sys.conn.stream;
    D.PublishReaches(s, "");
    assert C.Served(C.Prime(sys)) == ES.Publish(s, "");
  }

  /** The section that primes: the event goes out with the next number, unless the stream was closed under the handler. */
  lemma PrimeSection(states: seq<C.System>, moves: seq<C.Move>, n: nat)
    requires C.IsRun(states, moves) && SessionInv(states[0].session) && C.Sound(states[0])
    requires n < |moves| && states[n].conn.phase.Priming? && moves[n].Handler?
    ensures states[n].conn.stream in states[n].session.objects && states[n].conn.stream in states[n + 1].session.objects
    ensures PrimedOnce(states[n], states[n + 1])
  {
    C.RunSound(states, moves, n);
    C.NextIsMove(states, moves, n);
    PrimePrimes(states[n]);
  }

  // Live events.

  /** The connection serves live events through channel `c`, which still is a subscriber. */
  ghost predicate Serves(sys: C.System, c: nat) {
    && SessionInv(sys.session) && C.Ready(sys) && sys.conn.phase == C.Live(c) && c in C.Served(sys).subs
  }

  function Channel(sys: C.System, c: nat): ES.Chan
    requires sys.conn.stream in sys.session.objects && c in C.Served(sys).chans
  {
    C.Served(sys).chans[c]
  }

  /** Somebody publishes on the open stream that the connection serves. */
  predicate PublishesHere(sys: C.System, move: C.Move) {
    && move.Other? && move.step.At? && move.step.step.DoPublish? && move.step.id == sys.conn.stream
    && sys.conn.stream in sys.session.objects && !C.Served(sys).closed
  }

  /** Such a publication finds room in a channel for 32 events. */
  predicate RoomLeft(sys: C.System, move: C.Move, c: nat) {
    PublishesHere(sys, move) && c in C.Served(sys).chans ==> |Channel(sys, c).queue| < 32
  }

  /** One move, as the channel sees it: what is published goes in, what is written comes out. */
  ghost predicate Relays(sys: C.System, next: C.System, c: nat)
    requires sys.conn.stream in sys.session.objects && c in C.Served(sys).chans
    requires next.conn.stream in next.session.objects && c in C.Served(next).chans
  {
    && next.conn.stream == sys.conn.stream && C.Served(sys).history <= C.Served(next).history
    && D.Got(Channel(next, c)) == D.Got(Channel(sys, c)) + C.Served(next).history[|C.Served(sys).history|..]
    && Channel(next, c).capacity == Channel(sys, c).capacity
    && Channel(sys, c).taken <= Channel(next, c).taken
    && next.conn.written == sys.conn.written + Channel(next, c).taken[|Channel(sys, c).taken|..]
  }

  lemma OthersDoNotTake(s: ES.Stream<nat>, step: ES.Step<nat>, c: nat)
    requires ES.Enabled(s, step) && c in s.chans && step != ES.DoReceive(c)
    ensures c in ES.Next(s, step).chans && ES.Next(s, step).chans[c].taken == s.chans[c].taken
  {
  }

  /** A section of another handler on the served stream. */
  lemma OnStreamRelays(sys: C.System, step: ES.Step<nat>, next: C.System, c: nat)
    requires SessionInv(sys.session) && C.Ready(sys) && sys.conn.phase == C.Live(c)
    requires ES.Enabled(C.Served(sys), step) && step != ES.DoReceive(c)
    requires next.conn == sys.conn && next.conn.stream in next.session.objects && C.Served(next) == ES.Next(C.Served(sys), step)
    requires c in C.Served(next).subs && D.HasRoom(C.Served(sys), step, c)
    ensures c in C.Served(sys).subs && c in C.Served(next).chans && Relays(sys, next, c)
  {
    assert ES.StreamInv(C.Served(sys));
    D.GotStep(C.Served(sys), step, c);
    OthersDoNotTake(C.Served(sys), step, c);
  }

  lemma Untouched(sys: C.System, next: C.System, c: nat)
    requires C.Ready(sys) && sys.conn.phase == C.Live(c) && next.conn == sys.conn && next.conn.stream in next.session.objects
    requires C.Served(next).history == C.Served(sys).history && C.Served(next).chans == C.Served(sys).chans
    ensures Relays(sys, next, c)
  {
  }

  lemma OpenKeepsSubscribers(session: Session, kind: string, id: string)
    requires SessionInv(session) && IsKind(kind) && id in session.objects
    ensures id in OpenStream(session, kind).0.objects && OpenStream(session, kind).0.objects[id].subs == session.objects[id].subs
  {
    FirstAttachedIsAttached(session.registry.listenIDs, session.registry.attached);
    if !Reuses(session.registry, kind) {
      FreshStreamID(session, kind);
    }
  }

  lemma AtRelays(sys: C.System, inner: ES.Step<nat>, next: C.System, c: nat)
    requires SessionInv(sys.session) && C.Ready(sys) && sys.conn.phase == C.Live(c)
    requires C.Possible(sys, C.Other(At(sys.conn.stream, inner))) && next == C.Move1(sys, C.Other(At(sys.conn.stream, inner)))
    requires Serves(next, c) && RoomLeft(sys, C.Other(At(sys.conn.stream, inner)), c) && Channel(sys, c).capacity == 32
    ensures c in C.Served(next).chans && Relays(sys, next, c)
  {
    assert D.HasRoom(C.Served(sys), inner, c);
    OnStreamRelays(sys, inner, next, c);
  }

  lemma ElsewhereRelays(sys: C.System, id: string, inner: ES.Step<nat>, next: C.System, c: nat)
    requires C.Ready(sys) && sys.conn.phase == C.Live(c) && id != sys.conn.stream
    requires C.Possible(sys, C.Other(At(id, inner))) && next == C.Move1(sys, C.Other(At(id, inner)))
    ensures next.conn.stream in next.session.objects && c in C.Served(next).chans && Relays(sys, next, c)
  {
    Untouched(sys, next, c);
  }

  lemma OpenRelays(sys: C.System, kind: string, next: C.System, c: nat)
    requires SessionInv(sys.session) && C.Ready(sys) && sys.conn.phase == C.Live(c) && IsKind(kind)
    requires next == sys.(session := OpenStream(sys.session, kind).0)
    ensures next.conn.stream in next.session.objects && c in C.Served(next).chans && Relays(sys, next, c)
  {
    C.OpenKeepsStreams(sys.session, kind);
    Untouched(sys, next, c);
  }

  lemma ClosedHasNone(s: ES.Stream<nat>)
    requires s.closed ==> s.subs == {}
    ensures ES.Close(s).subs == {}
  {
  }

  lemma FinishRelays(sys: C.System, id: string, next: C.System, c: nat)
    requires C.Ready(sys) && sys.conn.phase == C.Live(c) && id != sys.conn.stream
    requires id in sys.session.objects && sys.session.objects[id].subs <= sys.session.objects[id].chans.Keys
    requires next == sys.(session := FinishClosing(sys.session, id))
    ensures next.conn.stream in next.session.objects && c in C.Served(next).chans && Relays(sys, next, c)
  {
    Untouched(sys, next, c);
  }

  lemma FinishEnds(sys: C.System, c: nat)
    requires SessionInv(sys.session) && C.Ready(sys) && sys.conn.phase == C.Live(c)
    ensures sys.conn.stream in FinishClosing(sys.session, sys.conn.stream).objects
    ensures FinishClosing(sys.session, sys.conn.stream).objects[sys.conn.stream].subs == {}
  {
    ClosedHasNone(C.Served(sys));
  }

  lemma OtherRelays(sys: C.System, step: Sessions.Step<nat>, next: C.System, c: nat)
    requires SessionInv(sys.session) && C.Ready(sys) && sys.conn.phase == C.Live(c) && C.Possible(sys, C.Other(step))
    requires next == C.Move1(sys, C.Other(step)) && Serves(next, c)
    requires RoomLeft(sys, C.Other(step), c) && Channel(sys, c).capacity == 32
    ensures c in C.Served(next).chans && Relays(sys, next, c)
  {
    match step
    case Open(kind) => OpenRelays(sys, kind, next, c);
    case At(id, inner) =>
      if id == sys.conn.stream {
        AtRelays(sys, inner, next, c);
      } else {
        ElsewhereRelays(sys, id, inner, next, c);
      }
    case Finish(id) =>
      if id == sys.conn.stream {
        FinishEnds(sys, c);
      } else {
        FinishRelays(sys, id, next, c);
      }
    case _ => Untouched(sys, next, c);
  }

  lemma ReceiveTakes(s: ES.Stream<nat>, c: nat)
    requires ES.StreamInv(s) && c in s.subs && s.chans[c].queue != []
    ensures var t, ch := ES.Next(s, ES.DoReceive(c)), s.chans[c];
            && c in t.chans && t.history == s.history && t.chans[c].capacity == ch.capacity
            && D.Got(t.chans[c]) == D.Got(ch) && t.chans[c].taken == ch.taken + [ch.queue[0]]
  {
    D.TakenStep(s.chans[c]);
  }

  lemma TakeRelays(sys: C.System, next: C.System, c: nat)
    requires Serves(sys, c) && Channel(sys, c).queue != [] && next == C.Listen(sys)
    ensures next.conn.stream in next.session.objects && c in C.Served(next).chans && Relays(sys, next, c)
  {
    var s, ch := C.Served(sys), Channel(sys, c);
    assert ES.StreamInv(s);
    ReceiveTakes(s, c);
    assert C.Served(next) == ES.Next(s, ES.DoReceive(c)) && next.conn == C.Write(sys.conn, ch.queue[0]);
    NothingNew(s.history);
    OneTaken(ch.taken, ch.queue[0]);
  }

  lemma NothingNew<T>(history: seq<T>)
    ensures history[|history|..] == []
  {
  }

  lemma OneTaken<T>(taken: seq<T>, x: T)
    ensures (taken + [x])[|taken|..] == [x]
  {
  }

  lemma IdleRelays(sys: C.System, next: C.System, c: nat)
    requires Serves(sys, c) && Channel(sys, c).queue == [] && next == C.Listen(sys) && next.conn.phase.Live?
    ensures next.conn.stream in next.session.objects && c in C.Served(next).chans && Relays(sys, next, c)
  {
    Untouched(sys, next, c);
  }

  lemma ListenRelays(sys: C.System, d: nat, next: C.System, c: nat)
    requires Serves(sys, c) && C.Possible(sys, C.Handler(d)) && next == C.Move1(sys, C.Handler(d)) && Serves(next, c)
    ensures c in C.Served(next).chans && Relays(sys, next, c)
  {
    if Channel(sys, c).queue != [] {
      TakeRelays(sys, next, c);
    } else {
      IdleRelays(sys, next, c);
    }
  }

  /** At moment `i` the connection serves events from channel `c`, and the next move does not find it full. */
  ghost predicate ServesAt(states: seq<C.System>, moves: seq<C.Move>, c: nat, i: nat) {
    i < |states| && Serves(states[i], c) && (i < |moves| ==> RoomLeft(states[i], moves[i], c))
  }

  /** The handler subscribes in its section `m`, gets channel `c`, and serves events from it up to moment `n`. */
  ghost predicate Attentive(states: seq<C.System>, moves: seq<C.Move>, c: nat, m: nat, n: nat) {
    && m < n < |states| && m < |moves| && states[m].conn.phase.Subscribing? && moves[m] == C.Handler(c)
    && (forall i: nat | m < i < n :: ServesAt(states, moves, c, i)) && Serves(states[n], c)
  }

  lemma Since<T>(history: seq<T>, more: seq<T>, n: nat)
    requires n <= |history| && history <= more
    ensures history[n..] + more[|history|..] == more[n..]
  {
  }

  lemma TakenSince<T>(before: seq<T>, taken: seq<T>, more: seq<T>)
    requires taken <= more
    ensures before + taken + more[|taken|..] == before + more
  {
  }

  /** What the connection has written and has queued since it subscribed. */
  ghost predicate Caught(sys: C.System, c: nat, written: seq<ES.Event>, from: nat) {
    && sys.conn.stream in sys.session.objects && c in C.Served(sys).chans && from <= |C.Served(sys).history|
    && sys.conn.written == written + Channel(sys, c).taken
    && D.Got(Channel(sys, c)) == C.Served(sys).history[from..]
    && Channel(sys, c).capacity == 32
  }

  lemma SubscribeCatches(sys: C.System, c: nat, next: C.System)
    requires SessionInv(sys.session) && C.Ready(sys) && sys.conn.phase.Subscribing? && C.Possible(sys, C.Handler(c))
    requires next == C.Move1(sys, C.Handler(c))
    ensures next.conn.stream == sys.conn.stream && Caught(next, c, sys.conn.written, |C.Served(sys).history|)
  {
    assert C.Served(next) == ES.Subscribe(C.Served(sys), c, 32);
    assert sys.conn.written + [] == sys.conn.written;
  }

  lemma RelaysCatch(sys: C.System, next: C.System, c: nat, written: seq<ES.Event>, from: nat)
    requires Caught(sys, c, written, from) && next.conn.stream in next.session.objects && c in C.Served(next).chans
    requires Relays(sys, next, c)
    ensures Caught(next, c, written, from)
  {
    Since(C.Served(sys).history, C.Served(next).history, from);
    TakenSince(written, Channel(sys, c).taken, Channel(next, c).taken);
  }

  lemma MoveRelays(sys: C.System, move: C.Move, next: C.System, c: nat)
    requires Serves(sys, c) && C.Possible(sys, move) && next == C.Move1(sys, move) && Serves(next, c) && !move.Gone?
    requires RoomLeft(sys, move, c) && Channel(sys, c).capacity == 32
    ensures c in C.Served(next).chans && Relays(sys, next, c)
  {
    match move
    case Handler(d) => ListenRelays(sys, d, next, c);
    case Other(step) => OtherRelays(sys, step, next, c);
  }

  lemma MoveCatches(sys: C.System, move: C.Move, next: C.System, c: nat, written: seq<ES.Event>, from: nat)
    requires Serves(sys, c) && C.Possible(sys, move) && next == C.Move1(sys, move) && Serves(next, c) && !move.Gone?
    requires RoomLeft(sys, move, c) && Caught(sys, c, written, from)
    ensures next.conn.stream == sys.conn.stream && Caught(next, c, written, from)
  {
    MoveRelays(sys, move, next, c);
    RelaysCatch(sys, next, c, written, from);
  }

  ghost predicate Passes(states: seq<C.System>, moves: seq<C.Move>, c: nat, i: nat) {
    && i < |moves| && i + 1 < |states| && Serves(states[i], c) && Serves(states[i + 1], c) && RoomLeft(states[i], moves[i], c)
    && C.Possible(states[i], moves[i]) && states[i + 1] == C.Move1(states[i], moves[i])
  }

  lemma PassesAt(states: seq<C.System>, moves: seq<C.Move>, c: nat, m: nat, n: nat, i: nat)
    requires C.IsRun(states, moves) && SessionInv(states[0].session) && C.Sound(states[0])
    requires Attentive(states, moves, c, m, n) && m < i < n
    ensures Passes(states, moves, c, i)
  {
    C.NextIsMove(states, moves, i);
    assert ServesAt(states, moves, c, i);
    assert i + 1 < n ==> ServesAt(states, moves, c, i + 1);
  }

  lemma PassCatches(states: seq<C.System>, moves: seq<C.Move>, c: nat, i: nat, written: seq<ES.Event>, from: nat)
    requires Passes(states, moves, c, i) && Caught(states[i], c, written, from)
    ensures states[i + 1].conn.stream == states[i].conn.stream && Caught(states[i + 1], c, written, from)
  {
    MoveCatches(states[i], moves[i], states[i + 1], c, written, from);
  }

  lemma {:induction false} Carried(good: nat -> bool, m: nat, n: nat)
    requires m <= n && good(m) && forall i: nat | m <= i < n && good(i) :: good(i + 1)
    ensures good(n)
    decreases n
  {
    if m < n {
      Carried(good, m, n - 1);
    }
  }

  /** The invariant as a property of moments. */
  ghost function CaughtAt(states: seq<C.System>, c: nat, stream: string, written: seq<ES.Event>, from: nat): nat -> bool {
    (i: nat) => i < |states| && states[i].conn.stream == stream && Caught(states[i], c, written, from)
  }

  lemma CaughtOneMore(states: seq<C.System>, moves: seq<C.Move>, c: nat, i: nat, stream: string, written: seq<ES.Event>, from: nat)
    requires Passes(states, moves, c, i) && CaughtAt(states, c, stream, written, from)(i)
    ensures CaughtAt(states, c, stream, written, from)(i + 1)
  {
    PassCatches(states, moves, c, i, written, from);
  }

  lemma CaughtFirst(states: seq<C.System>, moves: seq<C.Move>, c: nat, m: nat)
    requires C.IsRun(states, moves) && SessionInv(states[0].session) && C.Sound(states[0])
    requires m < |moves| && states[m].conn.phase.Subscribing? && moves[m] == C.Handler(c)
    ensures states[m].conn.stream in states[m].session.objects && states[m + 1].conn.stream == states[m].conn.stream
    ensures Caught(states[m + 1], c, states[m].conn.written, |C.Served(states[m]).history|)
  {
    C.RunSound(states, moves, m);
    C.NextIsMove(states, moves, m);
    SubscribeCatches(states[m], c, states[m + 1]);
  }

  /**
   A live connection whose channel was never full at a publication has written, or has queued, exactly
   what its stream has published since it subscribed, behind what it had written before.
   */
  lemma NothingMissed(states: seq<C.System>, moves: seq<C.Move>, c: nat, m: nat, n: nat)
    requires C.IsRun(states, moves) && SessionInv(states[0].session) && C.Sound(states[0])
    requires Attentive(states, moves, c, m, n)
    ensures states[m].conn.stream in states[m].session.objects && states[n].conn.stream == states[m].conn.stream
    ensures Delivered(states[n], c, states[m].conn.written, |C.Served(states[m]).history|)
  {
    CaughtFirst(states, moves, c, m);
    var stream, written, from := states[m].conn.stream, states[m].conn.written, |C.Served(states[m]).history|;
    var good := CaughtAt(states, c, stream, written, from);
    forall i: nat | m + 1 <= i < n && good(i)
      ensures good(i + 1)
    {
      PassesAt(states, moves, c, m, n, i);
      CaughtOneMore(states, moves, c, i, stream, written, from);
    }
    Carried(good, m + 1, n);
    CaughtIsDelivered(states[n], c, written, from);
  }

  /** On the wire are these events and then, but for what is queued in the channel, the stream's history from that place on. */
  ghost predicate Delivered(sys: C.System, c: nat, written: seq<ES.Event>, from: nat) {
    && sys.conn.stream in sys.session.objects && c in C.Served(sys).chans && from <= |C.Served(sys).history|
    && sys.conn.written + C.Served(sys).chans[c].queue == written + C.Served(sys).history[from..]
  }

  lemma CaughtIsDelivered(sys: C.System, c: nat, written: seq<ES.Event>, from: nat)
    requires Caught(sys, c, written, from)
    ensures Delivered(sys, c, written, from)
  {
    var ch := Channel(sys, c);
    assert written + ch.taken + ch.queue == written + D.Got(ch);
  }

  /** What one section does: it writes what was queued first; without anything queued it ends if the channel was closed. */
  predicate Listened(ch: ES.Chan, before: C.Conn, after: C.Conn) {
    if ch.queue != [] then after == before.(written := before.written + [ch.queue[0]])
    else if ch.closed then after == before.(phase := C.Done)
    else after == before
  }

  lemma ListenStep(sys: C.System, c: nat)
    requires C.Ready(sys) && sys.conn.phase == C.Live(c)
    ensures Listened(Channel(sys, c), sys.conn, C.Listen(sys).conn)
    ensures Channel(sys, c).queue == [] ==> C.Listen(sys).session == sys.session
  {
  }

  /** Each section of a live connection gets on with what is queued for it. */
  lemma LiveSection(states: seq<C.System>, moves: seq<C.Move>, c: nat, n: nat)
    requires C.IsRun(states, moves) && SessionInv(states[0].session) && C.Sound(states[0])
    requires n < |moves| && states[n].conn.phase == C.Live(c) && moves[n].Handler?
    ensures states[n].conn.stream in states[n].session.objects && c in C.Served(states[n]).chans
    ensures Listened(Channel(states[n], c), states[n].conn, states[n + 1].conn)
  {
    C.RunSound(states, moves, n);
    C.NextIsMove(states, moves, n);
    LiveMove(states[n], moves[n], states[n + 1], c);
  }

  lemma LiveMove(sys: C.System, move: C.Move, next: C.System, c: nat)
    requires C.Ready(sys) && C.Possible(sys, move) && next == C.Move1(sys, move)
    requires sys.conn.phase == C.Live(c) && move.Handler?
    ensures Listened(Channel(sys, c), sys.conn, next.conn)
  {
    ListenStep(sys, c);
  }

  ghost predicate NotSubscribed(sys: C.System, stream: string, c: nat) {
    stream in sys.session.objects && c !in sys.session.objects[stream].subs
  }

  lemma HangUpLeaves(sys: C.System, c: nat)
    requires SessionInv(sys.session) && C.Ready(sys) && sys.conn.phase == C.Live(c)
    ensures C.HangUp(sys).conn.phase.Done? && NotSubscribed(C.HangUp(sys), sys.conn.stream, c)
  {
    assert ES.StreamInv(C.Served(sys));
  }

  lemma EndLeaves(sys: C.System, c: nat)
    requires SessionInv(sys.session) && C.Ready(sys) && sys.conn.phase == C.Live(c) && C.Listen(sys).conn.phase.Done?
    ensures NotSubscribed(C.Listen(sys), sys.conn.stream, c)
  {
    ListenStep(sys, c);
    ClosedIsNone(C.Served(sys), c);
  }

  lemma MoveLeaves(sys: C.System, move: C.Move, next: C.System, c: nat)
    requires SessionInv(sys.session) && C.Ready(sys) && C.Possible(sys, move) && next == C.Move1(sys, move)
    requires sys.conn.phase == C.Live(c) && (move.Gone? || next.conn.phase.Done?)
    ensures next.conn.phase.Done? && NotSubscribed(next, sys.conn.stream, c)
  {
    match move
    case Gone => HangUpLeaves(sys, c);
    case Handler(_) => EndLeaves(sys, c);
    case Other(_) =>
  }

  /** However a live connection ends, its channel is no longer a subscriber. */
  lemma NoSubscriberLeft(states: seq<C.System>, moves: seq<C.Move>, c: nat, n: nat)
    requires C.IsRun(states, moves) && SessionInv(states[0].session) && C.Sound(states[0])
    requires n < |moves| && states[n].conn.phase == C.Live(c) && (moves[n].Gone? || states[n + 1].conn.phase.Done?)
    ensures states[n + 1].conn.phase.Done? && NotSubscribed(states[n + 1], states[n].conn.stream, c)
  {
    C.RunSound(states, moves, n);
    C.NextIsMove(states, moves, n);
    MoveLeaves(states[n], moves[n], states[n + 1], c);
  }

  lemma ClosedIsNone(s: ES.Stream<nat>, c: nat)
    requires ES.StreamInv(s) && c in s.chans
    ensures s.chans[c].closed <==> c !in s.subs
  {
  }

  // The gap between the replay and the subscription.

  /** The handler is on its way through the replay, without a prime, or has written all of it and nothing else. */
  predicate Unprimed(conn: C.Conn) {
    match conn.phase
    case Replaying(pending, prime) => !prime && conn.written + pending == conn.replay
    case Subscribing => conn.written == conn.replay
    case Live(_) => true
    case Done => true
    case _ => false
  }

  lemma UnprimedNext(sys: C.System, move: C.Move)
    requires C.Ready(sys) && C.Possible(sys, move) && Unprimed(sys.conn)
    ensures Unprimed(C.Move1(sys, move).conn)
  {
    if move.Handler? && sys.conn.phase.Replaying? && sys.conn.phase.pending != [] {
      var pending := sys.conn.phase.pending;
      assert sys.conn.written + pending == sys.conn.written + [pending[0]] + pending[1..];
    }
  }

  lemma {:induction false} UnprimedRun(states: seq<C.System>, moves: seq<C.Move>, m: nat, n: nat)
    requires C.IsRun(states, moves) && SessionInv(states[0].session) && C.Sound(states[0])
    requires m <= n < |states| && Unprimed(states[m].conn)
    ensures Unprimed(states[n].conn)
    decreases n
  {
    if m < n {
      UnprimedRun(states, moves, m, n - 1);
      C.NextIsMove(states, moves, n - 1);
      UnprimedNext(states[n - 1], moves[n - 1]);
    }
  }

  lemma SeamIff<T>(early: seq<T>, middle: seq<T>, late: seq<T>, k: nat)
    requires k <= |early| && early <= middle && middle <= late
    ensures early[k..] + late[|middle|..] == late[k..] <==> |middle| == |early|
  {
    assert late[k..] == early[k..] + late[|early|..];
    assert |late[|middle|..]| == |late| - |middle|;
  }

  /** What is on the wire or on its way to it. */
  function OutOrQueued(sys: C.System, c: nat): seq<ES.Event>
    requires sys.conn.stream in sys.session.objects && c in C.Served(sys).chans
  {
    sys.conn.written + C.Served(sys).chans[c].queue
  }

  /** Each move is a section of the session, so no stream is forgotten and no history rewritten. */
  lemma MoveExtends(sys: C.System, move: C.Move)
    requires SessionInv(sys.session) && C.Ready(sys) && C.Possible(sys, move)
    ensures Extends(sys.session, C.Move1(sys, move).session)
  {
    match move
    case Other(step) => NextSessionExtends(sys.session, step);
    case Gone =>
      var step := S.GoneStep(sys.session, sys.conn);
      NextSessionExtends(sys.session, step);
      S.IdleIsIdle(sys.session);
    case Handler(c) =>
      S.GetSteps(sys.session, S.Get(sys.conn), c);
      NextSessionExtends(sys.session, S.GetStep(sys.session, sys.conn, c));
  }

  lemma ExtendsAt(states: seq<C.System>, moves: seq<C.Move>, i: nat)
    requires C.IsRun(states, moves) && SessionInv(states[0].session) && C.Sound(states[0]) && i < |moves|
    ensures Extends(states[i].session, states[i + 1].session)
  {
    C.RunSound(states, moves, i);
    C.NextIsMove(states, moves, i);
    MoveExtends(states[i], moves[i]);
  }

  lemma ExtendsOn(a: Session, b: Session, c: Session)
    requires Extends(a, b) && Extends(b, c)
    ensures Extends(a, c)
  {
  }

  ghost function ExtendsFrom(session: Session, states: seq<C.System>): nat -> bool {
    (i: nat) => i < |states| && Extends(session, states[i].session)
  }

  lemma RunExtends(states: seq<C.System>, moves: seq<C.Move>, m: nat, n: nat)
    requires C.IsRun(states, moves) && SessionInv(states[0].session) && C.Sound(states[0]) && m <= n < |states|
    ensures Extends(states[m].session, states[n].session)
  {
    var good := ExtendsFrom(states[m].session, states);
    forall i: nat | m <= i < n && good(i)
      ensures good(i + 1)
    {
      ExtendsAt(states, moves, i);
      ExtendsOn(states[m].session, states[i].session, states[i + 1].session);
    }
    Carried(good, m, n);
  }

  /** The client names event `k` of a stream in the map, and the handler takes the replay in its second section. */
  ghost predicate Resumes(states: seq<C.System>, moves: seq<C.Move>, lastEventID: string, stream: string, k: nat, first: nat, taken: nat) {
    && R.FirstActs(states, moves, lastEventID, first) && ParseEventID(lastEventID) == Some((stream, k))
    && stream in states[first].session.registry.attached
    && first < taken < |moves| && R.Waits(moves, first + 1, taken) && moves[taken].Handler?
  }

  /** The length of the stream's history at a moment. */
  function Length(sys: C.System, stream: string): nat {
    if stream in sys.session.objects then |sys.session.objects[stream].history| else 0
  }

  lemma ReplayTaken(states: seq<C.System>, moves: seq<C.Move>, lastEventID: string, stream: string, k: nat, first: nat, taken: nat)
    requires Resumes(states, moves, lastEventID, stream, k, first, taken)
    requires stream in states[taken].session.objects && Length(states[taken], stream) <= INT64_MAX
    ensures C.Sound(states[0]) && |states[taken].session.objects[stream].buffer| <= Length(states[taken], stream)
    ensures var conn := states[taken + 1].conn;
            && conn.stream == stream && conn.written == [] && conn.phase == C.Replaying(conn.replay, false)
            && conn.replay == R.BeyondInBuffer(states[taken].session.objects[stream], k)
  {
    R.FirstSection(states, moves, lastEventID, first);
    R.SecondReplays(states, moves, lastEventID, stream, k, first, taken);
  }

  lemma ReplayKept(states: seq<C.System>, moves: seq<C.Move>, m: nat, n: nat)
    requires C.IsRun(states, moves) && SessionInv(states[0].session) && C.Sound(states[0]) && m <= n < |states|
    requires states[m].conn.written == [] && states[m].conn.phase == C.Replaying(states[m].conn.replay, false)
    requires states[n].conn.phase.Subscribing?
    ensures states[n].conn.stream == states[m].conn.stream && states[n].conn.written == states[m].conn.replay
  {
    StartsUnprimed(states[m].conn);
    UnprimedRun(states, moves, m, n);
    C.SettledRun(states, moves, m, n);
  }

  lemma StartsUnprimed(conn: C.Conn)
    requires conn.written == [] && conn.phase == C.Replaying(conn.replay, false)
    ensures Unprimed(conn)
  {
    assert [] + conn.replay == conn.replay;
  }

  lemma WrittenWhenMade(states: seq<C.System>, moves: seq<C.Move>, lastEventID: string, stream: string, k: nat, first: nat, taken: nat,
                        made: nat)
    requires Resumes(states, moves, lastEventID, stream, k, first, taken) && taken < made < |states| && states[made].conn.phase.Subscribing?
    requires stream in states[taken].session.objects && Length(states[taken], stream) <= INT64_MAX
    ensures C.Sound(states[0]) && |states[taken].session.objects[stream].buffer| <= Length(states[taken], stream)
    ensures states[made].conn.stream == stream
    ensures states[made].conn.written == R.BeyondInBuffer(states[taken].session.objects[stream], k)
  {
    ReplayTaken(states, moves, lastEventID, stream, k, first, taken);
    ReplayKept(states, moves, taken + 1, made);
  }

  /** What has been sent to a client that resumed: its replay, and what the stream published since the subscription. */
  lemma SentOverGap(states: seq<C.System>, moves: seq<C.Move>, lastEventID: string, stream: string, k: nat, first: nat, taken: nat,
                    c: nat, made: nat, now: nat)
    requires Resumes(states, moves, lastEventID, stream, k, first, taken) && taken < made && Attentive(states, moves, c, made, now)
    requires stream in states[taken].session.objects && Length(states[taken], stream) <= INT64_MAX
    ensures C.Sound(states[0]) && |states[taken].session.objects[stream].buffer| <= Length(states[taken], stream)
    ensures stream in states[made].session.objects && stream in states[now].session.objects && states[now].conn.stream == stream
    ensures c in C.Served(states[now]).chans && Length(states[made], stream) <= Length(states[now], stream)
    ensures OutOrQueued(states[now], c) ==
              R.BeyondInBuffer(states[taken].session.objects[stream], k)
              + states[now].session.objects[stream].history[Length(states[made], stream)..]
  {
    WrittenWhenMade(states, moves, lastEventID, stream, k, first, taken, made);
    NothingMissed(states, moves, c, made, now);
  }

  lemma BufferAt(states: seq<C.System>, moves: seq<C.Move>, stream: string, i: nat)
    requires C.IsRun(states, moves) && SessionInv(states[0].session) && C.Sound(states[0]) && i < |states|
    requires stream in states[i].session.objects
    ensures ES.BufferInv(states[i].session.objects[stream])
  {
    C.RunSound(states, moves, i);
    assert ES.StreamInv(states[i].session.objects[stream]);
  }

  lemma HistoryAt(states: seq<C.System>, moves: seq<C.Move>, stream: string, m: nat, n: nat)
    requires C.IsRun(states, moves) && SessionInv(states[0].session) && C.Sound(states[0]) && m <= n < |states|
    requires stream in states[m].session.objects
    ensures stream in states[n].session.objects
    ensures states[m].session.objects[stream].history <= states[n].session.objects[stream].history
  {
    RunExtends(states, moves, m, n);
  }

  /**
   A client that resumes after event `k`, which the buffer still reaches, and whose channel is never found
   full, has been sent everything after `k`, or has it queued, if and only if nothing was published between
   the section that takes the replay and the one that subscribes.
   */
  lemma NothingInTheGap(states: seq<C.System>, moves: seq<C.Move>, lastEventID: string, stream: string, k: nat, first: nat, taken: nat,
                        c: nat, made: nat, now: nat)
    requires Resumes(states, moves, lastEventID, stream, k, first, taken) && taken < made && Attentive(states, moves, c, made, now)
    requires stream in states[taken].session.objects && k <= Length(states[taken], stream) <= INT64_MAX
    requires Length(states[taken], stream) <= k + |states[taken].session.objects[stream].buffer|
    ensures stream in states[now].session.objects && states[now].conn.stream == stream && c in C.Served(states[now]).chans
    ensures k <= Length(states[now], stream)
    ensures OutOrQueued(states[now], c) == states[now].session.objects[stream].history[k..] <==>
              Length(states[made], stream) == Length(states[taken], stream)
  {
    SentOverGap(states, moves, lastEventID, stream, k, first, taken, c, made, now);
    BufferAt(states, moves, stream, taken);
    HistoryAt(states, moves, stream, taken, made);
    HistoryAt(states, moves, stream, made, now);
    var early, middle := states[taken].session.objects[stream], states[made].session.objects[stream];
    var late := states[now].session.objects[stream];
    TailBeyond(early, k);
    SeamIff(early.history, middle.history, late.history, k);
  }

  lemma TailBeyond(s: ES.Stream<nat>, k: nat)
    requires ES.BufferInv(s) && k <= |s.history| <= k + |s.buffer| && |s.buffer| <= |s.history|
    ensures R.BeyondInBuffer(s, k) == s.history[k..]
  {
    var dropped := |s.history| - |s.buffer|;
    assert s.buffer == s.history[dropped..];
    assert s.history[dropped..][k - dropped..] == s.history[k..];
  }
}
