/**
 One GET connection among everything else that happens in its session: the steps of
 handleGET, interleaved with any sections that other handlers run.
 */
module Connection {
  import opened Wrappers
  import opened EventIds
  import ES = EventStream
  import opened Sessions

  type Session = Sessions.Session<nat>

  /** Where the handler is. A channel is named by a number. */
  datatype Phase =
    | Choosing(lastEventID: string)
    | Found(lastEventID: string, k: int)
    | Replaying(pending: seq<ES.Event>, prime: bool)
    | Checking
    | Priming
    | Subscribing
    | Live(c: nat)
    | Done

  /**
   `stream` is the stream being served once it is chosen, `replay` what eventsAfter
   returned, `floor` the number the client resumed from, `written` the events on the
   wire. `blanks` counts prime events that went out without an ID because the stream
   had been closed under the handler.
   */
  datatype Conn = Conn(
    phase: Phase,
    stream: string,
    replay: seq<ES.Event>,
    floor: int,
    written: seq<ES.Event>,
    blanks: nat)

  datatype System = System(session: Session, conn: Conn)

  function Arrive(session: Session, lastEventID: string): System {
    System(session, Conn(Choosing(lastEventID), "", [], 0, [], 0))
  }

  const SUBSCRIBER_BUFFER := 32

  ghost predicate ChannelUnused(session: Session, c: nat) {
    forall id | id in session.objects :: c !in session.objects[id].chans
  }

  function Served(sys: System): ES.Stream<nat>
    requires sys.conn.stream in sys.session.objects
  {
    sys.session.objects[sys.conn.stream]
  }

  /** openStream("listen"), with or without a prime event to follow. */
  function UseListen(sys: System, prime: bool): System
    requires sys.session.registry.attached <= sys.session.objects.Keys
  {
    var (session, id) := OpenStream(sys.session, LISTEN);
    System(session, sys.conn.(phase := Replaying([], prime), stream := id))
  }

  function Choose(sys: System, lastEventID: string): System
    requires sys.session.registry.attached <= sys.session.objects.Keys
  {
    if lastEventID == "" then UseListen(sys, true)
    else
      match ParseEventID(lastEventID)
      case None => sys.(conn := sys.conn.(phase := Done))
      case Some((streamID, k)) =>
        if streamID in sys.session.registry.attached
        then sys.(conn := sys.conn.(phase := Found(lastEventID, k), stream := streamID))
        else UseListen(sys, false)
  }

  function Resume(sys: System, lastEventID: string, k: int): System
    requires sys.conn.stream in sys.session.objects
  {
    var s := sys.session.objects[sys.conn.stream];
    match ES.EventsAfter(s, lastEventID)
    case Err(_) => sys.(conn := sys.conn.(phase := Done))
    case Ok(events) =>
      sys.(conn := sys.conn.(phase := Replaying(events, false), replay := events, floor := if k <= s.seqNo then k else 0))
  }

  function Write(conn: Conn, ev: ES.Event): Conn {
    conn.(written := conn.written + [ev])
  }

  function Replay(conn: Conn): Conn
    requires conn.phase.Replaying?
  {
    if conn.phase.pending != [] then
      Write(conn, conn.phase.pending[0]).(phase := Replaying(conn.phase.pending[1..], conn.phase.prime))
    else conn.(phase := if conn.phase.prime then Checking else Subscribing)
  }

  function Prime(sys: System): System
    requires sys.conn.stream in sys.session.objects
    requires sys.session.objects[sys.conn.stream].subs <= sys.session.objects[sys.conn.stream].chans.Keys
  {
    var s := sys.session.objects[sys.conn.stream];
    var conn := sys.conn.(phase := Subscribing);
    System(OnStream(sys.session, sys.conn.stream, ES.DoPublish("")),
           if s.closed then conn.(blanks := conn.blanks + 1) else Write(conn, ES.NextEvent(s, "")))
  }

  function Listen(sys: System): System
    requires sys.conn.phase.Live? && sys.conn.stream in sys.session.objects
    requires sys.conn.phase.c in sys.session.objects[sys.conn.stream].chans
    requires sys.session.objects[sys.conn.stream].subs <= sys.session.objects[sys.conn.stream].chans.Keys
  {
    var ch := sys.session.objects[sys.conn.stream].chans[sys.conn.phase.c];
    if ch.queue != [] then
      System(OnStream(sys.session, sys.conn.stream, ES.DoReceive(sys.conn.phase.c)), Write(sys.conn, ch.queue[0]))
    else if ch.closed then sys.(conn := sys.conn.(phase := Done))
    else sys
  }

  /** What the sections take for granted. */
  ghost predicate Ready(sys: System) {
    && sys.session.registry.attached <= sys.session.objects.Keys
    && (!sys.conn.phase.Choosing? && !sys.conn.phase.Done? ==> sys.conn.stream in sys.session.objects)
    && (sys.conn.stream in sys.session.objects ==> Served(sys).subs <= Served(sys).chans.Keys)
    && (sys.conn.phase.Live? ==> sys.conn.phase.c in Served(sys).chans)
  }

  /** The handler's next section; `c` names the channel it makes when it subscribes. */
  ghost function Advance(sys: System, c: nat): System
    requires Ready(sys)
  {
    match sys.conn.phase
    case Choosing(lastEventID) => Choose(sys, lastEventID)
    case Found(lastEventID, k) => Resume(sys, lastEventID, k)
    case Replaying(_, _) => sys.(conn := Replay(sys.conn))
    case Checking =>
      sys.(conn := sys.conn.(phase := if sys.session.objects[sys.conn.stream].buffer == [] then Priming else Subscribing))
    case Priming => Prime(sys)
    case Subscribing =>
      System(OnStream(sys.session, sys.conn.stream, ES.DoSubscribe(c, SUBSCRIBER_BUFFER)), sys.conn.(phase := Live(c)))
    case Live(_) => Listen(sys)
    case Done => sys
  }

  /** The client goes away or a write fails. */
  ghost function HangUp(sys: System): System
    requires Ready(sys)
  {
    System(
      if sys.conn.phase.Live? then OnStream(sys.session, sys.conn.stream, ES.DoUnsubscribe(sys.conn.phase.c)) else sys.session,
      sys.conn.(phase := Done))
  }

  datatype Move = Handler(c: nat) | Gone | Other(step: Sessions.Step<nat>)

  /** Nobody else receives from, or unsubscribes, this connection's channel; `Server.GetPart` proves it of all handlers. */
  ghost predicate Possible(sys: System, move: Move) {
    match move
    case Handler(c) => ChannelUnused(sys.session, c)
    case Gone => true
    case Other(step) =>
      && Allowed(sys.session, step)
      && (sys.conn.phase.Live? && step.At? ==>
            step.step != ES.DoReceive(sys.conn.phase.c) && step.step != ES.DoUnsubscribe(sys.conn.phase.c))
  }

  ghost function Move1(sys: System, move: Move): System
    requires Ready(sys) && Possible(sys, move)
  {
    match move
    case Handler(c) => Advance(sys, c)
    case Gone => HangUp(sys)
    case Other(step) => sys.(session := NextSession(sys.session, step))
  }

  // What holds in every state.

  /** Events that are on their way: still to be replayed, or queued in the channel. */
  function Waiting(sys: System): seq<ES.Event>
    requires sys.conn.stream in sys.session.objects
    requires sys.conn.phase.Live? ==> sys.conn.phase.c in Served(sys).chans
  {
    match sys.conn.phase
    case Replaying(pending, _) => pending
    case Live(c) => Served(sys).chans[c].queue
    case _ => []
  }

  /** What is written and what is waiting come from the history, in order, above the floor. */
  ghost predicate Ordered(history: seq<ES.Event>, conn: Conn, waiting: seq<ES.Event>) {
    conn.floor <= |history| && ES.InOrderBeyond(history, conn.floor, conn.written + waiting)
  }

  /** The replay is written before anything else. */
  predicate PhaseOk(conn: Conn) {
    match conn.phase
    case Choosing(_) => conn.written == [] && conn.replay == [] && conn.floor == 0
    case Found(lastEventID, k) =>
      && conn.written == [] && conn.replay == [] && conn.floor == 0
      && ParseEventID(lastEventID) == Some((conn.stream, k))
    case Replaying(pending, _) => conn.written + pending == conn.replay
    case Done => true
    case _ => conn.replay <= conn.written
  }

  ghost predicate Placed(sys: System) {
    && (sys.conn.stream !in sys.session.objects ==>
          sys.conn.stream == "" && (sys.conn.phase.Choosing? || sys.conn.phase.Done?) && sys.conn.written == [])
    && (sys.conn.phase.Live? ==> sys.conn.phase.c in Served(sys).chans)
    && (sys.conn.stream in sys.session.objects ==> Ordered(Served(sys).history, sys.conn, Waiting(sys)))
  }

  ghost predicate Sound(sys: System) {
    PhaseOk(sys.conn) && Placed(sys)
  }

  lemma NothingBeyond(history: seq<ES.Event>, k: int)
    ensures ES.InOrderBeyond(history, k, [])
  {
    assert ES.PicksOut(history, 0, [], []);
  }

  lemma NoNamelessStream(session: Session)
    requires SessionInv(session)
    ensures "" !in session.objects
  {
  }

  lemma ArriveSound(session: Session, lastEventID: string)
    requires "" !in session.objects
    ensures Sound(Arrive(session, lastEventID))
  {
  }

  lemma SoundIsReady(sys: System)
    requires SessionInv(sys.session) && Sound(sys)
    ensures Ready(sys)
  {
  }

  // The session stays consistent.

  lemma ChooseKeepsSession(sys: System, lastEventID: string)
    requires SessionInv(sys.session)
    ensures SessionInv(Choose(sys, lastEventID).session)
  {
    ListenIsKind();
    OpenInv(sys.session, LISTEN);
    var after := OpenStream(sys.session, LISTEN).0;
    assert Choose(sys, lastEventID).session == sys.session || Choose(sys, lastEventID).session == after;
  }

  lemma PrimeKeepsSession(sys: System, c: nat)
    requires Ready(sys) && SessionInv(sys.session) && sys.conn.phase.Priming?
    ensures SessionInv(Advance(sys, c).session)
  {
    OnStreamInv(sys.session, sys.conn.stream, ES.DoPublish(""));
  }

  lemma SubscribeKeepsSession(sys: System, c: nat)
    requires Ready(sys) && SessionInv(sys.session) && ChannelUnused(sys.session, c) && sys.conn.phase.Subscribing?
    ensures SessionInv(Advance(sys, c).session)
  {
    var step := ES.DoSubscribe(c, SUBSCRIBER_BUFFER);
    assert Advance(sys, c).session == OnStream(sys.session, sys.conn.stream, step);
    assert SessionInv(OnStream(sys.session, sys.conn.stream, step)) by { OnStreamInv(sys.session, sys.conn.stream, step); }
  }

  lemma ListenKeepsSession(sys: System, c: nat)
    requires Ready(sys) && SessionInv(sys.session) && sys.conn.phase.Live?
    ensures SessionInv(Advance(sys, c).session)
  {
    var step := ES.DoReceive(sys.conn.phase.c);
    if Advance(sys, c).session != sys.session {
      assert Advance(sys, c).session == OnStream(sys.session, sys.conn.stream, step);
      assert SessionInv(OnStream(sys.session, sys.conn.stream, step)) by { OnStreamInv(sys.session, sys.conn.stream, step); }
    }
  }

  lemma ChoosingKeepsSession(sys: System, c: nat)
    requires Ready(sys) && SessionInv(sys.session) && sys.conn.phase.Choosing?
    ensures SessionInv(Advance(sys, c).session)
  {
    ChooseKeepsSession(sys, sys.conn.phase.lastEventID);
  }

  /** In its other phases the handler leaves the session as it is. */
  lemma ReadingKeepsSession(sys: System, c: nat)
    requires Ready(sys) && (sys.conn.phase.Found? || sys.conn.phase.Replaying? || sys.conn.phase.Checking? || sys.conn.phase.Done?)
    ensures Advance(sys, c).session == sys.session
  {
  }

  lemma HandlerKeepsSession(sys: System, c: nat)
    requires Ready(sys) && SessionInv(sys.session) && ChannelUnused(sys.session, c)
    ensures SessionInv(Advance(sys, c).session)
  {
    match sys.conn.phase
    case Choosing(_) => ChoosingKeepsSession(sys, c);
    case Priming => PrimeKeepsSession(sys, c);
    case Subscribing => SubscribeKeepsSession(sys, c);
    case Live(_) => ListenKeepsSession(sys, c);
    case _ => ReadingKeepsSession(sys, c);
  }

  lemma MoveKeepsSession(sys: System, move: Move)
    requires Ready(sys) && SessionInv(sys.session) && Possible(sys, move)
    ensures SessionInv(Move1(sys, move).session)
  {
    match move
    case Handler(c) => HandlerKeepsSession(sys, c);
    case Gone =>
      if sys.conn.phase.Live? {
        OnStreamInv(sys.session, sys.conn.stream, ES.DoUnsubscribe(sys.conn.phase.c));
      }
    case Other(step) => NextSessionInv(sys.session, step);
  }

  // The connection stays in order.

  lemma UseListenSound(sys: System, prime: bool)
    requires SessionInv(sys.session) && Sound(sys) && sys.conn.phase.Choosing?
    ensures Sound(UseListen(sys, prime))
  {
    ListenIsKind();
    OpenInv(sys.session, LISTEN);
    var next := UseListen(sys, prime);
    NothingBeyond(Served(next).history, 0);
  }

  lemma FoundSound(sys: System, lastEventID: string, streamID: string, k: int)
    requires Sound(sys) && sys.conn.phase.Choosing? && streamID in sys.session.objects
    requires ParseEventID(lastEventID) == Some((streamID, k))
    ensures Sound(sys.(conn := sys.conn.(phase := Found(lastEventID, k), stream := streamID)))
  {
    NothingBeyond(sys.session.objects[streamID].history, 0);
  }

  lemma ChooseSound(sys: System, lastEventID: string)
    requires SessionInv(sys.session) && Sound(sys) && sys.conn.phase.Choosing?
    ensures Sound(Choose(sys, lastEventID))
  {
    if lastEventID == "" {
      UseListenSound(sys, true);
    } else {
      match ParseEventID(lastEventID)
      case None =>
      case Some((streamID, k)) =>
        if streamID in sys.session.registry.attached {
          FoundSound(sys, lastEventID, streamID, k);
        } else {
          UseListenSound(sys, false);
        }
    }
  }

  lemma BeyondLess(history: seq<ES.Event>, k: int, floor: int, events: seq<ES.Event>)
    requires ES.InOrderBeyond(history, k, events) && floor <= k
    ensures ES.InOrderBeyond(history, floor, events)
  {
  }

  lemma ResumeReplays(sys: System, lastEventID: string, k: int)
    requires SessionInv(sys.session) && Sound(sys) && sys.conn.phase == Found(lastEventID, k)
    ensures ES.EventsAfter(Served(sys), lastEventID) == Ok(ES.After(Served(sys).buffer, k))
    ensures Served(sys).seqNo == |Served(sys).history|
  {
    assert ES.StreamInv(Served(sys));
  }

  lemma ResumeSound(sys: System, lastEventID: string, k: int)
    requires SessionInv(sys.session) && Sound(sys) && sys.conn.phase == Found(lastEventID, k)
    ensures Sound(Resume(sys, lastEventID, k))
  {
    ResumeReplays(sys, lastEventID, k);
    ES.ReplayInOrder(Served(sys), k);
    var events, floor := ES.After(Served(sys).buffer, k), if k <= Served(sys).seqNo then k else 0;
    BeyondLess(Served(sys).history, k, floor, events);
    assert [] + events == events;
  }

  lemma WriteNextWaiting(history: seq<ES.Event>, conn: Conn, waiting: seq<ES.Event>)
    requires Ordered(history, conn, waiting) && waiting != []
    ensures Ordered(history, Write(conn, waiting[0]), waiting[1..])
  {
    assert conn.written + waiting == conn.written + [waiting[0]] + waiting[1..];
  }

  lemma ReplaySound(sys: System)
    requires Sound(sys) && sys.conn.phase.Replaying?
    ensures Sound(sys.(conn := Replay(sys.conn)))
  {
    var pending := sys.conn.phase.pending;
    if pending != [] {
      WriteNextWaiting(Served(sys).history, sys.conn, pending);
      assert sys.conn.written + pending == sys.conn.written + [pending[0]] + pending[1..];
    } else {
      assert sys.conn.written + pending == sys.conn.written;
    }
  }

  /** A publication on the served stream keeps the order, whether or not it reaches the channel. */
  lemma PublishKeepsOrder(s: ES.Stream<nat>, data: string, floor: int, written: seq<ES.Event>, waiting: seq<ES.Event>, after: seq<ES.Event>)
    requires s.subs <= s.chans.Keys && floor <= |s.history|
    requires ES.InOrderBeyond(s.history, floor, written + waiting)
    requires after == waiting || (!s.closed && after == waiting + [ES.NextEvent(s, data)])
    ensures ES.InOrderBeyond(ES.Publish(s, data).history, floor, written + after)
  {
    if !s.closed {
      ES.BeyondExtends(s.history, floor, written + waiting, ES.NextEvent(s, data));
      assert written + (waiting + [ES.NextEvent(s, data)]) == written + waiting + [ES.NextEvent(s, data)];
    }
  }

  lemma PrimeSound(sys: System)
    requires Ready(sys) && Sound(sys) && sys.conn.phase.Priming?
    ensures Sound(Prime(sys))
  {
    var s := Served(sys);
    assert Served(Prime(sys)) == ES.Publish(s, "");
    if !s.closed {
      PublishKeepsOrder(s, "", sys.conn.floor, sys.conn.written, [], [ES.NextEvent(s, "")]);
      assert Prime(sys).conn.written + [] == sys.conn.written + [ES.NextEvent(s, "")];
    }
  }

  lemma SubscribeSound(sys: System, c: nat)
    requires Ready(sys) && Sound(sys) && sys.conn.phase.Subscribing?
    ensures Sound(Advance(sys, c))
  {
    assert Served(Advance(sys, c)) == ES.Subscribe(Served(sys), c, SUBSCRIBER_BUFFER);
  }

  lemma ListenSound(sys: System)
    requires Ready(sys) && Sound(sys) && sys.conn.phase.Live?
    ensures Sound(Listen(sys))
  {
    var c := sys.conn.phase.c;
    var queue := Served(sys).chans[c].queue;
    if queue != [] {
      var next := Listen(sys);
      assert Served(next) == ES.Receive(Served(sys), c);
      assert Served(next).history == Served(sys).history && Waiting(next) == queue[1..] && next.conn == Write(sys.conn, queue[0]);
      assert Ordered(Served(next).history, next.conn, Waiting(next)) by {
        WriteNextWaiting(Served(sys).history, sys.conn, queue);
      }
    }
  }

  lemma AdvanceSound(sys: System, c: nat)
    requires SessionInv(sys.session) && Ready(sys) && Sound(sys)
    ensures Sound(Advance(sys, c))
  {
    match sys.conn.phase
    case Choosing(lastEventID) => ChooseSound(sys, lastEventID);
    case Found(lastEventID, k) => ResumeSound(sys, lastEventID, k);
    case Replaying(_, _) => ReplaySound(sys);
    case Checking =>
    case Priming => PrimeSound(sys);
    case Subscribing => SubscribeSound(sys, c);
    case Live(_) => ListenSound(sys);
    case Done =>
  }

  lemma {:induction false} DroppingTail(history: seq<ES.Event>, k: int, events: seq<ES.Event>, tail: seq<ES.Event>)
    requires ES.InOrderBeyond(history, k, events + tail)
    ensures ES.InOrderBeyond(history, k, events)
  {
    var places: seq<nat> :| ES.PicksOut(history, 0, events + tail, places) && forall i | 0 <= i < |places| :: places[i] + 1 > k;
    assert ES.PicksOut(history, 0, events, places[..|events|]) by {
      forall i | 0 <= i < |events|
        ensures events[i] == history[places[i]]
      {
        assert (events + tail)[i] == events[i];
      }
    }
  }

  lemma HangUpSound(sys: System)
    requires Ready(sys) && Sound(sys)
    ensures Sound(HangUp(sys))
  {
    if sys.conn.stream in sys.session.objects {
      DroppingTail(Served(sys).history, sys.conn.floor, sys.conn.written, Waiting(sys));
      assert sys.conn.written + [] == sys.conn.written;
      assert Served(HangUp(sys)).history == Served(sys).history;
    }
  }

  /** Another handler's section leaves this connection's channel alone, or adds the new event to it. */
  lemma OtherOnChannel(s: ES.Stream<nat>, step: ES.Step<nat>, c: nat)
    requires ES.Enabled(s, step) && c in s.chans
    requires step != ES.DoReceive(c)
    ensures var t := ES.Next(s, step);
            && c in t.chans
            && (t.chans[c].queue == s.chans[c].queue
                || (step.DoPublish? && !s.closed && t.chans[c].queue == s.chans[c].queue + [ES.NextEvent(s, step.data)]))
  {
  }

  lemma OtherKeepsHistory(s: ES.Stream<nat>, step: ES.Step<nat>)
    requires ES.Enabled(s, step)
    ensures !step.DoPublish? ==> ES.Next(s, step).history == s.history
  {
  }

  lemma OtherOnServed(sys: System, step: ES.Step<nat>)
    requires Ready(sys) && Sound(sys) && sys.conn.stream in sys.session.objects && ES.Enabled(Served(sys), step)
    requires sys.conn.phase.Live? ==> step != ES.DoReceive(sys.conn.phase.c)
    ensures Sound(sys.(session := OnStream(sys.session, sys.conn.stream, step)))
  {
    var s := Served(sys);
    var next := sys.(session := OnStream(sys.session, sys.conn.stream, step));
    assert Served(next) == ES.Next(s, step);
    OtherKeepsHistory(s, step);
    if sys.conn.phase.Live? {
      OtherOnChannel(s, step, sys.conn.phase.c);
    }
    if step.DoPublish? {
      PublishKeepsOrder(s, step.data, sys.conn.floor, sys.conn.written, Waiting(sys), Waiting(next));
    }
  }

  lemma OpenKeepsStreams(session: Session, kind: string)
    requires SessionInv(session) && IsKind(kind)
    ensures var after := OpenStream(session, kind).0;
            && session.objects.Keys <= after.objects.Keys
            && forall id | id in session.objects ::
                 after.objects[id].history == session.objects[id].history && after.objects[id].chans == session.objects[id].chans
    ensures "" !in OpenStream(session, kind).0.objects
  {
    FirstAttachedIsAttached(session.registry.listenIDs, session.registry.attached);
    FreshStreamID(session, kind);
    NoNamelessStream(session);
  }

  lemma OtherAtSound(sys: System, id: string, step: ES.Step<nat>)
    requires Ready(sys) && Sound(sys) && id in sys.session.objects && ES.Enabled(sys.session.objects[id], step)
    requires sys.conn.phase.Live? ==> step != ES.DoReceive(sys.conn.phase.c)
    ensures Sound(sys.(session := OnStream(sys.session, id, step)))
  {
    if id == sys.conn.stream {
      OtherOnServed(sys, step);
    }
  }

  lemma OtherOpenSound(sys: System, kind: string)
    requires SessionInv(sys.session) && Sound(sys) && IsKind(kind)
    ensures Sound(sys.(session := OpenStream(sys.session, kind).0))
  {
    OpenKeepsStreams(sys.session, kind);
  }

  /** What is in the map and how large new buffers are do not matter to a connection that has its stream. */
  lemma SameObjectsSound(sys: System, session: Session)
    requires Sound(sys) && session.objects == sys.session.objects
    ensures Sound(sys.(session := session))
  {
  }

  lemma OtherSound(sys: System, step: Sessions.Step<nat>)
    requires SessionInv(sys.session) && Ready(sys) && Sound(sys) && Possible(sys, Move.Other(step))
    ensures Sound(Move1(sys, Move.Other(step)))
  {
    match step
    case At(id, inner) =>
      if id in sys.session.objects {
        OtherAtSound(sys, id, inner);
      }
    case Open(kind) => OtherOpenSound(sys, kind);
    case Remove(id) => SameObjectsSound(sys, RemoveStream(sys.session, id));
    case RemoveAll => SameObjectsSound(sys, RemoveAllStreams(sys.session));
    case Finish(id) =>
      OtherAtSound(sys, id, ES.DoClose);
      SameObjectsSound(sys.(session := OnStream(sys.session, id, ES.DoClose)), FinishClosing(sys.session, id));
    case Resize(n) => SameObjectsSound(sys, sys.session.(registry := SetBufferSize(sys.session.registry, n)));
  }

  lemma MoveSound(sys: System, move: Move)
    requires SessionInv(sys.session) && Ready(sys) && Sound(sys) && Possible(sys, move)
    ensures Sound(Move1(sys, move))
  {
    match move
    case Handler(c) => AdvanceSound(sys, c);
    case Gone => HangUpSound(sys);
    case Other(step) => OtherSound(sys, step);
  }

  /** Each move is possible where it is made; that the handler is then ready for it is proved, not assumed. */
  ghost predicate IsRun(states: seq<System>, moves: seq<Move>) {
    && |states| == |moves| + 1
    && forall i | 0 <= i < |moves| ::
         Ready(states[i]) ==> Possible(states[i], moves[i]) && states[i + 1] == Move1(states[i], moves[i])
  }

  lemma {:induction false} RunSound(states: seq<System>, moves: seq<Move>, n: nat)
    requires IsRun(states, moves) && SessionInv(states[0].session) && Sound(states[0]) && n < |states|
    ensures SessionInv(states[n].session) && Sound(states[n]) && Ready(states[n])
  {
    if n > 0 {
      RunSound(states, moves, n - 1);
      var before, move := states[n - 1], moves[n - 1];
      MoveKeepsSession(before, move);
      MoveSound(before, move);
      assert states[n] == Move1(before, move);
    }
    SoundIsReady(states[n]);
  }

  lemma NextIsMove(states: seq<System>, moves: seq<Move>, n: nat)
    requires IsRun(states, moves) && SessionInv(states[0].session) && Sound(states[0]) && n < |moves|
    ensures Ready(states[n]) && Possible(states[n], moves[n]) && states[n + 1] == Move1(states[n], moves[n])
  {
    RunSound(states, moves, n);
  }

  /** The events carry strictly increasing numbers of one stream, all above `floor`. */
  predicate Numbers(events: seq<ES.Event>, stream: string, floor: int, numbers: seq<nat>) {
    && |numbers| == |events|
    && (forall i | 0 <= i < |events| :: events[i].id == FormatEventID(stream, numbers[i]) && numbers[i] > floor)
    && (forall i, j | 0 <= i < j < |numbers| :: numbers[i] < numbers[j])
  }

  ghost predicate NumberedAbove(events: seq<ES.Event>, stream: string, floor: int) {
    exists numbers: seq<nat> :: Numbers(events, stream, floor, numbers)
  }

  lemma PicksAreNumbered(s: ES.Stream<nat>, floor: int, events: seq<ES.Event>)
    requires ES.BufferInv(s) && ES.InOrderBeyond(s.history, floor, events)
    ensures NumberedAbove(events, s.id, floor)
  {
    var places: seq<nat> :| ES.PicksOut(s.history, 0, events, places) && forall i | 0 <= i < |places| :: places[i] + 1 > floor;
    var numbers: seq<nat> := seq(|places|, i requires 0 <= i < |places| => places[i] + 1);
    forall i | 0 <= i < |events|
      ensures events[i].id == FormatEventID(s.id, numbers[i]) && numbers[i] > floor
    {
      assert events[i] == s.history[places[i]];
    }
    assert Numbers(events, s.id, floor, numbers);
  }

  lemma NothingIsNumbered(stream: string, floor: int)
    ensures NumberedAbove([], stream, floor)
  {
    assert Numbers([], stream, floor, []);
  }

  lemma WrittenIsNumbered(sys: System)
    requires SessionInv(sys.session) && Sound(sys)
    ensures NumberedAbove(sys.conn.written, sys.conn.stream, sys.conn.floor)
  {
    if sys.conn.stream in sys.session.objects {
      DroppingTail(Served(sys).history, sys.conn.floor, sys.conn.written, Waiting(sys));
      PicksAreNumbered(Served(sys), sys.conn.floor, sys.conn.written);
    } else {
      NothingIsNumbered(sys.conn.stream, sys.conn.floor);
    }
  }

  /**
   Whatever else happens in the session, a connection writes the events of one stream
   in strictly increasing order: none twice, none out of order, none the client has.
   Until it serves live events it has written its replay, and nothing before it.
   */
  lemma ConnectionInOrder(states: seq<System>, moves: seq<Move>, lastEventID: string, n: nat)
    requires IsRun(states, moves) && n < |states|
    requires SessionInv(states[0].session) && states[0] == Arrive(states[0].session, lastEventID)
    ensures NumberedAbove(states[n].conn.written, states[n].conn.stream, states[n].conn.floor)
    ensures states[n].conn.phase.Replaying? ==> states[n].conn.written + states[n].conn.phase.pending == states[n].conn.replay
    ensures states[n].conn.phase.Subscribing? || states[n].conn.phase.Live? ==> states[n].conn.replay <= states[n].conn.written
  {
    NoNamelessStream(states[0].session);
    ArriveSound(states[0].session, lastEventID);
    RunSound(states, moves, n);
    WrittenIsNumbered(states[n]);
  }

  /**
   Resuming from event `k` of a stream that is still in the map: the floor is `k`
   itself, and what will be replayed is everything after `k` that the buffer reaches.
   */
  lemma ResumeFromEvent(sys: System, k: nat)
    requires sys.conn.stream in sys.session.objects && ES.StreamInv(Served(sys)) && sys.conn.stream == Served(sys).id
    requires k <= Served(sys).seqNo <= INT64_MAX
    ensures var s, next := Served(sys), Resume(sys, FormatEventID(sys.conn.stream, k), k).conn;
            && next.floor == k
            && next.replay == (if k + |s.buffer| <= s.seqNo then s.buffer else s.history[k..])
            && next.phase == Replaying(next.replay, false)
  {
    ES.ReplayExact(Served(sys), k);
  }

  /** The stream has been chosen and its replay fetched, or the connection is over. */
  predicate Settled(conn: Conn) {
    !conn.phase.Choosing? && !conn.phase.Found?
  }

  lemma SettledMove(sys: System, move: Move)
    requires Ready(sys) && Possible(sys, move) && Settled(sys.conn)
    ensures var next := Move1(sys, move).conn;
            Settled(next) && next.floor == sys.conn.floor && next.stream == sys.conn.stream && next.replay == sys.conn.replay
  {
  }

  lemma {:induction false} SettledRun(states: seq<System>, moves: seq<Move>, m: nat, n: nat)
    requires IsRun(states, moves) && SessionInv(states[0].session) && Sound(states[0])
    requires m <= n < |states| && Settled(states[m].conn)
    ensures Settled(states[n].conn) && states[n].conn.floor == states[m].conn.floor
    ensures states[n].conn.stream == states[m].conn.stream && states[n].conn.replay == states[m].conn.replay
    decreases n
  {
    if m < n {
      SettledRun(states, moves, m, n - 1);
      NextIsMove(states, moves, n - 1);
      SettledMove(states[n - 1], moves[n - 1]);
    }
  }

  /**
     A client that resumes after event `k`, which the stream has reached, never gets `k` or
     anything before it again, whatever happens in the session meanwhile.
   */
  lemma ResumedBeyond(states: seq<System>, moves: seq<Move>, lastEventID: string, k: int, m: nat, n: nat)
    requires IsRun(states, moves) && m < n < |states|
    requires SessionInv(states[0].session) && states[0] == Arrive(states[0].session, lastEventID)
    requires states[m].conn.phase == Found(lastEventID, k) && moves[m].Handler?
    requires states[m].conn.stream in states[m].session.objects ==> k <= Served(states[m]).seqNo
    ensures states[n].conn.stream == states[m].conn.stream
    ensures NumberedAbove(states[n].conn.written, states[n].conn.stream, k)
  {
    NoNamelessStream(states[0].session);
    ArriveSound(states[0].session, lastEventID);
    RunSound(states, moves, m);
    ResumeReplays(states[m], lastEventID, k);
    assert states[m + 1] == Resume(states[m], lastEventID, k);
    SettledRun(states, moves, m + 1, n);
    ConnectionInOrder(states, moves, lastEventID, n);
  }
}
