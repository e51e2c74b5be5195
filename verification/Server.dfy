/**
 A whole session at work: any number of GET, POST, notification and closing handlers, each
 section of each at any moment. What the runs of one handler take for granted about the
 others is derived here from what the others do.
 */
module Server {
  import opened Wrappers
  import opened EventIds
  import ES = EventStream
  import opened Sessions
  import C = Connection
  import P = PostResponse
  import B = Broadcast

  type Session = Sessions.Session<nat>

  /** closeAll: it takes all streams out of the map and then closes them one by one. */
  datatype Ending = Starting | Emptying(left: set<string>) | Over

  datatype Handler =
    | Get(conn: C.Conn)
    | Post(resp: string, post: P.Phase, stream: string, written: P.Wire)
    | Notify(payload: string, notify: B.Phase)
    | Ender(ending: Ending)

  datatype Server = Server(session: Session, handlers: map<nat, Handler>)

  function GetView(session: Session, h: Handler): C.System
    requires h.Get?
  {
    C.System(session, h.conn)
  }

  function PostView(session: Session, h: Handler): P.System
    requires h.Post?
  {
    P.System(session, h.resp, h.post, h.stream, h.written)
  }

  function NotifyView(session: Session, h: Handler): B.System
    requires h.Notify?
  {
    B.System(session, h.payload, h.notify)
  }

  ghost predicate Ready(session: Session, h: Handler) {
    match h
    case Get(_) => C.Ready(GetView(session, h))
    case Post(_, _, _, _) => P.Ready(PostView(session, h))
    case Notify(_, _) => B.Ready(NotifyView(session, h))
    case Ender(_) => true
  }

  // One section of one handler.

  /** A section of the session that changes nothing. */
  const IDLE: Step<nat> := Resize(0)

  /** `c` names a channel that the section may make, `id` a stream that it may close. */
  datatype Choice = Choice(c: nat, id: string)

  ghost predicate CanAct(session: Session, h: Handler, choice: Choice) {
    && C.ChannelUnused(session, choice.c)
    && (h.Ender? && h.ending.Emptying? && h.ending.left != {} ==> choice.id in h.ending.left)
  }

  function EndNext(session: Session, ending: Ending, id: string): Ending {
    match ending
    case Starting => Emptying(session.registry.attached)
    case Emptying(left) => if left == {} then Over else Emptying(left - {id})
    case Over => Over
  }

  /** What the section does to the session. */
  ghost function StepOf(session: Session, h: Handler, choice: Choice): Step<nat>
    requires Ready(session, h)
  {
    match h
    case Get(conn) => GetStep(session, conn, choice.c)
    case Post(resp, phase, stream, _) =>
      (match phase
       case Opening => Open(P.POST)
       case Priming => At(stream, ES.DoPublish(""))
       case Responding => At(stream, ES.DoPublish(resp))
       case Leaving => Remove(stream)
       case Closing => Finish(stream)
       case Done => IDLE)
    case Notify(payload, phase) =>
      if phase.Sending? && phase.target.Some? then At(phase.target.value, ES.DoPublish(payload)) else IDLE
    case Ender(ending) =>
      (match ending
       case Starting => RemoveAll
       case Emptying(left) => if left == {} then IDLE else Finish(choice.id)
       case Over => IDLE)
  }

  ghost function GetStep(session: Session, conn: C.Conn, c: nat): Step<nat>
    requires C.Ready(C.System(session, conn))
  {
    match conn.phase
    case Choosing(lastEventID) => if OpensListen(session, lastEventID) then Open(LISTEN) else IDLE
    case Priming => At(conn.stream, ES.DoPublish(""))
    case Subscribing => At(conn.stream, ES.DoSubscribe(c, C.SUBSCRIBER_BUFFER))
    case Live(own) => if session.objects[conn.stream].chans[own].queue != [] then At(conn.stream, ES.DoReceive(own)) else IDLE
    case _ => IDLE
  }

  predicate OpensListen(session: Session, lastEventID: string) {
    lastEventID == "" || match ParseEventID(lastEventID) case None => false case Some((id, _)) => id !in session.registry.attached
  }

  ghost function Acted(session: Session, h: Handler, choice: Choice): Handler
    requires Ready(session, h)
  {
    match h
    case Get(_) => Get(C.Advance(GetView(session, h), choice.c).conn)
    case Post(_, _, _, _) =>
      var after := P.Move1(PostView(session, h), Sessions.Handler);
      Post(after.resp, after.phase, after.stream, after.written)
    case Notify(_, _) => var after := B.Move1(NotifyView(session, h), Sessions.Handler); Notify(after.payload, after.phase)
    case Ender(ending) => Ender(EndNext(session, ending, choice.id))
  }

  // What holds of each handler, and of any two.

  /** A GET primes only a listen stream: one that it opened without a Last-Event-ID. */
  ghost predicate PrimesListen(conn: C.Conn) {
    (conn.phase.Replaying? && conn.phase.prime) || conn.phase.Checking? || conn.phase.Priming? ==> IsListenID(conn.stream)
  }

  ghost predicate HandlerOk(session: Session, h: Handler) {
    match h
    case Get(conn) => C.Sound(GetView(session, h)) && PrimesListen(conn)
    case Post(_, phase, stream, _) =>
      && P.Sound(PostView(session, h)) && (!phase.Opening? ==> !IsListenID(stream)) && (phase.Closing? ==> stream in session.closing)
    case Notify(_, _) => B.Sound(NotifyView(session, h))
    case Ender(ending) => ending.Emptying? ==> ending.left <= session.closing
  }

  /** The streams that the handler has taken out of the map and has yet to close. */
  function Owned(h: Handler): set<string> {
    if h.Post? && h.post.Closing? then {h.stream}
    else if h.Ender? && h.ending.Emptying? then h.ending.left
    else {}
  }

  predicate Apart(a: Handler, b: Handler) {
    && (a.Get? && b.Get? && a.conn.phase.Live? && b.conn.phase.Live? ==> a.conn.phase.c != b.conn.phase.c)
    && (a.Post? && b.Post? && !a.post.Opening? && !b.post.Opening? ==> a.stream != b.stream)
    && Owned(a) !! Owned(b)
  }

  ghost predicate AllOk(s: Server) {
    forall k | k in s.handlers :: HandlerOk(s.session, s.handlers[k])
  }

  ghost predicate AllApart(s: Server) {
    forall j, k | j in s.handlers && k in s.handlers && j != k :: Apart(s.handlers[j], s.handlers[k])
  }

  ghost predicate ServerInv(s: Server) {
    SessionInv(s.session) && AllOk(s) && AllApart(s)
  }

  lemma OkIsReady(session: Session, h: Handler)
    requires SessionInv(session) && HandlerOk(session, h)
    ensures Ready(session, h)
  {
    match h
    case Get(_) => C.SoundIsReady(GetView(session, h));
    case Post(_, _, _, _) => P.SoundIsReady(PostView(session, h));
    case Notify(_, _) => B.SoundIsReady(NotifyView(session, h));
    case Ender(_) =>
  }

  // A section of a handler is a section of the session.

  lemma IdleIsIdle(session: Session)
    ensures NextSession(session, IDLE) == session
  {
  }

  lemma GetSteps(session: Session, h: Handler, c: nat)
    requires SessionInv(session) && h.Get? && Ready(session, h) && C.ChannelUnused(session, c)
    ensures Allowed(session, GetStep(session, h.conn, c))
    ensures NextSession(session, GetStep(session, h.conn, c)) == C.Advance(GetView(session, h), c).session
  {
    match h.conn.phase
    case Choosing(lastEventID) => ChoosingStep(GetView(session, h), lastEventID);
    case _ =>
  }

  lemma ChoosingStep(sys: C.System, lastEventID: string)
    requires sys.session.registry.attached <= sys.session.objects.Keys
    ensures IsKind(LISTEN)
    ensures C.Choose(sys, lastEventID).session ==
              if OpensListen(sys.session, lastEventID) then OpenStream(sys.session, LISTEN).0 else sys.session
  {
    ListenIsKind();
  }

  lemma PostSteps(session: Session, h: Handler, choice: Choice)
    requires SessionInv(session) && h.Post? && HandlerOk(session, h) && Ready(session, h)
    ensures Allowed(session, StepOf(session, h, choice))
    ensures NextSession(session, StepOf(session, h, choice)) == P.Move1(PostView(session, h), Sessions.Handler).session
  {
  }

  lemma NotifySteps(session: Session, h: Handler, choice: Choice)
    requires SessionInv(session) && h.Notify? && HandlerOk(session, h) && Ready(session, h)
    ensures Allowed(session, StepOf(session, h, choice))
    ensures NextSession(session, StepOf(session, h, choice)) == B.Move1(NotifyView(session, h), Sessions.Handler).session
  {
  }

  lemma EnderSteps(session: Session, h: Handler, choice: Choice)
    requires SessionInv(session) && h.Ender? && HandlerOk(session, h) && CanAct(session, h, choice)
    ensures Allowed(session, StepOf(session, h, choice))
  {
    if h.ending.Emptying? && h.ending.left != {} {
      assert ES.StreamInv(session.objects[choice.id]);
    }
  }

  lemma ActAllowed(session: Session, h: Handler, choice: Choice)
    requires SessionInv(session) && HandlerOk(session, h) && Ready(session, h) && CanAct(session, h, choice)
    ensures Allowed(session, StepOf(session, h, choice))
  {
    match h
    case Get(_) => GetSteps(session, h, choice.c);
    case Post(_, _, _, _) => PostSteps(session, h, choice);
    case Notify(_, _) => NotifySteps(session, h, choice);
    case Ender(_) => EnderSteps(session, h, choice);
  }

  // What a handler needs the others to leave alone.

  ghost predicate Spares(step: Step<nat>, h: Handler) {
    && (h.Get? && h.conn.phase.Live? && step.At? ==>
          step.step != ES.DoReceive(h.conn.phase.c) && step.step != ES.DoUnsubscribe(h.conn.phase.c))
    && (h.Post? && !h.post.Opening? ==> !(step.At? && step.id == h.stream && step.step.DoPublish?))
    && (step.Finish? ==> step.id !in Owned(h))
  }

  lemma SparedIsOk(session: Session, step: Step<nat>, h: Handler)
    requires SessionInv(session) && HandlerOk(session, h) && Allowed(session, step) && Spares(step, h)
    ensures HandlerOk(NextSession(session, step), h)
  {
    OkIsReady(session, h);
    match h
    case Get(_) => C.OtherSound(GetView(session, h), step);
    case Post(_, phase, stream, _) =>
      OtherMovesPost(session, step, h);
      ClosingKept(session, step, Owned(h));
    case Notify(_, _) => B.MoveSound(NotifyView(session, h), Sessions.Other(step));
    case Ender(_) => ClosingKept(session, step, Owned(h));
  }

  lemma OtherMovesPost(session: Session, step: Step<nat>, h: Handler)
    requires h.Post? && P.Sound(PostView(session, h)) && P.Ready(PostView(session, h)) && Allowed(session, step) && Spares(step, h)
    ensures P.Sound(PostView(NextSession(session, step), h))
  {
    var sys := PostView(session, h);
    if h.post.Opening? {
      NextSessionInv(session, step);
    } else {
      P.OtherSound(sys, step);
    }
  }

  lemma ClosingKept(session: Session, step: Step<nat>, owned: set<string>)
    requires Allowed(session, step) && owned <= session.closing && (step.Finish? ==> step.id !in owned)
    ensures owned <= NextSession(session, step).closing
  {
  }

  lemma GetSpares(session: Session, h: Handler, choice: Choice, other: Handler)
    requires h.Get? && HandlerOk(session, h) && HandlerOk(session, other) && Ready(session, h) && Apart(h, other)
    ensures Spares(StepOf(session, h, choice), other)
  {
  }

  lemma PostSpares(session: Session, h: Handler, choice: Choice, other: Handler)
    requires h.Post? && HandlerOk(session, h) && HandlerOk(session, other) && Ready(session, h) && Apart(h, other)
    ensures Spares(StepOf(session, h, choice), other)
  {
  }

  /** No section of a handler touches what another handler relies on. */
  lemma ActSpares(session: Session, h: Handler, choice: Choice, other: Handler)
    requires HandlerOk(session, h) && HandlerOk(session, other) && Ready(session, h) && CanAct(session, h, choice) && Apart(h, other)
    ensures Spares(StepOf(session, h, choice), other)
  {
    match h
    case Get(_) => GetSpares(session, h, choice, other);
    case Post(_, _, _, _) => PostSpares(session, h, choice, other);
    case _ =>
  }

  // After its own section a handler is as it should be.

  lemma ListenOpened(session: Session)
    requires SessionInv(session)
    ensures IsListenID(OpenStream(session, LISTEN).1)
  {
    if Reuses(session.registry, LISTEN) {
      TargetIsTheListenStream(session.registry);
    }
  }

  lemma GetActs(session: Session, h: Handler, c: nat)
    requires SessionInv(session) && h.Get? && HandlerOk(session, h) && Ready(session, h) && C.ChannelUnused(session, c)
    ensures HandlerOk(C.Advance(GetView(session, h), c).session, Get(C.Advance(GetView(session, h), c).conn))
  {
    C.AdvanceSound(GetView(session, h), c);
    StillPrimesListen(GetView(session, h), c);
  }

  lemma StillPrimesListen(sys: C.System, c: nat)
    requires SessionInv(sys.session) && C.Ready(sys) && PrimesListen(sys.conn)
    ensures PrimesListen(C.Advance(sys, c).conn)
  {
    match sys.conn.phase
    case Choosing(lastEventID) =>
      ListenOpened(sys.session);
      ChoosesListen(sys, lastEventID);
    case _ =>
  }

  lemma ChoosesListen(sys: C.System, lastEventID: string)
    requires sys.session.registry.attached <= sys.session.objects.Keys && IsListenID(OpenStream(sys.session, LISTEN).1)
    ensures PrimesListen(C.Choose(sys, lastEventID).conn)
  {
  }

  lemma PostActs(session: Session, h: Handler, choice: Choice)
    requires SessionInv(session) && h.Post? && HandlerOk(session, h) && Ready(session, h)
    ensures HandlerOk(P.Move1(PostView(session, h), Sessions.Handler).session, Acted(session, h, choice))
  {
    P.HandlerSound(PostView(session, h));
    ListenIDsAreListen(P.POST, session.registry.nextID + 1);
    if h.post.Opening? {
      P.OpenSound(PostView(session, h));
    }
  }

  lemma EnderActs(session: Session, h: Handler, choice: Choice)
    requires SessionInv(session) && h.Ender? && HandlerOk(session, h) && Ready(session, h) && Allowed(session, StepOf(session, h, choice))
    ensures HandlerOk(NextSession(session, StepOf(session, h, choice)), Acted(session, h, choice))
  {
  }

  lemma ActOk(session: Session, h: Handler, choice: Choice)
    requires SessionInv(session) && HandlerOk(session, h) && Ready(session, h) && CanAct(session, h, choice)
    ensures Allowed(session, StepOf(session, h, choice))
    ensures HandlerOk(NextSession(session, StepOf(session, h, choice)), Acted(session, h, choice))
  {
    ActAllowed(session, h, choice);
    match h
    case Get(_) =>
      GetSteps(session, h, choice.c);
      GetActs(session, h, choice.c);
    case Post(_, _, _, _) =>
      PostSteps(session, h, choice);
      PostActs(session, h, choice);
    case Notify(_, _) =>
      NotifySteps(session, h, choice);
      B.MoveSound(NotifyView(session, h), Sessions.Handler);
    case Ender(_) => EnderActs(session, h, choice);
  }

  // And it stays apart from the others.

  lemma GetStaysApart(session: Session, h: Handler, choice: Choice, other: Handler)
    requires h.Get? && HandlerOk(session, other) && Ready(session, h) && CanAct(session, h, choice) && Apart(h, other)
    ensures Apart(Acted(session, h, choice), other) && Apart(other, Acted(session, h, choice))
  {
    if other.Get? && other.conn.phase.Live? {
      assert other.conn.phase.c in session.objects[other.conn.stream].chans;
    }
  }

  lemma PostStaysApart(session: Session, h: Handler, choice: Choice, other: Handler)
    requires SessionInv(session) && h.Post? && HandlerOk(session, other) && Ready(session, h) && Apart(h, other)
    ensures Apart(Acted(session, h, choice), other) && Apart(other, Acted(session, h, choice))
  {
    match h.post
    case Opening =>
      FreshStreamID(session, P.POST);
      OpensNew(session);
    case _ =>
  }

  lemma OpensNew(session: Session)
    requires SessionInv(session)
    ensures OpenStream(session, P.POST).1 == FormatStreamID(P.POST, session.registry.nextID + 1)
  {
    assert P.POST != LISTEN by { assert P.POST[0] != LISTEN[0]; }
  }

  lemma EnderStaysApart(session: Session, h: Handler, choice: Choice, other: Handler)
    requires SessionInv(session) && h.Ender? && HandlerOk(session, other) && Ready(session, h) && Apart(h, other)
    ensures Apart(Acted(session, h, choice), other) && Apart(other, Acted(session, h, choice))
  {
  }

  lemma StaysApart(session: Session, h: Handler, choice: Choice, other: Handler)
    requires SessionInv(session) && HandlerOk(session, other) && Ready(session, h) && CanAct(session, h, choice) && Apart(h, other)
    ensures Apart(Acted(session, h, choice), other) && Apart(other, Acted(session, h, choice))
  {
    match h
    case Get(_) => GetStaysApart(session, h, choice, other);
    case Post(_, _, _, _) => PostStaysApart(session, h, choice, other);
    case Ender(_) => EnderStaysApart(session, h, choice, other);
    case Notify(_, _) =>
  }

  // Runs of the whole session.

  /** `Gone` is a client that goes away; `Arrive` a new request. */
  datatype Move = Act(h: nat, choice: Choice) | Gone(h: nat) | Arrive(h: nat, handler: Handler) | Configure(n: int)

  predicate IsNew(h: Handler) {
    match h
    case Get(conn) => conn.phase.Choosing? && conn == C.Arrive(NewSession(0), conn.phase.lastEventID).conn
    case Post(_, phase, stream, written) => phase.Opening? && stream == "" && written == []
    case Notify(_, phase) => phase.Picking?
    case Ender(ending) => ending.Starting?
  }

  ghost predicate CanMove(s: Server, move: Move) {
    match move
    case Act(h, choice) => h in s.handlers && CanAct(s.session, s.handlers[h], choice)
    case Gone(h) => h in s.handlers && s.handlers[h].Get?
    case Arrive(h, handler) => h !in s.handlers && IsNew(handler)
    case Configure(_) => true
  }

  ghost function GoneStep(session: Session, conn: C.Conn): Step<nat> {
    if conn.phase.Live? then At(conn.stream, ES.DoUnsubscribe(conn.phase.c)) else IDLE
  }

  /** What the move does to the session. */
  ghost function MoveStep(s: Server, move: Move): Step<nat>
    requires CanMove(s, move) && (move.Act? ==> Ready(s.session, s.handlers[move.h]))
  {
    match move
    case Act(h, choice) => StepOf(s.session, s.handlers[h], choice)
    case Gone(h) => GoneStep(s.session, s.handlers[h].conn)
    case Arrive(_, _) => IDLE
    case Configure(n) => Resize(n)
  }

  ghost function MovedHandlers(s: Server, move: Move): map<nat, Handler>
    requires CanMove(s, move) && (move.Act? || move.Gone? ==> Ready(s.session, s.handlers[move.h]))
  {
    match move
    case Act(h, choice) => s.handlers[h := Acted(s.session, s.handlers[h], choice)]
    case Gone(h) => s.handlers[h := Get(C.HangUp(GetView(s.session, s.handlers[h])).conn)]
    case Arrive(h, handler) => s.handlers[h := handler]
    case Configure(_) => s.handlers
  }

  ghost predicate AllReady(s: Server) {
    forall k | k in s.handlers :: Ready(s.session, s.handlers[k])
  }

  ghost predicate Leads(s: Server, move: Move, t: Server) {
    && CanMove(s, move)
    && (AllReady(s) && Allowed(s.session, MoveStep(s, move)) ==>
          t == Server(NextSession(s.session, MoveStep(s, move)), MovedHandlers(s, move)))
  }

  /** Moves are possible where they are made; that each is a section of the session is proved, not assumed. */
  ghost predicate IsRun(states: seq<Server>, moves: seq<Move>) {
    |states| == |moves| + 1 && forall i | 0 <= i < |moves| :: Leads(states[i], moves[i], states[i + 1])
  }

  lemma InvIsReady(s: Server)
    requires ServerInv(s)
    ensures AllReady(s)
  {
    forall k | k in s.handlers {
      OkIsReady(s.session, s.handlers[k]);
    }
  }

  lemma NewIsOk(session: Session, h: Handler)
    requires SessionInv(session) && IsNew(h)
    ensures HandlerOk(session, h)
  {
    if h.Get? {
      C.NoNamelessStream(session);
      C.ArriveSound(session, h.conn.phase.lastEventID);
    }
  }

  lemma MoveAllowed(s: Server, move: Move)
    requires ServerInv(s) && AllReady(s) && CanMove(s, move)
    ensures Allowed(s.session, MoveStep(s, move))
  {
    match move
    case Act(h, choice) =>
      assert HandlerOk(s.session, s.handlers[h]);
      ActAllowed(s.session, s.handlers[h], choice);
    case Gone(h) => assert HandlerOk(s.session, s.handlers[h]);
    case _ =>
  }

  /** Every move spares every handler other than the one that it moves. */
  lemma MoveSpares(s: Server, move: Move, k: nat)
    requires ServerInv(s) && AllReady(s) && CanMove(s, move) && k in s.handlers
    requires move.Act? || move.Gone? ==> k != move.h
    ensures Spares(MoveStep(s, move), s.handlers[k])
  {
    assert HandlerOk(s.session, s.handlers[k]);
    if move.Act? || move.Gone? {
      assert Apart(s.handlers[move.h], s.handlers[k]) && HandlerOk(s.session, s.handlers[move.h]);
    }
    if move.Act? {
      ActSpares(s.session, s.handlers[move.h], move.choice, s.handlers[k]);
    }
  }

  lemma GoneOk(session: Session, h: Handler)
    requires SessionInv(session) && h.Get? && HandlerOk(session, h) && Ready(session, h)
    ensures Allowed(session, GoneStep(session, h.conn))
    ensures NextSession(session, GoneStep(session, h.conn)) == C.HangUp(GetView(session, h)).session
    ensures HandlerOk(C.HangUp(GetView(session, h)).session, Get(C.HangUp(GetView(session, h)).conn))
  {
    C.HangUpSound(GetView(session, h));
  }

  lemma MovedIsOk(s: Server, move: Move, t: Server, k: nat)
    requires ServerInv(s) && AllReady(s) && Leads(s, move, t) && Allowed(s.session, MoveStep(s, move)) && k in t.handlers
    ensures HandlerOk(t.session, t.handlers[k])
  {
    NextSessionInv(s.session, MoveStep(s, move));
    if (move.Act? || move.Gone?) && move.h == k {
      assert HandlerOk(s.session, s.handlers[k]);
      if move.Act? {
        ActOk(s.session, s.handlers[k], move.choice);
      } else {
        GoneOk(s.session, s.handlers[k]);
      }
    } else if move.Arrive? && move.h == k {
      NewIsOk(t.session, move.handler);
    } else {
      assert HandlerOk(s.session, s.handlers[k]);
      MoveSpares(s, move, k);
      SparedIsOk(s.session, MoveStep(s, move), s.handlers[k]);
    }
  }

  lemma NewIsApart(h: Handler, other: Handler)
    requires IsNew(h)
    ensures Apart(h, other) && Apart(other, h)
  {
  }

  lemma MovedApartFrom(s: Server, move: Move, t: Server, k: nat)
    requires ServerInv(s) && AllReady(s) && Leads(s, move, t) && Allowed(s.session, MoveStep(s, move))
    requires !move.Configure? && k in s.handlers && k != move.h
    ensures move.h in t.handlers && k in t.handlers && t.handlers[k] == s.handlers[k]
    ensures Apart(t.handlers[move.h], s.handlers[k]) && Apart(s.handlers[k], t.handlers[move.h])
  {
    assert HandlerOk(s.session, s.handlers[k]);
    match move
    case Act(h, choice) =>
      assert Apart(s.handlers[h], s.handlers[k]);
      StaysApart(s.session, s.handlers[h], choice, s.handlers[k]);
    case Gone(h) => assert Apart(s.handlers[h], s.handlers[k]);
    case Arrive(h, handler) => NewIsApart(handler, s.handlers[k]);
  }

  lemma MovedAllApart(s: Server, move: Move, t: Server)
    requires ServerInv(s) && AllReady(s) && Leads(s, move, t) && Allowed(s.session, MoveStep(s, move))
    ensures AllApart(t)
  {
    forall j, k | j in t.handlers && k in t.handlers && j != k
      ensures Apart(t.handlers[j], t.handlers[k])
    {
      if !move.Configure? && (j == move.h || k == move.h) {
        MovedApartFrom(s, move, t, if j == move.h then k else j);
      } else {
        assert Apart(s.handlers[j], s.handlers[k]);
      }
    }
  }

  lemma MoveInv(s: Server, move: Move, t: Server)
    requires ServerInv(s) && Leads(s, move, t)
    ensures ServerInv(t) && AllReady(s) && Allowed(s.session, MoveStep(s, move))
    ensures t == Server(NextSession(s.session, MoveStep(s, move)), MovedHandlers(s, move))
  {
    InvIsReady(s);
    MoveAllowed(s, move);
    NextSessionInv(s.session, MoveStep(s, move));
    forall k | k in t.handlers {
      MovedIsOk(s, move, t, k);
    }
    MovedAllApart(s, move, t);
  }

  /** In every state of every run the session is consistent, every handler is as it should be, and no two share what is theirs. */
  lemma {:induction false} ServerRun(states: seq<Server>, moves: seq<Move>, n: nat)
    requires IsRun(states, moves) && ServerInv(states[0]) && n < |states|
    ensures ServerInv(states[n])
  {
    if n > 0 {
      ServerRun(states, moves, n - 1);
      MoveInv(states[n - 1], moves[n - 1], states[n]);
    }
  }

  lemma NewServer(maxBuf: int)
    ensures ServerInv(Server(NewSession(maxBuf), map[]))
  {
    NewSessionInv<nat>(maxBuf);
  }

  // Each handler's part in a run is a run of that handler among others.

  ghost function GetMove(s: Server, move: Move, k: nat): C.Move
    requires CanMove(s, move) && AllReady(s)
  {
    if move.Act? && move.h == k then C.Handler(move.choice.c)
    else if move.Gone? && move.h == k then C.Gone
    else C.Other(MoveStep(s, move))
  }

  ghost function SharedMove(s: Server, move: Move, k: nat): Sessions.Move<nat>
    requires CanMove(s, move) && AllReady(s)
  {
    if move.Act? && move.h == k then Sessions.Handler else Sessions.Other(MoveStep(s, move))
  }

  /** A move of a GET, or of anybody else as this GET sees it, is a possible move of `Connection`. */
  lemma GetPart(s: Server, move: Move, t: Server, k: nat)
    requires ServerInv(s) && Leads(s, move, t) && k in s.handlers && s.handlers[k].Get?
    ensures AllReady(s) && k in t.handlers && t.handlers[k].Get?
    ensures C.Ready(GetView(s.session, s.handlers[k])) && C.Possible(GetView(s.session, s.handlers[k]), GetMove(s, move, k))
    ensures GetView(t.session, t.handlers[k]) == C.Move1(GetView(s.session, s.handlers[k]), GetMove(s, move, k))
  {
    MoveInv(s, move, t);
    assert HandlerOk(s.session, s.handlers[k]) && Ready(s.session, s.handlers[k]);
    if move.Act? && move.h == k {
      GetSteps(s.session, s.handlers[k], move.choice.c);
    } else if move.Gone? && move.h == k {
      GoneOk(s.session, s.handlers[k]);
    } else {
      MoveSpares(s, move, k);
    }
  }

  /** A move of a POST, or of anybody else as this POST sees it, is a possible move of `PostResponse`. */
  lemma PostPart(s: Server, move: Move, t: Server, k: nat)
    requires ServerInv(s) && Leads(s, move, t) && k in s.handlers && s.handlers[k].Post?
    ensures AllReady(s) && k in t.handlers && t.handlers[k].Post?
    ensures P.Ready(PostView(s.session, s.handlers[k])) && P.Possible(PostView(s.session, s.handlers[k]), SharedMove(s, move, k))
    ensures PostView(t.session, t.handlers[k]) == P.Move1(PostView(s.session, s.handlers[k]), SharedMove(s, move, k))
  {
    MoveInv(s, move, t);
    assert HandlerOk(s.session, s.handlers[k]) && Ready(s.session, s.handlers[k]);
    if move.Act? && move.h == k {
      PostSteps(s.session, s.handlers[k], move.choice);
    } else {
      MoveSpares(s, move, k);
    }
  }

  /** The same of a notification and `Broadcast`. */
  lemma NotifyPart(s: Server, move: Move, t: Server, k: nat)
    requires ServerInv(s) && Leads(s, move, t) && k in s.handlers && s.handlers[k].Notify?
    ensures AllReady(s) && k in t.handlers && t.handlers[k].Notify?
    ensures B.Ready(NotifyView(s.session, s.handlers[k])) && B.Possible(NotifyView(s.session, s.handlers[k]), SharedMove(s, move, k))
    ensures NotifyView(t.session, t.handlers[k]) == B.Move1(NotifyView(s.session, s.handlers[k]), SharedMove(s, move, k))
  {
    MoveInv(s, move, t);
    assert HandlerOk(s.session, s.handlers[k]) && Ready(s.session, s.handlers[k]);
    if move.Act? && move.h == k {
      NotifySteps(s.session, s.handlers[k], move.choice);
    } else {
      MoveSpares(s, move, k);
    }
  }

  ghost predicate IsGet(s: Server, k: nat) {
    k in s.handlers && s.handlers[k].Get?
  }

  ghost predicate IsPost(s: Server, k: nat) {
    k in s.handlers && s.handlers[k].Post?
  }

  ghost predicate IsNotify(s: Server, k: nat) {
    k in s.handlers && s.handlers[k].Notify?
  }

  ghost predicate GetStepAt(s: Server, move: Move, t: Server, k: nat) {
    && IsGet(s, k) && IsGet(t, k) && CanMove(s, move) && AllReady(s)
    && var before, step := GetView(s.session, s.handlers[k]), GetMove(s, move, k);
       C.Ready(before) && C.Possible(before, step) && GetView(t.session, t.handlers[k]) == C.Move1(before, step)
  }

  ghost function GetViews(states: seq<Server>, k: nat): seq<C.System>
    requires forall i | 0 <= i < |states| :: IsGet(states[i], k)
  {
    seq(|states|, i requires 0 <= i < |states| && IsGet(states[i], k) => GetView(states[i].session, states[i].handlers[k]))
  }

  ghost predicate PostStepAt(s: Server, move: Move, t: Server, k: nat) {
    && IsPost(s, k) && IsPost(t, k) && CanMove(s, move) && AllReady(s)
    && var before, step := PostView(s.session, s.handlers[k]), SharedMove(s, move, k);
       P.Ready(before) && P.Possible(before, step) && PostView(t.session, t.handlers[k]) == P.Move1(before, step)
  }

  ghost function PostViews(states: seq<Server>, k: nat): seq<P.System>
    requires forall i | 0 <= i < |states| :: IsPost(states[i], k)
  {
    seq(|states|, i requires 0 <= i < |states| && IsPost(states[i], k) => PostView(states[i].session, states[i].handlers[k]))
  }

  ghost predicate NotifyStepAt(s: Server, move: Move, t: Server, k: nat) {
    && IsNotify(s, k) && IsNotify(t, k) && CanMove(s, move) && AllReady(s)
    && var before, step := NotifyView(s.session, s.handlers[k]), SharedMove(s, move, k);
       B.Ready(before) && B.Possible(before, step) && NotifyView(t.session, t.handlers[k]) == B.Move1(before, step)
  }

  ghost function NotifyViews(states: seq<Server>, k: nat): seq<B.System>
    requires forall i | 0 <= i < |states| :: IsNotify(states[i], k)
  {
    seq(|states|, i requires 0 <= i < |states| && IsNotify(states[i], k) => NotifyView(states[i].session, states[i].handlers[k]))
  }

  predicate SameKind(a: Handler, b: Handler) {
    (a.Get? <==> b.Get?) && (a.Post? <==> b.Post?) && (a.Notify? <==> b.Notify?)
  }

  predicate KeepsKind(before: map<nat, Handler>, after: map<nat, Handler>) {
    forall k | k in before :: k in after && SameKind(before[k], after[k])
  }

  lemma MoveKeepsKind(s: Server, move: Move)
    requires CanMove(s, move) && AllReady(s)
    ensures KeepsKind(s.handlers, MovedHandlers(s, move))
  {
  }

  lemma {:induction false} RunKeepsKind(states: seq<Server>, moves: seq<Move>, n: nat)
    requires IsRun(states, moves) && ServerInv(states[0]) && n < |states|
    ensures KeepsKind(states[0].handlers, states[n].handlers)
  {
    if n > 0 {
      RunKeepsKind(states, moves, n - 1);
      ServerRun(states, moves, n - 1);
      MoveInv(states[n - 1], moves[n - 1], states[n]);
      MoveKeepsKind(states[n - 1], moves[n - 1]);
    }
  }

  /** Every GET of a run, seen alone, is a run of `Connection`: what that module assumes of the others holds. */
  lemma GetRun(states: seq<Server>, moves: seq<Move>, k: nat) returns (steps: seq<C.Move>)
    requires IsRun(states, moves) && ServerInv(states[0]) && IsGet(states[0], k)
    ensures (forall i | 0 <= i < |states| :: IsGet(states[i], k)) && C.IsRun(GetViews(states, k), steps)
  {
    forall i | 0 <= i < |states| {
      RunKeepsKind(states, moves, i);
    }
    forall i | 0 <= i < |moves|
      ensures GetStepAt(states[i], moves[i], states[i + 1], k)
    {
      ServerRun(states, moves, i);
      GetPart(states[i], moves[i], states[i + 1], k);
    }
    steps := seq(|moves|,
      i requires 0 <= i < |moves| && GetStepAt(states[i], moves[i], states[i + 1], k) => GetMove(states[i], moves[i], k));
    var views := GetViews(states, k);
    forall i | 0 <= i < |moves|
      ensures C.Possible(views[i], steps[i]) && C.Ready(views[i]) && views[i + 1] == C.Move1(views[i], steps[i])
    {
      assert GetStepAt(states[i], moves[i], states[i + 1], k);
    }
  }

  /** Every POST of a run, seen alone, is a run of `PostResponse`. */
  lemma PostRun(states: seq<Server>, moves: seq<Move>, k: nat) returns (steps: seq<Sessions.Move<nat>>)
    requires IsRun(states, moves) && ServerInv(states[0]) && IsPost(states[0], k)
    ensures (forall i | 0 <= i < |states| :: IsPost(states[i], k)) && P.IsRun(PostViews(states, k), steps)
  {
    forall i | 0 <= i < |states| {
      RunKeepsKind(states, moves, i);
    }
    forall i | 0 <= i < |moves|
      ensures PostStepAt(states[i], moves[i], states[i + 1], k)
    {
      ServerRun(states, moves, i);
      PostPart(states[i], moves[i], states[i + 1], k);
    }
    steps := seq(|moves|,
      i requires 0 <= i < |moves| && PostStepAt(states[i], moves[i], states[i + 1], k) => SharedMove(states[i], moves[i], k));
    var views := PostViews(states, k);
    forall i | 0 <= i < |moves|
      ensures P.Possible(views[i], steps[i]) && P.Ready(views[i]) && views[i + 1] == P.Move1(views[i], steps[i])
    {
      assert PostStepAt(states[i], moves[i], states[i + 1], k);
    }
  }

  /** Every notification of a run, seen alone, is a run of `Broadcast`. */
  lemma NotifyRun(states: seq<Server>, moves: seq<Move>, k: nat) returns (steps: seq<Sessions.Move<nat>>)
    requires IsRun(states, moves) && ServerInv(states[0]) && IsNotify(states[0], k)
    ensures (forall i | 0 <= i < |states| :: IsNotify(states[i], k)) && B.IsRun(NotifyViews(states, k), steps)
  {
    forall i | 0 <= i < |states| {
      RunKeepsKind(states, moves, i);
    }
    forall i | 0 <= i < |moves|
      ensures NotifyStepAt(states[i], moves[i], states[i + 1], k)
    {
      ServerRun(states, moves, i);
      NotifyPart(states[i], moves[i], states[i + 1], k);
    }
    steps := seq(|moves|,
      i requires 0 <= i < |moves| && NotifyStepAt(states[i], moves[i], states[i + 1], k) => SharedMove(states[i], moves[i], k));
    var views := NotifyViews(states, k);
    forall i | 0 <= i < |moves|
      ensures B.Possible(views[i], steps[i]) && B.Ready(views[i]) && views[i + 1] == B.Move1(views[i], steps[i])
    {
      assert NotifyStepAt(states[i], moves[i], states[i + 1], k);
    }
  }

  // What every client gets.

  /** Whatever the handlers of a session do, each GET writes events of one stream, in strictly increasing order. */
  lemma EveryGetInOrder(states: seq<Server>, moves: seq<Move>, k: nat, n: nat)
    requires IsRun(states, moves) && ServerInv(states[0]) && IsGet(states[0], k) && IsNew(states[0].handlers[k]) && n < |states|
    ensures IsGet(states[n], k)
    ensures var conn := states[n].handlers[k].conn; C.NumberedAbove(conn.written, conn.stream, conn.floor)
  {
    var steps := GetRun(states, moves, k);
    var views := GetViews(states, k);
    C.ConnectionInOrder(views, steps, states[0].handlers[k].conn.phase.lastEventID, n);
    assert views[n].conn == states[n].handlers[k].conn;
  }

  /**
   Whatever the handlers of a session do, each POST that is through has written prime and
   response under numbers 1 and 2 of its own stream, or what fits before somebody closed it.
   */
  lemma EveryPostWrites(states: seq<Server>, moves: seq<Move>, k: nat, n: nat)
    requires IsRun(states, moves) && ServerInv(states[0]) && IsPost(states[0], k) && IsNew(states[0].handlers[k]) && n < |states|
    ensures IsPost(states[n], k)
    ensures var h := states[n].handlers[k];
            h.post.Done? ==>
              && (h.written == [P.Primed(h.stream), P.Answered(h.stream, h.resp)] || h.written == [P.Primed(h.stream)]
                  || h.written == [(None, "")])
              && h.stream !in states[n].session.registry.attached
  {
    var steps := PostRun(states, moves, k);
    var views := PostViews(states, k);
    var h := states[0].handlers[k];
    assert views[0] == P.Start(states[0].session, h.resp);
    if views[n].phase.Done? {
      P.PostWrites(views, steps, states[0].session, h.resp, n);
    }
  }

  /** No two POSTs of a session, and no POST and GET prime, ever share a stream. */
  lemma PostsHaveTheirOwn(states: seq<Server>, moves: seq<Move>, n: nat, j: nat, k: nat)
    requires IsRun(states, moves) && ServerInv(states[0]) && n < |states| && IsPost(states[n], j) && !states[n].handlers[j].post.Opening?
    ensures !IsListenID(states[n].handlers[j].stream)
    ensures j != k && IsPost(states[n], k) && !states[n].handlers[k].post.Opening?
            ==> states[n].handlers[j].stream != states[n].handlers[k].stream
  {
    ServerRun(states, moves, n);
    assert HandlerOk(states[n].session, states[n].handlers[j]);
    if j != k && IsPost(states[n], k) {
      assert Apart(states[n].handlers[j], states[n].handlers[k]);
    }
  }
}
