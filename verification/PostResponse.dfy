/**
 A POST that is answered with an SSE stream, among everything else in its session: a
 prime event and the response on a stream of its own, then the stream is closed.
 */
module PostResponse {
  import opened Wrappers
  import opened EventIds
  import ES = EventStream
  import opened Sessions

  type Session = Sessions.Session<nat>

  /** What goes on the wire: `None` is an event without an ID. */
  type Wire = seq<(Option<string>, string)>

  const POST := "post"

  datatype Phase = Opening | Priming | Responding | Leaving | Closing | Done

  datatype System = System(session: Session, resp: string, phase: Phase, stream: string, written: Wire)

  function Start(session: Session, resp: string): System {
    System(session, resp, Opening, "", [])
  }

  /** What the sections take for granted. */
  predicate Ready(sys: System) {
    && sys.session.registry.attached <= sys.session.objects.Keys
    && (!sys.phase.Opening? ==>
          sys.stream in sys.session.objects && sys.session.objects[sys.stream].subs <= sys.session.objects[sys.stream].chans.Keys)
  }

  function Open(sys: System): System
    requires Ready(sys)
  {
    var (session, id) := OpenStream(sys.session, POST);
    sys.(session := session, phase := Priming, stream := id)
  }

  function PublishOwn(sys: System, data: string): Session
    requires Ready(sys) && !sys.phase.Opening?
  {
    OnStream(sys.session, sys.stream, ES.DoPublish(data))
  }

  /** The ID that the handler's next publication gets, if the stream is open. */
  function NextID(sys: System): Option<string>
    requires Ready(sys) && !sys.phase.Opening?
  {
    var s := sys.session.objects[sys.stream];
    if s.closed then None else Some(FormatEventID(s.id, s.seqNo + 1))
  }

  /** A prime event goes out even when it has no ID; a response does not. */
  function Prime(sys: System): System
    requires Ready(sys) && !sys.phase.Opening?
  {
    sys.(session := PublishOwn(sys, ""), phase := Responding, written := sys.written + [(NextID(sys), "")])
  }

  function Respond(sys: System): System
    requires Ready(sys) && !sys.phase.Opening?
  {
    sys.(session := PublishOwn(sys, sys.resp),
         phase := Leaving,
         written := sys.written + if NextID(sys).Some? then [(NextID(sys), sys.resp)] else [])
  }

  function Leave(sys: System): System {
    sys.(session := RemoveStream(sys.session, sys.stream),
         phase := if sys.stream in sys.session.registry.attached then Closing else Done)
  }

  function CloseOwn(sys: System): System
    requires Ready(sys) && !sys.phase.Opening?
  {
    sys.(session := FinishClosing(sys.session, sys.stream), phase := Done)
  }

  type Move = Sessions.Move<nat>

  /** Nobody else publishes on this stream; `Server.PostPart` proves it of all handlers. */
  ghost predicate Possible(sys: System, move: Move) {
    move.Other? ==>
      && Allowed(sys.session, move.step)
      && (!sys.phase.Opening? ==> !(move.step.At? && move.step.id == sys.stream && move.step.step.DoPublish?))
  }

  ghost function Move1(sys: System, move: Move): System
    requires Ready(sys) && Possible(sys, move)
  {
    match move
    case Other(step) => sys.(session := NextSession(sys.session, step))
    case Handler =>
      match sys.phase
      case Opening => Open(sys)
      case Priming => Prime(sys)
      case Responding => Respond(sys)
      case Leaving => Leave(sys)
      case Closing => CloseOwn(sys)
      case Done => sys
  }

  ghost predicate IsRun(states: seq<System>, moves: seq<Move>) {
    && |states| == |moves| + 1
    && forall i | 0 <= i < |moves| ::
         Ready(states[i]) ==> Possible(states[i], moves[i]) && states[i + 1] == Move1(states[i], moves[i])
  }

  // What holds in every state.

  function Primed(id: string): (Option<string>, string) {
    (Some(FormatEventID(id, 1)), "")
  }

  function Answered(id: string, resp: string): (Option<string>, string) {
    (Some(FormatEventID(id, 2)), resp)
  }

  /** The wire shows what the stream has published, plus a prime event without an ID if the stream was closed before it. */
  predicate WireOk(sys: System, published: nat, closed: bool) {
    match sys.phase
    case Opening => sys.written == []
    case Priming => sys.written == [] && published == 0
    case Responding =>
      || (published == 1 && sys.written == [Primed(sys.stream)])
      || (published == 0 && closed && sys.written == [(None, "")])
    case _ =>
      || (published == 2 && sys.written == [Primed(sys.stream), Answered(sys.stream, sys.resp)])
      || (published == 1 && closed && sys.written == [Primed(sys.stream)])
      || (published == 0 && closed && sys.written == [(None, "")])
  }

  ghost predicate Sound(sys: System) {
    && SessionInv(sys.session)
    && (sys.phase.Opening? ==> sys.stream == "" && sys.written == [])
    && (!sys.phase.Opening? ==>
          && sys.stream in sys.session.objects
          && WireOk(sys, |sys.session.objects[sys.stream].history|, sys.session.objects[sys.stream].closed))
    && (sys.phase.Closing? || sys.phase.Done? ==> sys.stream !in sys.session.registry.attached)
  }

  lemma SoundIsReady(sys: System)
    requires Sound(sys)
    ensures Ready(sys)
  {
    if !sys.phase.Opening? {
      assert ES.StreamInv(sys.session.objects[sys.stream]);
    }
  }

  lemma OpenSound(sys: System)
    requires Sound(sys) && Ready(sys) && sys.phase.Opening?
    ensures Sound(Open(sys)) && Open(sys).stream == FormatStreamID(POST, sys.session.registry.nextID + 1)
    ensures !Open(sys).session.objects[Open(sys).stream].closed
  {
    OpenInv(sys.session, POST);
  }

  lemma PublishSound(sys: System, data: string)
    requires Sound(sys) && Ready(sys) && !sys.phase.Opening?
    ensures SessionInv(PublishOwn(sys, data)) && sys.stream in PublishOwn(sys, data).objects
    ensures PublishOwn(sys, data).registry == sys.session.registry
    ensures var before, after := sys.session.objects[sys.stream], PublishOwn(sys, data).objects[sys.stream];
            && after.closed == before.closed
            && |after.history| == |before.history| + (if before.closed then 0 else 1)
            && NextID(sys) == (if before.closed then None else Some(FormatEventID(sys.stream, |before.history| + 1)))
  {
    OnStreamInv(sys.session, sys.stream, ES.DoPublish(data));
    assert ES.StreamInv(sys.session.objects[sys.stream]);
  }

  lemma PrimeSound(sys: System)
    requires Sound(sys) && Ready(sys) && sys.phase.Priming?
    ensures Sound(Prime(sys))
  {
    PublishSound(sys, "");
    var s := sys.session.objects[sys.stream];
    PrimedOk(sys, Prime(sys), |s.history|, s.closed);
  }

  lemma PrimedOk(sys: System, next: System, published: nat, closed: bool)
    requires WireOk(sys, published, closed) && sys.phase.Priming? && next.phase.Responding? && next.stream == sys.stream
    requires next.written == sys.written + [(if closed then None else Some(FormatEventID(sys.stream, published + 1)), "")]
    ensures WireOk(next, if closed then published else published + 1, closed)
  {
  }

  lemma AnsweredOk(sys: System, next: System, published: nat, closed: bool)
    requires WireOk(sys, published, closed) && sys.phase.Responding?
    requires next.phase.Leaving? && next.stream == sys.stream && next.resp == sys.resp
    requires next.written == sys.written + if closed then [] else [(Some(FormatEventID(sys.stream, published + 1)), sys.resp)]
    ensures WireOk(next, if closed then published else published + 1, closed)
  {
  }

  lemma RespondSound(sys: System)
    requires Sound(sys) && Ready(sys) && sys.phase.Responding?
    ensures Sound(Respond(sys))
  {
    PublishSound(sys, sys.resp);
    var s := sys.session.objects[sys.stream];
    AnsweredOk(sys, Respond(sys), |s.history|, s.closed);
  }

  lemma LeaveSound(sys: System)
    requires Sound(sys) && Ready(sys) && sys.phase.Leaving?
    ensures Sound(Leave(sys))
  {
    RemoveInv(sys.session, sys.stream);
  }

  lemma CloseSound(sys: System)
    requires Sound(sys) && Ready(sys) && sys.phase.Closing?
    ensures Sound(CloseOwn(sys))
  {
    FinishInv(sys.session, sys.stream);
  }

  lemma HandlerSound(sys: System)
    requires Sound(sys) && Ready(sys)
    ensures Sound(Move1(sys, Handler))
  {
    match sys.phase
    case Opening => OpenSound(sys);
    case Priming => PrimeSound(sys);
    case Responding => RespondSound(sys);
    case Leaving => LeaveSound(sys);
    case Closing => CloseSound(sys);
    case Done =>
  }

  lemma QuietStep(s: ES.Stream<nat>, step: ES.Step<nat>)
    requires ES.Enabled(s, step) && !step.DoPublish?
    ensures ES.Next(s, step).history == s.history
  {
  }

  lemma OpenLeavesStream(ss: Session, kind: string, id: string)
    requires SessionInv(ss) && IsKind(kind) && id in ss.objects
    ensures var after := OpenStream(ss, kind).0;
            id in after.objects && after.objects[id].history == ss.objects[id].history
            && (id !in ss.registry.attached ==> id !in after.registry.attached)
  {
    FreshStreamID(ss, kind);
    FirstAttachedIsAttached(ss.registry.listenIDs, ss.registry.attached);
  }

  /** Others may close the stream, but neither publish on it nor put it back into the map. */
  lemma OthersLeaveStream(ss: Session, step: Sessions.Step<nat>, id: string)
    requires SessionInv(ss) && Allowed(ss, step) && id in ss.objects
    requires !(step.At? && step.id == id && step.step.DoPublish?)
    ensures var after := NextSession(ss, step);
            && id in after.objects && after.objects[id].history == ss.objects[id].history
            && (id !in ss.registry.attached ==> id !in after.registry.attached)
  {
    match step
    case Open(kind) => OpenLeavesStream(ss, kind, id);
    case Finish(_) => QuietStep(ss.objects[id], ES.DoClose);
    case At(other, inner) =>
      if other == id {
        QuietStep(ss.objects[id], inner);
      }
    case _ =>
  }

  lemma OtherSound(sys: System, step: Sessions.Step<nat>)
    requires Sound(sys) && Ready(sys) && Possible(sys, Other(step))
    ensures Sound(Move1(sys, Other(step)))
  {
    NextSessionInv(sys.session, step);
    if !sys.phase.Opening? {
      OthersLeaveStream(sys.session, step, sys.stream);
      ClosedByFinish(sys.session, step, sys.stream);
    }
  }

  lemma {:induction false} RunSound(states: seq<System>, moves: seq<Move>, n: nat)
    requires IsRun(states, moves) && Sound(states[0]) && n < |states|
    ensures Sound(states[n]) && Ready(states[n])
  {
    if n > 0 {
      RunSound(states, moves, n - 1);
      match moves[n - 1] {
        case Handler => HandlerSound(states[n - 1]);
        case Other(step) => OtherSound(states[n - 1], step);
      }
      assert states[n] == Move1(states[n - 1], moves[n - 1]);
    }
    SoundIsReady(states[n]);
  }

  /**
   Whatever else happens in the session, a POST that is through has written one of three
   things: prime and response, numbered 1 and 2 on its own stream; the prime alone, when
   its stream was closed under it; or a prime without an ID, when it was closed before.
   The stream is then out of the map for good.
   */
  lemma PostWrites(states: seq<System>, moves: seq<Move>, session: Session, resp: string, n: nat)
    requires IsRun(states, moves) && n < |states| && SessionInv(session) && states[0] == Start(session, resp)
    requires states[n].phase.Done?
    ensures || states[n].written == [Primed(states[n].stream), Answered(states[n].stream, states[n].resp)]
            || states[n].written == [Primed(states[n].stream)]
            || states[n].written == [(None, "")]
    ensures states[n].stream !in states[n].session.registry.attached
  {
    RunSound(states, moves, n);
  }

  predicate Serving(phase: Phase) {
    phase.Priming? || phase.Responding?
  }

  lemma StillServing(sys: System, move: Move)
    requires Ready(sys) && Possible(sys, move) && Serving(sys.phase) && Serving(Move1(sys, move).phase)
    ensures sys.phase.Priming? || move.Other?
  {
  }

  /** One move while the handler publishes. */
  lemma ServedStep(sys: System, move: Move)
    requires Sound(sys) && Ready(sys) && Possible(sys, move)
    requires sys.phase.Priming? || (sys.phase.Responding? && move.Other?)
    ensures var next := Move1(sys, move);
            && next.stream == sys.stream && next.resp == sys.resp && sys.stream in next.session.objects
            && (next.session.objects[sys.stream].closed <==>
                  sys.session.objects[sys.stream].closed || move == Other(Finish(sys.stream)))
  {
    match move
    case Handler => PublishSound(sys, "");
    case Other(step) => ClosedByFinish(sys.session, step, sys.stream);
  }

  lemma OpenedNext(states: seq<System>, moves: seq<Move>, o: nat)
    requires IsRun(states, moves) && Sound(states[0]) && o < |moves| && states[o].phase.Opening? && moves[o].Handler?
    ensures var next := states[o + 1];
            && next.stream == FormatStreamID(POST, states[o].session.registry.nextID + 1) && next.resp == states[o].resp
            && next.stream in next.session.objects && !next.session.objects[next.stream].closed
  {
    RunSound(states, moves, o);
    OpenSound(states[o]);
    assert states[o + 1] == Move1(states[o], moves[o]);
  }

  lemma ServedNext(states: seq<System>, moves: seq<Move>, n: nat)
    requires IsRun(states, moves) && Sound(states[0]) && n < |moves|
    requires Serving(states[n].phase) && Serving(states[n + 1].phase)
    ensures var sys, next := states[n], states[n + 1];
            && next.stream == sys.stream && next.resp == sys.resp
            && sys.stream in sys.session.objects && sys.stream in next.session.objects
            && (next.session.objects[sys.stream].closed <==>
                  sys.session.objects[sys.stream].closed || moves[n] == Other(Finish(sys.stream)))
  {
    RunSound(states, moves, n);
    assert states[n + 1] == Move1(states[n], moves[n]);
    StillServing(states[n], moves[n]);
    ServedStep(states[n], moves[n]);
  }

  /** The handler opens its stream at moment `o` and has not answered by moment `n`. */
  ghost predicate OpenedAt(states: seq<System>, moves: seq<Move>, o: nat, n: nat) {
    && IsRun(states, moves) && Sound(states[0])
    && o < n < |states| && states[o].phase.Opening? && moves[o].Handler?
    && forall i | o < i <= n :: Serving(states[i].phase)
  }

  /** Until it answers, the handler's stream is closed only by a handler that took it out of the map. */
  lemma {:induction false} OpenUntilClosed(states: seq<System>, moves: seq<Move>, o: nat, n: nat)
    requires OpenedAt(states, moves, o, n)
    ensures states[n].stream == FormatStreamID(POST, states[o].session.registry.nextID + 1)
    ensures states[n].resp == states[o].resp && states[n].stream in states[n].session.objects
    ensures states[n].session.objects[states[n].stream].closed <==> ClosedBetween(moves, o + 1, n, states[n].stream)
    decreases n
  {
    if n == o + 1 {
      OpenedNext(states, moves, o);
    } else {
      OpenUntilClosed(states, moves, o, n - 1);
      ServedNext(states, moves, n - 1);
      ClosedStep(moves, o + 1, n - 1, states[n].stream);
    }
  }

  /** The response reaches the wire, as number 2 after number 1, exactly when nobody closes the stream before. */
  lemma ResponseArrives(states: seq<System>, moves: seq<Move>, o: nat, n: nat)
    requires OpenedAt(states, moves, o, n) && n < |moves| && states[n].phase.Responding? && moves[n].Handler?
    ensures var id := FormatStreamID(POST, states[o].session.registry.nextID + 1);
            states[n + 1].written == [Primed(id), Answered(id, states[o].resp)] <==> !ClosedBetween(moves, o + 1, n, id)
  {
    OpenUntilClosed(states, moves, o, n);
    RunSound(states, moves, n);
    assert states[n + 1] == Respond(states[n]);
    RespondedWhole(states[n]);
  }

  /** What is on the wire after the response was published, or was not. */
  lemma RespondedWhole(sys: System)
    requires Sound(sys) && Ready(sys) && sys.phase.Responding?
    ensures Respond(sys).written == [Primed(sys.stream), Answered(sys.stream, sys.resp)] <==> !sys.session.objects[sys.stream].closed
  {
    PublishSound(sys, sys.resp);
    var s := sys.session.objects[sys.stream];
    AnsweredWhole(sys.written, sys.stream, sys.resp, |s.history|, s.closed);
  }

  lemma AnsweredWhole(written: Wire, id: string, resp: string, published: nat, closed: bool)
    requires (published == 1 && written == [Primed(id)]) || (published == 0 && closed && written == [(None, "")])
    ensures written + (if closed then [] else [(Some(FormatEventID(id, published + 1)), resp)]) == [Primed(id), Answered(id, resp)]
            <==> !closed
  {
  }
}
