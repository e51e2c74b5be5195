/**
 A broadcast among everything else in its session: the listen stream is picked under
 the session's mutex and published to under its own, and other sections run between.
 */
module Broadcast {
  import opened Wrappers
  import opened EventIds
  import ES = EventStream
  import opened Sessions

  type Session = Sessions.Session<nat>

  datatype Phase = Picking | Sending(target: Option<string>) | Sent(ok: bool)

  datatype System = System(session: Session, payload: string, phase: Phase)

  function Pick(sys: System): System {
    sys.(phase := Sending(ListenTarget(sys.session.registry)))
  }

  function Send(sys: System): System
    requires Ready(sys) && sys.phase.Sending?
  {
    match sys.phase.target
    case None => sys.(phase := Sent(true))
    case Some(id) =>
      System(OnStream(sys.session, id, ES.DoPublish(sys.payload)), sys.payload, Sent(!sys.session.objects[id].closed))
  }

  /** What the sections take for granted. */
  predicate Ready(sys: System) {
    sys.phase.Sending? && sys.phase.target.Some? ==>
      var id := sys.phase.target.value;
      id in sys.session.objects && sys.session.objects[id].subs <= sys.session.objects[id].chans.Keys
  }

  type Move = Sessions.Move<nat>

  ghost predicate Possible(sys: System, move: Move) {
    move.Other? ==> Allowed(sys.session, move.step)
  }

  ghost function Move1(sys: System, move: Move): System
    requires Ready(sys) && Possible(sys, move)
  {
    match move
    case Other(step) => sys.(session := NextSession(sys.session, step))
    case Handler =>
      match sys.phase
      case Picking => Pick(sys)
      case Sending(_) => Send(sys)
      case Sent(_) => sys
  }

  ghost predicate IsRun(states: seq<System>, moves: seq<Move>) {
    && |states| == |moves| + 1
    && forall i | 0 <= i < |moves| ::
         Ready(states[i]) ==> Possible(states[i], moves[i]) && states[i + 1] == Move1(states[i], moves[i])
  }

  ghost predicate Sound(sys: System) {
    && SessionInv(sys.session)
    && (sys.phase.Sending? && sys.phase.target.Some? ==>
          sys.phase.target.value in sys.session.objects && IsListenID(sys.phase.target.value))
  }

  lemma SoundIsReady(sys: System)
    requires Sound(sys)
    ensures Ready(sys)
  {
    if sys.phase.Sending? && sys.phase.target.Some? {
      assert ES.StreamInv(sys.session.objects[sys.phase.target.value]);
    }
  }

  lemma MoveSound(sys: System, move: Move)
    requires Sound(sys) && Ready(sys) && Possible(sys, move)
    ensures Sound(Move1(sys, move))
  {
    match move
    case Other(step) =>
      NextSessionInv(sys.session, step);
      NextSessionExtends(sys.session, step);
    case Handler =>
      if sys.phase.Picking? {
        TargetIsTheListenStream(sys.session.registry);
      } else if sys.phase.Sending? && sys.phase.target.Some? {
        OnStreamInv(sys.session, sys.phase.target.value, ES.DoPublish(sys.payload));
      }
  }

  lemma {:induction false} RunSound(states: seq<System>, moves: seq<Move>, n: nat)
    requires IsRun(states, moves) && Sound(states[0]) && n < |states|
    ensures Sound(states[n]) && Ready(states[n])
  {
    if n > 0 {
      RunSound(states, moves, n - 1);
      MoveSound(states[n - 1], moves[n - 1]);
      assert states[n] == Move1(states[n - 1], moves[n - 1]);
    }
    SoundIsReady(states[n]);
  }

  /** The handler picks at moment `p`, and until moment `n` only others move. */
  ghost predicate PickedAt(states: seq<System>, moves: seq<Move>, p: nat, n: nat) {
    && IsRun(states, moves) && Sound(states[0])
    && p < n < |states| && states[p].phase.Picking? && moves[p].Handler?
    && forall i | p < i < n :: moves[i].Other?
  }

  /** The handler holds this target; the target's stream is there, and closed or not. */
  ghost predicate Holds(sys: System, payload: string, target: Option<string>, closed: bool) {
    && sys.phase == Sending(target) && sys.payload == payload
    && (target.Some? ==>
          target.value in sys.session.objects && IsListenID(target.value) && sys.session.objects[target.value].closed == closed)
  }

  lemma PickHolds(sys: System)
    requires SessionInv(sys.session) && sys.phase.Picking?
    ensures Holds(Pick(sys), sys.payload, ListenTarget(sys.session.registry), false)
  {
    TargetIsTheListenStream(sys.session.registry);
  }

  /** A section of somebody else leaves the target as it is, unless it closes it. */
  lemma OtherHolds(sys: System, step: Sessions.Step<nat>, payload: string, target: Option<string>, closed: bool)
    requires SessionInv(sys.session) && Allowed(sys.session, step) && Holds(sys, payload, target, closed)
    ensures Holds(sys.(session := NextSession(sys.session, step)), payload, target,
                  closed || (target.Some? && step == Finish(target.value)))
  {
    if target.Some? {
      ClosedByFinish(sys.session, step, target.value);
    }
  }

  predicate TargetClosed(moves: seq<Move>, from: nat, to: nat, target: Option<string>) {
    target.Some? && ClosedBetween(moves, from, to, target.value)
  }

  lemma NextState(states: seq<System>, moves: seq<Move>, i: nat)
    requires IsRun(states, moves) && Sound(states[0]) && i < |moves|
    ensures Sound(states[i]) && Ready(states[i]) && Possible(states[i], moves[i]) && states[i + 1] == Move1(states[i], moves[i])
  {
    RunSound(states, moves, i);
  }

  /** Until it sends, the handler keeps its pick, and the pick is closed only by a handler that closes it. */
  lemma {:induction false} PickKept(states: seq<System>, moves: seq<Move>, p: nat, n: nat)
    requires PickedAt(states, moves, p, n)
    ensures var target := ListenTarget(states[p].session.registry);
            Holds(states[n], states[p].payload, target, TargetClosed(moves, p + 1, n, target))
    decreases n
  {
    var target := ListenTarget(states[p].session.registry);
    NextState(states, moves, n - 1);
    if n == p + 1 {
      assert states[n] == Pick(states[p]);
      assert Holds(states[n], states[p].payload, target, false) by { PickHolds(states[p]); }
    } else {
      PickKept(states, moves, p, n - 1);
      HeldStill(states[n - 1], moves, p + 1, n - 1, states[n], states[p].payload, target);
    }
  }

  lemma HeldStill(sys: System, moves: seq<Move>, from: nat, i: nat, next: System, payload: string, target: Option<string>)
    requires from <= i < |moves| && moves[i].Other? && SessionInv(sys.session) && Allowed(sys.session, moves[i].step)
    requires next == sys.(session := NextSession(sys.session, moves[i].step))
    requires Holds(sys, payload, target, TargetClosed(moves, from, i, target))
    ensures Holds(next, payload, target, TargetClosed(moves, from, i + 1, target))
  {
    OtherHolds(sys, moves[i].step, payload, target, TargetClosed(moves, from, i, target));
    TargetClosedStep(moves, from, i, target);
  }

  lemma TargetClosedStep(moves: seq<Move>, from: nat, n: nat, target: Option<string>)
    requires from <= n < |moves| && moves[n].Other?
    ensures TargetClosed(moves, from, n + 1, target) <==>
              TargetClosed(moves, from, n, target) || (target.Some? && moves[n].step == Finish(target.value))
  {
    if target.Some? {
      ClosedStep(moves, from, n, target.value);
    }
  }

  /**
   Over every run: when the handler sends, only the stream that it picked can gain the
   event, which it does exactly when nobody has closed it since; without a listen
   stream nothing is sent and nothing is lost.
   */
  lemma BroadcastReachesOne(states: seq<System>, moves: seq<Move>, p: nat, n: nat)
    requires PickedAt(states, moves, p, n) && n < |moves| && moves[n].Handler?
    ensures match ListenTarget(states[p].session.registry)
            case None => states[n + 1] == states[n].(phase := Sent(true))
            case Some(id) =>
              && id in states[n].session.objects && IsListenID(id)
              && (states[n + 1].phase == Sent(true) <==> !ClosedBetween(moves, p + 1, n, id))
              && (states[n + 1].phase == Sent(false) <==> ClosedBetween(moves, p + 1, n, id))
              && var before, after := states[n].session, states[n + 1].session;
                 && id in after.objects
                 && after == before.(objects := before.objects[id := after.objects[id]])
                 && after.objects[id].history ==
                      before.objects[id].history
                      + if ClosedBetween(moves, p + 1, n, id) then []
                        else [ES.Event(FormatEventID(id, |before.objects[id].history| + 1), states[p].payload)]
  {
    PickKept(states, moves, p, n);
    RunSound(states, moves, n);
    var target := ListenTarget(states[p].session.registry);
    if target.Some? {
      assert ES.StreamInv(states[n].session.objects[target.value]);
    }
  }

  ghost predicate Leads(before: System, move: Move, after: System) {
    Ready(before) ==> Possible(before, move) && after == Move1(before, move)
  }

  lemma FourMoves(s: seq<System>, moves: seq<Move>)
    requires |s| == 5 && |moves| == 4
    requires Leads(s[0], moves[0], s[1]) && Leads(s[1], moves[1], s[2])
    requires Leads(s[2], moves[2], s[3]) && Leads(s[3], moves[3], s[4])
    ensures IsRun(s, moves)
  {
    forall i | 0 <= i < 4
      ensures Leads(s[i], moves[i], s[i + 1])
    {
      if i == 0 {
      } else if i == 1 {
      } else if i == 2 {
      } else {
        assert i == 3;
      }
    }
  }

  ghost predicate SameHistories(before: Session, after: Session) {
    && after.objects.Keys == before.objects.Keys
    && forall id | id in before.objects :: after.objects[id].history == before.objects[id].history
  }

  ghost predicate IsLost(session: Session, payload: string, states: seq<System>, moves: seq<Move>) {
    && IsRun(states, moves) && states[0] == System(session, payload, Picking)
    && states[|moves|].phase == Sent(false) && SameHistories(session, states[|moves|].session)
  }

  function Taken(sys: System): System {
    sys.(session := RemoveAllStreams(sys.session))
  }

  function Closed(sys: System, id: string): System
    requires Ready(sys) && sys.phase == Sending(Some(id))
  {
    sys.(session := FinishClosing(sys.session, id))
  }

  lemma TakenLeads(sys: System, id: string)
    requires Sound(sys) && sys.phase == Sending(Some(id)) && id in sys.session.registry.attached
    ensures Leads(sys, Other(RemoveAll), Taken(sys))
    ensures Sound(Taken(sys)) && Ready(Taken(sys)) && id in Taken(sys).session.closing
    ensures SameHistories(sys.session, Taken(sys).session)
  {
    SoundIsReady(sys);
    MoveSound(sys, Other(RemoveAll));
    SoundIsReady(Taken(sys));
  }

  lemma ClosedLeads(sys: System, id: string)
    requires Sound(sys) && Ready(sys) && sys.phase == Sending(Some(id)) && id in sys.session.closing
    ensures Leads(sys, Other(Finish(id)), Closed(sys, id))
    ensures Ready(Closed(sys, id)) && Closed(sys, id).session.objects[id].closed
    ensures SameHistories(sys.session, Closed(sys, id).session)
  {
  }

  lemma ClosedSend(sys: System, id: string)
    requires Ready(sys) && sys.phase == Sending(Some(id)) && sys.session.objects[id].closed
    ensures Leads(sys, Handler, Send(sys))
    ensures Send(sys).phase == Sent(false) && SameHistories(sys.session, Send(sys).session)
  {
  }

  /** When the session is closed between pick and send, the notification reaches nobody though a listen stream existed. */
  lemma BroadcastLost(session: Session, payload: string)
    requires SessionInv(session) && ListenTarget(session.registry).Some?
    ensures exists states, moves :: IsLost(session, payload, states, moves)
  {
    var id := ListenTarget(session.registry).value;
    TargetIsTheListenStream(session.registry);
    var start := System(session, payload, Picking);
    var picked := Pick(start);
    TakenLeads(picked, id);
    ClosedLeads(Taken(picked), id);
    var closed := Closed(Taken(picked), id);
    ClosedSend(closed, id);
    assert Leads(start, Handler, picked);
    LostByFour(start, picked, Taken(picked), closed, Send(closed), Other(RemoveAll), Other(Finish(id)));
  }

  lemma LostByFour(start: System, picked: System, taken: System, closed: System, sent: System, take: Move, close: Move)
    requires Leads(start, Handler, picked) && Leads(picked, take, taken)
    requires Leads(taken, close, closed) && Leads(closed, Handler, sent)
    requires start.phase == Picking && sent.phase == Sent(false) && picked.session == start.session
    requires SameHistories(picked.session, taken.session) && SameHistories(taken.session, closed.session)
    requires SameHistories(closed.session, sent.session)
    ensures exists states, moves :: IsLost(start.session, start.payload, states, moves)
  {
    var states := [start, picked, taken, closed, sent];
    var moves := [Handler, take, close, Handler];
    FourMoves(states, moves);
    assert IsLost(start.session, start.payload, states, moves);
  }
}
