/**
 What is opened gets closed: what openStream gives, that no stream is ever forgotten, and that the
 handlers of a session, left to themselves, come to their end and close what is theirs.
 */
module Closings {
  import opened Wrappers
  import opened EventIds
  import ES = EventStream
  import opened Sessions
  import C = Connection
  import P = PostResponse
  import B = Broadcast
  import S = Server

  type Session = Sessions.Session<nat>

  // Opening.

  /**
   openStream: while a listen stream is in the map it is the one and nothing changes; otherwise the
   stream is new, under the next number of its kind, open, without events or subscribers, and in the map.
   */
  lemma OpenGives(ss: Session, kind: string)
    requires SessionInv(ss) && IsKind(kind)
    ensures var (after, id) := OpenStream(ss, kind);
            if kind == "listen" && exists other :: other in ss.registry.attached && IsListenID(other) then
              after == ss && id in ss.registry.attached && IsListenID(id)
            else
              && id == FormatStreamID(kind, ss.registry.nextID + 1) && id !in ss.objects
              && after.registry.attached == ss.registry.attached + {id} && after.registry.nextID == ss.registry.nextID + 1
              && after.objects.Keys == ss.objects.Keys + {id}
              && (forall other | other in ss.objects :: after.objects[other] == ss.objects[other])
              && var s := after.objects[id];
                 && s.id == id && !s.closed && s.history == [] && s.buffer == [] && s.subs == {} && s.seqNo == 0
                 && s.maxBuf == if ss.registry.maxBuf <= 0 then 1024 else ss.registry.maxBuf
  {
    TargetIsTheListenStream(ss.registry);
    FreshStreamID(ss, kind);
    if Reuses(ss.registry, kind) {
      OpenReused(ss, kind);
    }
  }

  /** A new buffer size counts for the streams that are opened from then on; one that is not positive is ignored. */
  lemma Configured(s: S.Server, n: int, t: S.Server)
    requires S.ServerInv(s) && S.Leads(s, S.Configure(n), t)
    ensures t.handlers == s.handlers && t.session.objects == s.session.objects && t.session.closing == s.session.closing
    ensures t.session.registry == s.session.registry.(maxBuf := if n > 0 then n else s.session.registry.maxBuf)
  {
    S.MoveInv(s, S.Configure(n), t);
  }

  // Nothing is forgotten.

  /** Every stream ever opened is in the map, or about to be closed by somebody, or closed. */
  ghost predicate NoneForgotten(ss: Session) {
    forall id | id in ss.objects :: id in ss.registry.attached || id in ss.closing || ss.objects[id].closed
  }

  lemma StepForgetsNone(ss: Session, step: Step<nat>)
    requires SessionInv(ss) && Allowed(ss, step) && NoneForgotten(ss)
    ensures NoneForgotten(NextSession(ss, step))
  {
    var after := NextSession(ss, step);
    forall id | id in after.objects
      ensures id in after.registry.attached || id in after.closing || after.objects[id].closed
    {
      if id in ss.objects {
        ClosedByFinish(ss, step, id);
        StaysUnlessTaken(ss, step, id);
      } else {
        OnlyOpenIsNew(ss, step, id);
        OpenGives(ss, step.kind);
      }
    }
  }

  /** What leaves the map is about to be closed, and stays so until it is closed. */
  lemma StaysUnlessTaken(ss: Session, step: Step<nat>, id: string)
    requires SessionInv(ss) && Allowed(ss, step) && id in ss.objects
    ensures id in ss.registry.attached ==> id in NextSession(ss, step).registry.attached + NextSession(ss, step).closing
    ensures id in ss.closing && step != Finish(id) ==> id in NextSession(ss, step).closing
  {
  }

  lemma OnlyOpenIsNew(ss: Session, step: Step<nat>, id: string)
    requires SessionInv(ss) && Allowed(ss, step) && id !in ss.objects && id in NextSession(ss, step).objects
    ensures step.Open?
  {
  }

  // Who is about to close what.

  /** Every stream that is about to be closed is owned by a handler that will. */
  ghost predicate AllOwned(s: S.Server) {
    forall id | id in s.session.closing :: OwnedBySome(s.handlers, id)
  }

  ghost predicate Tidy(s: S.Server) {
    S.ServerInv(s) && NoneForgotten(s.session) && AllOwned(s)
  }

  lemma PostOwns(session: Session, h: S.Handler, choice: S.Choice, id: string)
    requires h.Post? && S.Ready(session, h) && Allowed(session, S.StepOf(session, h, choice))
    requires id in NextSession(session, S.StepOf(session, h, choice)).closing
    ensures id in S.Owned(h) || id !in session.closing ==> id in S.Owned(S.Acted(session, h, choice))
  {
  }

  lemma EnderOwns(session: Session, h: S.Handler, choice: S.Choice, id: string)
    requires h.Ender? && S.Ready(session, h) && S.CanAct(session, h, choice) && Allowed(session, S.StepOf(session, h, choice))
    requires id in NextSession(session, S.StepOf(session, h, choice)).closing
    ensures id in S.Owned(h) || id !in session.closing ==> id in S.Owned(S.Acted(session, h, choice))
  {
  }

  lemma OthersTakeNone(session: Session, h: S.Handler, choice: S.Choice)
    requires (h.Get? || h.Notify?) && S.Ready(session, h) && Allowed(session, S.StepOf(session, h, choice))
    ensures NextSession(session, S.StepOf(session, h, choice)).closing == session.closing && S.Owned(h) == {}
  {
  }

  /** A section keeps what its handler owns, adds what it takes out of the map, and closes what it no longer owns. */
  lemma ActOwns(session: Session, h: S.Handler, choice: S.Choice, id: string)
    requires S.Ready(session, h) && S.CanAct(session, h, choice) && Allowed(session, S.StepOf(session, h, choice))
    requires id in NextSession(session, S.StepOf(session, h, choice)).closing
    ensures id in S.Owned(h) || id !in session.closing ==> id in S.Owned(S.Acted(session, h, choice))
  {
    match h
    case Post(_, _, _, _) => PostOwns(session, h, choice, id);
    case Ender(_) => EnderOwns(session, h, choice, id);
    case _ => OthersTakeNone(session, h, choice);
  }

  ghost predicate OwnedBySome(handlers: map<nat, S.Handler>, id: string) {
    exists k :: k in handlers && id in S.Owned(handlers[k])
  }

  lemma OwnedByOther(before: map<nat, S.Handler>, after: map<nat, S.Handler>, h: nat, id: string)
    requires OwnedBySome(before, id) && (h in before ==> id !in S.Owned(before[h]))
    requires forall k | k in before && k != h :: k in after && after[k] == before[k]
    ensures OwnedBySome(after, id)
  {
    var k :| k in before && id in S.Owned(before[k]);
    assert k in after && id in S.Owned(after[k]);
  }

  lemma MoveKeepsOthers(s: S.Server, move: S.Move)
    requires S.CanMove(s, move) && S.AllReady(s) && !move.Configure?
    ensures forall k | k in s.handlers && k != move.h :: k in S.MovedHandlers(s, move) && S.MovedHandlers(s, move)[k] == s.handlers[k]
    ensures !move.Act? && move.h in s.handlers ==> S.Owned(s.handlers[move.h]) == {}
  {
  }

  lemma StaysSame(s: S.Server, move: S.Move)
    requires S.CanMove(s, move) && S.AllReady(s) && !move.Act? && Allowed(s.session, S.MoveStep(s, move))
    ensures NextSession(s.session, S.MoveStep(s, move)).closing == s.session.closing
  {
  }

  lemma ActedOwns(s: S.Server, h: nat, choice: S.Choice, id: string)
    requires S.CanMove(s, S.Act(h, choice)) && S.AllReady(s) && AllOwned(s)
    requires Allowed(s.session, S.StepOf(s.session, s.handlers[h], choice))
    requires id in NextSession(s.session, S.StepOf(s.session, s.handlers[h], choice)).closing
    ensures OwnedBySome(S.MovedHandlers(s, S.Act(h, choice)), id)
  {
    var after := S.MovedHandlers(s, S.Act(h, choice));
    if id in S.Owned(s.handlers[h]) || id !in s.session.closing {
      ActOwns(s.session, s.handlers[h], choice, id);
      assert h in after && id in S.Owned(after[h]);
    } else {
      MoveKeepsOthers(s, S.Act(h, choice));
      OwnedByOther(s.handlers, after, h, id);
    }
  }

  lemma MovedOwns(s: S.Server, move: S.Move, id: string)
    requires S.CanMove(s, move) && S.AllReady(s) && AllOwned(s) && !move.Act? && id in s.session.closing
    ensures OwnedBySome(S.MovedHandlers(s, move), id)
  {
    if !move.Configure? {
      MoveKeepsOthers(s, move);
      OwnedByOther(s.handlers, S.MovedHandlers(s, move), move.h, id);
    }
  }

  lemma MoveOwned(s: S.Server, move: S.Move, t: S.Server)
    requires S.ServerInv(s) && S.Leads(s, move, t) && AllOwned(s)
    ensures AllOwned(t)
  {
    S.MoveInv(s, move, t);
    forall id | id in t.session.closing
      ensures OwnedBySome(t.handlers, id)
    {
      if move.Act? {
        ActedOwns(s, move.h, move.choice, id);
      } else {
        StaysSame(s, move);
        MovedOwns(s, move, id);
      }
    }
  }

  lemma {:induction false} TidyRun(states: seq<S.Server>, moves: seq<S.Move>, n: nat)
    requires S.IsRun(states, moves) && Tidy(states[0]) && n < |states|
    ensures Tidy(states[n])
  {
    if n > 0 {
      TidyRun(states, moves, n - 1);
      S.MoveInv(states[n - 1], moves[n - 1], states[n]);
      StepForgetsNone(states[n - 1].session, S.MoveStep(states[n - 1], moves[n - 1]));
      MoveOwned(states[n - 1], moves[n - 1], states[n]);
    }
  }

  /** No handler has taken a stream out of the map that it has yet to close. */
  predicate NobodyCloses(s: S.Server) {
    forall k | k in s.handlers :: S.Owned(s.handlers[k]) == {}
  }

  /**
   Whatever the handlers of a session have done since it was new: at a moment when none of them is about
   to close a stream, every stream ever opened is in the map and open, or closed for good.
   */
  lemma NoStreamLeaks(maxBuf: int, states: seq<S.Server>, moves: seq<S.Move>, n: nat, id: string)
    requires S.IsRun(states, moves) && states[0] == S.Server(NewSession(maxBuf), map[]) && n < |states|
    requires NobodyCloses(states[n]) && id in states[n].session.objects
    ensures id in states[n].session.registry.attached <==> !states[n].session.objects[id].closed
  {
    S.NewServer(maxBuf);
    TidyRun(states, moves, n);
    assert id !in states[n].session.closing;
  }

  // Handlers come to their end.

  /** How many sections a POST has yet to make, at most. */
  function PostAhead(phase: P.Phase): nat {
    match phase
    case Opening => 5
    case Priming => 4
    case Responding => 3
    case Leaving => 2
    case Closing => 1
    case Done => 0
  }

  function Sections(moves: seq<Sessions.Move<nat>>, m: nat, n: nat): nat
    requires m <= n <= |moves|
    decreases n
  {
    if m == n then 0 else Sections(moves, m, n - 1) + if moves[n - 1].Handler? then 1 else 0
  }

  lemma PostGetsOn(sys: P.System, move: Sessions.Move<nat>)
    requires P.Ready(sys) && P.Possible(sys, move)
    ensures var next := P.Move1(sys, move).phase;
            PostAhead(next) == 0 || PostAhead(next) + (if move.Handler? then 1 else 0) <= PostAhead(sys.phase)
  {
  }

  lemma {:induction false} PostShrinks(states: seq<P.System>, moves: seq<Sessions.Move<nat>>, n: nat)
    requires P.IsRun(states, moves) && P.Sound(states[0]) && n < |states|
    ensures PostAhead(states[n].phase) == 0 || PostAhead(states[n].phase) + Sections(moves, 0, n) <= PostAhead(states[0].phase)
  {
    if n > 0 {
      PostShrinks(states, moves, n - 1);
      P.RunSound(states, moves, n - 1);
      PostGetsOn(states[n - 1], moves[n - 1]);
      assert states[n] == P.Move1(states[n - 1], moves[n - 1]);
    }
  }

  /** A POST is through after five sections of its own, whatever the others do in between. */
  lemma PostEnds(states: seq<P.System>, moves: seq<Sessions.Move<nat>>, session: Session, resp: string, n: nat)
    requires P.IsRun(states, moves) && SessionInv(session) && states[0] == P.Start(session, resp)
    requires n < |states| && Sections(moves, 0, n) >= 5
    ensures states[n].phase.Done?
  {
    PostShrinks(states, moves, n);
  }

  // The end of a session.

  /** How far the handler that ends the session is: what it has yet to close, of the streams it found, is all that is not closed. */
  ghost predicate Ended(s: S.Server, k: nat, found: set<string>) {
    && k in s.handlers && s.handlers[k].Ender? && found <= s.session.objects.Keys
    && match s.handlers[k].ending
       case Starting => false
       case Emptying(left) => forall id | id in found && id !in left :: s.session.objects[id].closed
       case Over => forall id | id in found :: s.session.objects[id].closed
  }

  lemma StaysClosed(ss: Session, step: Step<nat>, found: set<string>)
    requires SessionInv(ss) && Allowed(ss, step) && found <= ss.objects.Keys
    ensures found <= NextSession(ss, step).objects.Keys
    ensures forall id | id in found :: NextSession(ss, step).objects[id].closed <==> ss.objects[id].closed || step == Finish(id)
  {
    forall id | id in found {
      ClosedByFinish(ss, step, id);
    }
  }

  lemma EnderActs(session: Session, h: S.Handler, choice: S.Choice)
    requires h.Ender? && S.Ready(session, h) && S.CanAct(session, h, choice)
    ensures var next, step := S.Acted(session, h, choice), S.StepOf(session, h, choice);
            && next.Ender?
            && match h.ending
               case Starting => next.ending == S.Emptying(session.registry.attached) && step == RemoveAll
               case Emptying(left) =>
                 if left == {} then next.ending.Over? else next.ending == S.Emptying(left - {choice.id}) && step == Finish(choice.id)
               case Over => next.ending.Over?
  {
  }

  lemma EndedByItself(s: S.Server, choice: S.Choice, t: S.Server, k: nat, found: set<string>)
    requires S.ServerInv(s) && S.Leads(s, S.Act(k, choice), t) && Ended(s, k, found)
    ensures Ended(t, k, found)
  {
    S.MoveInv(s, S.Act(k, choice), t);
    StaysClosed(s.session, S.MoveStep(s, S.Act(k, choice)), found);
    EnderActs(s.session, s.handlers[k], choice);
  }

  lemma EndedByOthers(s: S.Server, move: S.Move, t: S.Server, k: nat, found: set<string>)
    requires S.ServerInv(s) && S.Leads(s, move, t) && Ended(s, k, found) && !(move.Act? && move.h == k)
    ensures Ended(t, k, found)
  {
    S.MoveInv(s, move, t);
    StaysClosed(s.session, S.MoveStep(s, move), found);
    if !move.Configure? {
      MoveKeepsOthers(s, move);
    }
  }

  lemma EndedStep(s: S.Server, move: S.Move, t: S.Server, k: nat, found: set<string>)
    requires S.ServerInv(s) && S.Leads(s, move, t) && Ended(s, k, found)
    ensures Ended(t, k, found)
  {
    if move.Act? && move.h == k {
      EndedByItself(s, move.choice, t, k, found);
    } else {
      EndedByOthers(s, move, t, k, found);
    }
  }

  lemma EndedFirst(s: S.Server, choice: S.Choice, t: S.Server, k: nat)
    requires S.ServerInv(s) && S.Leads(s, S.Act(k, choice), t) && k in s.handlers && s.handlers[k] == S.Ender(S.Starting)
    ensures Ended(t, k, s.session.registry.attached)
  {
    S.MoveInv(s, S.Act(k, choice), t);
    EnderActs(s.session, s.handlers[k], choice);
  }

  lemma {:induction false} EndedRun(states: seq<S.Server>, moves: seq<S.Move>, k: nat, found: set<string>, m: nat, n: nat)
    requires S.IsRun(states, moves) && S.ServerInv(states[0]) && m <= n < |states| && Ended(states[m], k, found)
    ensures Ended(states[n], k, found)
    decreases n
  {
    if m < n {
      EndedRun(states, moves, k, found, m, n - 1);
      S.ServerRun(states, moves, n - 1);
      EndedStep(states[n - 1], moves[n - 1], states[n], k, found);
    }
  }

  lemma FoundAt(states: seq<S.Server>, moves: seq<S.Move>, k: nat, choice: S.Choice, m: nat)
    requires S.IsRun(states, moves) && S.ServerInv(states[0]) && m < |moves| && moves[m] == S.Act(k, choice)
    requires k in states[m].handlers && states[m].handlers[k] == S.Ender(S.Starting)
    ensures Ended(states[m + 1], k, states[m].session.registry.attached)
  {
    S.ServerRun(states, moves, m);
    EndedFirst(states[m], choice, states[m + 1], k);
  }

  /** When the handler that ends the session is through, every stream that it found in the map is closed. */
  lemma EndClosesAll(states: seq<S.Server>, moves: seq<S.Move>, k: nat, choice: S.Choice, m: nat, n: nat)
    requires S.IsRun(states, moves) && S.ServerInv(states[0]) && m < n < |states| && moves[m] == S.Act(k, choice)
    requires k in states[m].handlers && states[m].handlers[k] == S.Ender(S.Starting)
    requires k in states[n].handlers && states[n].handlers[k] == S.Ender(S.Over)
    ensures forall id | id in states[m].session.registry.attached :: id in states[n].session.objects && states[n].session.objects[id].closed
  {
    FoundAt(states, moves, k, choice, m);
    EndedRun(states, moves, k, states[m].session.registry.attached, m + 1, n);
  }

  /** How many sections of handler `k` lie between two moments. */
  function Acts(moves: seq<S.Move>, k: nat, m: nat, n: nat): nat
    requires m <= n <= |moves|
    decreases n
  {
    if m == n then 0 else Acts(moves, k, m, n - 1) + if moves[n - 1].Act? && moves[n - 1].h == k then 1 else 0
  }

  predicate EndsWithin(s: S.Server, k: nat, sections: int) {
    && k in s.handlers && s.handlers[k].Ender?
    && match s.handlers[k].ending
       case Starting => false
       case Emptying(left) => |left| + 1 <= sections
       case Over => true
  }

  lemma EndsSooner(s: S.Server, move: S.Move, t: S.Server, k: nat, sections: int)
    requires S.ServerInv(s) && S.Leads(s, move, t) && EndsWithin(s, k, sections)
    ensures EndsWithin(t, k, sections - if move.Act? && move.h == k then 1 else 0)
  {
    S.MoveInv(s, move, t);
    if move.Act? && move.h == k {
      EnderActs(s.session, s.handlers[k], move.choice);
    } else if !move.Configure? {
      MoveKeepsOthers(s, move);
    }
  }

  lemma {:induction false} EndsSoonerRun(states: seq<S.Server>, moves: seq<S.Move>, k: nat, sections: int, m: nat, n: nat)
    requires S.IsRun(states, moves) && S.ServerInv(states[0]) && m <= n < |states| && EndsWithin(states[m], k, sections)
    ensures EndsWithin(states[n], k, sections - Acts(moves, k, m, n))
    decreases n
  {
    if m < n {
      EndsSoonerRun(states, moves, k, sections, m, n - 1);
      S.ServerRun(states, moves, n - 1);
      EndsSooner(states[n - 1], moves[n - 1], states[n], k, sections - Acts(moves, k, m, n - 1));
    }
  }

  /** It is through after as many sections as it found streams, and one more. */
  lemma EnderEnds(states: seq<S.Server>, moves: seq<S.Move>, k: nat, left: set<string>, m: nat, n: nat)
    requires S.IsRun(states, moves) && S.ServerInv(states[0]) && m <= n < |states|
    requires k in states[m].handlers && states[m].handlers[k] == S.Ender(S.Emptying(left)) && Acts(moves, k, m, n) > |left|
    ensures k in states[n].handlers && states[n].handlers[k] == S.Ender(S.Over)
  {
    EndsSoonerRun(states, moves, k, |left| + 1, m, n);
  }
}
