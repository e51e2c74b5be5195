/**
 What a GET leads to, section by section and whatever else happens in between: which stream its
 Last-Event-ID makes it serve, what it replays, and that all of it, and what comes after, gets out.
 */
module Resumptions {
  import opened Wrappers
  import opened EventIds
  import ES = EventStream
  import opened Sessions
  import C = Connection
  import D = Deliveries

  type Session = Sessions.Session<nat>

  /** From moment `m` to moment `n` only other handlers act. */
  predicate Waits(moves: seq<C.Move>, m: nat, n: nat) {
    forall i | m <= i < n && i < |moves| :: moves[i].Other?
  }

  lemma {:induction false} WaitingKeepsConn(states: seq<C.System>, moves: seq<C.Move>, m: nat, n: nat)
    requires C.IsRun(states, moves) && SessionInv(states[0].session) && C.Sound(states[0])
    requires m <= n < |states| && Waits(moves, m, n)
    ensures states[n].conn == states[m].conn
    decreases n
  {
    if m < n {
      WaitingKeepsConn(states, moves, m, n - 1);
      C.NextIsMove(states, moves, n - 1);
    }
  }

  /** A run from the arrival of a GET, at whose moment `m` it makes its first section. */
  ghost predicate FirstActs(states: seq<C.System>, moves: seq<C.Move>, lastEventID: string, m: nat) {
    && C.IsRun(states, moves) && SessionInv(states[0].session) && states[0] == C.Arrive(states[0].session, lastEventID)
    && m < |moves| && Waits(moves, 0, m) && moves[m].Handler?
  }

  lemma FirstSection(states: seq<C.System>, moves: seq<C.Move>, lastEventID: string, m: nat)
    requires FirstActs(states, moves, lastEventID, m)
    ensures C.Sound(states[0]) && SessionInv(states[m].session) && C.Ready(states[m])
    ensures states[m].conn == C.Arrive(states[0].session, lastEventID).conn
    ensures states[m + 1] == C.Choose(states[m], lastEventID)
  {
    C.NoNamelessStream(states[0].session);
    C.ArriveSound(states[0].session, lastEventID);
    C.RunSound(states, moves, m);
    WaitingKeepsConn(states, moves, 0, m);
    C.NextIsMove(states, moves, m);
  }

  /** The GET serves the listen stream, which is in the map, and has nothing to replay. */
  ghost predicate OnListen(sys: C.System, prime: bool) {
    && sys.conn.phase == C.Replaying([], prime) && sys.conn.replay == [] && sys.conn.written == [] && sys.conn.blanks == 0
    && IsListenID(sys.conn.stream) && sys.conn.stream in sys.session.registry.attached
  }

  lemma ListenServed(sys: C.System, prime: bool)
    requires SessionInv(sys.session) && sys.conn.phase.Choosing? && C.PhaseOk(sys.conn) && sys.conn.blanks == 0
    ensures OnListen(C.UseListen(sys, prime), prime)
  {
    ListenIsKind();
    OpenInv(sys.session, LISTEN);
    var after := OpenStream(sys.session, LISTEN);
    if Reuses(sys.session.registry, LISTEN) {
      TargetIsTheListenStream(sys.session.registry);
    } else {
      ListenIDsAreListen(LISTEN, sys.session.registry.nextID + 1);
    }
  }

  /**
   The first section, by what the client sent: nothing leads to the listen stream, which is primed if
   need be; an ID that cannot be read ends the request; an event of a stream in the map leads to that
   stream, and of any other stream to the listen stream, without a prime.
   */
  lemma FirstLeadsTo(states: seq<C.System>, moves: seq<C.Move>, lastEventID: string, m: nat)
    requires FirstActs(states, moves, lastEventID, m)
    ensures lastEventID == "" ==> OnListen(states[m + 1], true)
    ensures lastEventID != "" && ParseEventID(lastEventID).None? ==>
              states[m + 1].conn.phase.Done? && states[m + 1].conn.written == [] && states[m + 1].session == states[m].session
    ensures match ParseEventID(lastEventID)
            case None => true
            case Some((s, k)) =>
              && (s in states[m].session.registry.attached <==> states[m + 1].conn.phase == C.Found(lastEventID, k))
              && (s in states[m].session.registry.attached ==>
                    states[m + 1].conn.stream == s && states[m + 1].conn.written == [] && states[m + 1].session == states[m].session)
              && (s !in states[m].session.registry.attached <==> OnListen(states[m + 1], false))
  {
    FirstSection(states, moves, lastEventID, m);
    ListenServed(states[m], true);
    ListenServed(states[m], false);
    EmptyIsUnreadable();
  }

  lemma EmptyIsUnreadable()
    ensures ParseEventID("") == None
  {
  }

  // The replay.

  /** The events of the buffer whose place in the history is beyond `k`: as many as it still has. */
  function BeyondInBuffer(s: ES.Stream<nat>, k: int): seq<ES.Event>
    requires |s.buffer| <= |s.history|
  {
    var dropped := |s.history| - |s.buffer|;
    if k <= dropped then s.buffer else if k <= |s.history| then s.buffer[k - dropped..] else []
  }

  lemma AfterIsBeyond(s: ES.Stream<nat>, k: int)
    requires ES.StreamInv(s) && |s.history| <= INT64_MAX
    ensures ES.After(s.buffer, k) == BeyondInBuffer(s, k)
  {
    var dropped := |s.history| - |s.buffer|;
    assert s.buffer == s.history[dropped..];
    forall i | 0 <= i < |s.buffer|
      ensures ES.IsAbove(s.buffer[i], k) <==> dropped + i + 1 > k
    {
      assert s.buffer[i] == s.history[dropped + i];
      ES.NumberedIsAbove(s.buffer[i], s.id, dropped + i + 1, k);
    }
    ES.KeepCuts(s.buffer, ES.Above(k), dropped, k);
  }

  /**
   A GET whose Last-Event-ID names event `k` of a stream in the map: its second section takes for
   replay exactly what the stream's buffer then has beyond `k`, without a prime.
   */
  lemma SecondReplays(states: seq<C.System>, moves: seq<C.Move>, lastEventID: string, s: string, k: int, m: nat, n: nat)
    requires FirstActs(states, moves, lastEventID, m) && ParseEventID(lastEventID) == Some((s, k))
    requires s in states[m].session.registry.attached
    requires m < n < |moves| && Waits(moves, m + 1, n) && moves[n].Handler?
    ensures s in states[n].session.objects && ES.StreamInv(states[n].session.objects[s])
    ensures var stream, next := states[n].session.objects[s], states[n + 1].conn;
            |stream.history| <= INT64_MAX ==>
              && next.stream == s && next.written == [] && next.replay == BeyondInBuffer(stream, k)
              && next.phase == C.Replaying(next.replay, false)
  {
    FirstLeadsTo(states, moves, lastEventID, m);
    FirstSection(states, moves, lastEventID, m);
    C.RunSound(states, moves, n);
    WaitingKeepsConn(states, moves, m + 1, n);
    C.NextIsMove(states, moves, n);
    var stream := states[n].session.objects[s];
    if |stream.history| <= INT64_MAX {
      AfterIsBeyond(stream, k);
      assert states[n + 1] == C.Resume(states[n], lastEventID, k);
    }
  }
}
