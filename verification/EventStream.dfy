/**
 One resumable SSE stream as a value: its counter, its bounded replay buffer, the
 channels of its subscribers, and the history of everything ever published.
 Each function below is one section of code that runs under the stream's mutex.
 */
module EventStream {
  import opened Wrappers
  import opened EventIds

  datatype Event = Event(id: string, data: string)

  /**
   A buffered Go channel. `since` is the length of the history when it was made,
   `taken` what its receiver has read so far.
   */
  datatype Chan = Chan(capacity: nat, queue: seq<Event>, closed: bool, since: nat, taken: seq<Event>)

  /** `C` names the channels; `history` records every publication. */
  datatype Stream<C(==)> = Stream(
    id: string,
    seqNo: nat,
    buffer: seq<Event>,
    maxBuf: nat,
    subs: set<C>,
    closed: bool,
    chans: map<C, Chan>,
    history: seq<Event>)

  const DEFAULT_BUFFER_SIZE := 1024

  function New<C>(id: string, maxBuf: int): Stream<C> {
    Stream(id, 0, [], if maxBuf <= 0 then DEFAULT_BUFFER_SIZE else maxBuf, {}, false, map[], [])
  }

  function LastOf(events: seq<Event>, n: nat): seq<Event> {
    if |events| > n then events[|events| - n..] else events
  }

  /** A send that gives up when the channel is full. */
  function Offer(ch: Chan, ev: Event): Chan {
    if |ch.queue| < ch.capacity then ch.(queue := ch.queue + [ev]) else ch
  }

  function NextEvent<C>(s: Stream<C>, data: string): Event {
    Event(FormatEventID(s.id, s.seqNo + 1), data)
  }

  /** Nothing happens to a closed stream; otherwise the event is stored and fanned out. */
  function Publish<C>(s: Stream<C>, data: string): Stream<C>
    requires s.subs <= s.chans.Keys
  {
    if s.closed then s
    else
      var ev := NextEvent(s, data);
      s.(seqNo := s.seqNo + 1,
         buffer := LastOf(s.buffer + [ev], s.maxBuf),
         chans := map c | c in s.chans :: if c in s.subs then Offer(s.chans[c], ev) else s.chans[c],
         history := s.history + [ev])
  }

  function Subscribe<C>(s: Stream<C>, c: C, buf: int): Stream<C> {
    var ch := Chan(if buf <= 0 then 16 else buf, [], s.closed, |s.history|, []);
    s.(chans := s.chans[c := ch], subs := if s.closed then s.subs else s.subs + {c})
  }

  function Shut(ch: Chan): Chan {
    ch.(closed := true)
  }

  function Unsubscribe<C>(s: Stream<C>, c: C): Stream<C>
    requires s.subs <= s.chans.Keys
  {
    if c in s.subs then s.(subs := s.subs - {c}, chans := s.chans[c := Shut(s.chans[c])]) else s
  }

  function Close<C>(s: Stream<C>): Stream<C> {
    if s.closed then s
    else s.(closed := true, subs := {}, chans := map c | c in s.chans :: if c in s.subs then Shut(s.chans[c]) else s.chans[c])
  }

  /** What openStream does to a listen stream it finds again. */
  function Reopen<C>(s: Stream<C>): Stream<C> {
    s.(closed := false)
  }

  /** The receiver takes the oldest queued event; a closed channel is drained first. */
  function Taken(ch: Chan): Chan {
    if ch.queue == [] then ch else ch.(queue := ch.queue[1..], taken := ch.taken + [ch.queue[0]])
  }

  function Receive<C>(s: Stream<C>, c: C): Stream<C> {
    if c in s.chans then s.(chans := s.chans[c := Taken(s.chans[c])]) else s
  }

  datatype ReplayError = InvalidLastEventID | DifferentStream

  predicate IsAbove(ev: Event, k: int) {
    match ParseEventID(ev.id)
    case Some((_, n)) => n > k
    case None => false
  }

  function Above(k: int): Event -> bool {
    (ev: Event) => IsAbove(ev, k)
  }

  function Keep(events: seq<Event>, wanted: Event -> bool): seq<Event> {
    if events == [] then []
    else
      var last := events[|events| - 1];
      Keep(events[..|events| - 1], wanted) + if wanted(last) then [last] else []
  }

  /** The events whose printed sequence number is above `k`. */
  function After(events: seq<Event>, k: int): seq<Event> {
    Keep(events, Above(k))
  }

  function EventsAfter<C>(s: Stream<C>, lastEventID: string): Result<seq<Event>, ReplayError> {
    if lastEventID == "" then Ok([])
    else
      match ParseEventID(lastEventID)
      case None => Err(InvalidLastEventID)
      case Some((streamID, k)) =>
        if streamID != s.id then Err(DifferentStream) else Ok(After(s.buffer, k))
  }

  // What holds of a stream in every state.

  /** `places` picks out of `history`, from `start` on and in order, exactly `events`. */
  predicate PicksOut(history: seq<Event>, start: nat, events: seq<Event>, places: seq<nat>) {
    && |places| == |events|
    && (forall i | 0 <= i < |places| :: start <= places[i] < |history| && events[i] == history[places[i]])
    && (forall i, j | 0 <= i < j < |places| :: places[i] < places[j])
  }

  /** `events` is a subsequence, without repetition, of what was published from `start` on. */
  ghost predicate InOrder(history: seq<Event>, start: nat, events: seq<Event>) {
    exists places: seq<nat> :: PicksOut(history, start, events, places)
  }

  ghost predicate ChanInv(history: seq<Event>, ch: Chan) {
    && |ch.queue| <= ch.capacity
    && 0 < ch.capacity
    && ch.since <= |history|
    && InOrder(history, ch.since, ch.taken + ch.queue)
  }

  /** The buffer is the tail of the history and the history numbers its events from 1. */
  predicate BufferInv<C>(s: Stream<C>) {
    && s.maxBuf > 0
    && s.seqNo == |s.history|
    && s.buffer == LastOf(s.history, s.maxBuf)
    && forall i | 0 <= i < |s.history| :: s.history[i].id == FormatEventID(s.id, i + 1)
  }

  ghost predicate StreamInv<C>(s: Stream<C>) {
    && s.id != ""
    && BufferInv(s)
    && s.subs <= s.chans.Keys
    && (s.closed ==> s.subs == {})
    && (forall c | c in s.chans :: s.chans[c].closed <==> c !in s.subs)
    && (forall c | c in s.chans :: ChanInv(s.history, s.chans[c]))
  }

  lemma NothingPicked(history: seq<Event>, start: nat)
    ensures InOrder(history, start, [])
  {
    assert PicksOut(history, start, [], []);
  }

  /** More publications, delivered or not, keep what was delivered in order. */
  lemma InOrderExtends(history: seq<Event>, start: nat, events: seq<Event>, ev: Event)
    requires InOrder(history, start, events) && start <= |history|
    ensures InOrder(history + [ev], start, events)
    ensures InOrder(history + [ev], start, events + [ev])
  {
    var places: seq<nat> :| PicksOut(history, start, events, places);
    assert PicksOut(history + [ev], start, events, places);
    assert PicksOut(history + [ev], start, events + [ev], places + [|history|]);
  }

  lemma OfferKeepsOrder(history: seq<Event>, ch: Chan, ev: Event)
    requires ChanInv(history, ch)
    ensures ChanInv(history + [ev], Offer(ch, ev)) && ChanInv(history + [ev], ch)
  {
    InOrderExtends(history, ch.since, ch.taken + ch.queue, ev);
    assert ch.taken + (ch.queue + [ev]) == ch.taken + ch.queue + [ev];
  }

  lemma NewInv<C>(id: string, maxBuf: int)
    requires id != ""
    ensures StreamInv(New<C>(id, maxBuf))
  {
  }

  lemma PublishBuffer<C>(s: Stream<C>, data: string)
    requires BufferInv(s) && s.subs <= s.chans.Keys
    ensures BufferInv(Publish(s, data))
  {
    if !s.closed {
      var ev := NextEvent(s, data);
      var t := Publish(s, data);
      forall i | 0 <= i < |t.history|
        ensures t.history[i].id == FormatEventID(t.id, i + 1)
      {
        assert i < |s.history| ==> t.history[i] == s.history[i];
      }
    }
  }

  lemma PublishInv<C>(s: Stream<C>, data: string)
    requires StreamInv(s)
    ensures StreamInv(Publish(s, data))
  {
    PublishBuffer(s, data);
    if !s.closed {
      forall c | c in s.chans
        ensures ChanInv(Publish(s, data).history, Publish(s, data).chans[c])
      {
        OfferKeepsOrder(s.history, s.chans[c], NextEvent(s, data));
      }
    }
  }

  lemma NewChanInv(history: seq<Event>, ch: Chan)
    requires ch.taken == [] && ch.queue == [] && 0 < ch.capacity && ch.since == |history|
    ensures ChanInv(history, ch)
  {
    NothingPicked(history, |history|);
    assert ch.taken + ch.queue == [];
  }

  lemma SubscribeInv<C>(s: Stream<C>, c: C, buf: int)
    requires StreamInv(s) && c !in s.chans
    ensures StreamInv(Subscribe(s, c, buf))
  {
    NewChanInv(s.history, Subscribe(s, c, buf).chans[c]);
  }

  lemma UnsubscribeInv<C>(s: Stream<C>, c: C)
    requires StreamInv(s)
    ensures StreamInv(Unsubscribe(s, c))
  {
  }

  lemma CloseInv<C>(s: Stream<C>)
    requires StreamInv(s)
    ensures StreamInv(Close(s))
  {
  }

  lemma ReceiveInv<C>(s: Stream<C>, c: C)
    requires StreamInv(s)
    ensures StreamInv(Receive(s, c))
  {
    if c in s.chans && s.chans[c].queue != [] {
      var ch := s.chans[c];
      assert ch.taken + [ch.queue[0]] + ch.queue[1..] == ch.taken + ch.queue;
    }
  }

  // Runs: any interleaving of the sections.

  datatype Step<C> =
    | DoPublish(data: string)
    | DoSubscribe(c: C, buf: int)
    | DoUnsubscribe(c: C)
    | DoClose
    | DoReopen
    | DoReceive(c: C)

  /** A new subscriber always gets a new channel. */
  ghost predicate Enabled<C>(s: Stream<C>, step: Step<C>) {
    s.subs <= s.chans.Keys && (step.DoSubscribe? ==> step.c !in s.chans)
  }

  function Next<C>(s: Stream<C>, step: Step<C>): Stream<C>
    requires s.subs <= s.chans.Keys
  {
    match step
    case DoPublish(data) => Publish(s, data)
    case DoSubscribe(c, buf) => Subscribe(s, c, buf)
    case DoUnsubscribe(c) => Unsubscribe(s, c)
    case DoClose => Close(s)
    case DoReopen => Reopen(s)
    case DoReceive(c) => Receive(s, c)
  }

  lemma NextInv<C>(s: Stream<C>, step: Step<C>)
    requires StreamInv(s) && Enabled(s, step)
    ensures StreamInv(Next(s, step))
  {
    match step
    case DoPublish(data) => PublishInv(s, data);
    case DoSubscribe(c, buf) => SubscribeInv(s, c, buf);
    case DoUnsubscribe(c) => UnsubscribeInv(s, c);
    case DoClose => CloseInv(s);
    case DoReopen =>
    case DoReceive(c) => ReceiveInv(s, c);
  }

  ghost predicate IsRun<C>(states: seq<Stream<C>>, steps: seq<Step<C>>) {
    && |states| == |steps| + 1
    && forall i | 0 <= i < |steps| :: Enabled(states[i], steps[i]) && states[i + 1] == Next(states[i], steps[i])
  }

  /** Over every run: full history in the buffer's reach, and every subscriber served in order. */
  lemma {:induction false} RunInv<C>(states: seq<Stream<C>>, steps: seq<Step<C>>, n: nat)
    requires IsRun(states, steps) && StreamInv(states[0]) && n < |states|
    ensures StreamInv(states[n])
  {
    if n > 0 {
      RunInv(states, steps, n - 1);
      NextInv(states[n - 1], steps[n - 1]);
      assert states[n] == Next(states[n - 1], steps[n - 1]);
    }
  }

  // Replay.

  lemma NumberedIsAbove(ev: Event, id: string, n: nat, k: int)
    requires id != "" && ev.id == FormatEventID(id, n)
    ensures IsAbove(ev, k) <==> n <= INT64_MAX && n > k
  {
    ParseFormatted(id, n);
  }

  /** Filtering by number is cutting, when the numbers are consecutive. */
  lemma {:induction false} KeepCuts(events: seq<Event>, wanted: Event -> bool, first: nat, k: int)
    requires forall i | 0 <= i < |events| :: wanted(events[i]) <==> first + i + 1 > k
    ensures Keep(events, wanted) ==
              if k <= first then events else if k - first <= |events| then events[k - first..] else []
  {
    if events != [] {
      var front, last := events[..|events| - 1], events[|events| - 1];
      KeepCuts(front, wanted, first, k);
      assert events == front + [last];
    }
  }

  /**
   Resuming after event `k`: exactly the events after it when the buffer still
   reaches back to it, the whole buffer when it does not, nothing when `k` is the
   last event or has not been published yet.
   */
  lemma ReplayExact<C>(s: Stream<C>, k: nat)
    requires StreamInv(s) && s.seqNo <= INT64_MAX && k <= INT64_MAX
    ensures EventsAfter(s, FormatEventID(s.id, k)) ==
              Ok(if k + |s.buffer| <= s.seqNo then s.buffer else if k <= s.seqNo then s.history[k..] else [])
  {
    ParseFormatted(s.id, k);
    var first := |s.history| - |s.buffer|;
    assert s.buffer == s.history[first..];
    forall i | 0 <= i < |s.buffer|
      ensures IsAbove(s.buffer[i], k) <==> first + i + 1 > k
    {
      assert s.buffer[i] == s.history[first + i];
      NumberedIsAbove(s.buffer[i], s.id, first + i + 1, k);
    }
    KeepCuts(s.buffer, Above(k), first, k);
  }

  /** The buffer holds the last events, as many as were published or as fit. */
  lemma BufferIsTail<C>(s: Stream<C>)
    requires StreamInv(s)
    ensures |s.buffer| == if s.seqNo <= s.maxBuf then s.seqNo else s.maxBuf
    ensures s.buffer == s.history[s.seqNo - |s.buffer|..]
    ensures forall i | 0 <= i < |s.buffer| :: s.buffer[i].id == FormatEventID(s.id, s.seqNo - |s.buffer| + i + 1)
  {
  }

  /** Two publications of one stream never share an ID. */
  lemma HistoryIDsDistinct<C>(s: Stream<C>, i: nat, j: nat)
    requires StreamInv(s) && i < j < |s.history|
    ensures s.history[i].id != s.history[j].id
  {
    if s.history[i].id == s.history[j].id {
      EventIDsInjective(s.id, i + 1, s.id, j + 1);
    }
  }

  /** Like PicksOut, with every place beyond event number `k`. */
  ghost predicate InOrderBeyond(history: seq<Event>, k: int, events: seq<Event>) {
    exists places: seq<nat> :: PicksOut(history, 0, events, places) && forall i | 0 <= i < |places| :: places[i] + 1 > k
  }

  lemma BeyondExtends(history: seq<Event>, k: int, events: seq<Event>, ev: Event)
    requires InOrderBeyond(history, k, events)
    ensures InOrderBeyond(history + [ev], k, events)
    ensures |history| + 1 > k ==> InOrderBeyond(history + [ev], k, events + [ev])
  {
    var places: seq<nat> :| PicksOut(history, 0, events, places) && forall i | 0 <= i < |places| :: places[i] + 1 > k;
    assert PicksOut(history + [ev], 0, events, places);
    var more := places + [|history|];
    assert PicksOut(history + [ev], 0, events + [ev], more);
  }

  /** Whatever number is sent, a replay comes from the history, in order, above that number. */
  lemma {:induction false} KeepInOrder(history: seq<Event>, wanted: Event -> bool, first: nat, k: int)
    requires first <= |history|
    requires forall i | 0 <= i < |history| :: wanted(history[i]) ==> i + 1 > k
    ensures InOrderBeyond(history, k, Keep(history[first..], wanted))
    decreases |history|
  {
    if first == |history| {
      assert PicksOut(history, 0, [], []);
    } else {
      var n := |history| - 1;
      var front, last := history[..n], history[n];
      KeepInOrder(front, wanted, first, k);
      assert history[first..][..|history| - first - 1] == front[first..] && history == front + [last];
      BeyondExtends(front, k, Keep(front[first..], wanted), last);
    }
  }

  lemma ReplayInOrder<C>(s: Stream<C>, k: int)
    requires StreamInv(s)
    ensures InOrderBeyond(s.history, k, After(s.buffer, k))
  {
    forall i | 0 <= i < |s.history|
      ensures IsAbove(s.history[i], k) ==> i + 1 > k
    {
      NumberedIsAbove(s.history[i], s.id, i + 1, k);
    }
    var first := |s.history| - |s.buffer|;
    assert s.buffer == s.history[first..];
    KeepInOrder(s.history, Above(k), first, k);
  }
}
