/** Who gets an event: what one publication does to every channel, and what a subscriber has got over a whole run. */
module Deliveries {
  import opened Wrappers
  import opened EventIds
  import opened EventStream

  /**
   A publication on an open stream puts the next event behind whatever is queued for each
   subscriber that has room, drops it for subscribers that have none, and reaches nobody else.
   On a closed stream it does nothing.
   */
  lemma PublishReaches<C>(s: Stream<C>, data: string)
    requires StreamInv(s)
    ensures var t, ev := Publish(s, data), Event(FormatEventID(s.id, |s.history| + 1), data);
            && t.chans.Keys == s.chans.Keys && t.subs == s.subs && t.closed == s.closed
            && t.history == (if s.closed then s.history else s.history + [ev])
            && forall c | c in s.chans ::
                 && t.chans[c].taken == s.chans[c].taken && t.chans[c].closed == s.chans[c].closed
                 && t.chans[c].queue ==
                      if !s.closed && c in s.subs && |s.chans[c].queue| < s.chans[c].capacity then s.chans[c].queue + [ev]
                      else s.chans[c].queue
  {
  }

  /** What a channel's receiver has read and will read next. */
  function Got(ch: Chan): seq<Event> {
    ch.taken + ch.queue
  }

  /** Nothing is published while the channel is full. */
  predicate HasRoom<C>(s: Stream<C>, step: Step<C>, c: C) {
    step.DoPublish? && !s.closed && c in s.chans ==> |s.chans[c].queue| < s.chans[c].capacity
  }

  lemma TakenStep(ch: Chan)
    ensures Got(Taken(ch)) == Got(ch)
  {
    if ch.queue != [] {
      assert ch.taken + [ch.queue[0]] + ch.queue[1..] == ch.taken + ch.queue;
    }
  }

  lemma PublishedStep<C>(s: Stream<C>, data: string, c: C)
    requires StreamInv(s) && c in s.subs && HasRoom(s, DoPublish(data), c)
    ensures Got(Publish(s, data).chans[c]) == Got(s.chans[c]) + Publish(s, data).history[|s.history|..]
  {
    PublishReaches(s, data);
    if !s.closed {
      var ev := Event(FormatEventID(s.id, |s.history| + 1), data);
      assert s.chans[c].taken + (s.chans[c].queue + [ev]) == s.chans[c].taken + s.chans[c].queue + [ev];
    }
  }

  /** A subscriber gets exactly what is published, one section at a time, unless its channel is full. */
  lemma GotStep<C>(s: Stream<C>, step: Step<C>, c: C)
    requires StreamInv(s) && Enabled(s, step) && c in s.chans && c in Next(s, step).subs && HasRoom(s, step, c)
    ensures c in s.subs && c in Next(s, step).chans && s.history <= Next(s, step).history
    ensures Got(Next(s, step).chans[c]) == Got(s.chans[c]) + Next(s, step).history[|s.history|..]
    ensures Next(s, step).chans[c].capacity == s.chans[c].capacity
  {
    match step
    case DoPublish(data) => PublishedStep(s, data, c);
    case DoReceive(d) => TakenStep(s.chans[c]);
    case _ =>
  }

  lemma Suffixes<T>(a: seq<T>, b: seq<T>, n: nat)
    requires n <= |a| && a <= b
    ensures b[n..] == a[n..] + b[|a|..]
  {
  }

  /** The subscription in section `m` still stands at moment `n`, and the channel was never full at a publication. */
  ghost predicate Attentive<C>(states: seq<Stream<C>>, steps: seq<Step<C>>, c: C, buf: int, m: nat, n: nat)
    requires |states| == |steps| + 1
  {
    && m < n < |states| && steps[m] == DoSubscribe(c, buf) && c in states[n].subs
    && forall i | m < i < n :: HasRoom(states[i], steps[i], c)
  }

  lemma SubscribedStep<C>(s: Stream<C>, c: C, buf: int)
    requires c in Subscribe(s, c, buf).subs
    ensures Got(Subscribe(s, c, buf).chans[c]) == [] && Subscribe(s, c, buf).chans[c].capacity == if buf <= 0 then 16 else buf
  {
  }

  /**
   A subscriber whose channel was never full when something was published has read, or has in
   its queue, exactly what was published since it subscribed, in order.
   */
  lemma {:induction false} NothingMissed<C>(states: seq<Stream<C>>, steps: seq<Step<C>>, c: C, buf: int, m: nat, n: nat)
    requires IsRun(states, steps) && StreamInv(states[0]) && Attentive(states, steps, c, buf, m, n)
    ensures c in states[n].chans && |states[m].history| <= |states[n].history|
    ensures Got(states[n].chans[c]) == states[n].history[|states[m].history|..]
    ensures states[n].chans[c].capacity == if buf <= 0 then 16 else buf
    decreases n
  {
    var i := n - 1;
    var s, step := states[i], steps[i];
    RunInv(states, steps, i);
    assert Enabled(s, step) && states[n] == Next(s, step);
    if m == i {
      SubscribedStep(s, c, buf);
    } else {
      KnownSince(states, steps, c, buf, m, i);
      assert HasRoom(s, step, c);
      GotStep(s, step, c);
      assert Attentive(states, steps, c, buf, m, i);
      NothingMissed(states, steps, c, buf, m, i);
      Suffixes(s.history, states[n].history, |states[m].history|);
    }
  }

  lemma {:induction false} KnownSince<C>(states: seq<Stream<C>>, steps: seq<Step<C>>, c: C, buf: int, m: nat, n: nat)
    requires IsRun(states, steps) && m < n < |states| && steps[m] == DoSubscribe(c, buf)
    ensures c in states[n].chans
    decreases n
  {
    var i := n - 1;
    assert Enabled(states[i], steps[i]) && states[n] == Next(states[i], steps[i]);
    if m < i {
      KnownSince(states, steps, c, buf, m, i);
    }
  }
}
