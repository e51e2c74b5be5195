/** The stream as the server holds it: fields updated in place and live Go channels. */
module MessageStreams {
  import opened Wrappers
  import opened EventIds
  import opened EventStream

  /** A buffered channel. Sending on a closed channel, or closing it twice, would panic. */
  class Channel {
    const capacity: nat
    var queue: seq<Event>
    var closed: bool
    ghost const since: nat
    ghost var taken: seq<Event>

    constructor (capacity: nat, ghost since: nat)
      ensures Value() == Chan(capacity, [], false, since, [])
    {
      this.capacity := capacity;
      this.since := since;
      queue := [];
      closed := false;
      taken := [];
    }

    ghost function Value(): Chan
      reads this
    {
      Chan(capacity, queue, closed, since, taken)
    }

    /** A select with a default branch: full means dropped. */
    method TrySend(ev: Event)
      requires !closed
      modifies this
      ensures Value() == Offer(old(Value()), ev)
    {
      if |queue| < capacity {
        queue := queue + [ev];
      }
    }

    /** A receive that does not wait. */
    method Take() returns (ev: Option<Event>)
      modifies this
      ensures Value() == Taken(old(Value()))
      ensures ev == if old(queue) == [] then None else Some(old(queue)[0])
    {
      if queue == [] {
        return None;
      }
      ev := Some(queue[0]);
      taken := taken + [queue[0]];
      queue := queue[1..];
    }

    method Shutdown()
      requires !closed
      modifies this
      ensures Value() == Shut(old(Value()))
    {
      closed := true;
    }
  }

  ghost function Values(chans: set<Channel>): map<Channel, Chan>
    reads chans
  {
    map c | c in chans :: c.Value()
  }

  lemma OneMoreChannel(chans: set<Channel>, ch: Channel)
    ensures Values(chans + {ch}) == Values(chans)[ch := ch.Value()]
  {
  }

  lemma KeepStep(events: seq<Event>, i: nat, k: int)
    requires i < |events|
    ensures Keep(events[..i + 1], Above(k)) == Keep(events[..i], Above(k)) + if IsAbove(events[i], k) then [events[i]] else []
  {
    assert events[..i + 1][..i] == events[..i];
  }

  class MessageStream {
    const id: string
    const maxBuf: nat
    var seqNo: nat
    var buffer: seq<Event>
    var subs: set<Channel>
    var closed: bool
    /** Every channel ever handed out, and every event ever published. */
    ghost var chans: set<Channel>
    ghost var history: seq<Event>

    ghost function Value(): Stream<Channel>
      reads this, chans
    {
      Stream(id, seqNo, buffer, maxBuf, subs, closed, Values(chans), history)
    }

    ghost predicate Valid()
      reads this, chans
    {
      StreamInv(Value())
    }

    constructor (id: string, maxBuf: int)
      requires id != ""
      ensures Valid() && Value() == New(id, maxBuf) && chans == {}
    {
      this.id := id;
      this.maxBuf := if maxBuf <= 0 then DEFAULT_BUFFER_SIZE else maxBuf;
      seqNo := 0;
      buffer := [];
      subs := {};
      closed := false;
      chans := {};
      history := [];
      new;
      NewInv<Channel>(id, maxBuf);
      assert Value() == New(id, maxBuf);
    }

    /** Offers an event to every subscriber and to no one else. */
    method FanOut(ev: Event)
      requires subs <= chans && forall c | c in subs :: !c.closed
      modifies chans
      ensures forall c | c in chans :: c.Value() == if c in subs then Offer(old(c.Value()), ev) else old(c.Value())
    {
      var rest := subs;
      while rest != {}
        invariant rest <= subs
        invariant forall c | c in chans :: c.Value() == if c in subs - rest then Offer(old(c.Value()), ev) else old(c.Value())
      {
        var ch :| ch in rest;
        assert ch.Value() == old(ch.Value());
        ch.TrySend(ev);
        rest := rest - {ch};
      }
    }

    lemma SubscribersOpen()
      requires Valid()
      ensures subs <= chans && forall c | c in subs :: !c.closed
    {
      var s := Value();
      forall c | c in subs
        ensures c in chans && !c.closed
      {
        assert c in s.chans && !s.chans[c].closed;
      }
    }

    /** Appends to the buffer and drops from its front what does not fit. */
    method Store(ev: Event)
      modifies this`seqNo, this`buffer, this`history
      ensures seqNo == old(seqNo) + 1 && history == old(history) + [ev]
      ensures buffer == LastOf(old(buffer) + [ev], maxBuf)
    {
      seqNo := seqNo + 1;
      buffer := buffer + [ev];
      if |buffer| > maxBuf {
        buffer := buffer[|buffer| - maxBuf..];
      }
      history := history + [ev];
    }

    method Publish(data: string) returns (result: Result<string, ()>)
      requires Valid()
      modifies this, chans
      ensures Valid() && chans == old(chans) && Value() == EventStream.Publish(old(Value()), data)
      ensures result == if old(closed) then Err(()) else Ok(FormatEventID(id, old(seqNo) + 1))
    {
      ghost var before := Value();
      SubscribersOpen();
      if closed {
        return Err(());
      }
      var ev := Event(FormatEventID(id, seqNo + 1), data);
      Store(ev);
      FanOut(ev);
      assert ev == NextEvent(before, data);
      assert forall c | c in chans :: c.Value() == if c in subs then Offer(before.chans[c], ev) else before.chans[c];
      assert Value() == EventStream.Publish(before, data);
      assert Valid() by { PublishInv(before, data); }
      return Ok(ev.id);
    }

    /** The channel that a subscriber gets; on a closed stream it is closed from the start. */
    method NewChannel(buf: int) returns (ch: Channel)
      ensures fresh(ch) && ch.Value() == Chan(if buf <= 0 then 16 else buf, [], closed, |history|, [])
    {
      ch := new Channel(if buf <= 0 then 16 else buf, |history|);
      if closed {
        ch.Shutdown();
      }
    }

    method Subscribe(buf: int) returns (ch: Channel)
      requires Valid()
      modifies this`subs, this`chans
      ensures Valid() && fresh(ch) && chans == old(chans) + {ch}
      ensures Value() == EventStream.Subscribe(old(Value()), ch, buf)
    {
      ghost var before := Value();
      ch := NewChannel(buf);
      assert Values(chans) == before.chans;
      OneMoreChannel(chans, ch);
      chans := chans + {ch};
      if !closed {
        subs := subs + {ch};
      }
      assert Value() == EventStream.Subscribe(before, ch, buf);
      assert Valid() by { SubscribeInv(before, ch, buf); }
    }

    method Unsubscribe(ch: Channel)
      requires Valid()
      modifies this`subs, chans
      ensures Valid() && chans == old(chans) && Value() == EventStream.Unsubscribe(old(Value()), ch)
    {
      ghost var before := Value();
      if ch in subs {
        assert ch in before.chans && !before.chans[ch].closed;
        subs := subs - {ch};
        ch.Shutdown();
        assert Value().chans == EventStream.Unsubscribe(before, ch).chans;
      }
      assert Valid() by { UnsubscribeInv(before, ch); }
    }

    method EventsAfter(lastEventID: string) returns (result: Result<seq<Event>, ReplayError>)
      ensures result == EventStream.EventsAfter(Value(), lastEventID)
    {
      if lastEventID == "" {
        return Ok([]);
      }
      var parsed := ParseEventID(lastEventID);
      if parsed.None? {
        return Err(InvalidLastEventID);
      }
      var (streamID, k) := parsed.value;
      if streamID != id {
        return Err(DifferentStream);
      }
      var out: seq<Event> := [];
      for i := 0 to |buffer|
        invariant out == Keep(buffer[..i], Above(k))
      {
        KeepStep(buffer, i, k);
        var evParsed := ParseEventID(buffer[i].id);
        if evParsed.Some? && evParsed.value.1 > k {
          out := out + [buffer[i]];
        }
      }
      assert buffer[..|buffer|] == buffer;
      return Ok(out);
    }

    /** Closes the channel of every subscriber. */
    method ShutSubscribers()
      requires subs <= chans && forall c | c in subs :: !c.closed
      modifies this`subs, chans
      ensures subs == {}
      ensures forall c | c in chans :: c.Value() == if c in old(subs) then Shut(old(c.Value())) else old(c.Value())
    {
      while subs != {}
        invariant subs <= old(subs)
        invariant forall c | c in chans :: c.Value() == if c in old(subs) - subs then Shut(old(c.Value())) else old(c.Value())
      {
        var ch :| ch in subs;
        assert ch.Value() == old(ch.Value());
        ch.Shutdown();
        subs := subs - {ch};
      }
    }

    method Close()
      requires Valid()
      modifies this`subs, this`closed, chans
      ensures Valid() && chans == old(chans) && Value() == EventStream.Close(old(Value()))
    {
      ghost var before := Value();
      SubscribersOpen();
      if closed {
        return;
      }
      closed := true;
      ShutSubscribers();
      assert Value().chans == EventStream.Close(before).chans;
      assert Valid() by { CloseInv(before); }
    }

    /** The receiving end of a subscriber. */
    method Receive(ch: Channel) returns (ev: Option<Event>)
      requires Valid() && ch in chans
      modifies ch
      ensures Valid() && Value() == EventStream.Receive(old(Value()), ch)
      ensures ev == if old(ch.queue) == [] then None else Some(old(ch.queue)[0])
    {
      ghost var before := Value();
      ev := ch.Take();
      assert forall c | c in chans && c != ch :: c.Value() == before.chans[c];
      assert Value().chans == EventStream.Receive(before, ch).chans;
      assert Valid() by { ReceiveInv(before, ch); }
    }
  }
}
