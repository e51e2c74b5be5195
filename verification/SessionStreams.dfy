/** The session's stream registry as the server holds it. */
module SessionStreams {
  import opened Wrappers
  import opened EventIds
  import ES = EventStream
  import opened Sessions
  import opened MessageStreams
  import Post = PostResponse

  lemma {:induction false} RemoveFirstAbsent(ids: seq<string>, id: string)
    requires id !in ids
    ensures RemoveFirst(ids, id) == ids
  {
    if ids != [] {
      RemoveFirstAbsent(ids[1..], id);
    }
  }

  lemma {:induction false} RemoveFirstAfter(front: seq<string>, back: seq<string>, id: string)
    requires id !in front
    ensures RemoveFirst(front + back, id) == front + RemoveFirst(back, id)
  {
    if front == [] {
      assert front + back == back;
    } else {
      var all := front + back;
      assert all[0] == front[0] && all[1..] == front[1..] + back;
      RemoveFirstAfter(front[1..], back, id);
      assert front == [front[0]] + front[1..];
    }
  }

  class SessionRegistry {
    var maxBuf: int
    var streams: map<string, MessageStream>
    var listenIDs: seq<string>
    var nextID: nat

    ghost function Value(): Registry
      reads this
    {
      Registry(maxBuf, streams.Keys, listenIDs, nextID)
    }

    /** Every stream is under its own ID. */
    ghost predicate Keyed()
      reads this
    {
      forall id | id in streams :: streams[id].id == id
    }

    /** The streams are consistent and no channel belongs to two of them. */
    ghost predicate StreamsValid()
      reads this, set id | id in streams :: streams[id]
      reads set id, c | id in streams && c in streams[id].chans :: c
    {
      && (forall id | id in streams :: streams[id].Valid())
      && (forall a, b | a in streams && b in streams && a != b :: streams[a].chans !! streams[b].chans)
    }

    constructor (maxBuf: int)
      ensures Value() == NewRegistry(maxBuf) && RegistryInv(Value()) && Keyed()
    {
      this.maxBuf := if maxBuf <= 0 then ES.DEFAULT_BUFFER_SIZE else maxBuf;
      streams := map[];
      listenIDs := [];
      nextID := 0;
    }

    method SetBufferSize(n: int)
      modifies this`maxBuf
      ensures Value() == Sessions.SetBufferSize(old(Value()), n)
    {
      if n > 0 {
        maxBuf := n;
      }
    }

    /** The listen stream that is in the map, made ready for new subscribers. */
    method ReuseListen() returns (found: MessageStream?)
      modifies set id | id in streams :: streams[id]`closed
      ensures match ListenTarget(Value())
              case None => found == null
              case Some(id) => id in streams && found == streams[id] && !found.closed
      ensures forall id | id in streams && streams[id] != found :: streams[id].closed == old(streams[id].closed)
    {
      for i := 0 to |listenIDs|
        invariant FirstAttached(listenIDs, streams.Keys) == FirstAttached(listenIDs[i..], streams.Keys)
        invariant forall id | id in streams :: streams[id].closed == old(streams[id].closed)
      {
        if listenIDs[i] in streams {
          streams[listenIDs[i]].closed := false;
          return streams[listenIDs[i]];
        }
      }
      return null;
    }

    /** A new stream under the next number. */
    method EnterStream(kind: string) returns (st: MessageStream)
      requires Keyed()
      modifies this
      ensures Keyed() && st.id == FormatStreamID(kind, old(nextID) + 1)
      ensures Value() == Enter(old(Value()), kind, FormatStreamID(kind, old(nextID) + 1))
      ensures fresh(st) && st.Valid() && st.Value() == ES.New(FormatStreamID(kind, old(nextID) + 1), maxBuf)
      ensures streams == old(streams)[FormatStreamID(kind, old(nextID) + 1) := st]
    {
      NamedAfterKind(kind, nextID + 1);
      nextID := nextID + 1;
      var id := FormatStreamID(kind, nextID);
      st := new MessageStream(id, maxBuf);
      streams := streams[id := st];
      if kind == LISTEN {
        listenIDs := listenIDs + [id];
      }
    }

    method OpenStream(kind: string) returns (st: MessageStream)
      requires IsKind(kind) && Keyed()
      modifies this, set id | id in streams :: streams[id]`closed
      ensures Keyed() && st.id == OpenID(old(Value()), kind)
      ensures Value() == OpenRegistry(old(Value()), kind)
      ensures OpenID(old(Value()), kind) in streams && st == streams[OpenID(old(Value()), kind)] && !st.closed
      ensures Reuses(old(Value()), kind) ==> streams == old(streams)
      ensures !Reuses(old(Value()), kind) ==>
                fresh(st) && st.Valid() && st.Value() == ES.New(OpenID(old(Value()), kind), maxBuf)
                && streams == old(streams)[OpenID(old(Value()), kind) := st]
    {
      if kind == LISTEN {
        var found := ReuseListen();
        if found != null {
          return found;
        }
      }
      st := EnterStream(kind);
    }

    /** A stream that carries the ID, if the registry has one. */
    method GetStream(id: string) returns (st: MessageStream?)
      requires Keyed()
      ensures st == null <==> id !in streams.Keys
      ensures st != null ==> st.id == id && st in streams.Values
    {
      st := if id in streams then streams[id] else null;
    }

    method RemoveListenID(id: string)
      modifies this`listenIDs
      ensures listenIDs == RemoveFirst(old(listenIDs), id)
    {
      var ids := listenIDs;
      for i := 0 to |ids|
        invariant listenIDs == ids && id !in ids[..i]
      {
        if ids[i] == id {
          assert ids == ids[..i] + ids[i..] && ids[i..][1..] == ids[i + 1..];
          RemoveFirstAfter(ids[..i], ids[i..], id);
          listenIDs := ids[..i] + ids[i + 1..];
          return;
        }
      }
      RemoveFirstAbsent(ids, id);
    }

    /** The part of closeStream under the registry's mutex. */
    method Forget(id: string)
      modifies this`streams, this`listenIDs
      ensures Value() == Detach(old(Value()), id) && streams == old(streams) - {id}
    {
      if id in streams {
        streams := streams - {id};
        RemoveListenID(id);
      }
    }

    method CloseStream(id: string)
      requires Keyed() && (id in streams ==> streams[id].Valid())
      modifies this`streams, this`listenIDs
      modifies set other | other == id && other in streams :: streams[other]
      modifies set other, c | other == id && other in streams && c in streams[other].chans :: c
      ensures Value() == Detach(old(Value()), id) && streams == old(streams) - {id}
      ensures id in old(streams) ==> old(streams)[id].Value() == ES.Close(old(streams[id].Value()))
    {
      var st := GetStream(id);
      assert st != null ==> st == streams[id];
      Forget(id);
      if st != null {
        st.Close();
      }
    }

    /** The part of closeAll under the registry's mutex. */
    method TakeAll() returns (taken: set<MessageStream>)
      modifies this`streams, this`listenIDs
      ensures Value() == DetachAll(old(Value())) && streams == map[]
      ensures taken == old(streams.Values)
    {
      taken := streams.Values;
      streams := map[];
      listenIDs := [];
    }

    /** Every stream leaves the map and is then closed. */
    method CloseAll()
      requires Keyed() && StreamsValid()
      modifies this`streams, this`listenIDs, set id | id in streams :: streams[id]
      modifies set id, c | id in streams && c in streams[id].chans :: c
      ensures Value() == DetachAll(old(Value())) && streams == map[]
      ensures forall id | id in old(streams) :: old(streams)[id].Value() == ES.Close(old(streams[id].Value()))
    {
      StreamsDisjoint();
      ghost var all := streams;
      var taken := TakeAll();
      assert forall st | st in taken :: st.Value() == old(st.Value());
      assert forall st | st in taken :: st.Valid();
      assert forall id | id in all :: all[id] in taken;
      CloseEach(taken);
    }

    lemma StreamsDisjoint()
      requires Keyed() && StreamsValid()
      ensures Disjoint(streams.Values) && forall st | st in streams.Values :: st.Valid()
    {
      forall a, b | a in streams.Values && b in streams.Values && a != b
        ensures a.chans !! b.chans
      {
        assert a.id in streams && streams[a.id] == a && b.id in streams && streams[b.id] == b;
      }
    }

    /** Streams that share no channel. */
    static ghost predicate Disjoint(taken: set<MessageStream>)
      reads taken
    {
      forall a, b | a in taken && b in taken && a != b :: a.chans !! b.chans
    }

    static method CloseEach(taken: set<MessageStream>)
      requires Disjoint(taken) && forall st | st in taken :: st.Valid()
      modifies taken, set st, c | st in taken && c in st.chans :: c
      ensures forall st | st in taken :: st.Value() == ES.Close(old(st.Value()))
    {
      var rest := taken;
      while rest != {}
        invariant rest <= taken && forall st | st in taken :: st.chans == old(st.chans)
        invariant forall st | st in taken :: st.Value() == if st in rest then old(st.Value()) else ES.Close(old(st.Value()))
      {
        var st :| st in rest;
        CloseOne(taken, st);
        rest := rest - {st};
      }
    }

    /** Closing one of several streams leaves the others as they are. */
    static method CloseOne(ghost taken: set<MessageStream>, st: MessageStream)
      requires st in taken && st.Valid() && Disjoint(taken)
      modifies st, st.chans
      ensures st.Value() == ES.Close(old(st.Value())) && forall other | other in taken :: other.chans == old(other.chans)
      ensures forall other | other in taken && other != st :: other.Value() == old(other.Value())
    {
      st.Close();
    }

    /** The first listen stream that is in the map. */
    method PickTarget() returns (target: MessageStream?)
      ensures match ListenTarget(Value())
              case None => target == null
              case Some(id) => id in streams && target == streams[id]
    {
      for i := 0 to |listenIDs|
        invariant FirstAttached(listenIDs, streams.Keys) == FirstAttached(listenIDs[i..], streams.Keys)
      {
        if listenIDs[i] in streams {
          return streams[listenIDs[i]];
        }
      }
      return null;
    }

    /** To one listen stream, or to nobody, when nothing happens between picking it and publishing. */
    method BroadcastNotification(payload: string) returns (result: Result<(), ()>)
      requires forall id | id in streams :: streams[id].Valid()
      modifies set id | id in streams && ListenTarget(Value()) == Some(id) :: streams[id]
      modifies set id, c | id in streams && ListenTarget(Value()) == Some(id) && c in streams[id].chans :: c
      ensures match ListenTarget(Value())
              case None => result == Ok(())
              case Some(id) =>
                && id in streams && old(streams[id].Valid())
                && streams[id].Value() == ES.Publish(old(streams[id].Value()), payload)
                && (result.Ok? <==> !old(streams[id].closed))
    {
      var target := PickTarget();
      if target == null {
        return Ok(());
      }
      var published := target.Publish(payload);
      return if published.Ok? then Ok(()) else Err(());
    }
  }

  /**
   writePOSTSSE with nothing else going on: a prime event and the response, numbered 1
   and 2 on a stream of their own, which is then gone from the map and closed.
   */
  method WritePostSSE(registry: SessionRegistry, resp: string) returns (written: Post.Wire)
    requires registry.Keyed()
    modifies registry, set id | id in registry.streams :: registry.streams[id]`closed
    ensures var id := FormatStreamID("post", old(registry.nextID) + 1);
            && written == [Post.Primed(id), Post.Answered(id, resp)]
            && registry.streams == old(registry.streams) - {id}
            && registry.nextID == old(registry.nextID) + 1
            && registry.listenIDs == RemoveFirst(old(registry.listenIDs), id)
  {
    var st := registry.OpenStream("post");
    assert st.chans == st.Value().chans.Keys == {};
    written := PublishBoth(st, resp);
    AddThenDrop(old(registry.streams), st.id, st);
    registry.CloseStream(st.id);
  }

  /** The prime event and the response, on a stream that nobody has published to. */
  method PublishBoth(st: MessageStream, resp: string) returns (written: Post.Wire)
    requires st.Valid() && st.seqNo == 0 && !st.closed && st.chans == {}
    modifies st
    ensures st.Valid() && st.chans == {} && written == [Post.Primed(st.id), Post.Answered(st.id, resp)]
  {
    written := [];
    var prime := st.Publish("");
    written := written + [(if prime.Ok? then Some(prime.value) else None, "")];
    assert st.Value().seqNo == 1;
    var id := st.Publish(resp);
    if id.Ok? {
      written := written + [(Some(id.value), resp)];
    }
  }

  lemma AddThenDrop<K, V>(m: map<K, V>, k: K, v: V)
    ensures m[k := v] - {k} == m - {k}
  {
  }
}
