/**
 The streams of one session as a value. `attached` are the streams in the session's
 map; `objects` are all streams ever opened, since a handler may go on holding one
 that has been taken out of the map; `closing` are the streams taken out of the map by
 a handler that has yet to close them. Each function is one section under a mutex.
 */
module Sessions {
  import opened Wrappers
  import opened Digits
  import opened EventIds
  import opened EventStream

  /** What sessionStreams itself holds: the keys of its map, not the streams behind them. */
  datatype Registry = Registry(maxBuf: int, attached: set<string>, listenIDs: seq<string>, nextID: nat)

  datatype Session<C(==)> = Session(registry: Registry, objects: map<string, Stream<C>>, closing: set<string>)

  const LISTEN := "listen"

  function NewRegistry(maxBuf: int): Registry {
    Registry(if maxBuf <= 0 then DEFAULT_BUFFER_SIZE else maxBuf, {}, [], 0)
  }

  function NewSession<C>(maxBuf: int): Session<C> {
    Session(NewRegistry(maxBuf), map[], {})
  }

  function SetBufferSize(r: Registry, n: int): Registry {
    if n > 0 then r.(maxBuf := n) else r
  }

  /** The first listen stream that is still in the map. */
  function FirstAttached(ids: seq<string>, attached: set<string>): Option<string> {
    if ids == [] then None
    else if ids[0] in attached then Some(ids[0])
    else FirstAttached(ids[1..], attached)
  }

  function ListenTarget(r: Registry): Option<string> {
    FirstAttached(r.listenIDs, r.attached)
  }

  /** A listen stream is reused while it is in the map; everything else is new. */
  predicate Reuses(r: Registry, kind: string) {
    kind == LISTEN && ListenTarget(r).Some?
  }

  function OpenID(r: Registry, kind: string): string {
    if Reuses(r, kind) then ListenTarget(r).value else FormatStreamID(kind, r.nextID + 1)
  }

  function OpenRegistry(r: Registry, kind: string): Registry {
    if Reuses(r, kind) then r else Enter(r, kind, OpenID(r, kind))
  }

  function Enter(r: Registry, kind: string, id: string): Registry {
    r.(nextID := r.nextID + 1,
       attached := r.attached + {id},
       listenIDs := if kind == LISTEN then r.listenIDs + [id] else r.listenIDs)
  }

  function RemoveFirst<T(==)>(ids: seq<T>, id: T): seq<T> {
    if |ids| == 0 then []
    else if ids[0] == id then ids[1..]
    else [ids[0]] + RemoveFirst(ids[1..], id)
  }

  /** closeStream up to the unlock: the stream leaves the map but is still open. */
  function Detach(r: Registry, id: string): Registry {
    if id in r.attached then r.(attached := r.attached - {id}, listenIDs := RemoveFirst(r.listenIDs, id)) else r
  }

  /** closeAll up to the unlock. */
  function DetachAll(r: Registry): Registry {
    r.(attached := {}, listenIDs := [])
  }

  function OpenStream<C>(ss: Session<C>, kind: string): (Session<C>, string)
    requires ss.registry.attached <= ss.objects.Keys
  {
    FirstAttachedIsAttached(ss.registry.listenIDs, ss.registry.attached);
    var id := OpenID(ss.registry, kind);
    var stream := if Reuses(ss.registry, kind) then Reopen(ss.objects[id]) else New(id, ss.registry.maxBuf);
    (ss.(registry := OpenRegistry(ss.registry, kind), objects := ss.objects[id := stream]), id)
  }

  /** One section under the mutex of stream `id`. */
  function OnStream<C>(ss: Session<C>, id: string, step: EventStream.Step<C>): Session<C>
    requires id in ss.objects ==> ss.objects[id].subs <= ss.objects[id].chans.Keys
  {
    if id in ss.objects then ss.(objects := ss.objects[id := Next(ss.objects[id], step)]) else ss
  }

  /** closeStream up to the unlock, in a handler that will then close the stream. */
  function RemoveStream<C>(ss: Session<C>, id: string): Session<C> {
    ss.(registry := Detach(ss.registry, id), closing := ss.closing + if id in ss.registry.attached then {id} else {})
  }

  /** closeAll up to the unlock, in a handler that will then close them one by one. */
  function RemoveAllStreams<C>(ss: Session<C>): Session<C> {
    ss.(registry := DetachAll(ss.registry), closing := ss.closing + ss.registry.attached)
  }

  /** What closeStream and closeAll do after the unlock. */
  function FinishClosing<C>(ss: Session<C>, id: string): Session<C>
    requires id in ss.objects ==> ss.objects[id].subs <= ss.objects[id].chans.Keys
  {
    OnStream(ss, id, DoClose).(closing := ss.closing - {id})
  }

  lemma {:induction false} FirstAttachedIsAttached(ids: seq<string>, attached: set<string>)
    ensures match FirstAttached(ids, attached)
            case Some(id) => id in ids && id in attached
            case None => forall id | id in ids :: id !in attached
  {
    if ids != [] {
      FirstAttachedIsAttached(ids[1..], attached);
      assert forall id :: id in ids <==> id == ids[0] || id in ids[1..];
    }
  }

  // What holds of a session in every state.

  ghost predicate Issued(id: string, upTo: nat) {
    exists kind, n: nat :: IsKind(kind) && 1 <= n <= upTo && id == FormatStreamID(kind, n)
  }

  ghost predicate IsListenID(id: string) {
    exists n: nat :: id == FormatStreamID(LISTEN, n)
  }

  /** At most one listen stream, in the map, and it is the only listen stream there. */
  ghost predicate RegistryInv(r: Registry) {
    && |r.listenIDs| <= 1
    && (forall id | id in r.listenIDs :: id in r.attached && IsListenID(id))
    && (forall id | id in r.attached :: (IsListenID(id) ==> id in r.listenIDs) && Issued(id, r.nextID))
  }

  ghost predicate SessionInv<C>(ss: Session<C>) {
    && RegistryInv(ss.registry)
    && ss.registry.attached <= ss.objects.Keys
    && ss.closing <= ss.objects.Keys && ss.closing !! ss.registry.attached
    && (forall id | id in ss.registry.attached + ss.closing :: !ss.objects[id].closed)
    && (forall id | id in ss.objects :: ss.objects[id].id == id && StreamInv(ss.objects[id]) && Issued(id, ss.registry.nextID))
  }

  lemma NewSessionInv<C>(maxBuf: int)
    ensures SessionInv(NewSession<C>(maxBuf))
  {
  }

  /** No stream ID is ever used again, whether its stream is still in the map or not. */
  lemma NewIDNotIssued(kind: string, upTo: nat)
    requires IsKind(kind)
    ensures !Issued(FormatStreamID(kind, upTo + 1), upTo)
  {
    var id := FormatStreamID(kind, upTo + 1);
    if Issued(id, upTo) {
      var k, n: nat :| IsKind(k) && 1 <= n <= upTo && id == FormatStreamID(k, n);
      StreamIDsInjective(kind, upTo + 1, k, n);
    }
  }

  lemma FreshStreamID<C>(ss: Session<C>, kind: string)
    requires SessionInv(ss) && IsKind(kind)
    ensures FormatStreamID(kind, ss.registry.nextID + 1) !in ss.objects
  {
    NewIDNotIssued(kind, ss.registry.nextID);
  }

  lemma IssuedLater(id: string, upTo: nat)
    requires Issued(id, upTo)
    ensures Issued(id, upTo + 1)
  {
  }

  lemma ListenIsKind()
    ensures IsKind(LISTEN)
  {
  }

  lemma ListenIDsAreListen(kind: string, n: nat)
    requires IsKind(kind)
    ensures IsListenID(FormatStreamID(kind, n)) <==> kind == LISTEN
  {
    if IsListenID(FormatStreamID(kind, n)) {
      var m: nat :| FormatStreamID(kind, n) == FormatStreamID(LISTEN, m);
      StreamIDsInjective(kind, n, LISTEN, m);
    }
  }

  /** A new listen stream is made only when there is none. */
  lemma EnterInv(r: Registry, kind: string, id: string)
    requires RegistryInv(r) && !Reuses(r, kind)
    requires Issued(id, r.nextID + 1) && (IsListenID(id) <==> kind == LISTEN)
    ensures RegistryInv(Enter(r, kind, id))
  {
    FirstAttachedIsAttached(r.listenIDs, r.attached);
    forall other | other in r.attached
      ensures Issued(other, r.nextID + 1)
    {
      IssuedLater(other, r.nextID);
    }
  }

  lemma OpenRegistryInv(r: Registry, kind: string)
    requires RegistryInv(r) && IsKind(kind)
    ensures RegistryInv(OpenRegistry(r, kind)) && OpenID(r, kind) in OpenRegistry(r, kind).attached
    ensures Issued(OpenID(r, kind), OpenRegistry(r, kind).nextID)
  {
    FirstAttachedIsAttached(r.listenIDs, r.attached);
    if !Reuses(r, kind) {
      var id := FormatStreamID(kind, r.nextID + 1);
      ListenIDsAreListen(kind, r.nextID + 1);
      assert Issued(id, r.nextID + 1);
      EnterInv(r, kind, id);
    }
  }

  lemma OpenInv<C>(ss: Session<C>, kind: string)
    requires SessionInv(ss) && IsKind(kind)
    ensures SessionInv(OpenStream(ss, kind).0)
    ensures OpenStream(ss, kind).1 in OpenStream(ss, kind).0.registry.attached
  {
    OpenRegistryInv(ss.registry, kind);
    FirstAttachedIsAttached(ss.registry.listenIDs, ss.registry.attached);
    if Reuses(ss.registry, kind) {
      OpenReused(ss, kind);
    } else {
      OpenNewInv(ss, kind);
    }
  }

  /** A listen stream that is found again is open already. */
  lemma OpenReused<C>(ss: Session<C>, kind: string)
    requires SessionInv(ss) && Reuses(ss.registry, kind)
    ensures OpenID(ss.registry, kind) in ss.objects && OpenStream(ss, kind).0 == ss
  {
    FirstAttachedIsAttached(ss.registry.listenIDs, ss.registry.attached);
    var id := OpenID(ss.registry, kind);
    assert Reopen(ss.objects[id]) == ss.objects[id];
    assert ss.objects[id := ss.objects[id]] == ss.objects;
  }

  lemma OpenNewInv<C>(ss: Session<C>, kind: string)
    requires SessionInv(ss) && IsKind(kind) && !Reuses(ss.registry, kind) && RegistryInv(OpenRegistry(ss.registry, kind))
    ensures SessionInv(OpenStream(ss, kind).0)
  {
    var id := OpenID(ss.registry, kind);
    FreshStreamID(ss, kind);
    NamedAfterKind(kind, ss.registry.nextID + 1);
    NewInv<C>(id, ss.registry.maxBuf);
    assert Issued(id, ss.registry.nextID + 1);
    forall other | other in ss.objects
      ensures Issued(other, ss.registry.nextID + 1)
    {
      IssuedLater(other, ss.registry.nextID);
    }
  }

  lemma NamedAfterKind(kind: string, n: nat)
    ensures FormatStreamID(kind, n) != ""
  {
  }

  lemma {:induction false} RemoveFirstTakesOne<T>(ids: seq<T>, id: T)
    ensures multiset(RemoveFirst(ids, id)) == multiset(ids) - multiset{id}
  {
    if |ids| > 0 {
      assert ids == [ids[0]] + ids[1..];
      RemoveFirstTakesOne(ids[1..], id);
    }
  }

  lemma DetachRegistryInv(r: Registry, id: string)
    requires RegistryInv(r)
    ensures RegistryInv(Detach(r, id))
  {
    if id in r.attached {
      var rest := RemoveFirst(r.listenIDs, id);
      RemoveFirstTakesOne(r.listenIDs, id);
      assert |multiset(rest)| == |rest| && |multiset(r.listenIDs)| == |r.listenIDs|;
      forall other | other in rest
        ensures other in r.listenIDs && other != id
      {
        assert other in multiset(rest);
        assert multiset(r.listenIDs)[id] <= |r.listenIDs|;
      }
      forall other | other in r.listenIDs && other != id
        ensures other in rest
      {
        assert other in multiset(rest);
      }
    }
  }

  lemma RemoveInv<C>(ss: Session<C>, id: string)
    requires SessionInv(ss)
    ensures SessionInv(RemoveStream(ss, id))
  {
    DetachRegistryInv(ss.registry, id);
  }

  /** Handlers publish, subscribe, unsubscribe and receive; closing and reopening are steps of the session. */
  ghost predicate StreamStepAllowed<C>(ss: Session<C>, id: string, step: EventStream.Step<C>) {
    id in ss.objects ==> Enabled(ss.objects[id], step) && !step.DoClose? && !step.DoReopen?
  }

  lemma OnStreamInv<C>(ss: Session<C>, id: string, step: EventStream.Step<C>)
    requires SessionInv(ss) && StreamStepAllowed(ss, id, step)
    ensures SessionInv(OnStream(ss, id, step))
  {
    if id in ss.objects {
      NextInv(ss.objects[id], step);
    }
  }

  /** What is being closed is not in the map, so every stream in the map is open. */
  lemma FinishInv<C>(ss: Session<C>, id: string)
    requires SessionInv(ss) && id in ss.objects && id !in ss.registry.attached
    ensures SessionInv(FinishClosing(ss, id))
  {
    CloseInv(ss.objects[id]);
  }

  // Runs: any interleaving of the sections of any number of handlers.

  datatype Step<C> =
    | Open(kind: string)
    | Remove(id: string)
    | RemoveAll
    | Finish(id: string)
    | Resize(n: int)
    | At(id: string, step: EventStream.Step<C>)

  ghost predicate Allowed<C>(ss: Session<C>, step: Step<C>) {
    match step
    case Open(kind) => ss.registry.attached <= ss.objects.Keys && IsKind(kind)
    case Finish(id) => id in ss.closing && id in ss.objects && ss.objects[id].subs <= ss.objects[id].chans.Keys
    case At(id, inner) => StreamStepAllowed(ss, id, inner)
    case _ => true
  }

  ghost function NextSession<C>(ss: Session<C>, step: Step<C>): Session<C>
    requires Allowed(ss, step)
  {
    match step
    case Open(kind) => OpenStream(ss, kind).0
    case Remove(id) => RemoveStream(ss, id)
    case RemoveAll => RemoveAllStreams(ss)
    case Finish(id) => FinishClosing(ss, id)
    case Resize(n) => ss.(registry := SetBufferSize(ss.registry, n))
    case At(id, inner) => OnStream(ss, id, inner)
  }

  lemma NextSessionInv<C>(ss: Session<C>, step: Step<C>)
    requires SessionInv(ss) && Allowed(ss, step)
    ensures SessionInv(NextSession(ss, step))
  {
    match step
    case Open(kind) => OpenInv(ss, kind);
    case Remove(id) => RemoveInv(ss, id);
    case RemoveAll =>
    case Finish(id) => FinishInv(ss, id);
    case Resize(n) =>
    case At(id, inner) => OnStreamInv(ss, id, inner);
  }

  /** Streams are never forgotten and what they published is never rewritten. */
  ghost predicate Extends<C>(before: Session<C>, after: Session<C>) {
    && before.registry.nextID <= after.registry.nextID
    && before.objects.Keys <= after.objects.Keys
    && forall id | id in before.objects ::
         && before.objects[id].history <= after.objects[id].history
         && before.objects[id].chans.Keys <= after.objects[id].chans.Keys
  }

  lemma NextStreamExtends<C>(s: Stream<C>, step: EventStream.Step<C>)
    requires Enabled(s, step)
    ensures s.history <= Next(s, step).history && s.chans.Keys <= Next(s, step).chans.Keys
  {
  }

  lemma OpenExtends<C>(ss: Session<C>, kind: string)
    requires ss.registry.attached <= ss.objects.Keys
    requires FormatStreamID(kind, ss.registry.nextID + 1) !in ss.objects
    ensures Extends(ss, OpenStream(ss, kind).0)
  {
    FirstAttachedIsAttached(ss.registry.listenIDs, ss.registry.attached);
  }

  lemma OnStreamExtends<C>(ss: Session<C>, id: string, step: EventStream.Step<C>)
    requires id in ss.objects ==> Enabled(ss.objects[id], step)
    ensures Extends(ss, OnStream(ss, id, step))
  {
    if id in ss.objects {
      NextStreamExtends(ss.objects[id], step);
    }
  }

  lemma NextSessionExtends<C>(ss: Session<C>, step: Step<C>)
    requires SessionInv(ss) && Allowed(ss, step)
    ensures Extends(ss, NextSession(ss, step))
  {
    match step
    case Open(kind) =>
      FreshStreamID(ss, kind);
      OpenExtends(ss, kind);
    case Finish(id) => OnStreamExtends(ss, id, DoClose);
    case At(id, inner) => OnStreamExtends(ss, id, inner);
    case _ =>
  }

  ghost predicate IsRun<C>(states: seq<Session<C>>, steps: seq<Step<C>>) {
    && |states| == |steps| + 1
    && forall i | 0 <= i < |steps| :: Allowed(states[i], steps[i]) && states[i + 1] == NextSession(states[i], steps[i])
  }

  /** In every state of every run the session is consistent and has forgotten nothing. */
  lemma {:induction false} SessionRun<C>(states: seq<Session<C>>, steps: seq<Step<C>>, m: nat, n: nat)
    requires IsRun(states, steps) && SessionInv(states[0]) && m <= n < |states|
    ensures SessionInv(states[n]) && Extends(states[m], states[n])
    decreases n
  {
    if n > 0 {
      if m < n {
        SessionRun(states, steps, m, n - 1);
      } else {
        SessionRun(states, steps, n - 1, n - 1);
      }
      NextSessionInv(states[n - 1], steps[n - 1]);
      NextSessionExtends(states[n - 1], steps[n - 1]);
      assert states[n] == NextSession(states[n - 1], steps[n - 1]);
    }
  }

  /** A session starts consistent and so stays. */
  lemma NewSessionRun<C>(maxBuf: int, states: seq<Session<C>>, steps: seq<Step<C>>, n: nat)
    requires IsRun(states, steps) && states[0] == NewSession(maxBuf) && n < |states|
    ensures SessionInv(states[n])
  {
    NewSessionInv<C>(maxBuf);
    SessionRun(states, steps, 0, n);
  }

  /** Across all streams, live or gone, an event ID belongs to one publication. */
  lemma EventIDsUnique<C>(ss: Session<C>, a: string, i: nat, b: string, j: nat)
    requires SessionInv(ss) && a in ss.objects && b in ss.objects
    requires i < |ss.objects[a].history| && j < |ss.objects[b].history|
    requires ss.objects[a].history[i].id == ss.objects[b].history[j].id
    ensures a == b && i == j
  {
    EventIDsInjective(a, i + 1, b, j + 1);
  }

  /** Within one run, publications of different moments keep different IDs for good. */
  lemma EventIDsUniqueOverRun<C>(states: seq<Session<C>>, steps: seq<Step<C>>, m: nat, n: nat, a: string, i: nat, b: string, j: nat)
    requires IsRun(states, steps) && SessionInv(states[0]) && m <= n < |states|
    requires a in states[m].objects && i < |states[m].objects[a].history|
    requires b in states[n].objects && j < |states[n].objects[b].history|
    requires states[m].objects[a].history[i].id == states[n].objects[b].history[j].id
    ensures a == b && i == j
  {
    SessionRun(states, steps, m, n);
    EventIDsUnique(states[n], a, i, b, j);
  }

  /** A listen stream is opened anew only when the map holds none; otherwise nothing at all changes. */
  lemma ListenIsShared<C>(ss: Session<C>)
    requires SessionInv(ss) && ListenTarget(ss.registry).Some?
    ensures OpenStream(ss, LISTEN).0 == ss && ss.registry.listenIDs == [OpenStream(ss, LISTEN).1]
  {
    FirstAttachedIsAttached(ss.registry.listenIDs, ss.registry.attached);
    OpenReused(ss, LISTEN);
  }

  /** The listen stream in the map is the broadcast target; without one there is no target. */
  lemma TargetIsTheListenStream(r: Registry)
    requires RegistryInv(r)
    ensures match ListenTarget(r)
            case Some(id) => id in r.attached && IsListenID(id) && r.listenIDs == [id]
                             && forall other | other in r.attached && IsListenID(other) :: other == id
            case None => forall other | other in r.attached :: !IsListenID(other)
  {
    FirstAttachedIsAttached(r.listenIDs, r.attached);
    forall other | other in r.attached && IsListenID(other)
      ensures ListenTarget(r) == Some(other)
    {
      assert other in r.listenIDs;
    }
  }

  /** A stream is closed by the handler that took it out of the map, and by nothing else; then for good. */
  lemma ClosedByFinish<C>(ss: Session<C>, step: Step<C>, id: string)
    requires SessionInv(ss) && Allowed(ss, step) && id in ss.objects
    ensures id in NextSession(ss, step).objects
    ensures NextSession(ss, step).objects[id].closed <==> ss.objects[id].closed || step == Finish(id)
  {
    match step
    case Open(kind) => OpenKeepsClosed(ss, kind, id);
    case Finish(other) => ClosedAfter(ss, other, DoClose, id);
    case At(other, inner) => ClosedAfter(ss, other, inner, id);
    case _ =>
  }

  /** What is opened is a new stream, or one in the map, which is open already. */
  lemma OpenKeepsClosed<C>(ss: Session<C>, kind: string, id: string)
    requires SessionInv(ss) && IsKind(kind) && id in ss.objects
    ensures id in OpenStream(ss, kind).0.objects && OpenStream(ss, kind).0.objects[id].closed == ss.objects[id].closed
  {
    FirstAttachedIsAttached(ss.registry.listenIDs, ss.registry.attached);
    if !Reuses(ss.registry, kind) {
      FreshStreamID(ss, kind);
    }
  }

  lemma ClosedAfter<C>(ss: Session<C>, other: string, step: EventStream.Step<C>, id: string)
    requires id in ss.objects && (other in ss.objects ==> Enabled(ss.objects[other], step) && !step.DoReopen?)
    ensures var after := OnStream(ss, other, step);
            id in after.objects && (after.objects[id].closed <==> ss.objects[id].closed || (step.DoClose? && other == id))
  {
    if other == id {
      NextClosed(ss.objects[id], step);
    }
  }

  lemma NextClosed<C>(s: Stream<C>, step: EventStream.Step<C>)
    requires Enabled(s, step) && !step.DoReopen?
    ensures Next(s, step).closed <==> s.closed || step.DoClose?
  {
  }

  // One handler among others.

  datatype Move<C> = Handler | Other(step: Step<C>)

  /** Some other handler closes stream `id` between two moments. */
  predicate ClosedBetween<C(==)>(moves: seq<Move<C>>, from: nat, to: nat, id: string) {
    exists i | from <= i < to :: i < |moves| && moves[i] == Other(Finish(id))
  }

  lemma ClosedStep<C>(moves: seq<Move<C>>, from: nat, n: nat, id: string)
    requires from <= n < |moves|
    ensures ClosedBetween(moves, from, n + 1, id) <==> ClosedBetween(moves, from, n, id) || moves[n] == Other(Finish(id))
  {
  }
}
