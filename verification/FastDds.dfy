/**
 The FastDDS backend: subscribe looks up, creates DDS entities without the lock
 and inserts under the lock, so any number of threads may race with each other
 and with unsubscribe.
 */
module FastDds {
  import opened Common

  /** A set of DDS entities (topic, subscriber, reader), numbered as created. */
  type Entity = nat

  type Thread = nat

  datatype Info = Info(count: nat, entity: Entity)

  type Subscriptions = map<Topic, Info>

  // ----------------------------------------------- the sections of the lock

  function Bump(subs: Subscriptions, t: Topic): Subscriptions
    requires t in subs
  {
    subs[t := subs[t].(count := subs[t].count + 1)]
  }

  function InsertOrBump(subs: Subscriptions, t: Topic, e: Entity): Subscriptions {
    if t in subs then Bump(subs, t) else subs[t := Info(1, e)]
  }

  function Drop(subs: Subscriptions, t: Topic): Subscriptions
    requires t in subs && subs[t].count > 0
  {
    if subs[t].count == 1 then subs - {t} else subs[t := subs[t].(count := subs[t].count - 1)]
  }

  class SubscriptionManager {
    var subscriptions: Subscriptions

    constructor ()
      ensures subscriptions == map[]
    {
      subscriptions := map[];
    }

    /** Phase 1: an existing subscription only counts up. */
    method SubscribeExisting(topic: Topic) returns (found: bool)
      modifies this
      ensures found == (topic in old(subscriptions))
      ensures subscriptions == if found then Bump(old(subscriptions), topic) else old(subscriptions)
    {
      if topic in subscriptions {
        var info := subscriptions[topic];
        subscriptions := subscriptions[topic := info.(count := info.count + 1)];
        return true;
      }
      return false;
    }

    /** Phase 3: insert the fresh entities, or discard them if another thread
        was faster. */
    method InsertCreated(topic: Topic, created: Entity) returns (discard: bool)
      modifies this
      ensures discard == (topic in old(subscriptions))
      ensures subscriptions == InsertOrBump(old(subscriptions), topic, created)
    {
      discard := SubscribeExisting(topic);
      if !discard {
        subscriptions := subscriptions[topic := Info(1, created)];
      }
    }

    /** The locked part of unsubscribe; hands out the entities to close. */
    method UnsubscribeLocked(topic: Topic) returns (ok: bool, toClose: Option<Entity>)
      modifies this
      ensures ok == (topic in old(subscriptions) && old(subscriptions)[topic].count > 0)
      ensures subscriptions == if ok then Drop(old(subscriptions), topic) else old(subscriptions)
      ensures toClose ==
              if ok && old(subscriptions)[topic].count == 1 then Some(old(subscriptions)[topic].entity) else None
    {
      if topic !in subscriptions || subscriptions[topic].count == 0 {
        return false, None;
      }
      var info := subscriptions[topic];
      subscriptions := subscriptions[topic := info.(count := info.count - 1)];
      if subscriptions[topic].count == 0 {
        subscriptions := subscriptions - {topic};
        assert subscriptions == old(subscriptions) - {topic};
        return true, Some(info.entity);
      }
      return true, None;
    }
  }

  // ------------------------------------------------------- many threads

  datatype Pc =
    | Creating(topic: Topic)
    | Inserting(topic: Topic, entity: Entity)
    | Closing(entity: Entity)

  /** Who answers for an entity set. */
  datatype Place = Registered(topic: Topic) | HeldBy(thread: Thread) | Closed

  /** Besides the shared map and the threads, a state records how many entity
      sets were created, which were closed how often, who answers for each, the
      successful calls, and how often the zero-count branch was taken. */
  datatype State = State(
    subs: Subscriptions,
    threads: map<Thread, Pc>,
    created: nat,
    closed: multiset<Entity>,
    places: map<Entity, Place>,
    subscribed: multiset<Topic>,
    unsubscribed: multiset<Topic>,
    zeroHits: nat)

  const Start := State(map[], map[], 0, multiset{}, map[], multiset{}, multiset{}, 0)

  datatype Step =
    | Subscribe(thread: Thread, topic: Topic)
    | CreationFails(thread: Thread)
    | CreationWorks(thread: Thread)
    | Insert(thread: Thread)
    | Unsubscribe(thread: Thread, topic: Topic)
    | Close(thread: Thread)

  predicate Enabled(s: State, step: Step) {
    match step
    case Subscribe(k, _) => k !in s.threads
    case CreationFails(k) => k in s.threads && s.threads[k].Creating?
    case CreationWorks(k) => k in s.threads && s.threads[k].Creating?
    case Insert(k) => k in s.threads && s.threads[k].Inserting?
    case Unsubscribe(k, _) => k !in s.threads
    case Close(k) => k in s.threads && s.threads[k].Closing?
  }

  function Next(s: State, step: Step): State
    requires Enabled(s, step)
  {
    match step
    case Subscribe(k, t) =>
      if t in s.subs then s.(subs := Bump(s.subs, t), subscribed := s.subscribed + multiset{t})
      else s.(threads := s.threads[k := Creating(t)])
    case CreationFails(k) => s.(threads := s.threads - {k})
    case CreationWorks(k) =>
      s.(threads := s.threads[k := Inserting(s.threads[k].topic, s.created)],
         created := s.created + 1,
         places := s.places[s.created := HeldBy(k)])
    case Insert(k) =>
      var t, e := s.threads[k].topic, s.threads[k].entity;
      var discard := t in s.subs;
      s.(subs := InsertOrBump(s.subs, t, e),
         threads := s.threads - {k},
         closed := if discard then s.closed + multiset{e} else s.closed,
         places := s.places[e := if discard then Closed else Registered(t)],
         subscribed := s.subscribed + multiset{t})
    case Unsubscribe(k, t) =>
      if t !in s.subs then s
      else if s.subs[t].count == 0 then s.(zeroHits := s.zeroHits + 1)
      else
        var last := s.subs[t].count == 1;
        var e := s.subs[t].entity;
        s.(subs := Drop(s.subs, t),
           threads := if last then s.threads[k := Closing(e)] else s.threads,
           places := if last then s.places[e := HeldBy(k)] else s.places,
           unsubscribed := s.unsubscribed + multiset{t})
    case Close(k) =>
      var e := s.threads[k].entity;
      s.(threads := s.threads - {k}, closed := s.closed + multiset{e}, places := s.places[e := Closed])
  }

  /** The states a run visits. */
  ghost predicate IsRun(states: seq<State>, steps: seq<Step>) {
    && |states| == |steps| + 1
    && states[0] == Start
    && forall i | 0 <= i < |steps| :: Enabled(states[i], steps[i]) && states[i + 1] == Next(states[i], steps[i])
  }

  // --------------------------------------------------------------- invariant

  ghost predicate CountExact(s: State, t: Topic) {
    if t in s.subs then s.subs[t].count > 0 && s.subs[t].count + s.unsubscribed[t] == s.subscribed[t]
    else s.subscribed[t] == s.unsubscribed[t]
  }

  ghost predicate CountsExact(s: State) {
    (forall t: Topic :: CountExact(s, t)) && s.zeroHits == 0
  }

  predicate Holds(pc: Pc, e: Entity) {
    (pc.Inserting? || pc.Closing?) && pc.entity == e
  }

  ghost predicate PlacesExact(s: State) {
    && (forall e: Entity :: e in s.places <==> e < s.created)
    && MapPlaced(s)
    && ThreadsPlaced(s)
    && PlacesBacked(s)
    && ClosedOnce(s)
  }

  ghost predicate MapPlaced(s: State) {
    forall t | t in s.subs :: s.subs[t].entity in s.places && s.places[s.subs[t].entity] == Registered(t)
  }

  ghost predicate ThreadsPlaced(s: State) {
    forall k | k in s.threads && !s.threads[k].Creating? ::
      s.threads[k].entity in s.places && s.places[s.threads[k].entity] == HeldBy(k)
  }

  ghost predicate PlacesBacked(s: State) {
    && (forall e | e in s.places && s.places[e].Registered? ::
          s.places[e].topic in s.subs && s.subs[s.places[e].topic].entity == e)
    && (forall e | e in s.places && s.places[e].HeldBy? ::
          s.places[e].thread in s.threads && Holds(s.threads[s.places[e].thread], e))
  }

  ghost predicate ClosedOnce(s: State) {
    forall e: Entity :: s.closed[e] == if e in s.places && s.places[e] == Closed then 1 else 0
  }

  lemma NextKeepsCount(s: State, step: Step, t: Topic)
    requires CountExact(s, t) && Enabled(s, step)
    ensures CountExact(Next(s, step), t)
  {
  }

  lemma NextKeepsCounts(s: State, step: Step)
    requires CountsExact(s) && Enabled(s, step)
    ensures CountsExact(Next(s, step))
  {
    forall t: Topic
      ensures CountExact(Next(s, step), t)
    {
      NextKeepsCount(s, step, t);
    }
    assert step.Unsubscribe? ==> CountExact(s, step.topic);
  }

  lemma SubscribeKeepsPlaces(s: State, step: Step)
    requires PlacesExact(s) && Enabled(s, step) && (step.Subscribe? || step.CreationFails?)
    ensures PlacesExact(Next(s, step))
  {
  }

  lemma CreateKeepsPlaces(s: State, step: Step)
    requires PlacesExact(s) && Enabled(s, step) && step.CreationWorks?
    ensures PlacesExact(Next(s, step))
  {
  }

  lemma InsertKeepsPlaces(s: State, step: Step)
    requires PlacesExact(s) && Enabled(s, step) && step.Insert?
    ensures PlacesExact(Next(s, step))
  {
    var s' := Next(s, step);
    assert MapPlaced(s');
    assert ThreadsPlaced(s');
    assert PlacesBacked(s');
  }

  lemma UnsubscribeKeepsPlaces(s: State, step: Step)
    requires PlacesExact(s) && Enabled(s, step) && step.Unsubscribe?
    ensures PlacesExact(Next(s, step))
  {
    if step.topic in s.subs && s.subs[step.topic].count == 1 {
      LastUnsubscribeKeepsPlaces(s, step);
    }
  }

  /** The entities move from the map to the thread that will close them. */
  lemma LastUnsubscribeKeepsPlaces(s: State, step: Step)
    requires PlacesExact(s) && Enabled(s, step) && step.Unsubscribe?
    requires step.topic in s.subs && s.subs[step.topic].count == 1
    ensures PlacesExact(Next(s, step))
  {
    var s' := Next(s, step);
    assert MapPlaced(s');
    assert ThreadsPlaced(s');
    assert PlacesBacked(s');
  }

  lemma CloseKeepsPlaces(s: State, step: Step)
    requires PlacesExact(s) && Enabled(s, step) && step.Close?
    ensures PlacesExact(Next(s, step))
  {
  }

  lemma NextKeepsPlaces(s: State, step: Step)
    requires PlacesExact(s) && Enabled(s, step)
    ensures PlacesExact(Next(s, step))
  {
    match step
    case Subscribe(_, _) => SubscribeKeepsPlaces(s, step);
    case CreationFails(_) => SubscribeKeepsPlaces(s, step);
    case CreationWorks(_) => CreateKeepsPlaces(s, step);
    case Insert(_) => InsertKeepsPlaces(s, step);
    case Unsubscribe(_, _) => UnsubscribeKeepsPlaces(s, step);
    case Close(_) => CloseKeepsPlaces(s, step);
  }

  lemma {:induction false} ReachableInv(states: seq<State>, steps: seq<Step>, n: nat)
    requires IsRun(states, steps) && n < |states|
    ensures CountsExact(states[n]) && PlacesExact(states[n])
  {
    if n > 0 {
      ReachableInv(states, steps, n - 1);
      NextKeepsCounts(states[n - 1], steps[n - 1]);
      NextKeepsPlaces(states[n - 1], steps[n - 1]);
    }
  }

  // ------------------------------------------------------------ main results

  /** However the threads interleave, an entry exists exactly while its count is
      positive, the count is the successful subscribes minus the successful
      unsubscribes, and the zero-count branch is never taken. */
  lemma CountsAreBalance(states: seq<State>, steps: seq<Step>, n: nat, t: Topic)
    requires IsRun(states, steps) && n < |states|
    ensures var s := states[n];
            && s.zeroHits == 0
            && s.unsubscribed[t] <= s.subscribed[t]
            && (t in s.subs <==> s.subscribed[t] > s.unsubscribed[t])
            && (t in s.subs ==> s.subs[t].count + s.unsubscribed[t] == s.subscribed[t])
  {
    ReachableInv(states, steps, n);
    assert CountExact(states[n], t);
  }

  ghost predicate InMap(s: State, e: Entity) {
    exists t :: t in s.subs && s.subs[t].entity == e
  }

  ghost predicate WithThread(s: State, e: Entity) {
    exists k :: k in s.threads && Holds(s.threads[k], e)
  }

  /** Every entity set ever created is in exactly one place: in the map under
      one topic, with one thread (about to insert or close it), or closed
      exactly once.  Nothing leaks and nothing is closed twice or while in use. */
  lemma NothingLeaks(states: seq<State>, steps: seq<Step>, n: nat, e: Entity)
    requires IsRun(states, steps) && n < |states| && e < states[n].created
    ensures var s := states[n];
            && s.closed[e] <= 1
            && (InMap(s, e) <==> !WithThread(s, e) && s.closed[e] == 0)
            && (WithThread(s, e) <==> !InMap(s, e) && s.closed[e] == 0)
            && (forall t, u | t in s.subs && u in s.subs && s.subs[t].entity == e && s.subs[u].entity == e :: t == u)
            && (forall j, k | j in s.threads && k in s.threads && Holds(s.threads[j], e) && Holds(s.threads[k], e) ::
                  j == k)
  {
    ReachableInv(states, steps, n);
    var s := states[n];
    match s.places[e]
    case Registered(t) => assert t in s.subs && s.subs[t].entity == e;
    case HeldBy(k) => assert k in s.threads && Holds(s.threads[k], e);
    case Closed =>
  }
}
