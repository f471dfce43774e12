/**
 The state the bridge's request handlers share, and the critical sections they
 and the disconnect callback run on it under the cleanup lock.  Every section
 is a function from the state it finds to the state it leaves.
 */
module BridgeCore {
  import opened Common
  import B = MessageBuffering
  import S = SessionManagement
  import R = SubscriptionManagement

  /** A single-message frame waiting for the handler's response to go out. */
  datatype ReplayFrame = ReplayFrame(topic: Topic, sample: B.Message)

  /** `misses` counts releases that found no reference to give back. */
  datatype Core = Core(
    sessions: S.Sessions,
    refs: R.Subscriptions,
    buffer: B.State,
    replays: map<Client, seq<ReplayFrame>>,
    misses: nat)

  const Initial := Core(map[], map[], B.Empty, map[], 0)

  /** What creating a subscription would yield, per topic; an absent topic fails. */
  type Backend = map<Topic, bool>

  function Creation(backend: Backend, t: Topic): Option<bool> {
    if t in backend then Some(backend[t]) else None
  }

  // --------------------------------------------------------------- releasing

  predicate Releasable(refs: R.Subscriptions, t: Topic) {
    t in refs && refs[t].count > 0
  }

  function Release(core: Core, t: Topic): Core {
    var refs := R.Unsubscribe(core.refs, t);
    core.(refs := refs,
          buffer := if t in refs then core.buffer else B.Unlatch(core.buffer, {t}),
          misses := core.misses + if Releasable(core.refs, t) then 0 else 1)
  }

  /** The references left after every topic of `ts` gave one back. */
  function Survivors(refs: R.Subscriptions, ts: set<Topic>): R.Subscriptions {
    map t | t in refs && !(t in ts && refs[t].count == 1) ::
      if t in ts && refs[t].count > 0 then refs[t].(count := refs[t].count - 1) else refs[t]
  }

  function ReleaseAll(core: Core, ts: set<Topic>): Core {
    var refs := Survivors(core.refs, ts);
    core.(refs := refs,
          buffer := B.Unlatch(core.buffer, ts - refs.Keys),
          misses := core.misses + |set t | t in ts && !Releasable(core.refs, t)|)
  }

  lemma SurvivorsStep(refs: R.Subscriptions, done: set<Topic>, t: Topic)
    requires t !in done
    ensures R.Unsubscribe(Survivors(refs, done), t) == Survivors(refs, done + {t})
    ensures Releasable(Survivors(refs, done), t) <==> Releasable(refs, t)
    ensures t in Survivors(refs, done) <==> t in refs
  {
  }

  lemma MissesStep(refs: R.Subscriptions, done: set<Topic>, t: Topic)
    requires t !in done
    ensures |set u | u in done + {t} && !Releasable(refs, u)| ==
            |set u | u in done && !Releasable(refs, u)| + if Releasable(refs, t) then 0 else 1
  {
    var missed := set u | u in done && !Releasable(refs, u);
    assert (set u | u in done + {t} && !Releasable(refs, u)) ==
           if Releasable(refs, t) then missed else missed + {t};
  }

  lemma UnlatchTwice(s: B.State, a: set<Topic>, b: set<Topic>)
    ensures B.Unlatch(B.Unlatch(s, a), b) == B.Unlatch(s, a + b)
    ensures B.Unlatch(s, {}) == s
  {
    assert s.latched - a - b == s.latched - (a + b);
    assert s.retained - a - b == s.retained - (a + b);
    assert s.latched - {} == s.latched && s.retained - {} == s.retained;
  }

  /** Releasing one by one, in any order, is releasing all at once. */
  lemma ReleaseAllStep(core: Core, done: set<Topic>, t: Topic)
    requires t !in done
    ensures Release(ReleaseAll(core, done), t) == ReleaseAll(core, done + {t})
  {
    SurvivorsStep(core.refs, done, t);
    MissesStep(core.refs, done, t);
    var before, after := Survivors(core.refs, done).Keys, Survivors(core.refs, done + {t}).Keys;
    var dead := if t in after then {} else {t};
    UnlatchTwice(core.buffer, done - before, dead);
    assert (done + {t}) - after == (done - before) + dead;
  }

  lemma ReleaseNone(core: Core)
    ensures ReleaseAll(core, {}) == core
  {
    assert Survivors(core.refs, {}) == core.refs;
    UnlatchTwice(core.buffer, {}, {});
    assert {} - core.refs.Keys == {};
    assert (set t | t in {} && !Releasable(core.refs, t)) == {};
  }

  // ---------------------------------------------------------------- sections

  predicate DistinctTopics(items: seq<(Topic, real)>) {
    forall i, j | 0 <= i < j < |items| :: items[i].0 != items[j].0
  }

  function Topics(items: seq<(Topic, real)>): set<Topic> {
    set i | 0 <= i < |items| :: items[i].0
  }

  /** The topics a subscribe request validated: requested, not subscribed when
      the handler looked, and carrying the requested rate or no limit. */
  predicate ValidItems(items: seq<(Topic, real)>, topics: map<Topic, Option<real>>, known: map<Topic, real>) {
    && DistinctTopics(items)
    && forall i | 0 <= i < |items| ::
         && items[i].0 in topics
         && items[i].0 !in known
         && items[i].1 == if topics[items[i].0].Some? then topics[items[i].0].value else 0.0
  }

  function NewRates(topics: map<Topic, Option<real>>, known: map<Topic, real>): map<Topic, real> {
    map t | t in topics && t in known && topics[t].Some? :: topics[t].value
  }

  function CleanupSection(core: Core, c: Client): Core {
    var dropped := core.(replays := core.replays - {c});
    if c !in core.sessions then dropped
    else
      var released := ReleaseAll(dropped, core.sessions[c].refHeld);
      released.(sessions := core.sessions - {c})
  }

  function PauseSection(core: Core, c: Client): Core {
    if c !in core.sessions || core.sessions[c].paused then core
    else
      var s := core.sessions[c];
      ReleaseAll(core, s.refHeld).(sessions := core.sessions[c := s.(paused := true, refHeld := {})])
  }

  /** Drops the named topics the session is subscribed to. */
  function UnsubscribeSection(core: Core, c: Client, names: set<Topic>): Core {
    if c !in core.sessions then core
    else
      DropTopics(core, c, names * core.sessions[c].subscribed.Keys)
  }

  function DropTopics(core: Core, c: Client, removed: set<Topic>): Core
    requires c in core.sessions
  {
    var s := core.sessions[c];
    var kept := s.(subscribed := s.subscribed - removed, refHeld := s.refHeld - removed);
    ReleaseAll(core, removed * s.refHeld).(sessions := core.sessions[c := kept])
  }

  /** Latched bookkeeping after a reference was acquired for client `c`. */
  function Collect(core: Core, c: Client, t: Topic): Core {
    var latched := t in core.refs && core.refs[t].transientLocal;
    var buffer := B.SetLatched(core.buffer, t, latched);
    var sample := if latched then B.ReplaySample(buffer, t) else None;
    var queued := if c in core.replays then core.replays[c] else [];
    core.(buffer := buffer,
          replays := if sample.Some? then core.replays[c := queued + [ReplayFrame(t, sample.value)]] else core.replays)
  }

  /** A subscribe section so far: the topics whose schema the response will
      carry, and those it will report as failed. */
  datatype Progress = Progress(core: Core, schemas: set<Topic>, failed: set<Topic>)

  function SubscribeOne(p: Progress, c: Client, t: Topic, rate: real, paused: bool, backend: Backend): Progress {
    var creation := Creation(backend, t);
    if !paused && !R.Subscribable(p.core.refs, t, creation) then p.(failed := p.failed + {t})
    else
      var acquired := if paused then p.core else p.core.(refs := R.Subscribe(p.core.refs, t, creation));
      if c !in acquired.sessions then p.(core := if paused then acquired else Release(acquired, t))
      else
        var sessions := S.Apply(S.Apply(acquired.sessions, S.AddSubscription(c, t, rate)), S.SetRefHeld(c, t, !paused));
        var joined := acquired.(sessions := sessions);
        p.(core := if paused then joined else Collect(joined, c, t), schemas := p.schemas + {t})
  }

  function SubscribeAll(core: Core, c: Client, items: seq<(Topic, real)>, paused: bool, backend: Backend): Progress {
    if items == [] then Progress(core, {}, {})
    else
      var last := items[|items| - 1];
      SubscribeOne(SubscribeAll(core, c, items[..|items| - 1], paused, backend), c, last.0, last.1, paused, backend)
  }

  /** New rates for topics that were subscribed before the request. */
  function UpdateRates(core: Core, c: Client, rates: map<Topic, real>): Core {
    if c !in core.sessions then core
    else
      var s := core.sessions[c];
      core.(sessions := core.sessions[c := s.(subscribed := s.subscribed + rates)])
  }

  function SubscribeSection(
    core: Core, c: Client, items: seq<(Topic, real)>, rates: map<Topic, real>, backend: Backend): Progress
  {
    var p := SubscribeAll(core, c, items, S.IsPaused(core.sessions, c), backend);
    p.(core := UpdateRates(p.core, c, rates))
  }

  function ResumeOne(core: Core, c: Client, t: Topic, available: set<Topic>, backend: Backend): Core {
    var creation := Creation(backend, t);
    if t !in available || !R.Subscribable(core.refs, t, creation) then core
    else
      Collect(core.(refs := R.Subscribe(core.refs, t, creation),
                    sessions := S.Apply(core.sessions, S.SetRefHeld(c, t, true))), c, t)
  }

  function ResumeAll(core: Core, c: Client, order: seq<Topic>, available: set<Topic>, backend: Backend): Core {
    if order == [] then core
    else
      ResumeOne(ResumeAll(core, c, order[..|order| - 1], available, backend), c, order[|order| - 1], available, backend)
  }

  /** `order` lists the session's subscribed topics without a reference, in the
      order in which the hash map happens to yield them. */
  function ResumeSection(core: Core, c: Client, order: seq<Topic>, available: set<Topic>, backend: Backend): Core {
    if !S.IsPaused(core.sessions, c) then core
    else ResumeAll(core.(sessions := S.Apply(core.sessions, S.SetPaused(c, false))), c, order, available, backend)
  }

  predicate ResumeOrder(core: Core, c: Client, order: seq<Topic>) {
    S.IsPaused(core.sessions, c) ==>
      Enumerates(order, core.sessions[c].subscribed.Keys - core.sessions[c].refHeld)
  }

  // ---------------------------------------------------- one topic at a time

  function Names(topics: seq<Topic>): set<Topic> {
    set t | t in topics
  }

  /** A pause half-way: of the references `held`, those in `todo` are still there. */
  function Releasing(core: Core, c: Client, held: set<Topic>, todo: set<Topic>): Core
    requires c in core.sessions
  {
    ReleaseAll(core, held - todo).(sessions := core.sessions[c := core.sessions[c].(refHeld := todo)])
  }

  lemma ReleasingStep(core: Core, c: Client, held: set<Topic>, todo: set<Topic>, t: Topic)
    requires c in core.sessions && t in todo && todo <= held
    ensures var mid := Release(Releasing(core, c, held, todo), t);
            mid.(sessions := S.Apply(mid.sessions, S.SetRefHeld(c, t, false))) ==
            Releasing(core, c, held, todo - {t})
  {
    ReleaseAllStep(core, held - todo, t);
    assert held - (todo - {t}) == (held - todo) + {t};
    assert Release(Releasing(core, c, held, todo), t) ==
           Release(ReleaseAll(core, held - todo), t).(sessions := Releasing(core, c, held, todo).sessions);
  }

  lemma UpdateRatesStep(core: Core, c: Client, rates: map<Topic, real>, todo: set<Topic>, t: Topic)
    requires t in todo && t in rates
    ensures UpdateRates(core, c, rates - (todo - {t})).sessions ==
            S.Apply(UpdateRates(core, c, rates - todo).sessions, S.AddSubscription(c, t, rates[t]))
  {
    assert rates - (todo - {t}) == (rates - todo)[t := rates[t]];
    if c in core.sessions {
      var subs := core.sessions[c].subscribed;
      assert subs + (rates - todo)[t := rates[t]] == (subs + (rates - todo))[t := rates[t]];
    }
  }

  lemma UpdateNoRates(core: Core, c: Client)
    ensures UpdateRates(core, c, map[]) == core
  {
    if c in core.sessions {
      assert core.sessions[c].subscribed + map[] == core.sessions[c].subscribed;
    }
  }

  /** Unsubscribing one more name: nothing happens when it was never subscribed
      or was already dropped by this request. */
  lemma UnsubscribeOneMore(core: Core, c: Client, names: set<Topic>, t: Topic)
    requires c in core.sessions
    ensures var mid := UnsubscribeSection(core, c, names);
            var s := core.sessions[c];
            UnsubscribeSection(core, c, names + {t}) ==
            if t !in s.subscribed || t in names then mid
            else (if t in s.refHeld then Release(mid, t) else mid).(
              sessions := S.Apply(mid.sessions, S.RemoveSubscription(c, t)))
  {
    var s := core.sessions[c];
    var removed := names * s.subscribed.Keys;
    if t in s.subscribed && t !in names {
      assert (names + {t}) * s.subscribed.Keys == removed + {t};
      DropOneMore(core, c, removed, t);
    } else {
      assert (names + {t}) * s.subscribed.Keys == removed;
    }
  }

  lemma DropOneMore(core: Core, c: Client, removed: set<Topic>, t: Topic)
    requires c in core.sessions && t in core.sessions[c].subscribed && t !in removed
    ensures var mid := DropTopics(core, c, removed);
            DropTopics(core, c, removed + {t}) ==
            (if t in core.sessions[c].refHeld then Release(mid, t) else mid).(
              sessions := S.Apply(mid.sessions, S.RemoveSubscription(c, t)))
  {
    var s := core.sessions[c];
    SessionWithout(s, removed, t);
    var kept := s.(subscribed := s.subscribed - (removed + {t}), refHeld := s.refHeld - (removed + {t}));
    var sessions' := core.sessions[c := kept];
    assert S.Apply(DropTopics(core, c, removed).sessions, S.RemoveSubscription(c, t)) == sessions';
    ReleaseHeldStep(core, removed, s.refHeld, t);
    assert Release(DropTopics(core, c, removed), t) ==
           Release(ReleaseAll(core, removed * s.refHeld), t).(sessions := DropTopics(core, c, removed).sessions);
  }

  lemma ReleaseHeldStep(core: Core, removed: set<Topic>, held: set<Topic>, t: Topic)
    requires t !in removed
    ensures ReleaseAll(core, (removed + {t}) * held) ==
            if t in held then Release(ReleaseAll(core, removed * held), t) else ReleaseAll(core, removed * held)
  {
    if t in held {
      assert (removed + {t}) * held == removed * held + {t};
      ReleaseAllStep(core, removed * held, t);
    } else {
      assert (removed + {t}) * held == removed * held;
    }
  }

  lemma SessionWithout(s: S.Session, removed: set<Topic>, t: Topic)
    ensures s.(subscribed := s.subscribed - (removed + {t}), refHeld := s.refHeld - (removed + {t})) ==
            s.(subscribed := s.subscribed - removed - {t}, refHeld := s.refHeld - removed - {t})
  {
    assert s.subscribed - removed - {t} == s.subscribed - (removed + {t});
    assert s.refHeld - removed - {t} == s.refHeld - (removed + {t});
  }

  lemma UnsubscribeNone(core: Core, c: Client)
    ensures UnsubscribeSection(core, c, {}) == core
  {
    if c in core.sessions {
      var s := core.sessions[c];
      assert {} * s.subscribed.Keys == {} && {} * s.refHeld == {};
      assert s.subscribed - {} == s.subscribed && s.refHeld - {} == s.refHeld;
      ReleaseNone(core);
    }
  }

  // --------------------------------------------------------------- invariant

  ghost function Holders(sessions: S.Sessions, t: Topic): set<Client> {
    set c | c in sessions && t in sessions[c].refHeld
  }

  function Count(refs: R.Subscriptions, t: Topic): nat {
    if t in refs then refs[t].count else 0
  }

  /** Each topic's reference count is the number of sessions holding it. */
  ghost predicate CountsMatch(core: Core) {
    && (forall t | t in core.refs :: core.refs[t].count > 0)
    && (forall t: Topic :: Count(core.refs, t) == |Holders(core.sessions, t)|)
  }

  /** Held topics are subscribed, and a paused session holds none. */
  ghost predicate SessionsSound(sessions: S.Sessions) {
    && S.HeldWithinSubscribed(sessions)
    && (forall c | c in sessions && sessions[c].paused :: sessions[c].refHeld == {})
  }

  /** A topic is latched exactly while a live transient-local subscription exists. */
  ghost predicate LatchMatches(core: Core) {
    && B.Inv(core.buffer)
    && (forall t: Topic :: t in core.buffer.latched <==> t in core.refs && core.refs[t].transientLocal)
  }

  ghost predicate CoreInv(core: Core) {
    && CountsMatch(core)
    && SessionsSound(core.sessions)
    && LatchMatches(core)
    && core.misses == 0
  }

  /** With no sessions left every reference is gone, and with it all latched state. */
  lemma NoSessionsNoRefs(core: Core)
    requires CoreInv(core) && core.sessions == map[]
    ensures core.refs == map[] && core.buffer.latched == {} && core.buffer.retained == map[]
  {
    forall t: Topic
      ensures t !in core.refs
    {
      assert Holders(core.sessions, t) == {};
      assert Count(core.refs, t) == 0;
    }
    assert core.refs.Keys == {};
    assert core.buffer.retained.Keys == {};
  }

  // -------------------------------------------------- releasing keeps it

  lemma UnlatchKeepsInv(s: B.State, ts: set<Topic>)
    requires B.Inv(s)
    ensures B.Inv(B.Unlatch(s, ts))
  {
  }

  lemma ReleaseAllLatch(core: Core, ts: set<Topic>)
    requires LatchMatches(core)
    requires forall t | t in ts :: Releasable(core.refs, t)
    ensures LatchMatches(ReleaseAll(core, ts)) && ReleaseAll(core, ts).misses == core.misses
  {
    var core' := ReleaseAll(core, ts);
    UnlatchKeepsInv(core.buffer, ts - core'.refs.Keys);
    assert (set t | t in ts && !Releasable(core.refs, t)) == {};
  }

  lemma ReleaseCount(refs: R.Subscriptions, holders: set<Client>, c: Client, ts: set<Topic>, t: Topic)
    requires Count(refs, t) == |holders|
    requires t in ts ==> c in holders
    ensures Count(Survivors(refs, ts), t) == |holders - if t in ts then {c} else {}|
  {
    assert holders - {} == holders;
  }

  /** Client `c` gives back exactly the references `ts` it held. */
  lemma ReleaseKeepsInv(core: Core, c: Client, ts: set<Topic>, sessions': S.Sessions)
    requires CoreInv(core) && c in core.sessions && ts <= core.sessions[c].refHeld
    requires SessionsSound(sessions')
    requires forall t: Topic :: Holders(sessions', t) == Holders(core.sessions, t) - if t in ts then {c} else {}
    ensures CoreInv(ReleaseAll(core, ts).(sessions := sessions'))
  {
    forall t | t in ts
      ensures Releasable(core.refs, t)
    {
      assert c in Holders(core.sessions, t);
      assert Count(core.refs, t) == |Holders(core.sessions, t)|;
    }
    ReleaseAllLatch(core, ts);
    forall t: Topic
      ensures Count(Survivors(core.refs, ts), t) == |Holders(sessions', t)|
    {
      assert t in ts ==> c in Holders(core.sessions, t);
      ReleaseCount(core.refs, Holders(core.sessions, t), c, ts, t);
    }
  }

  lemma ReleaseAllOne(core: Core, t: Topic)
    ensures Release(core, t) == ReleaseAll(core, {t})
  {
    ReleaseNone(core);
    ReleaseAllStep(core, {}, t);
    assert {} + {t} == {t};
  }

  /** One reference given back by its holder. */
  lemma ReleaseOneKeepsInv(core: Core, c: Client, t: Topic)
    requires CoreInv(core) && c in core.sessions && t in core.sessions[c].refHeld
    ensures var s := core.sessions[c];
            CoreInv(Release(core, t).(sessions := core.sessions[c := s.(refHeld := s.refHeld - {t})]))
  {
    var s := core.sessions[c];
    ReleaseAllOne(core, t);
    ReleaseKeepsInv(core, c, {t}, core.sessions[c := s.(refHeld := s.refHeld - {t})]);
  }

  /** A session that holds nothing can go without touching the backend. */
  lemma RemoveIdleKeepsInv(core: Core, c: Client)
    requires CoreInv(core) && c in core.sessions && core.sessions[c].refHeld == {}
    ensures CoreInv(core.(sessions := core.sessions - {c}))
  {
    forall t: Topic
      ensures Holders(core.sessions - {c}, t) == Holders(core.sessions, t)
    {
    }
  }

  lemma CleanupKeepsInv(core: Core, c: Client)
    requires CoreInv(core)
    ensures CoreInv(CleanupSection(core, c))
  {
    if c in core.sessions {
      var dropped := core.(replays := core.replays - {c});
      ReleaseKeepsInv(dropped, c, core.sessions[c].refHeld, core.sessions - {c});
    }
  }

  lemma PauseKeepsInv(core: Core, c: Client)
    requires CoreInv(core)
    ensures CoreInv(PauseSection(core, c))
  {
    if c in core.sessions && !core.sessions[c].paused {
      var s := core.sessions[c];
      ReleaseKeepsInv(core, c, s.refHeld, core.sessions[c := s.(paused := true, refHeld := {})]);
    }
  }

  lemma UnsubscribeKeepsInv(core: Core, c: Client, names: set<Topic>)
    requires CoreInv(core)
    ensures CoreInv(UnsubscribeSection(core, c, names))
  {
    if c in core.sessions {
      var s := core.sessions[c];
      var removed := names * s.subscribed.Keys;
      var kept := s.(subscribed := s.subscribed - removed, refHeld := s.refHeld - removed);
      ReleaseKeepsInv(core, c, removed * s.refHeld, core.sessions[c := kept]);
    }
  }

  // -------------------------------------------------- acquiring keeps it

  lemma CollectLatch(core: Core, c: Client, t: Topic)
    requires B.Inv(core.buffer) && t in core.refs
    requires forall u: Topic | u != t :: u in core.buffer.latched <==> u in core.refs && core.refs[u].transientLocal
    ensures LatchMatches(Collect(core, c, t))
  {
    B.ApplyKeepsInv(core.buffer, B.OpSetLatched(t, core.refs[t].transientLocal), 0);
  }

  lemma SubscribeCount(refs: R.Subscriptions, t: Topic, creation: Option<bool>, u: Topic)
    requires R.Subscribable(refs, t, creation)
    ensures Count(R.Subscribe(refs, t, creation), u) == Count(refs, u) + if u == t then 1 else 0
  {
  }

  lemma SubscribeLatch(core: Core, c: Client, t: Topic, creation: Option<bool>, sessions': S.Sessions)
    requires LatchMatches(core) && R.Subscribable(core.refs, t, creation)
    ensures LatchMatches(Collect(core.(refs := R.Subscribe(core.refs, t, creation), sessions := sessions'), c, t))
  {
    CollectLatch(core.(refs := R.Subscribe(core.refs, t, creation), sessions := sessions'), c, t);
  }

  lemma SubscribeCounts(core: Core, c: Client, t: Topic, creation: Option<bool>, sessions': S.Sessions)
    requires CountsMatch(core) && R.Subscribable(core.refs, t, creation)
    requires c !in Holders(core.sessions, t)
    requires forall u: Topic :: Holders(sessions', u) == Holders(core.sessions, u) + if u == t then {c} else {}
    ensures CountsMatch(core.(refs := R.Subscribe(core.refs, t, creation), sessions := sessions'))
  {
    forall u: Topic
      ensures Count(R.Subscribe(core.refs, t, creation), u) == |Holders(sessions', u)|
    {
      SubscribeCount(core.refs, t, creation, u);
      assert Holders(core.sessions, u) + {} == Holders(core.sessions, u);
    }
  }

  /** An unpaused session acquires one more reference for a subscribed topic. */
  lemma AcquireKeepsInv(core: Core, c: Client, t: Topic, creation: Option<bool>, sessions': S.Sessions)
    requires CoreInv(core) && R.Subscribable(core.refs, t, creation)
    requires SessionsSound(sessions') && c !in Holders(core.sessions, t)
    requires forall u: Topic :: Holders(sessions', u) == Holders(core.sessions, u) + if u == t then {c} else {}
    ensures CoreInv(Collect(core.(refs := R.Subscribe(core.refs, t, creation), sessions := sessions'), c, t))
  {
    SubscribeLatch(core, c, t, creation, sessions');
    SubscribeCounts(core, c, t, creation, sessions');
  }

  /** Rolling a reference back leaves no trace. */
  lemma RollbackRestores(core: Core, t: Topic, creation: Option<bool>)
    requires CoreInv(core) && R.Subscribable(core.refs, t, creation)
    ensures Release(core.(refs := R.Subscribe(core.refs, t, creation)), t) == core
  {
    R.UnsubscribeUndoesSubscribe(core.refs, t, creation);
    if t !in core.refs {
      assert core.buffer.latched - {t} == core.buffer.latched;
      assert core.buffer.retained - {t} == core.buffer.retained;
    }
  }

  /** Marking a subscribed topic as held adds the client to its holders. */
  lemma HoldersAfterHold(sessions: S.Sessions, c: Client, t: Topic)
    requires SessionsSound(sessions) && c in sessions && !sessions[c].paused && t in sessions[c].subscribed
    ensures var sessions' := S.Apply(sessions, S.SetRefHeld(c, t, true));
            && SessionsSound(sessions')
            && (forall u: Topic :: Holders(sessions', u) == Holders(sessions, u) + if u == t then {c} else {})
  {
    S.OnlySetRefHeldBreaks(sessions, S.SetRefHeld(c, t, true));
  }

  lemma AddSubscriptionKeepsInv(core: Core, c: Client, t: Topic, rate: real)
    requires CoreInv(core)
    ensures CoreInv(core.(sessions := S.Apply(core.sessions, S.AddSubscription(c, t, rate))))
  {
    var sessions' := S.Apply(core.sessions, S.AddSubscription(c, t, rate));
    forall u: Topic
      ensures Holders(sessions', u) == Holders(core.sessions, u)
    {
    }
  }

  predicate NotSubscribed(core: Core, c: Client, t: Topic) {
    c in core.sessions ==> t !in core.sessions[c].subscribed
  }

  lemma SubscribeOneKeepsInv(p: Progress, c: Client, t: Topic, rate: real, paused: bool, backend: Backend)
    requires CoreInv(p.core) && NotSubscribed(p.core, c, t)
    requires c in p.core.sessions ==> p.core.sessions[c].paused == paused
    ensures CoreInv(SubscribeOne(p, c, t, rate, paused, backend).core)
  {
    var core := p.core;
    var creation := Creation(backend, t);
    if paused || R.Subscribable(core.refs, t, creation) {
      if c !in core.sessions {
        if !paused {
          RollbackRestores(core, t, creation);
        }
      } else {
        var added := core.(sessions := S.Apply(core.sessions, S.AddSubscription(c, t, rate)));
        AddSubscriptionKeepsInv(core, c, t, rate);
        assert t !in added.sessions[c].refHeld;
        if paused {
          assert added.sessions[c].refHeld - {t} == added.sessions[c].refHeld;
          assert S.Apply(added.sessions, S.SetRefHeld(c, t, false)) == added.sessions;
        } else {
          HoldersAfterHold(added.sessions, c, t);
          AcquireKeepsInv(added, c, t, creation, S.Apply(added.sessions, S.SetRefHeld(c, t, true)));
        }
      }
    }
  }

  /** What one step does to the client's own session. */
  lemma SubscribeOneSession(p: Progress, c: Client, t: Topic, rate: real, paused: bool, backend: Backend)
    ensures var p' := SubscribeOne(p, c, t, rate, paused, backend);
            && p'.core.sessions.Keys == p.core.sessions.Keys
            && (forall d | d in p.core.sessions && d != c :: p'.core.sessions[d] == p.core.sessions[d])
            && p.schemas <= p'.schemas <= p.schemas + {t}
            && (c in p.core.sessions ==> p'.core.sessions[c].paused == p.core.sessions[c].paused)
            && (p'.schemas == p.schemas + {t} && c in p.core.sessions && t !in p.schemas ==>
                  p'.core.sessions[c].subscribed.Keys == p.core.sessions[c].subscribed.Keys + {t})
            && (p'.schemas == p.schemas && c in p.core.sessions && t !in p.schemas ==>
                  p'.core.sessions[c] == p.core.sessions[c])
  {
  }

  /** The section's effect on the client's subscriptions: exactly the topics
      whose schema the response carries are new. */
  lemma {:induction false} SubscribeAllSession(
    core: Core, c: Client, items: seq<(Topic, real)>, paused: bool, backend: Backend)
    requires DistinctTopics(items)
    requires forall i | 0 <= i < |items| :: NotSubscribed(core, c, items[i].0)
    ensures var p := SubscribeAll(core, c, items, paused, backend);
            && p.core.sessions.Keys == core.sessions.Keys
            && (forall d | d in core.sessions && d != c :: p.core.sessions[d] == core.sessions[d])
            && p.schemas <= Topics(items)
            && (c in core.sessions ==>
                  && p.core.sessions[c].paused == core.sessions[c].paused
                  && p.core.sessions[c].subscribed.Keys == core.sessions[c].subscribed.Keys + p.schemas)
  {
    if items != [] {
      var front := items[..|items| - 1];
      SubscribeAllSession(core, c, front, paused, backend);
      var p := SubscribeAll(core, c, front, paused, backend);
      var t := items[|items| - 1].0;
      SubscribeOneSession(p, c, t, items[|items| - 1].1, paused, backend);
      assert Topics(items) == Topics(front) + {t};
      assert t !in p.schemas;
    }
  }

  /** What one step records and reports, for a session that is there. */
  lemma SubscribeOneReports(p: Progress, c: Client, t: Topic, rate: real, paused: bool, backend: Backend)
    requires c in p.core.sessions && t !in p.core.sessions[c].refHeld
    ensures var p' := SubscribeOne(p, c, t, rate, paused, backend);
            var s, s' := p.core.sessions[c], p'.core.sessions[c];
            if paused || R.Subscribable(p.core.refs, t, Creation(backend, t)) then
              && p'.schemas == p.schemas + {t} && p'.failed == p.failed
              && s'.subscribed == s.subscribed[t := rate]
              && s'.refHeld == s.refHeld + if paused then {} else {t}
            else
              p'.schemas == p.schemas && p'.failed == p.failed + {t} && s' == s
  {
  }

  /** While the session lives, the response's schemas and failures partition
      the validated topics; the topics with a schema are recorded with their
      rates and, unless the client is paused, held. */
  lemma {:induction false} SubscribeAllReports(
    core: Core, c: Client, items: seq<(Topic, real)>, paused: bool, backend: Backend)
    requires c in core.sessions && DistinctTopics(items)
    requires forall i | 0 <= i < |items| :: items[i].0 !in core.sessions[c].refHeld
    ensures var p := SubscribeAll(core, c, items, paused, backend);
            && c in p.core.sessions
            && p.schemas !! p.failed && p.schemas + p.failed == Topics(items)
            && p.core.sessions[c].refHeld == core.sessions[c].refHeld + (if paused then {} else p.schemas)
            && p.core.sessions[c].subscribed == core.sessions[c].subscribed + Recorded(items, p.schemas)
  {
    if items == [] {
      assert core.sessions[c].refHeld + {} == core.sessions[c].refHeld;
      assert core.sessions[c].subscribed + Recorded([], {}) == core.sessions[c].subscribed;
    } else {
      var front, last := items[..|items| - 1], items[|items| - 1];
      SubscribeAllReports(core, c, front, paused, backend);
      var p := SubscribeAll(core, c, front, paused, backend);
      assert Topics(items) == Topics(front) + {last.0} && last.0 !in Topics(front);
      SubscribeOneReports(p, c, last.0, last.1, paused, backend);
      RecordedAppend(front, last, p.schemas);
      RecordedMore(core.sessions[c].subscribed, Recorded(front, p.schemas), last.0, last.1);
    }
  }

  /** The rates of the items among `ts`. */
  function Recorded(items: seq<(Topic, real)>, ts: set<Topic>): map<Topic, real> {
    if items == [] then map[]
    else
      var last := items[|items| - 1];
      var before := Recorded(items[..|items| - 1], ts);
      if last.0 in ts then before[last.0 := last.1] else before
  }

  lemma {:induction false} RecordedIgnores(items: seq<(Topic, real)>, ts: set<Topic>, t: Topic)
    requires t !in Topics(items)
    ensures Recorded(items, ts + {t}) == Recorded(items, ts)
  {
    if items != [] {
      var front, last := items[..|items| - 1], items[|items| - 1];
      assert Topics(items) == Topics(front) + {last.0};
      RecordedIgnores(front, ts, t);
    }
  }

  lemma RecordedAppend(front: seq<(Topic, real)>, last: (Topic, real), ts: set<Topic>)
    requires last.0 !in Topics(front) && last.0 !in ts
    ensures Recorded(front + [last], ts + {last.0}) == Recorded(front, ts)[last.0 := last.1]
    ensures Recorded(front + [last], ts) == Recorded(front, ts)
  {
    assert (front + [last])[..|front|] == front;
    RecordedIgnores(front, ts, last.0);
  }

  lemma RecordedMore(subscribed: map<Topic, real>, recorded: map<Topic, real>, t: Topic, rate: real)
    ensures (subscribed + recorded)[t := rate] == subscribed + recorded[t := rate]
  {
  }

  lemma {:induction false} SubscribeAllKeepsInv(
    core: Core, c: Client, items: seq<(Topic, real)>, paused: bool, backend: Backend)
    requires CoreInv(core) && DistinctTopics(items)
    requires forall i | 0 <= i < |items| :: NotSubscribed(core, c, items[i].0)
    requires c in core.sessions ==> core.sessions[c].paused == paused
    ensures CoreInv(SubscribeAll(core, c, items, paused, backend).core)
  {
    if items != [] {
      var front := items[..|items| - 1];
      var last := items[|items| - 1];
      SubscribeAllKeepsInv(core, c, front, paused, backend);
      SubscribeAllSession(core, c, front, paused, backend);
      SubscribeOneKeepsInv(SubscribeAll(core, c, front, paused, backend), c, last.0, last.1, paused, backend);
    }
  }

  lemma UpdateRatesKeepsInv(core: Core, c: Client, rates: map<Topic, real>)
    requires CoreInv(core)
    ensures CoreInv(UpdateRates(core, c, rates))
  {
    var core' := UpdateRates(core, c, rates);
    forall t: Topic
      ensures Holders(core'.sessions, t) == Holders(core.sessions, t)
    {
    }
  }

  /** A subscribe section keeps the invariant if no topic it adds is already
      subscribed, which the handler ensured before it took the lock. */
  lemma SubscribeKeepsInv(
    core: Core, c: Client, items: seq<(Topic, real)>, rates: map<Topic, real>, backend: Backend)
    requires CoreInv(core) && DistinctTopics(items)
    requires forall i | 0 <= i < |items| :: NotSubscribed(core, c, items[i].0)
    ensures CoreInv(SubscribeSection(core, c, items, rates, backend).core)
  {
    var paused := S.IsPaused(core.sessions, c);
    SubscribeAllKeepsInv(core, c, items, paused, backend);
    UpdateRatesKeepsInv(SubscribeAll(core, c, items, paused, backend).core, c, rates);
  }

  lemma ResumeOneKeepsInv(core: Core, c: Client, t: Topic, available: set<Topic>, backend: Backend)
    requires CoreInv(core) && c in core.sessions && !core.sessions[c].paused
    requires t in core.sessions[c].subscribed && t !in core.sessions[c].refHeld
    ensures CoreInv(ResumeOne(core, c, t, available, backend))
  {
    var creation := Creation(backend, t);
    if t in available && R.Subscribable(core.refs, t, creation) {
      HoldersAfterHold(core.sessions, c, t);
      AcquireKeepsInv(core, c, t, creation, S.Apply(core.sessions, S.SetRefHeld(c, t, true)));
    }
  }

  /** Resuming changes only which references the client's own session holds. */
  lemma {:induction false} ResumeAllSession(
    core: Core, c: Client, order: seq<Topic>, available: set<Topic>, backend: Backend)
    requires c in core.sessions
    ensures var core' := ResumeAll(core, c, order, available, backend);
            && core'.sessions.Keys == core.sessions.Keys
            && (forall d | d in core.sessions && d != c :: core'.sessions[d] == core.sessions[d])
            && core'.sessions[c] == core.sessions[c].(refHeld := core'.sessions[c].refHeld)
            && (forall t | t in core'.sessions[c].refHeld :: t in core.sessions[c].refHeld || t in order)
  {
    if order != [] {
      ResumeAllSession(core, c, order[..|order| - 1], available, backend);
    }
  }

  lemma {:induction false} ResumeAllKeepsInv(
    core: Core, c: Client, order: seq<Topic>, available: set<Topic>, backend: Backend)
    requires CoreInv(core) && c in core.sessions && !core.sessions[c].paused
    requires NoDuplicates(order)
    requires forall t | t in order :: t in core.sessions[c].subscribed && t !in core.sessions[c].refHeld
    ensures CoreInv(ResumeAll(core, c, order, available, backend))
  {
    if order != [] {
      var front := order[..|order| - 1];
      ResumeAllKeepsInv(core, c, front, available, backend);
      ResumeAllSession(core, c, front, available, backend);
      ResumeOneKeepsInv(ResumeAll(core, c, front, available, backend), c, order[|order| - 1], available, backend);
    }
  }

  lemma ResumeKeepsInv(core: Core, c: Client, order: seq<Topic>, available: set<Topic>, backend: Backend)
    requires CoreInv(core) && ResumeOrder(core, c, order)
    ensures CoreInv(ResumeSection(core, c, order, available, backend))
  {
    if S.IsPaused(core.sessions, c) {
      var sessions' := S.Apply(core.sessions, S.SetPaused(c, false));
      forall t: Topic
        ensures Holders(sessions', t) == Holders(core.sessions, t)
      {
      }
      ResumeAllKeepsInv(core.(sessions := sessions'), c, order, available, backend);
    }
  }

  // ------------------------------------------------------- pause and resume

  /** Which of the tried topics a resuming session holds in the end. */
  lemma {:induction false} ResumeAllHolds(
    core: Core, c: Client, order: seq<Topic>, available: set<Topic>, backend: Backend)
    requires c in core.sessions && NoDuplicates(order)
    requires forall t | t in order :: t !in core.sessions[c].refHeld
    ensures var core' := ResumeAll(core, c, order, available, backend);
            && c in core'.sessions
            && (forall t | t in order ::
                  t in core'.sessions[c].refHeld <==> t in available && (t in core.refs || t in backend))
            && (forall t: Topic | t !in order :: t in core'.refs <==> t in core.refs)
            && (forall t: Topic | t !in order :: t in core'.sessions[c].refHeld <==> t in core.sessions[c].refHeld)
  {
    if order != [] {
      var front, last := order[..|order| - 1], order[|order| - 1];
      ResumeAllHolds(core, c, front, available, backend);
      assert last !in front && order == front + [last];
      ResumeOneHolds(ResumeAll(core, c, front, available, backend), c, last, available, backend);
    }
  }

  lemma ResumeOneHolds(core: Core, c: Client, t: Topic, available: set<Topic>, backend: Backend)
    requires c in core.sessions && t !in core.sessions[c].refHeld
    ensures var core' := ResumeOne(core, c, t, available, backend);
            var acquired := t in available && (t in core.refs || t in backend);
            && c in core'.sessions
            && core'.sessions[c].refHeld == core.sessions[c].refHeld + (if acquired then {t} else {})
            && core'.refs.Keys == core.refs.Keys + (if acquired then {t} else {})
  {
  }

  /** A pause followed by a resume preserves the subscriptions and their rates.
      The client holds again exactly the topics that are available and that
      another session kept alive or the backend can create anew. */
  lemma PauseThenResume(core: Core, c: Client, order: seq<Topic>, available: set<Topic>, backend: Backend)
    requires CoreInv(core) && c in core.sessions && !core.sessions[c].paused
    requires ResumeOrder(PauseSection(core, c), c, order)
    ensures var s := core.sessions[c];
            var core' := ResumeSection(PauseSection(core, c), c, order, available, backend);
            && c in core'.sessions
            && core'.sessions[c] == s.(refHeld := core'.sessions[c].refHeld)
            && (forall d | d in core.sessions && d != c :: d in core'.sessions && core'.sessions[d] == core.sessions[d])
            && (forall t: Topic :: t in core'.sessions[c].refHeld <==>
                  && t in s.subscribed && t in available
                  && (t in backend || exists d | d in core.sessions :: d != c && t in core.sessions[d].refHeld))
  {
    var paused := PauseSection(core, c);
    PauseKeepsInv(core, c);
    var awake := paused.(sessions := S.Apply(paused.sessions, S.SetPaused(c, false)));
    ResumeAllHolds(awake, c, order, available, backend);
    ResumeAllSession(awake, c, order, available, backend);
    forall t: Topic
      ensures t in paused.refs <==> exists d | d in core.sessions :: d != c && t in core.sessions[d].refHeld
    {
      KeptAliveByOthers(core, c, t);
    }
  }

  lemma KeptAliveByOthers(core: Core, c: Client, t: Topic)
    requires CoreInv(core) && CoreInv(PauseSection(core, c)) && c in core.sessions && !core.sessions[c].paused
    ensures t in PauseSection(core, c).refs <==>
            exists d | d in core.sessions :: d != c && t in core.sessions[d].refHeld
  {
    var paused := PauseSection(core, c);
    var holders := Holders(paused.sessions, t);
    assert Count(paused.refs, t) == |holders|;
    assert t in paused.refs <==> holders != {};
    forall d: Client
      ensures d in holders <==> d in core.sessions && d != c && t in core.sessions[d].refHeld
    {
    }
    if holders != {} {
      var d :| d in holders;
      assert d in core.sessions && d != c && t in core.sessions[d].refHeld;
    }
  }

  // ------------------------------------------------------- queued replays

  function ReplayTopics(core: Core, c: Client): set<Topic> {
    if c in core.replays then (set f | f in core.replays[c] :: f.topic) else {}
  }

  /** `core'` queued frames for client `c` only, for topics of `ts` only. */
  ghost predicate ReplaysGrew(core: Core, core': Core, c: Client, ts: set<Topic>) {
    && core'.replays - {c} == core.replays - {c}
    && ReplayTopics(core', c) <= ReplayTopics(core, c) + ts
  }

  lemma CollectReplays(core: Core, c: Client, t: Topic)
    ensures ReplaysGrew(core, Collect(core, c, t), c, {t})
  {
    var core' := Collect(core, c, t);
    if core'.replays != core.replays {
      forall f | f in core'.replays[c]
        ensures f.topic in ReplayTopics(core, c) + {t}
      {
      }
    }
  }

  /** For a client joining a latched topic the retained sample is queued as a
      replay frame, behind those it already has, exactly if it is not still in
      the normal buffer, where the next publish cycle finds it. */
  lemma CollectDeliversOnce(core: Core, c: Client, t: Topic)
    requires B.Inv(core.buffer) && t in core.refs && core.refs[t].transientLocal
    ensures var core' := Collect(core, c, t);
            var queued := if c in core.replays then core.replays[c] else [];
            t in core'.buffer.retained ==>
              var sample := core'.buffer.retained[t];
              if sample in B.Buffered(core.buffer, t) then core'.replays == core.replays
              else core'.replays == core.replays[c := queued + [ReplayFrame(t, sample)]]
  {
    var buffer := B.SetLatched(core.buffer, t, true);
    B.ApplyKeepsInv(core.buffer, B.OpSetLatched(t, true), 0);
    if t in buffer.retained {
      B.RetainedDeliveredOnce(buffer, t);
    }
  }

  lemma SubscribeOneReplays(p: Progress, c: Client, t: Topic, rate: real, paused: bool, backend: Backend)
    ensures var p' := SubscribeOne(p, c, t, rate, paused, backend);
            ReplaysGrew(p.core, p'.core, c, p'.schemas) && p.schemas <= p'.schemas
  {
    var p' := SubscribeOne(p, c, t, rate, paused, backend);
    if p'.core.replays != p.core.replays {
      var acquired := p.core.(refs := R.Subscribe(p.core.refs, t, Creation(backend, t)));
      var sessions := S.Apply(S.Apply(acquired.sessions, S.AddSubscription(c, t, rate)), S.SetRefHeld(c, t, !paused));
      CollectReplays(acquired.(sessions := sessions), c, t);
    }
  }

  lemma {:induction false} SubscribeAllReplays(
    core: Core, c: Client, items: seq<(Topic, real)>, paused: bool, backend: Backend)
    ensures var p := SubscribeAll(core, c, items, paused, backend);
            ReplaysGrew(core, p.core, c, p.schemas)
  {
    if items != [] {
      var front := items[..|items| - 1];
      var last := items[|items| - 1];
      SubscribeAllReplays(core, c, front, paused, backend);
      SubscribeOneReplays(SubscribeAll(core, c, front, paused, backend), c, last.0, last.1, paused, backend);
    }
  }

  /** A resume section leaves subscriptions alone and queues replay frames only
      for its own client and only for topics it is subscribed to. */
  lemma ResumeSectionEffects(core: Core, c: Client, order: seq<Topic>, available: set<Topic>, backend: Backend)
    requires ResumeOrder(core, c, order)
    ensures var core' := ResumeSection(core, c, order, available, backend);
            && core'.sessions.Keys == core.sessions.Keys
            && (forall d | d in core.sessions && d != c :: core'.sessions[d] == core.sessions[d])
            && (c in core.sessions ==> core'.sessions[c].subscribed == core.sessions[c].subscribed)
            && ReplaysGrew(core, core', c, S.Subscriptions(core.sessions, c).Keys)
  {
    if S.IsPaused(core.sessions, c) {
      var awake := core.(sessions := S.Apply(core.sessions, S.SetPaused(c, false)));
      ResumeAllSession(awake, c, order, available, backend);
      ResumeAllReplays(awake, c, order, available, backend, core.sessions[c].subscribed.Keys);
    }
  }

  /** A subscribe section subscribes its client to exactly the topics whose schema
      the response carries, and queues replay frames only for these. */
  lemma SubscribeSectionEffects(
    core: Core, c: Client, items: seq<(Topic, real)>, rates: map<Topic, real>, backend: Backend)
    requires DistinctTopics(items) && forall i | 0 <= i < |items| :: NotSubscribed(core, c, items[i].0)
    requires c in core.sessions ==> rates.Keys <= core.sessions[c].subscribed.Keys
    ensures var p := SubscribeSection(core, c, items, rates, backend);
            && p.core.sessions.Keys == core.sessions.Keys
            && (forall d | d in core.sessions && d != c :: p.core.sessions[d] == core.sessions[d])
            && (c in core.sessions ==>
                  p.core.sessions[c].subscribed.Keys == core.sessions[c].subscribed.Keys + p.schemas)
            && ReplaysGrew(core, p.core, c, p.schemas)
  {
    var paused := S.IsPaused(core.sessions, c);
    SubscribeAllSession(core, c, items, paused, backend);
    SubscribeAllReplays(core, c, items, paused, backend);
  }

  lemma {:induction false} ResumeAllReplays(
    core: Core, c: Client, order: seq<Topic>, available: set<Topic>, backend: Backend, ts: set<Topic>)
    requires forall t | t in order :: t in ts
    ensures ReplaysGrew(core, ResumeAll(core, c, order, available, backend), c, ts)
  {
    if order != [] {
      var front := order[..|order| - 1];
      var t := order[|order| - 1];
      ResumeAllReplays(core, c, front, available, backend, ts);
      var mid := ResumeAll(core, c, front, available, backend);
      var creation := Creation(backend, t);
      CollectReplays(mid.(refs := R.Subscribe(mid.refs, t, creation),
                          sessions := S.Apply(mid.sessions, S.SetRefHeld(c, t, true))), c, t);
    }
  }
}
