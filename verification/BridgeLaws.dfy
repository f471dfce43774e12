/**
 What each section under the cleanup lock does to sessions, references and
 pending replays, told without the functions that compute it.
 */
module BridgeLaws {
  import opened Common
  import opened BridgeCore
  import B = MessageBuffering
  import S = SessionManagement
  import R = SubscriptionManagement

  // ------------------------------------------------------- acquiring references

  /** The backend can give a reference: it has the subscription or can create it. */
  predicate Obtainable(refs: R.Subscriptions, backend: Backend, t: Topic) {
    t in refs || t in backend
  }

  /** `refs'` is `refs` with one more reference for each topic of `ts`; a fresh
      subscription is transient-local if the backend made it so. */
  ghost predicate Acquired(refs: R.Subscriptions, refs': R.Subscriptions, ts: set<Topic>, backend: Backend) {
    && (forall t: Topic :: Count(refs', t) == Count(refs, t) + if t in ts then 1 else 0)
    && (forall t: Topic :: t in refs' <==> t in refs || t in ts)
    && (forall t | t in refs :: refs'[t].transientLocal == refs[t].transientLocal)
    && (forall t | t in ts && t !in refs :: t in backend && refs'[t].transientLocal == backend[t])
  }

  /** `refs'` is `refs` with one reference less for each topic of `ts`; entries
      go with their last reference. */
  ghost predicate GivenBack(refs: R.Subscriptions, refs': R.Subscriptions, ts: set<Topic>) {
    && (forall t: Topic :: Count(refs', t) == Count(refs, t) - if t in ts && t in refs then 1 else 0)
    && (forall t | t in refs' :: t in refs && refs'[t].count > 0 && refs'[t].transientLocal == refs[t].transientLocal)
    && (forall t | t in refs && Count(refs', t) > 0 :: t in refs')
  }

  predicate Counted(refs: R.Subscriptions) {
    forall t | t in refs :: refs[t].count > 0
  }

  lemma ReleaseAllGivesBack(core: Core, ts: set<Topic>)
    requires Counted(core.refs)
    ensures GivenBack(core.refs, ReleaseAll(core, ts).refs, ts)
    ensures ReleaseAll(core, ts).sessions == core.sessions && ReleaseAll(core, ts).replays == core.replays
    ensures ReleaseAll(core, ts).buffer.buffers == core.buffer.buffers
  {
  }

  /** Only client `c`'s session may differ. */
  predicate OthersKept(m: S.Sessions, m': S.Sessions, c: Client) {
    && (forall d | d != c && d in m :: d in m' && m'[d] == m[d])
    && (forall d | d != c && d in m' :: d in m)
  }

  // ------------------------------------------------------ clean-up, pause, leave

  /** Cleaning up takes the session, its references and its pending replays. */
  lemma CleanupExactly(core: Core, c: Client)
    requires Counted(core.refs)
    ensures var core' := CleanupSection(core, c);
            && c !in core'.sessions && OthersKept(core.sessions, core'.sessions, c)
            && core'.replays == core.replays - {c}
            && core'.buffer.buffers == core.buffer.buffers
            && GivenBack(core.refs, core'.refs, S.RefHeldTopics(core.sessions, c))
  {
    if c in core.sessions {
      ReleaseAllGivesBack(core.(replays := core.replays - {c}), core.sessions[c].refHeld);
    }
  }

  /** Pausing keeps subscriptions and rates, and gives back what is held. */
  lemma PauseExactly(core: Core, c: Client)
    requires Counted(core.refs) && c in core.sessions
    ensures var core', s := PauseSection(core, c), core.sessions[c];
            && c in core'.sessions && OthersKept(core.sessions, core'.sessions, c)
            && core'.replays == core.replays
            && if s.paused then core' == core
               else
                 core'.sessions[c] == s.(paused := true, refHeld := {}) && GivenBack(core.refs, core'.refs, s.refHeld)
  {
    if !core.sessions[c].paused {
      ReleaseAllGivesBack(core, core.sessions[c].refHeld);
    }
  }

  /** Unsubscribing takes exactly the named topics and the references held for
      them; other rates stay. */
  lemma UnsubscribeExactly(core: Core, c: Client, names: set<Topic>)
    requires Counted(core.refs) && c in core.sessions && S.HeldWithinSubscribed(core.sessions)
    ensures var core', s := UnsubscribeSection(core, c, names), core.sessions[c];
            && c in core'.sessions && OthersKept(core.sessions, core'.sessions, c)
            && core'.replays == core.replays
            && core'.sessions[c] == s.(subscribed := core'.sessions[c].subscribed, refHeld := s.refHeld - names)
            && core'.sessions[c].subscribed.Keys == s.subscribed.Keys - names
            && (forall t | t in core'.sessions[c].subscribed :: core'.sessions[c].subscribed[t] == s.subscribed[t])
            && GivenBack(core.refs, core'.refs, s.refHeld * names)
  {
    var s := core.sessions[c];
    var removed := names * s.subscribed.Keys;
    ReleaseAllGivesBack(core, removed * s.refHeld);
    assert removed * s.refHeld == s.refHeld * names;
    assert s.refHeld - removed == s.refHeld - names;
  }

  // ------------------------------------------------------------ pending replays

  function QueuedFor(core: Core, c: Client): seq<ReplayFrame> {
    if c in core.replays then core.replays[c] else []
  }

  /** The retained sample of a topic that no publish cycle will deliver. */
  predicate Stored(b: B.State, t: Topic) {
    t in b.retained && B.Buffered(b, t) == []
  }

  /** `q` has exactly one frame for each topic of `ts` whose sample is stored, and
      it carries that sample. */
  ghost predicate ReplaysFor(q: seq<ReplayFrame>, b: B.State, ts: set<Topic>) {
    && (forall i, j | 0 <= i < j < |q| :: q[i].topic != q[j].topic)
    && (forall f | f in q :: f.topic in ts && Stored(b, f.topic) && f.sample == b.retained[f.topic])
    && (forall t | t in ts && Stored(b, t) :: ReplayFrame(t, b.retained[t]) in q)
  }

  /** The buffers agree but for the retained samples of `ts`. */
  ghost predicate SameBut(b: B.State, b': B.State, ts: set<Topic>) {
    && b'.buffers == b.buffers
    && forall t: Topic | t !in ts ::
         (t in b'.retained <==> t in b.retained) && (t in b.retained ==> b'.retained[t] == b.retained[t])
  }

  function ReplayOf(b: B.State, t: Topic): seq<ReplayFrame> {
    if Stored(b, t) then [ReplayFrame(t, b.retained[t])] else []
  }

  lemma CollectExactly(core: Core, c: Client, t: Topic)
    requires t in core.buffer.retained ==> t in core.refs && core.refs[t].transientLocal
    ensures var core' := Collect(core, c, t);
            && core'.refs == core.refs && core'.sessions == core.sessions
            && SameBut(core.buffer, core'.buffer, {t})
            && (t in core'.buffer.latched <==> t in core.refs && core.refs[t].transientLocal)
            && (forall u: Topic | u != t :: u in core'.buffer.latched <==> u in core.buffer.latched)
            && QueuedFor(core', c) == QueuedFor(core, c) + ReplayOf(core.buffer, t)
            && core'.replays - {c} == core.replays - {c}
  {
    assert QueuedFor(core, c) + [] == QueuedFor(core, c);
  }

  lemma ReplaysMore(q: seq<ReplayFrame>, b: B.State, b': B.State, ts: set<Topic>, t: Topic)
    requires ReplaysFor(q, b, ts) && SameBut(b, b', ts) && t !in ts
    ensures ReplaysFor(q + ReplayOf(b', t), b, ts + {t})
  {
    var q' := q + ReplayOf(b', t);
    assert Stored(b', t) <==> Stored(b, t);
    assert forall i | 0 <= i < |q| :: q[i] in q && q[i].topic != t;
    forall u | u in ts + {t} && Stored(b, u)
      ensures ReplayFrame(u, b.retained[u]) in q'
    {
      if u == t {
        assert q'[|q|] == ReplayFrame(t, b.retained[t]);
      }
    }
  }

  lemma AcquireMore(refs: R.Subscriptions, mid: R.Subscriptions, ts: set<Topic>, t: Topic, backend: Backend)
    requires Acquired(refs, mid, ts, backend) && t !in ts && R.Subscribable(mid, t, Creation(backend, t))
    ensures Acquired(refs, R.Subscribe(mid, t, Creation(backend, t)), ts + {t}, backend)
  {
  }

  /** One more reference for each topic gained, and client `c` gets their stored
      samples. */
  ghost predicate Obtained(core: Core, core': Core, c: Client, gained: set<Topic>, backend: Backend) {
    && Acquired(core.refs, core'.refs, gained, backend)
    && ReplaysFor(QueuedFor(core', c), core.buffer, gained)
    && SameBut(core.buffer, core'.buffer, gained)
    && core'.replays - {c} == core.replays - {c}
  }

  lemma ObtainMore(
    core: Core, mid: Core, c: Client, t: Topic, backend: Backend, gained: set<Topic>, sessions': S.Sessions)
    requires Obtained(core, mid, c, gained, backend) && t !in gained
    requires t in core.buffer.retained ==> t in core.refs && core.refs[t].transientLocal
    requires R.Subscribable(mid.refs, t, Creation(backend, t))
    ensures var joined := mid.(refs := R.Subscribe(mid.refs, t, Creation(backend, t)), sessions := sessions');
            Obtained(core, Collect(joined, c, t), c, gained + {t}, backend)
  {
    var joined := mid.(refs := R.Subscribe(mid.refs, t, Creation(backend, t)), sessions := sessions');
    AcquireMore(core.refs, mid.refs, gained, t, backend);
    CollectExactly(joined, c, t);
    ReplaysMore(QueuedFor(mid, c), core.buffer, mid.buffer, gained, t);
  }

  // ------------------------------------------------------------------ subscribe

  /** Where a subscribe section stands, for a live unpaused session that had no
      replay pending. */
  ghost predicate Subscribing(core: Core, p: Progress, c: Client, done: set<Topic>, backend: Backend) {
    && p.schemas !! p.failed && p.schemas + p.failed == done
    && (forall t | t in done :: t in p.schemas <==> Obtainable(core.refs, backend, t))
    && Obtained(core, p.core, c, p.schemas, backend)
  }

  lemma SubscribeOneObtains(
    core: Core, p: Progress, c: Client, t: Topic, rate: real, backend: Backend, done: set<Topic>)
    requires Subscribing(core, p, c, done, backend) && t !in done && c in p.core.sessions
    requires t in core.buffer.retained ==> t in core.refs && core.refs[t].transientLocal
    ensures Subscribing(core, SubscribeOne(p, c, t, rate, false, backend), c, done + {t}, backend)
    ensures SubscribeOne(p, c, t, rate, false, backend).core.sessions.Keys == p.core.sessions.Keys
  {
    if R.Subscribable(p.core.refs, t, Creation(backend, t)) {
      var sessions' := S.Apply(S.Apply(p.core.sessions, S.AddSubscription(c, t, rate)), S.SetRefHeld(c, t, true));
      ObtainMore(core, p.core, c, t, backend, p.schemas, sessions');
    }
  }

  lemma {:induction false} SubscribeAllObtains(core: Core, c: Client, items: seq<(Topic, real)>, backend: Backend)
    requires c in core.sessions && c !in core.replays && DistinctTopics(items) && LatchMatches(core)
    ensures var p := SubscribeAll(core, c, items, false, backend);
            Subscribing(core, p, c, Topics(items), backend) && p.core.sessions.Keys == core.sessions.Keys
  {
    if items != [] {
      var front, last := items[..|items| - 1], items[|items| - 1];
      SubscribeAllObtains(core, c, front, backend);
      assert Topics(items) == Topics(front) + {last.0} && last.0 !in Topics(front);
      var p := SubscribeAll(core, c, front, false, backend);
      SubscribeOneObtains(core, p, c, last.0, last.1, backend, Topics(front));
    }
  }

  /** A paused session is only written down: nothing is acquired or replayed. */
  lemma {:induction false} SubscribeAllPaused(core: Core, c: Client, items: seq<(Topic, real)>, backend: Backend)
    requires c in core.sessions
    ensures var p := SubscribeAll(core, c, items, true, backend);
            && p.schemas == Topics(items) && p.failed == {}
            && p.core.refs == core.refs && p.core.replays == core.replays && p.core.buffer == core.buffer
            && p.core.sessions.Keys == core.sessions.Keys
  {
    if items != [] {
      var front := items[..|items| - 1];
      SubscribeAllPaused(core, c, front, backend);
      assert Topics(items) == Topics(front) + {items[|items| - 1].0};
    }
  }

  /** The rate a topic has after a request: the one the request names, else the old
      one, else none. */
  function RateAfter(requested: map<Topic, Option<real>>, before: map<Topic, real>, t: Topic): real {
    if t in requested && requested[t].Some? then requested[t].value
    else if t in before then before[t]
    else 0.0
  }

  /** A subscribe request for a live session, its validated topics in any order.
      Unpaused, it succeeds for exactly the topics that have or get a backend
      subscription, reports the others, holds a reference for each success, and
      queues the stored samples.  Paused, it succeeds for all and touches neither
      references nor replays.  Either way the session ends up with its old topics
      and the successful ones, explicit rates replacing old ones and bare names
      keeping them. */
  lemma SubscribeExactly(core: Core, c: Client, items: seq<(Topic, real)>, requested: map<Topic, Option<real>>,
                         backend: Backend)
    requires CoreInv(core) && c in core.sessions && c !in core.replays
    requires ValidItems(items, requested, core.sessions[c].subscribed)
    ensures var s := core.sessions[c];
            var p := SubscribeSection(core, c, items, NewRates(requested, s.subscribed), backend);
            && c in p.core.sessions && OthersKept(core.sessions, p.core.sessions, c)
            && SubscribedAfter(s, p.core.sessions[c], p.schemas, requested)
            && if s.paused then
                 && p.schemas == Topics(items) && p.failed == {}
                 && p.core.refs == core.refs && p.core.sessions[c].refHeld == s.refHeld
                 && p.core.replays == core.replays && p.core.buffer == core.buffer
               else
                 && Subscribing(core, p, c, Topics(items), backend)
                 && p.core.sessions[c].refHeld == s.refHeld + p.schemas
  {
    var s := core.sessions[c];
    var rates := NewRates(requested, s.subscribed);
    SubscribeSessionExactly(core, c, items, requested, backend);
    if s.paused {
      SubscribeAllPaused(core, c, items, backend);
      assert s.refHeld + {} == s.refHeld;
    } else {
      SubscribeAllObtains(core, c, items, backend);
      NewRatesKeepSubscribing(core, SubscribeAll(core, c, items, false, backend), c, Topics(items), backend, rates);
    }
  }

  lemma SubscribeSessionExactly(core: Core, c: Client, items: seq<(Topic, real)>,
                                requested: map<Topic, Option<real>>, backend: Backend)
    requires CoreInv(core) && c in core.sessions && ValidItems(items, requested, core.sessions[c].subscribed)
    ensures var s := core.sessions[c];
            var p := SubscribeSection(core, c, items, NewRates(requested, s.subscribed), backend);
            && c in p.core.sessions && OthersKept(core.sessions, p.core.sessions, c)
            && SubscribedAfter(s, p.core.sessions[c], p.schemas, requested)
            && p.core.sessions[c].refHeld == s.refHeld + if s.paused then {} else p.schemas
  {
    var s := core.sessions[c];
    forall i | 0 <= i < |items|
      ensures items[i].0 !in s.refHeld
    {
    }
    SubscribeAllReports(core, c, items, s.paused, backend);
    SubscribeAllKeepsRest(core, c, items, s.paused, backend);
    RatesAfter(s, items, SubscribeAll(core, c, items, s.paused, backend).schemas, requested);
  }

  lemma {:induction false} SubscribeAllKeepsRest(
    core: Core, c: Client, items: seq<(Topic, real)>, paused: bool, backend: Backend)
    requires c in core.sessions
    ensures var p, s := SubscribeAll(core, c, items, paused, backend), core.sessions[c];
            && c in p.core.sessions && OthersKept(core.sessions, p.core.sessions, c)
            && p.core.sessions[c] ==
               s.(subscribed := p.core.sessions[c].subscribed, refHeld := p.core.sessions[c].refHeld)
  {
    if items != [] {
      SubscribeAllKeepsRest(core, c, items[..|items| - 1], paused, backend);
    }
  }

  lemma NewRatesKeepSubscribing(
    core: Core, p: Progress, c: Client, done: set<Topic>, backend: Backend, rates: map<Topic, real>)
    requires Subscribing(core, p, c, done, backend)
    ensures Subscribing(core, p.(core := UpdateRates(p.core, c, rates)), c, done, backend)
  {
    SameReplays(p.core, UpdateRates(p.core, c, rates), c);
  }

  /** The session's topics, rates and pause after a subscribe request. */
  ghost predicate SubscribedAfter(s: S.Session, s': S.Session, added: set<Topic>, requested: map<Topic, Option<real>>) {
    && s' == s.(subscribed := s'.subscribed, refHeld := s'.refHeld)
    && s'.subscribed.Keys == s.subscribed.Keys + added
    && forall t | t in s'.subscribed :: s'.subscribed[t] == RateAfter(requested, s.subscribed, t)
  }

  lemma SameReplays(core: Core, core': Core, c: Client)
    requires core' == core.(sessions := core'.sessions)
    ensures QueuedFor(core', c) == QueuedFor(core, c)
  {
  }

  lemma {:induction false} RecordedRates(items: seq<(Topic, real)>, ts: set<Topic>)
    requires DistinctTopics(items) && ts <= Topics(items)
    ensures Recorded(items, ts).Keys == ts
    ensures forall i | 0 <= i < |items| && items[i].0 in ts :: Recorded(items, ts)[items[i].0] == items[i].1
  {
    if items != [] {
      var front, last := items[..|items| - 1], items[|items| - 1];
      assert Topics(items) == Topics(front) + {last.0} && last.0 !in Topics(front);
      RecordedRates(front, ts - {last.0});
      RecordedIgnores(front, ts - {last.0}, last.0);
      if last.0 in ts {
        assert ts - {last.0} + {last.0} == ts;
      } else {
        assert ts - {last.0} == ts;
      }
    }
  }

  lemma RatesAfter(s: S.Session, items: seq<(Topic, real)>, added: set<Topic>, requested: map<Topic, Option<real>>)
    requires ValidItems(items, requested, s.subscribed) && added <= Topics(items)
    ensures var subscribed := s.subscribed + Recorded(items, added) + NewRates(requested, s.subscribed);
            && subscribed.Keys == s.subscribed.Keys + added
            && forall t | t in subscribed :: subscribed[t] == RateAfter(requested, s.subscribed, t)
  {
    RecordedRates(items, added);
    var subscribed := s.subscribed + Recorded(items, added) + NewRates(requested, s.subscribed);
    forall t | t in subscribed
      ensures subscribed[t] == RateAfter(requested, s.subscribed, t)
    {
      if t in added {
        var i :| 0 <= i < |items| && items[i].0 == t;
      }
    }
  }

  /** A request whose session has vanished leaves everything as it was. */
  lemma {:induction false} SubscribeWithoutSession(
    core: Core, c: Client, items: seq<(Topic, real)>, rates: map<Topic, real>, backend: Backend)
    requires CoreInv(core) && c !in core.sessions
    ensures var p := SubscribeSection(core, c, items, rates, backend); p.core == core && p.schemas == {}
    decreases |items|
  {
    if items != [] {
      var last := items[|items| - 1];
      SubscribeWithoutSession(core, c, items[..|items| - 1], rates, backend);
      if R.Subscribable(core.refs, last.0, Creation(backend, last.0)) {
        RollbackRestores(core, last.0, Creation(backend, last.0));
      }
    }
  }

  // --------------------------------------------------------------------- resume

  function Gained(refs: R.Subscriptions, ts: set<Topic>, available: set<Topic>, backend: Backend): set<Topic> {
    set t | t in ts && t in available && Obtainable(refs, backend, t)
  }

  /** Where a resume stands: `done` were tried. */
  ghost predicate Resuming(
    core: Core, core': Core, c: Client, done: set<Topic>, available: set<Topic>, backend: Backend)
  {
    var gained := Gained(core.refs, done, available, backend);
    && Obtained(core, core', c, gained, backend)
    && c in core'.sessions && c in core.sessions && OthersKept(core.sessions, core'.sessions, c)
    && core'.sessions[c] == core.sessions[c].(refHeld := core.sessions[c].refHeld + gained)
  }

  lemma GainedMore(refs: R.Subscriptions, done: set<Topic>, t: Topic, available: set<Topic>, backend: Backend)
    ensures Gained(refs, done + {t}, available, backend) ==
            Gained(refs, done, available, backend) + if t in available && Obtainable(refs, backend, t) then {t} else {}
  {
  }

  lemma ResumeOneGains(
    core: Core, mid: Core, c: Client, t: Topic, available: set<Topic>, backend: Backend, done: set<Topic>)
    requires Resuming(core, mid, c, done, available, backend) && t !in done
    requires t in core.buffer.retained ==> t in core.refs && core.refs[t].transientLocal
    ensures Resuming(core, ResumeOne(mid, c, t, available, backend), c, done + {t}, available, backend)
  {
    var gained := Gained(core.refs, done, available, backend);
    GainedMore(core.refs, done, t, available, backend);
    assert gained + {} == gained;
    if t in available && R.Subscribable(mid.refs, t, Creation(backend, t)) {
      var sessions' := S.Apply(mid.sessions, S.SetRefHeld(c, t, true));
      ObtainMore(core, mid, c, t, backend, gained, sessions');
      assert core.sessions[c].refHeld + gained + {t} == core.sessions[c].refHeld + (gained + {t});
    }
  }

  lemma {:induction false} ResumeAllGains(
    core: Core, c: Client, order: seq<Topic>, available: set<Topic>, backend: Backend)
    requires c in core.sessions && c !in core.replays && NoDuplicates(order) && LatchMatches(core)
    ensures Resuming(core, ResumeAll(core, c, order, available, backend), c, Names(order), available, backend)
  {
    if order == [] {
      assert Gained(core.refs, Names([]), available, backend) == {};
      assert core.sessions[c].refHeld + {} == core.sessions[c].refHeld;
    } else {
      var front, last := order[..|order| - 1], order[|order| - 1];
      ResumeAllGains(core, c, front, available, backend);
      assert order == front + [last] && last !in front;
      assert Names(order) == Names(front) + {last};
      ResumeOneGains(core, ResumeAll(core, c, front, available, backend), c, last, available, backend, Names(front));
    }
  }

  /** Resuming a paused session, its topics in any order: it gains a reference for
      exactly the topics it lacked that are available and have or get a backend
      subscription, their stored samples are queued, and nothing else about it
      changes.  Resuming any other session changes nothing. */
  lemma ResumeExactly(core: Core, c: Client, order: seq<Topic>, available: set<Topic>, backend: Backend)
    requires CoreInv(core) && c !in core.replays && ResumeOrder(core, c, order)
    ensures var core' := ResumeSection(core, c, order, available, backend);
            if c !in core.sessions || !core.sessions[c].paused then core' == core
            else
              var s := core.sessions[c];
              var gained := Gained(core.refs, s.subscribed.Keys - s.refHeld, available, backend);
              && c in core'.sessions && OthersKept(core.sessions, core'.sessions, c)
              && core'.sessions[c] == s.(paused := false, refHeld := s.refHeld + gained)
              && Acquired(core.refs, core'.refs, gained, backend)
              && ReplaysFor(QueuedFor(core', c), core.buffer, gained)
              && core'.replays - {c} == core.replays - {c}
  {
    if c in core.sessions && core.sessions[c].paused {
      var s := core.sessions[c];
      var awake := core.(sessions := S.Apply(core.sessions, S.SetPaused(c, false)));
      ResumeAllGains(awake, c, order, available, backend);
      assert Names(order) == s.subscribed.Keys - s.refHeld;
    }
  }
}
