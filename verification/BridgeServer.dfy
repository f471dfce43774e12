/**
 The request handlers' critical sections as they run: loops that update the
 session manager, the backend and the message buffer in place, each proved
 equal to its section function of BridgeCore.
 */
module BridgeServing {
  import opened Common
  import opened BridgeCore
  import B = MessageBuffering
  import S = SessionManagement
  import R = SubscriptionManagement

  class BridgeServer {
    const sessionManager: S.SessionManager
    const subscriptionManager: R.SubscriptionManager
    const messageBuffer: B.MessageBuffer
    var pendingReplays: map<Client, seq<ReplayFrame>>
    /** Releases that found no reference; proved to stay zero. */
    ghost var misses: nat

    ghost function Value(): Core
      reads this, sessionManager, subscriptionManager, messageBuffer
    {
      Core(sessionManager.sessions, subscriptionManager.subscriptions, messageBuffer.Value(), pendingReplays, misses)
    }

    constructor (timeout: nat, maxMessageAge: U64)
      ensures Value() == Initial
      ensures fresh(sessionManager) && fresh(subscriptionManager) && fresh(messageBuffer)
    {
      sessionManager := new S.SessionManager(timeout);
      subscriptionManager := new R.SubscriptionManager();
      messageBuffer := new B.MessageBuffer(maxMessageAge);
      pendingReplays := map[];
      misses := 0;
    }

    /** Common start of every handler: make sure the session exists, then
        refresh it. */
    method TouchSession(client: Client, createdAt: nat, now: nat)
      modifies sessionManager
      ensures sessionManager.sessions ==
              S.Apply(S.Apply(old(sessionManager.sessions), S.Create(client, createdAt)), S.Heartbeat(client, now))
    {
      if client !in sessionManager.sessions {
        var _ := sessionManager.CreateSession(client, createdAt);
      }
      var _ := sessionManager.UpdateHeartbeat(client, now);
    }

    method ReleaseSubscriptionRef(topic: Topic)
      modifies this`misses, subscriptionManager, messageBuffer
      ensures Value() == Release(old(Value()), topic)
    {
      var ok := subscriptionManager.UnsubscribeTopic(topic);
      if !ok {
        misses := misses + 1;
      }
      if !subscriptionManager.IsSubscribed(topic) {
        messageBuffer.SetLatched(topic, false);
      }
    }

    method CollectLatchedReplay(client: Client, topic: Topic)
      modifies this`pendingReplays, messageBuffer
      ensures Value() == Collect(old(Value()), client, topic)
    {
      var latched := subscriptionManager.IsTransientLocal(topic);
      messageBuffer.SetLatched(topic, latched);
      if !latched {
        return;
      }
      var sample := messageBuffer.GetLatchedForReplay(topic);
      if sample.Some? {
        var queued := if client in pendingReplays then pendingReplays[client] else [];
        pendingReplays := pendingReplays[client := queued + [ReplayFrame(topic, sample.value)]];
      }
    }

    /** One validated topic of a subscribe request. */
    method SubscribeTopic(client: Client, topic: Topic, rate: real, paused: bool, backend: Backend,
                          ghost p: Progress)
      returns (recorded: bool, failed: bool)
      requires p.core == Value()
      modifies this, sessionManager, subscriptionManager, messageBuffer
      ensures var p' := SubscribeOne(p, client, topic, rate, paused, backend);
              && Value() == p'.core
              && p'.schemas == (if recorded then p.schemas + {topic} else p.schemas)
              && p'.failed == (if failed then p.failed + {topic} else p.failed)
    {
      recorded, failed := false, false;
      if !paused {
        var ok := subscriptionManager.SubscribeTopic(topic, Creation(backend, topic));
        if !ok {
          failed := true;
          return;
        }
      }
      var added := sessionManager.AddSub(client, topic, rate);
      if !added {
        if !paused {
          ReleaseSubscriptionRef(topic);
        }
        return;
      }
      var _ := sessionManager.SetHeld(client, topic, !paused);
      recorded := true;
      if !paused {
        CollectLatchedReplay(client, topic);
      }
    }

    method ApplyRates(client: Client, rates: map<Topic, real>)
      modifies sessionManager
      ensures Value() == UpdateRates(old(Value()), client, rates)
    {
      var todo := rates.Keys;
      ghost var before := Value();
      UpdateNoRates(before, client);
      assert rates - todo == map[];
      while todo != {}
        invariant todo <= rates.Keys
        invariant Value() == UpdateRates(before, client, rates - todo)
        decreases |todo|
      {
        var topic :| topic in todo;
        UpdateRatesStep(before, client, rates, todo, topic);
        var _ := sessionManager.AddSub(client, topic, rates[topic]);
        todo := todo - {topic};
      }
      assert rates - {} == rates;
    }

    /** The locked part of the subscribe handler. */
    method Subscribe(client: Client, items: seq<(Topic, real)>, rates: map<Topic, real>, backend: Backend)
      returns (schemas: set<Topic>, failed: set<Topic>)
      modifies this, sessionManager, subscriptionManager, messageBuffer
      ensures Progress(Value(), schemas, failed) == SubscribeSection(old(Value()), client, items, rates, backend)
    {
      schemas, failed := {}, {};
      var paused := S.IsPaused(sessionManager.sessions, client);
      for i := 0 to |items|
        invariant Progress(Value(), schemas, failed) == SubscribeAll(old(Value()), client, items[..i], paused, backend)
      {
        assert items[..i + 1][..i] == items[..i];
        var ok, bad :=
          SubscribeTopic(client, items[i].0, items[i].1, paused, backend, Progress(Value(), schemas, failed));
        if ok {
          schemas := schemas + {items[i].0};
        }
        if bad {
          failed := failed + {items[i].0};
        }
      }
      assert items[..|items|] == items;
      ApplyRates(client, rates);
    }

    /** Releases every topic of a set, in whatever order it is enumerated. */
    method ReleaseRefs(topics: set<Topic>)
      modifies this`misses, subscriptionManager, messageBuffer
      ensures Value() == ReleaseAll(old(Value()), topics)
    {
      var todo := topics;
      ReleaseNone(Value());
      assert topics - todo == {};
      while todo != {}
        invariant todo <= topics
        invariant Value() == ReleaseAll(old(Value()), topics - todo)
        decreases |todo|
      {
        var topic :| topic in todo;
        ReleaseAllStep(old(Value()), topics - todo, topic);
        assert topics - (todo - {topic}) == (topics - todo) + {topic};
        ReleaseSubscriptionRef(topic);
        todo := todo - {topic};
      }
      assert topics - {} == topics;
    }

    method Cleanup(client: Client)
      modifies this, sessionManager, subscriptionManager, messageBuffer
      ensures Value() == CleanupSection(old(Value()), client)
    {
      pendingReplays := pendingReplays - {client};
      if client in sessionManager.sessions {
        ReleaseRefs(sessionManager.sessions[client].refHeld);
        var _ := sessionManager.RemoveSession(client);
      }
    }

    /** The locked part of the pause handler; tells how many references it released. */
    method Pause(client: Client) returns (released: nat)
      modifies this, sessionManager, subscriptionManager, messageBuffer
      ensures Value() == PauseSection(old(Value()), client)
      ensures released == if S.IsPaused(old(Value()).sessions, client) then 0
                          else |S.RefHeldTopics(old(Value()).sessions, client)|
    {
      if S.IsPaused(sessionManager.sessions, client) {
        return 0;
      }
      var ok := sessionManager.MarkPaused(client, true);
      var held := S.RefHeldTopics(sessionManager.sessions, client);
      released := |held|;
      if ok {
        ReleaseHeld(client, held);
        assert held - {} == held;
      }
    }

    /** Gives back every held reference and unmarks it, topic by topic. */
    method ReleaseHeld(client: Client, held: set<Topic>)
      requires client in sessionManager.sessions && held == sessionManager.sessions[client].refHeld
      modifies this`misses, sessionManager, subscriptionManager, messageBuffer
      ensures Value() == Releasing(old(Value()), client, held, {})
    {
      ghost var before := Value();
      var todo := held;
      ReleaseNone(before);
      assert held - todo == {};
      while todo != {}
        invariant todo <= held
        invariant Value() == Releasing(before, client, held, todo)
        decreases |todo|
      {
        var topic :| topic in todo;
        ReleasingStep(before, client, held, todo, topic);
        ReleaseSubscriptionRef(topic);
        var _ := sessionManager.SetHeld(client, topic, false);
        todo := todo - {topic};
      }
    }

    /** The locked part of the unsubscribe handler: the names actually dropped,
        each once, in request order. */
    method Unsubscribe(client: Client, names: seq<Topic>) returns (removed: seq<Topic>)
      modifies this, sessionManager, subscriptionManager, messageBuffer
      ensures Value() == UnsubscribeSection(old(Value()), client, Names(names))
      ensures Enumerates(removed, Names(names) * S.Subscriptions(old(Value()).sessions, client).Keys)
    {
      ghost var before := Value();
      var current := S.Subscriptions(sessionManager.sessions, client).Keys;
      var held := S.RefHeldTopics(sessionManager.sessions, client);
      removed := [];
      UnsubscribeNone(before, client);
      assert Names(names[..0]) == {};
      for i := 0 to |names|
        invariant Value() == UnsubscribeSection(before, client, Names(names[..i]))
        invariant current == S.Subscriptions(before.sessions, client).Keys - Names(names[..i])
        invariant NoDuplicates(removed)
        invariant forall t :: t in removed <==> t in names[..i] && t in S.Subscriptions(before.sessions, client)
      {
        var topic := names[i];
        assert names[..i + 1] == names[..i] + [topic];
        assert Names(names[..i + 1]) == Names(names[..i]) + {topic};
        if client in before.sessions {
          UnsubscribeOneMore(before, client, Names(names[..i]), topic);
        }
        if topic in current {
          if topic in held {
            ReleaseSubscriptionRef(topic);
          }
          var _ := sessionManager.RemoveSub(client, topic);
          current := current - {topic};
          removed := removed + [topic];
        }
      }
      assert names[..|names|] == names;
    }

    /** Tries to acquire a reference for one topic of a resuming session. */
    method ResumeTopic(client: Client, topic: Topic, available: set<Topic>, backend: Backend) returns (ok: bool)
      modifies this, sessionManager, subscriptionManager, messageBuffer
      ensures Value() == ResumeOne(old(Value()), client, topic, available, backend)
      ensures Value().sessions ==
              if ok then S.Apply(old(Value()).sessions, S.SetRefHeld(client, topic, true)) else old(Value()).sessions
    {
      if topic !in available {
        return false;
      }
      ok := subscriptionManager.SubscribeTopic(topic, Creation(backend, topic));
      if ok {
        var _ := sessionManager.SetHeld(client, topic, true);
        CollectLatchedReplay(client, topic);
      }
    }

    /** The locked part of the resume handler.  `order` is the order in which the
        hash map of subscriptions yielded the topics without a reference. */
    method Resume(client: Client, available: set<Topic>, backend: Backend)
      returns (failedTopics: set<Topic>, ghost order: seq<Topic>)
      modifies this, sessionManager, subscriptionManager, messageBuffer
      ensures ResumeOrder(old(Value()), client, order)
      ensures Value() == ResumeSection(old(Value()), client, order, available, backend)
      ensures S.IsPaused(old(Value()).sessions, client) ==>
                failedTopics == Names(order) - S.RefHeldTopics(Value().sessions, client)
    {
      failedTopics, order := {}, [];
      if !S.IsPaused(sessionManager.sessions, client) {
        return;
      }
      var _ := sessionManager.MarkPaused(client, false);
      ghost var awake := Value();
      var subs := S.Subscriptions(sessionManager.sessions, client).Keys;
      var held := S.RefHeldTopics(sessionManager.sessions, client);
      var todo := subs;
      while todo != {}
        invariant todo <= subs
        invariant Value() == ResumeAll(awake, client, order, available, backend)
        invariant Enumerates(order, (subs - todo) - held)
        invariant client in sessionManager.sessions
        invariant Unheld(sessionManager.sessions, client, order, held, failedTopics)
        decreases |todo|
      {
        var topic :| topic in todo;
        EnumerateNext(order, subs, todo, held, topic);
        todo := todo - {topic};
        if topic !in held {
          ResumeAllAppend(awake, client, order, topic, available, backend);
          UnheldStep(sessionManager.sessions, client, order, held, failedTopics, topic);
          order := order + [topic];
          var ok := ResumeTopic(client, topic, available, backend);
          if !ok {
            failedTopics := failedTopics + {topic};
          }
        }
      }
    }
  }

  lemma EnumerateNext(order: seq<Topic>, subs: set<Topic>, todo: set<Topic>, held: set<Topic>, t: Topic)
    requires t in todo && todo <= subs && Enumerates(order, (subs - todo) - held)
    ensures Enumerates(if t in held then order else order + [t], (subs - (todo - {t})) - held)
    ensures t !in order
  {
  }

  lemma ResumeAllAppend(core: Core, c: Client, order: seq<Topic>, t: Topic, available: set<Topic>, backend: Backend)
    ensures ResumeAll(core, c, order + [t], available, backend) ==
            ResumeOne(ResumeAll(core, c, order, available, backend), c, t, available, backend)
  {
    assert (order + [t])[..|order|] == order;
  }

  /** Of the topics tried so far, `failed` are those without a reference; the
      session holds nothing else than what it held before. */
  ghost predicate Unheld(sessions: S.Sessions, c: Client, order: seq<Topic>, held: set<Topic>, failed: set<Topic>) {
    && failed == Names(order) - S.RefHeldTopics(sessions, c)
    && S.RefHeldTopics(sessions, c) <= held + Names(order)
  }

  lemma UnheldStep(sessions: S.Sessions, c: Client, order: seq<Topic>, held: set<Topic>, failed: set<Topic>, t: Topic)
    requires c in sessions && Unheld(sessions, c, order, held, failed) && t !in held && t !in order
    ensures Unheld(sessions, c, order + [t], held, failed + {t})
    ensures Unheld(S.Apply(sessions, S.SetRefHeld(c, t, true)), c, order + [t], held, failed)
  {
    assert Names(order + [t]) == Names(order) + {t};
  }

  /** Why a requested topic was not subscribed. */
  datatype Failure = NotWhitelisted | DoesNotExist | NoSchema

  /** What the whitelist, discovery and the schema source say about topics. */
  datatype Catalog = Catalog(whitelisted: set<Topic>, existing: set<Topic>, withSchema: set<Topic>)

  function Verdict(catalog: Catalog, t: Topic): Option<Failure> {
    if t !in catalog.whitelisted then Some(NotWhitelisted)
    else if t !in catalog.existing then Some(DoesNotExist)
    else if t !in catalog.withSchema then Some(NoSchema)
    else None
  }

  /** The checks the subscribe handler runs before it takes the lock: exactly
      the new topics that pass all three become items, and every other new
      topic is reported with the first check it failed. */
  method ValidateTopics(requested: map<Topic, Option<real>>, known: map<Topic, real>, catalog: Catalog)
    returns (items: seq<(Topic, real)>, failures: map<Topic, Failure>)
    ensures ValidItems(items, requested, known)
    ensures forall t :: t in Topics(items) <==> t in requested && t !in known && Verdict(catalog, t) == None
    ensures forall t :: t in failures <==> t in requested && t !in known && Verdict(catalog, t) != None
    ensures forall t | t in failures :: Verdict(catalog, t) == Some(failures[t])
    ensures forall i | 0 <= i < |items| ::
              items[i].0 in catalog.whitelisted && items[i].0 in catalog.existing && items[i].0 in catalog.withSchema
    ensures forall t | t in requested && t !in known && t in catalog.whitelisted && t in catalog.existing
              && t in catalog.withSchema :: t in Topics(items)
    ensures forall t | t in failures :: t !in catalog.whitelisted <==> failures[t] == NotWhitelisted
    ensures forall t | t in failures && t in catalog.whitelisted ::
              t !in catalog.existing <==> failures[t] == DoesNotExist
    ensures forall t | t in failures && t in catalog.whitelisted && t in catalog.existing ::
              t !in catalog.withSchema && failures[t] == NoSchema
  {
    items, failures := [], map[];
    var todo := requested.Keys;
    while todo != {}
      invariant todo <= requested.Keys
      invariant ValidItems(items, requested, known)
      invariant Passed(Topics(items), requested.Keys - known.Keys - todo, catalog)
      invariant Failed(failures, requested.Keys - known.Keys - todo, catalog)
      decreases |todo|
    {
      var topic :| topic in todo;
      todo := todo - {topic};
      if topic !in known {
        var verdict := Verdict(catalog, topic);
        if verdict.Some? {
          failures := failures[topic := verdict.value];
        } else {
          var item := (topic, if requested[topic].Some? then requested[topic].value else 0.0);
          ItemsAppend(items, item, requested, known);
          items := items + [item];
        }
      }
    }
  }

  /** Of the topics `done`, `passed` are those without a failed check. */
  ghost predicate Passed(passed: set<Topic>, done: set<Topic>, catalog: Catalog) {
    forall t :: t in passed <==> t in done && Verdict(catalog, t) == None
  }

  /** Of the topics `done`, `failures` has the others with their first failed check. */
  ghost predicate Failed(failures: map<Topic, Failure>, done: set<Topic>, catalog: Catalog) {
    && (forall t :: t in failures <==> t in done && Verdict(catalog, t) != None)
    && (forall t | t in failures :: Verdict(catalog, t) == Some(failures[t]))
  }

  lemma ItemsAppend(
    items: seq<(Topic, real)>, item: (Topic, real), requested: map<Topic, Option<real>>, known: map<Topic, real>)
    requires ValidItems(items, requested, known) && item.0 !in Topics(items)
    requires item.0 in requested && item.0 !in known
    requires item.1 == if requested[item.0].Some? then requested[item.0].value else 0.0
    ensures ValidItems(items + [item], requested, known)
    ensures Topics(items + [item]) == Topics(items) + {item.0}
  {
    TopicsAppend(items, item);
  }

  lemma TopicsAppend(items: seq<(Topic, real)>, item: (Topic, real))
    ensures Topics(items + [item]) == Topics(items) + {item.0}
    ensures forall i | 0 <= i < |items| :: items[i].0 in Topics(items)
  {
    forall t | t in Topics(items) + {item.0}
      ensures t in Topics(items + [item])
    {
      if t in Topics(items) {
        var i :| 0 <= i < |items| && items[i].0 == t;
        assert (items + [item])[i].0 == t;
      } else {
        assert (items + [item])[|items|].0 == t;
      }
    }
  }
}
