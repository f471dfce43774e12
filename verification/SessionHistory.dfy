/**
 What a client was told within its current session: schemas sent before its
 last clean-up do not count.
 */
module SessionHistory {
  import opened Common
  import opened BridgeCore
  import opened BridgeProtocol
  import S = SessionManagement

  /** The step ends client `c`'s session, if it has one. */
  predicate Ends(s: State, step: Step, c: Client) {
    || (step.Timeout? && step.client == c)
    || (step.LockCleanup? && s.pc.Failing? && s.pc.client == c)
    || (step.EndCleanup? && s.cleaner.Releasing? && s.cleaner.client == c)
  }

  /** The step successfully sends client `c` a response with topic `t`'s schema. */
  predicate Tells(s: State, step: Step, c: Client, t: Topic) {
    step.ReplySent? && s.pc.Replying? && s.pc.client == c && t in s.pc.schemas
  }

  function RecentAfter(s: State, step: Step, c: Client, recent: set<Topic>): set<Topic> {
    if Ends(s, step, c) then {}
    else if step.ReplySent? && s.pc.Replying? && s.pc.client == c then recent + s.pc.schemas
    else recent
  }

  /** A step that ends a session leaves none, and nothing pending for it except
      where the disconnect already took it. */
  lemma EndingEnds(s: State, step: Step, c: Client)
    requires Enabled(s, step) && Ends(s, step, c)
    ensures c !in Next(s, step).core.sessions
    ensures !step.EndCleanup? ==> c !in Next(s, step).core.replays
  {
  }

  /** The disconnect's own section takes pending replays first, then one reference
      after the other, and the session only when none is left to release. */
  lemma DisconnectTakesAll(s: State, step: Step)
    requires Enabled(s, step)
    ensures step.Disconnect? ==>
              step.client !in Next(s, step).core.replays && Next(s, step).cleaner == Looking(step.client)
    ensures step.ReleaseOne? ==>
              && Next(s, step).cleaner == Releasing(s.cleaner.client, s.cleaner.released + {step.topic})
              && Count(Next(s, step).core.refs, step.topic) ==
                 if Count(s.core.refs, step.topic) > 0 then Count(s.core.refs, step.topic) - 1 else 0
    ensures step.EndCleanup? ==> S.RefHeldTopics(s.core.sessions, s.cleaner.client) <= s.cleaner.released
  {
  }

  /** What the remaining steps show of themselves. */
  lemma StepsAct(s: State, step: Step)
    requires Enabled(s, step)
    ensures step.StartPublish? ==> Next(s, step).core.buffer.buffers == map[]
    ensures step.Gather? && step.client in s.core.sessions ==>
              var s' := Next(s, step);
              s'.pc.Publishing? && step.client in s'.pc.gathered
              && s'.pc.gathered[step.client] == s.core.sessions[step.client].subscribed.Keys
    ensures step.ReplySent? ==> Next(s, step).wire == s.wire + [Response(s.pc.client, s.pc.schemas)]
    ensures step.SendFrame? ==> Next(s, step).wire == s.wire + [Data(step.client, step.topics)]
    ensures step.CreateSession? ==> s.pc.client in Next(s, step).core.sessions
  {
  }

  /** The topics whose schema client `c` was sent since its last clean-up. */
  function Recent(states: seq<State>, steps: seq<Step>, k: nat, c: Client): set<Topic>
    requires k <= |steps| && k <= |states|
  {
    if k == 0 then {} else RecentAfter(states[k - 1], steps[k - 1], c, Recent(states, steps, k - 1, c))
  }

  /** What the client was told in this session, or will be by the response that
      is about to be sent. */
  function Due(s: State, c: Client, recent: set<Topic>): set<Topic> {
    recent + if s.pc.Replying? && s.pc.client == c then s.pc.schemas else {}
  }

  /** Subscriptions and pending replays of client `c` are covered, and none is
      pending while its session is being ended. */
  ghost predicate CoveredSince(s: State, c: Client, recent: set<Topic>) {
    && (c in s.core.sessions && !Doomed(s, c) ==> s.core.sessions[c].subscribed.Keys <= Due(s, c, recent))
    && (c in s.core.replays && !Doomed(s, c) ==> ReplayTopics(s.core, c) <= Due(s, c, recent))
    && (!s.cleaner.Free? && s.cleaner.client == c ==> c !in s.core.replays)
  }

  lemma PcStepKeeps(s: State, step: Step, c: Client, recent: set<Topic>)
    requires StateInv(s) && Enabled(s, step) && CoveredSince(s, c, recent) && OnlyMovesPc(step)
    ensures CoveredSince(Next(s, step), c, RecentAfter(s, step, c, recent))
  {
    assert Next(s, step).core == s.core;
  }

  /** A section under the lock that ends with a response. */
  lemma SectionKeeps(s: State, core': Core, schemas: set<Topic>, c: Client, recent: set<Topic>)
    requires TalkInv(s) && CoveredSince(s, c, recent) && s.pc.Locking? && s.cleaner.Free?
    requires forall d | d in core'.sessions && d != s.pc.client ::
               d in s.core.sessions && core'.sessions[d] == s.core.sessions[d]
    requires s.pc.client in core'.sessions ==>
               && s.pc.client in s.core.sessions
               && core'.sessions[s.pc.client].subscribed.Keys <= s.core.sessions[s.pc.client].subscribed.Keys + schemas
    requires ReplaysGrew(s.core, core', s.pc.client, S.Subscriptions(s.core.sessions, s.pc.client).Keys + schemas)
    ensures CoveredSince(s.(core := core', pc := Replying(s.pc.client, schemas)), c, recent)
  {
    assert s.core.replays == map[];
    if c != s.pc.client {
      assert c !in core'.replays - {s.pc.client};
    }
  }

  lemma LockedStepKeeps(s: State, step: Step, c: Client, recent: set<Topic>)
    requires StateInv(s) && Enabled(s, step) && CoveredSince(s, c, recent)
    requires step.LockSubscribe? || step.LockResume? || step.LockPause? || step.LockUnsubscribe?
    ensures CoveredSince(Next(s, step), c, RecentAfter(s, step, c, recent))
  {
    match step
    case LockSubscribe(items, backend) => SubscribeKeeps(s, items, backend, c, recent);
    case LockResume(order, available, backend) => ResumeKeeps(s, order, available, backend, c, recent);
    case LockPause => PauseKeeps(s, c, recent);
    case LockUnsubscribe => UnsubscribeKeeps(s, c, recent);
  }

  lemma ResumeKeeps(
    s: State, order: seq<Topic>, available: set<Topic>, backend: Backend, c: Client, recent: set<Topic>)
    requires TalkInv(s) && Enabled(s, LockResume(order, available, backend)) && CoveredSince(s, c, recent)
    ensures CoveredSince(Next(s, LockResume(order, available, backend)), c, recent)
  {
    ResumeSectionEffects(s.core, s.pc.client, order, available, backend);
    SectionKeeps(s, ResumeSection(s.core, s.pc.client, order, available, backend), {}, c, recent);
  }

  lemma PauseKeeps(s: State, c: Client, recent: set<Topic>)
    requires TalkInv(s) && Enabled(s, LockPause) && CoveredSince(s, c, recent)
    ensures CoveredSince(Next(s, LockPause), c, recent)
  {
    SectionKeeps(s, PauseSection(s.core, s.pc.client), {}, c, recent);
  }

  lemma UnsubscribeKeeps(s: State, c: Client, recent: set<Topic>)
    requires TalkInv(s) && Enabled(s, LockUnsubscribe) && CoveredSince(s, c, recent)
    ensures CoveredSince(Next(s, LockUnsubscribe), c, recent)
  {
    SectionKeeps(s, UnsubscribeSection(s.core, s.pc.client, s.pc.request.names), {}, c, recent);
  }

  lemma SubscribeKeeps(s: State, items: seq<(Topic, real)>, backend: Backend, c: Client, recent: set<Topic>)
    requires TalkInv(s) && Enabled(s, LockSubscribe(items, backend)) && CoveredSince(s, c, recent)
    ensures CoveredSince(Next(s, LockSubscribe(items, backend)), c, recent)
  {
    var core, d := s.core, s.pc.client;
    var rates := NewRates(s.pc.request.topics, s.pc.known);
    SubscribeSectionEffects(core, d, items, rates, backend);
    var p := SubscribeSection(core, d, items, rates, backend);
    SectionKeeps(s, p.core, p.schemas, c, recent);
  }

  lemma EndingStepKeeps(s: State, step: Step, c: Client, recent: set<Topic>)
    requires StateInv(s) && Enabled(s, step) && CoveredSince(s, c, recent)
    requires step.Timeout? || step.LockCleanup? || step.EndCleanup?
    ensures CoveredSince(Next(s, step), c, RecentAfter(s, step, c, recent))
  {
    match step
    case Timeout(d) => CleanupLeavesOthers(s.core, d);
    case LockCleanup => CleanupLeavesOthers(s.core, s.pc.client);
    case EndCleanup => assert Next(s, step).core.replays == s.core.replays;
  }

  lemma CleanupLeavesOthers(core: Core, d: Client)
    ensures var core' := CleanupSection(core, d);
            && core'.replays == core.replays - {d} && core'.sessions == core.sessions - {d}
  {
    if d !in core.sessions {
      assert core.sessions - {d} == core.sessions;
    }
  }

  lemma SessionStepKeeps(s: State, step: Step, c: Client, recent: set<Topic>)
    requires StateInv(s) && Enabled(s, step) && CoveredSince(s, c, recent)
    requires step.CreateSession? || step.TouchSession? || step.SetTopicUpdates? || step.SetSchemasInUpdates?
    ensures CoveredSince(Next(s, step), c, RecentAfter(s, step, c, recent))
  {
    match step
    case CreateSession(now) =>
      CallKeeps(s, S.Create(s.pc.client, now), Touching(s.pc.client, s.pc.request), c, recent);
    case TouchSession(now) => CallKeeps(s, S.Heartbeat(s.pc.client, now), Next(s, step).pc, c, recent);
    case SetTopicUpdates => CallKeeps(s, S.SetTopicUpdates(s.pc.client, s.pc.request.on), s.pc, c, recent);
    case SetSchemasInUpdates =>
      CallKeeps(s, S.SetSchemasInUpdates(s.pc.client, s.pc.request.schemas.value), s.pc, c, recent);
  }

  /** A call that touches no subscription, outside the response. */
  lemma CallKeeps(s: State, op: S.Op, pc: Pc, c: Client, recent: set<Topic>)
    requires CoveredSince(s, c, recent) && Quiet(op)
    requires !s.pc.Replying? && !s.pc.Failing? && !pc.Replying? && !pc.Failing?
    ensures CoveredSince(WithSession(s, op, pc), c, recent)
  {
    var s' := WithSession(s, op, pc);
    assert c in s'.core.sessions ==> s'.core.sessions[c].subscribed == S.Subscriptions(s.core.sessions, c);
  }

  lemma OtherStepKeeps(s: State, step: Step, c: Client, recent: set<Topic>)
    requires StateInv(s) && Enabled(s, step) && CoveredSince(s, c, recent)
    requires step.ReplySent? || step.TakeReplays? || step.SendReplay? || step.SendFrame?
    ensures CoveredSince(Next(s, step), c, RecentAfter(s, step, c, recent))
  {
    assert Next(s, step).core.sessions == s.core.sessions;
  }

  lemma OtherThreadKeeps(s: State, step: Step, c: Client, recent: set<Topic>)
    requires StateInv(s) && Enabled(s, step) && CoveredSince(s, c, recent)
    requires step.StartPublish? || step.Ingest? || step.Disconnect? || step.FindSession? || step.ReleaseOne?
    ensures CoveredSince(Next(s, step), c, RecentAfter(s, step, c, recent))
  {
    if step.StartPublish? || step.Ingest? {
      BufferKeeps(s, step, c, recent);
    } else {
      CleanerKeeps(s, step, c, recent);
    }
  }

  lemma BufferKeeps(s: State, step: Step, c: Client, recent: set<Topic>)
    requires StateInv(s) && Enabled(s, step) && CoveredSince(s, c, recent) && (step.StartPublish? || step.Ingest?)
    ensures CoveredSince(Next(s, step), c, RecentAfter(s, step, c, recent))
  {
    var s' := Next(s, step);
    assert s'.core.sessions == s.core.sessions && s'.core.replays == s.core.replays;
  }

  lemma CleanerKeeps(s: State, step: Step, c: Client, recent: set<Topic>)
    requires StateInv(s) && Enabled(s, step) && CoveredSince(s, c, recent)
    requires step.Disconnect? || step.FindSession? || step.ReleaseOne?
    ensures CoveredSince(Next(s, step), c, RecentAfter(s, step, c, recent))
  {
    var s' := Next(s, step);
    assert s'.pc == s.pc && s'.core.sessions == s.core.sessions;
    assert RecentAfter(s, step, c, recent) == recent;
    assert c in s'.core.replays ==> c in s.core.replays && ReplayTopics(s'.core, c) == ReplayTopics(s.core, c);
  }

  lemma StepKeeps(s: State, step: Step, c: Client, recent: set<Topic>)
    requires StateInv(s) && Enabled(s, step) && CoveredSince(s, c, recent)
    ensures CoveredSince(Next(s, step), c, RecentAfter(s, step, c, recent))
  {
    if OnlyMovesPc(step) {
      PcStepKeeps(s, step, c, recent);
    } else if step.LockSubscribe? || step.LockResume? || step.LockPause? || step.LockUnsubscribe? {
      LockedStepKeeps(s, step, c, recent);
    } else if step.Timeout? || step.LockCleanup? || step.EndCleanup? {
      EndingStepKeeps(s, step, c, recent);
    } else if step.CreateSession? || step.TouchSession? || step.SetTopicUpdates? || step.SetSchemasInUpdates? {
      SessionStepKeeps(s, step, c, recent);
    } else if step.StartPublish? || step.Ingest? || step.Disconnect? || step.FindSession? || step.ReleaseOne? {
      OtherThreadKeeps(s, step, c, recent);
    } else {
      OtherStepKeeps(s, step, c, recent);
    }
  }

  lemma {:induction false} RunCovered(states: seq<State>, steps: seq<Step>, k: nat, c: Client)
    requires IsRun(states, steps) && k <= |steps|
    ensures CoveredSince(states[k], c, Recent(states, steps, k, c))
  {
    if k > 0 {
      RunCovered(states, steps, k - 1, c);
      ReachableInv(states, steps, k - 1);
      assert Taken(states, steps, k - 1);
      StepKeeps(states[k - 1], steps[k - 1], c, Recent(states, steps, k - 1, c));
    }
  }

  /** Step `j` told client `c` about the topic, and its session has not ended
      since. */
  ghost predicate ToldInSession(states: seq<State>, steps: seq<Step>, j: int, k: nat, c: Client, t: Topic)
    requires k <= |steps| && k <= |states|
  {
    && 0 <= j < k
    && Tells(states[j], steps[j], c, t)
    && forall i | j < i < k :: !Ends(states[i], steps[i], c)
  }

  lemma {:induction false} RecentlyTold(states: seq<State>, steps: seq<Step>, k: nat, c: Client, t: Topic)
      returns (j: int)
    requires k <= |steps| && k <= |states| && t in Recent(states, steps, k, c)
    ensures ToldInSession(states, steps, j, k, c, t)
  {
    if Tells(states[k - 1], steps[k - 1], c, t) {
      j := k - 1;
    } else {
      j := RecentlyTold(states, steps, k - 1, c, t);
    }
  }

  /** In every run, whenever a publish cycle gathers a client's topics, each
      topic's schema was sent to the client within its current session. */
  lemma GatheredWasToldInSession(states: seq<State>, steps: seq<Step>, k: nat, c: Client, t: Topic)
    requires IsRun(states, steps) && k < |steps| && steps[k] == Gather(c)
    requires t in S.Subscriptions(states[k].core.sessions, c)
    ensures exists j :: ToldInSession(states, steps, j, k, c, t)
  {
    RunCovered(states, steps, k, c);
    assert Taken(states, steps, k);
    var j := RecentlyTold(states, steps, k, c, t);
  }

  /** And so was that of every replay frame when it is taken for sending. */
  lemma ReplayWasToldInSession(states: seq<State>, steps: seq<Step>, k: nat, t: Topic)
    requires IsRun(states, steps) && k < |steps| && steps[k] == TakeReplays && states[k].pc.Flushing?
    requires t in ReplayTopics(states[k].core, states[k].pc.client)
    ensures exists j :: ToldInSession(states, steps, j, k, states[k].pc.client, t)
  {
    RunCovered(states, steps, k, states[k].pc.client);
    var j := RecentlyTold(states, steps, k, states[k].pc.client, t);
  }
}
