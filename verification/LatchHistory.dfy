/**
 Where a topic's latch comes from: what the backend said when the topic's
 present subscription was created.
 */
module LatchHistory {
  import opened Common
  import opened BridgeCore
  import opened BridgeLaws
  import opened BridgeProtocol
  import B = MessageBuffering
  import S = SessionManagement
  import R = SubscriptionManagement

  /** What creating a subscription yields in a step that may create some. */
  function BackendOf(step: Step): Backend {
    match step
    case LockSubscribe(_, backend) => backend
    case LockResume(_, _, backend) => backend
    case _ => map[]
  }

  /** A subscription keeps the flag it was created with, and is created only by
      a step whose backend can create it. */
  ghost predicate FlagsExplained(refs: R.Subscriptions, refs': R.Subscriptions, backend: Backend) {
    forall t | t in refs' ::
      if t in refs then refs'[t].transientLocal == refs[t].transientLocal
      else t in backend && refs'[t].transientLocal == backend[t]
  }

  lemma SectionExplainsFlags(s: State, step: Step)
    requires StateInv(s) && Enabled(s, step) && (step.LockSubscribe? || step.LockResume?)
    ensures FlagsExplained(s.core.refs, Next(s, step).core.refs, BackendOf(step))
  {
    var core, c := s.core, s.pc.client;
    assert Settled(s) == core && c !in core.replays;
    match step
    case LockSubscribe(items, backend) =>
      if c in core.sessions {
        SubscribeExactly(core, c, items, s.pc.request.topics, backend);
      } else {
        SubscribeWithoutSession(core, c, items, NewRates(s.pc.request.topics, s.pc.known), backend);
      }
    case LockResume(order, available, backend) => ResumeExactly(core, c, order, available, backend);
  }

  lemma ReleaseExplainsFlags(s: State, step: Step)
    requires StateInv(s) && Enabled(s, step)
    requires step.LockUnsubscribe? || step.LockPause? || step.LockCleanup? || step.Timeout? || step.ReleaseOne?
    ensures FlagsExplained(s.core.refs, Next(s, step).core.refs, map[])
  {
    match step
    case LockUnsubscribe => UnsubscribeExplains(s.core, s.pc.client, s.pc.request.names);
    case LockPause => PauseExplains(s.core, s.pc.client);
    case LockCleanup => CleanupExplains(s.core, s.pc.client);
    case Timeout(c) => CleanupExplains(s.core, c);
    case ReleaseOne(t) => assert Release(s.core, t).refs == R.Unsubscribe(s.core.refs, t);
  }

  lemma UnsubscribeExplains(core: Core, c: Client, names: set<Topic>)
    ensures FlagsExplained(core.refs, UnsubscribeSection(core, c, names).refs, map[])
  {
  }

  lemma PauseExplains(core: Core, c: Client)
    ensures FlagsExplained(core.refs, PauseSection(core, c).refs, map[])
  {
  }

  lemma CleanupExplains(core: Core, c: Client)
    ensures FlagsExplained(core.refs, CleanupSection(core, c).refs, map[])
  {
  }

  lemma OtherStepsKeepRefs(s: State, step: Step)
    requires Enabled(s, step)
    requires !step.LockSubscribe? && !step.LockResume? && !step.LockUnsubscribe? && !step.LockPause?
    requires !step.LockCleanup? && !step.Timeout? && !step.ReleaseOne?
    ensures Next(s, step).core.refs == s.core.refs
  {
  }

  lemma StepExplainsFlags(s: State, step: Step)
    requires StateInv(s) && Enabled(s, step)
    ensures FlagsExplained(s.core.refs, Next(s, step).core.refs, BackendOf(step))
  {
    if step.LockSubscribe? || step.LockResume? {
      SectionExplainsFlags(s, step);
    } else if step.LockUnsubscribe? || step.LockPause? || step.LockCleanup? || step.Timeout? || step.ReleaseOne? {
      ReleaseExplainsFlags(s, step);
    } else {
      OtherStepsKeepRefs(s, step);
    }
  }

  /** Step `i` created the subscription the topic has in state `k`. */
  ghost predicate CreatedBy(states: seq<State>, steps: seq<Step>, i: int, k: nat, t: Topic)
    requires k <= |steps| && |states| == |steps| + 1
  {
    && 0 <= i < k
    && (steps[i].LockSubscribe? || steps[i].LockResume?)
    && t !in states[i].core.refs
    && forall j | i < j <= k :: t in states[j].core.refs
  }

  /** Every subscription was created by some step, and is transient-local exactly if
      the backend created it so. */
  lemma {:induction false} SubscriptionHasCreator(states: seq<State>, steps: seq<Step>, k: nat, t: Topic)
      returns (i: int)
    requires IsRun(states, steps) && k <= |steps| && t in states[k].core.refs
    ensures CreatedBy(states, steps, i, k, t)
    ensures t in BackendOf(steps[i]) && states[k].core.refs[t].transientLocal == BackendOf(steps[i])[t]
  {
    ReachableInv(states, steps, k - 1);
    assert Taken(states, steps, k - 1);
    StepExplainsFlags(states[k - 1], steps[k - 1]);
    if t in states[k - 1].core.refs {
      i := SubscriptionHasCreator(states, steps, k - 1, t);
    } else {
      i := k - 1;
    }
  }

  lemma CreatorIsUnique(states: seq<State>, steps: seq<Step>, i: int, i': int, k: nat, t: Topic)
    requires k <= |steps| && |states| == |steps| + 1
    requires CreatedBy(states, steps, i, k, t) && CreatedBy(states, steps, i', k, t)
    ensures i == i'
  {
  }

  /** In every reachable state a topic is latched exactly if it has a backend
      subscription and the step that created it, with no absence since, created a
      transient-local one. */
  lemma LatchedAsCreated(states: seq<State>, steps: seq<Step>, k: nat, t: Topic)
    requires IsRun(states, steps) && k <= |steps|
    ensures t in states[k].core.buffer.latched <==>
            exists i :: CreatedBy(states, steps, i, k, t) && t in BackendOf(steps[i]) && BackendOf(steps[i])[t]
  {
    LatchFollowsSubscription(states, steps, k, t);
    if t in states[k].core.refs {
      var i := SubscriptionHasCreator(states, steps, k, t);
      forall i' | CreatedBy(states, steps, i', k, t)
        ensures i' == i
      {
        CreatorIsUnique(states, steps, i, i', k, t);
      }
    } else {
      forall i
        ensures !CreatedBy(states, steps, i, k, t)
      {
      }
    }
  }
}
