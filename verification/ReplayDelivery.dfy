/**
 Stored samples reach the client that joins: the frames a handler queues are
 taken once the response is out, and all of them are sent before the next
 request.
 */
module ReplayDelivery {
  import opened Common
  import opened BridgeCore
  import opened BridgeLaws
  import opened BridgeProtocol
  import S = SessionManagement

  /** The frames as they are handed to the middleware. */
  function Sent(c: Client, frames: seq<ReplayFrame>): seq<Event> {
    seq(|frames|, i requires 0 <= i < |frames| => Data(c, {frames[i].topic}))
  }

  /** After `k` took the frames `all`: those no longer waiting were sent, in order,
      and nothing else. */
  ghost predicate OnTheWay(before: State, s: State, c: Client, all: seq<ReplayFrame>) {
    && s.pc.Sending? && s.pc.client == c
    && |s.pc.frames| <= |all| && s.pc.frames == all[|all| - |s.pc.frames|..]
    && s.wire == before.wire + Sent(c, all[..|all| - |s.pc.frames|])
  }

  lemma SendingStep(before: State, s: State, step: Step, s': State, c: Client, all: seq<ReplayFrame>)
    requires OnTheWay(before, s, c, all) && step != FinishRequest
    requires Enabled(s, step) && s' == Next(s, step)
    ensures OnTheWay(before, s', c, all)
  {
    if step == SendReplay {
      var n := |all| - |s.pc.frames|;
      assert s.pc.frames[0] == all[n] && s.pc.frames[1..] == all[n + 1..];
      assert Sent(c, all[..n + 1]) == Sent(c, all[..n]) + [Data(c, {all[n].topic})];
    } else {
      OnlySendingWrites(s, step);
    }
  }

  lemma OnlySendingWrites(s: State, step: Step)
    requires s.pc.Sending? && Enabled(s, step) && step != FinishRequest && step != SendReplay
    ensures Next(s, step).pc == s.pc && Next(s, step).wire == s.wire
  {
  }

  lemma TakingStarts(s: State, s': State)
    requires s.pc.Flushing? && s' == Next(s, TakeReplays)
    ensures OnTheWay(s, s', s.pc.client, QueuedFor(s.core, s.pc.client))
  {
    var all := QueuedFor(s.core, s.pc.client);
    assert Next(s, TakeReplays).pc == Pc.Sending(s.pc.client, all);
    assert all[|all| - |all|..] == all;
    assert Sent(s.pc.client, all[..|all| - |all|]) == [];
    assert s.wire + [] == s.wire;
  }

  lemma {:induction false} SendingUntilDone(states: seq<State>, steps: seq<Step>, k: nat, n: nat)
    requires IsRun(states, steps) && k < n <= |steps| && steps[k] == TakeReplays && states[k].pc.Flushing?
    requires forall j | k < j < n :: steps[j] != FinishRequest
    ensures OnTheWay(states[k], states[n], states[k].pc.client, QueuedFor(states[k].core, states[k].pc.client))
    decreases n
  {
    if n == k + 1 {
      RunStartsSending(states, steps, k);
    } else {
      SendingUntilDone(states, steps, k, n - 1);
      RunGoesOnSending(states, steps, states[k], n - 1, QueuedFor(states[k].core, states[k].pc.client));
    }
  }

  lemma RunStartsSending(states: seq<State>, steps: seq<Step>, k: nat)
    requires IsRun(states, steps) && k < |steps| && steps[k] == TakeReplays && states[k].pc.Flushing?
    ensures OnTheWay(states[k], states[k + 1], states[k].pc.client, QueuedFor(states[k].core, states[k].pc.client))
  {
    assert Taken(states, steps, k);
    TakingStarts(states[k], states[k + 1]);
  }

  lemma RunGoesOnSending(states: seq<State>, steps: seq<Step>, before: State, j: nat, all: seq<ReplayFrame>)
    requires IsRun(states, steps) && j < |steps| && steps[j] != FinishRequest && states[j].pc.Sending?
    requires OnTheWay(before, states[j], states[j].pc.client, all)
    ensures OnTheWay(before, states[j + 1], states[j].pc.client, all)
  {
    assert Taken(states, steps, j);
    SendingStep(before, states[j], steps[j], states[j + 1], states[j].pc.client, all);
  }

  /** Every frame taken is on the wire when the request finishes, once and in
      order, with nothing else in between. */
  lemma TakenFramesAreSent(states: seq<State>, steps: seq<Step>, k: nat, n: nat)
    requires IsRun(states, steps) && k < n < |steps|
    requires steps[k] == TakeReplays && steps[n] == FinishRequest && forall j | k < j < n :: steps[j] != FinishRequest
    ensures states[k].pc.Flushing?
    ensures var c := states[k].pc.client;
            states[n].wire == states[k].wire + Sent(c, QueuedFor(states[k].core, c))
  {
    assert Taken(states, steps, k) && Taken(states, steps, n);
    SendingUntilDone(states, steps, k, n);
    var all := QueuedFor(states[k].core, states[k].pc.client);
    assert all[..|all|] == all;
  }

  /** Between a section and the taking of its frames, with the response sent and
      the client still there. */
  predicate Waiting(s: State, c: Client, q: seq<ReplayFrame>) {
    (s.pc.Replying? || s.pc.Flushing?) && s.pc.client == c && QueuedFor(s.core, c) == q
  }

  lemma WaitingStep(s: State, step: Step, c: Client, q: seq<ReplayFrame>)
    requires Waiting(s, c, q) && Enabled(s, step)
    requires step != ReplyLost && step != Disconnect(c) && step != TakeReplays
    ensures Waiting(Next(s, step), c, q)
  {
    match step
    case ReplySent =>
    case Disconnect(d) =>
    case FindSession =>
    case ReleaseOne(t) =>
    case EndCleanup =>
    case Ingest(_, _, _, _, _) =>
    case _ => assert false;
  }

  lemma SectionWaits(s: State, step: Step)
    requires Enabled(s, step) && (step.LockSubscribe? || step.LockResume?)
    ensures var s' := Next(s, step); Waiting(s', s.pc.client, QueuedFor(s'.core, s.pc.client))
  {
  }

  lemma {:induction false} PendingUntilTaken(states: seq<State>, steps: seq<Step>, i: nat, k: nat, c: Client)
    requires IsRun(states, steps) && i < k <= |steps| && (steps[i].LockSubscribe? || steps[i].LockResume?)
    requires states[i].pc.Locking? && states[i].pc.client == c
    requires forall j | i < j < k :: steps[j] != ReplyLost && steps[j] != Disconnect(c) && steps[j] != TakeReplays
    ensures Waiting(states[k], c, QueuedFor(states[i + 1].core, c))
    decreases k
  {
    if k == i + 1 {
      assert Taken(states, steps, i);
      SectionWaits(states[i], steps[i]);
    } else {
      PendingUntilTaken(states, steps, i, k - 1, c);
      RunGoesOnWaiting(states, steps, k - 1, c, QueuedFor(states[i + 1].core, c));
    }
  }

  lemma RunGoesOnWaiting(states: seq<State>, steps: seq<Step>, j: nat, c: Client, q: seq<ReplayFrame>)
    requires IsRun(states, steps) && j < |steps| && Waiting(states[j], c, q)
    requires steps[j] != ReplyLost && steps[j] != Disconnect(c) && steps[j] != TakeReplays
    ensures Waiting(states[j + 1], c, q)
  {
    assert Taken(states, steps, j);
    WaitingStep(states[j], steps[j], c, q);
  }

  /** The request of step `i` is served to its end at `n`, its frames being taken
      at `k`: the response was not lost and the client stayed. */
  ghost predicate Served(states: seq<State>, steps: seq<Step>, i: nat, k: nat, n: nat) {
    && IsRun(states, steps) && i < k < n < |steps|
    && states[i].pc.Locking?
    && (forall j | i < j < k ::
          steps[j] != ReplyLost && steps[j] != Disconnect(states[i].pc.client) && steps[j] != TakeReplays)
    && steps[k] == TakeReplays
    && (forall j | k < j < n :: steps[j] != FinishRequest)
    && steps[n] == FinishRequest
  }

  lemma ServedSendsQueue(states: seq<State>, steps: seq<Step>, i: nat, k: nat, n: nat)
    requires Served(states, steps, i, k, n) && (steps[i].LockSubscribe? || steps[i].LockResume?)
    ensures var c := states[i].pc.client;
            states[n].wire == states[k].wire + Sent(c, QueuedFor(states[i + 1].core, c))
  {
    PendingUntilTaken(states, steps, i, k, states[i].pc.client);
    TakenFramesAreSent(states, steps, k, n);
  }

  lemma QueuedIsSent(c: Client, q: seq<ReplayFrame>, f: ReplayFrame)
    requires f in q
    ensures Data(c, {f.topic}) in Sent(c, q)
  {
    var i :| 0 <= i < |q| && q[i] == f;
    assert Sent(c, q)[i] == Data(c, {f.topic});
  }

  /** A client that subscribes to a topic whose sample is retained and no longer
      buffered has been sent a frame for it when its request is served. */
  lemma SubscriberGetsSample(states: seq<State>, steps: seq<Step>, i: nat, k: nat, n: nat, t: Topic)
    requires Served(states, steps, i, k, n) && steps[i].LockSubscribe?
    requires var c := states[i].pc.client; c in states[i].core.sessions && !states[i].core.sessions[c].paused
    requires Stored(states[i].core.buffer, t) && t in Topics(steps[i].items)
    requires Obtainable(states[i].core.refs, steps[i].backend, t)
    ensures states[k].wire <= states[n].wire
    ensures Data(states[i].pc.client, {t}) in states[n].wire[|states[k].wire|..]
  {
    var s, c := states[i], states[i].pc.client;
    ReachableInv(states, steps, i);
    assert Taken(states, steps, i);
    assert Settled(s) == s.core && c !in s.core.replays;
    SubscribeExactly(s.core, c, steps[i].items, s.pc.request.topics, steps[i].backend);
    ServedSendsQueue(states, steps, i, k, n);
    QueuedIsSent(c, QueuedFor(states[i + 1].core, c), ReplayFrame(t, s.core.buffer.retained[t]));
  }

  /** So has a client that resumes, for a topic it gains. */
  lemma ResumerGetsSample(states: seq<State>, steps: seq<Step>, i: nat, k: nat, n: nat, t: Topic)
    requires Served(states, steps, i, k, n) && steps[i].LockResume?
    requires var c := states[i].pc.client; c in states[i].core.sessions && states[i].core.sessions[c].paused
    requires var s := states[i].core.sessions[states[i].pc.client]; t in s.subscribed && t !in s.refHeld
    requires Stored(states[i].core.buffer, t) && t in steps[i].available
    requires Obtainable(states[i].core.refs, steps[i].backend, t)
    ensures states[k].wire <= states[n].wire
    ensures Data(states[i].pc.client, {t}) in states[n].wire[|states[k].wire|..]
  {
    var s, c := states[i], states[i].pc.client;
    ReachableInv(states, steps, i);
    assert Taken(states, steps, i);
    assert Settled(s) == s.core && c !in s.core.replays;
    ResumeExactly(s.core, c, steps[i].order, steps[i].available, steps[i].backend);
    ServedSendsQueue(states, steps, i, k, n);
    QueuedIsSent(c, QueuedFor(states[i + 1].core, c), ReplayFrame(t, s.core.buffer.retained[t]));
  }
}
