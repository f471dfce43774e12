/**
 Every interleaving of the event-loop thread (requests, publish cycles, session
 timeouts) with disconnect clean-ups on socket threads and message ingestion.
 One step is one call into the session manager, the buffer or the middleware,
 or one critical section of the event-loop thread.  A disconnect clean-up takes
 several steps under the cleanup lock, between which the event-loop thread may
 run everything that does not need the lock.
 */
module BridgeProtocol {
  import opened Common
  import opened BridgeCore
  import B = MessageBuffering
  import S = SessionManagement
  import R = SubscriptionManagement

  /** A parsed request.  `Touch` stands for those that only keep the session
      alive (heartbeat, topic list, rejected subscribe or unsubscribe). */
  datatype Request =
    | Subscribe(topics: map<Topic, Option<real>>)
    | Unsubscribe(names: set<Topic>)
    | Pause
    | Resume
    | Touch
    | TopicUpdates(on: bool, schemas: Option<bool>)

  /** What was handed to the middleware for a client: a response that was sent
      successfully, or a data frame. */
  datatype Event =
    | Response(client: Client, schemas: set<Topic>)
    | Data(client: Client, topics: set<Topic>)

  /** Where the event-loop thread stands. */
  datatype Pc =
    | Idle
    | Checking(client: Client, request: Request)
    | Creating(client: Client, request: Request)
    | Touching(client: Client, request: Request)
    | Reading(client: Client, request: Request)
    | Locking(client: Client, request: Request, known: map<Topic, real>)
    | Replying(client: Client, schemas: set<Topic>)
    | Failing(client: Client)
    | Flushing(client: Client)
    | Sending(client: Client, frames: seq<ReplayFrame>)
    | Publishing(gathered: map<Client, set<Topic>>)

  /** Who of the socket threads holds the cleanup lock, and how far it got. */
  datatype Cleaner =
    | Free
    | Looking(client: Client)
    | Releasing(client: Client, released: set<Topic>)

  /** `maxAge` is the age limit the message buffer was configured with. */
  datatype State = State(core: Core, pc: Pc, wire: seq<Event>, cleaner: Cleaner, maxAge: U64)

  function Start(maxAge: U64): State {
    State(Initial, Idle, [], Free, maxAge)
  }

  datatype Step =
    | Receive(client: Client, request: Request)
    | ReceiveUnknown(client: Client)
    | CheckSession
    | CreateSession(now: nat)
    | TouchSession(now: nat)
    | ReadSubscriptions
    | LockSubscribe(items: seq<(Topic, real)>, backend: Backend)
    | LockUnsubscribe
    | LockPause
    | LockResume(order: seq<Topic>, available: set<Topic>, backend: Backend)
    | SetTopicUpdates
    | SetSchemasInUpdates
    | FinishTouch
    | ReplySent
    | ReplyLost
    | LockCleanup
    | TakeReplays
    | SendReplay
    | FinishRequest
    | StartPublish
    | Gather(client: Client)
    | SendFrame(client: Client, topics: set<Topic>)
    | FinishPublish
    | Timeout(client: Client)
    | Disconnect(client: Client)
    | FindSession
    | ReleaseOne(topic: Topic)
    | EndCleanup
    | Ingest(topic: Topic, timestamp: U64, data: seq<Byte>, cleanupAt: U64, receivedAt: U64)

  /** Steps that need the cleanup lock. */
  predicate NeedsLock(step: Step) {
    step.LockSubscribe? || step.LockUnsubscribe? || step.LockPause? || step.LockResume? || step.LockCleanup?
    || step.Timeout? || step.Disconnect?
  }

  predicate Enabled(s: State, step: Step) {
    (NeedsLock(step) ==> s.cleaner.Free?) && Ready(s, step)
  }

  predicate Ready(s: State, step: Step) {
    var pc := s.pc;
    match step
    case Receive(_, _) => pc.Idle?
    case ReceiveUnknown(_) => pc.Idle?
    case CheckSession => pc.Checking?
    case CreateSession(_) => pc.Creating?
    case TouchSession(_) => pc.Touching?
    case ReadSubscriptions => pc.Reading?
    case LockSubscribe(items, _) =>
      pc.Locking? && pc.request.Subscribe? && ValidItems(items, pc.request.topics, pc.known)
    case LockUnsubscribe => pc.Locking? && pc.request.Unsubscribe?
    case LockPause => pc.Locking? && pc.request.Pause?
    case LockResume(order, _, _) => pc.Locking? && pc.request.Resume? && ResumeOrder(s.core, pc.client, order)
    case SetTopicUpdates => pc.Locking? && pc.request.TopicUpdates?
    case SetSchemasInUpdates => pc.Locking? && pc.request.TopicUpdates? && pc.request.schemas.Some?
    case FinishTouch => pc.Locking? && (pc.request.Touch? || pc.request.TopicUpdates?)
    case ReplySent => pc.Replying?
    case ReplyLost => pc.Replying?
    case LockCleanup => pc.Failing?
    case TakeReplays => pc.Flushing?
    case SendReplay => pc.Sending? && pc.frames != []
    case FinishRequest => pc.Sending? && pc.frames == []
    case StartPublish => pc.Idle?
    case Gather(_) => pc.Publishing?
    case SendFrame(c, topics) => pc.Publishing? && c in pc.gathered && topics <= pc.gathered[c]
    case FinishPublish => pc.Publishing?
    case Timeout(_) => pc.Idle?
    case Disconnect(_) => true
    case FindSession => s.cleaner.Looking?
    case ReleaseOne(t) =>
      s.cleaner.Releasing? && t in S.RefHeldTopics(s.core.sessions, s.cleaner.client) && t !in s.cleaner.released
    case EndCleanup =>
      s.cleaner.Releasing? && S.RefHeldTopics(s.core.sessions, s.cleaner.client) <= s.cleaner.released
    case Ingest(_, _, _, _, _) => true
  }

  function WithSession(s: State, op: S.Op, pc: Pc): State {
    s.(core := s.core.(sessions := S.Apply(s.core.sessions, op)), pc := pc)
  }

  function Next(s: State, step: Step): State
    requires Enabled(s, step)
  {
    var core, pc := s.core, s.pc;
    match step
    case Receive(c, request) => s.(pc := Checking(c, request))
    case ReceiveUnknown(c) => s.(pc := Replying(c, {}))
    case CheckSession =>
      s.(pc := if pc.client in core.sessions then Touching(pc.client, pc.request) else Creating(pc.client, pc.request))
    case CreateSession(now) => WithSession(s, S.Create(pc.client, now), Touching(pc.client, pc.request))
    case TouchSession(now) =>
      WithSession(s, S.Heartbeat(pc.client, now),
                  if pc.request.Subscribe? then Reading(pc.client, pc.request)
                  else Locking(pc.client, pc.request, map[]))
    case ReadSubscriptions =>
      s.(pc := Locking(pc.client, pc.request, S.Subscriptions(core.sessions, pc.client)))
    case LockSubscribe(items, backend) =>
      var p := SubscribeSection(core, pc.client, items, NewRates(pc.request.topics, pc.known), backend);
      s.(core := p.core, pc := Replying(pc.client, p.schemas))
    case LockUnsubscribe =>
      s.(core := UnsubscribeSection(core, pc.client, pc.request.names), pc := Replying(pc.client, {}))
    case LockPause => s.(core := PauseSection(core, pc.client), pc := Replying(pc.client, {}))
    case LockResume(order, available, backend) =>
      s.(core := ResumeSection(core, pc.client, order, available, backend), pc := Replying(pc.client, {}))
    case SetTopicUpdates => WithSession(s, S.SetTopicUpdates(pc.client, pc.request.on), pc)
    case SetSchemasInUpdates => WithSession(s, S.SetSchemasInUpdates(pc.client, pc.request.schemas.value), pc)
    case FinishTouch => s.(pc := Replying(pc.client, {}))
    case ReplySent => s.(wire := s.wire + [Response(pc.client, pc.schemas)], pc := Flushing(pc.client))
    case ReplyLost => s.(pc := Failing(pc.client))
    case LockCleanup => s.(core := CleanupSection(core, pc.client), pc := Idle)
    case TakeReplays =>
      s.(core := core.(replays := core.replays - {pc.client}),
         pc := Sending(pc.client, if pc.client in core.replays then core.replays[pc.client] else []))
    case SendReplay =>
      s.(wire := s.wire + [Data(pc.client, {pc.frames[0].topic})], pc := Sending(pc.client, pc.frames[1..]))
    case FinishRequest => s.(pc := Idle)
    case StartPublish => s.(core := core.(buffer := B.Apply(core.buffer, B.OpMove, s.maxAge)), pc := Publishing(map[]))
    case Gather(c) => s.(pc := Publishing(pc.gathered[c := S.Subscriptions(core.sessions, c).Keys]))
    case SendFrame(c, topics) => s.(wire := s.wire + [Data(c, topics)])
    case FinishPublish => s.(pc := Idle)
    case Timeout(c) => s.(core := CleanupSection(core, c))
    case Disconnect(c) => s.(core := core.(replays := core.replays - {c}), cleaner := Looking(c))
    case FindSession =>
      s.(cleaner := if s.cleaner.client in core.sessions then Releasing(s.cleaner.client, {}) else Free)
    case ReleaseOne(t) =>
      s.(core := Release(core, t), cleaner := Releasing(s.cleaner.client, s.cleaner.released + {t}))
    case EndCleanup =>
      s.(core := core.(sessions := S.Apply(core.sessions, S.Remove(s.cleaner.client))), cleaner := Free)
    case Ingest(t, ts, data, now, received) =>
      s.(core := core.(buffer := B.Apply(core.buffer, B.OpAdd(t, ts, data, now, received), s.maxAge)))
  }

  /** The states a run visits, for any age limit: each step is enabled where it
      is taken. */
  ghost predicate IsRun(states: seq<State>, steps: seq<Step>) {
    && |states| == |steps| + 1
    && states[0] == Start(states[0].maxAge)
    && forall i | 0 <= i < |steps| :: Taken(states, steps, i)
  }

  ghost predicate Taken(states: seq<State>, steps: seq<Step>, i: int)
    requires 0 <= i < |steps| && |states| == |steps| + 1
  {
    Enabled(states[i], steps[i]) && states[i + 1] == Next(states[i], steps[i])
  }

  // --------------------------------------------------------------- invariant

  /** The topics whose schema client `c` has been sent. */
  function Told(wire: seq<Event>, c: Client): set<Topic> {
    if wire == [] then {}
    else
      var last := wire[|wire| - 1];
      Told(wire[..|wire| - 1], c) + if last.Response? && last.client == c then last.schemas else {}
  }

  ghost predicate WireOrdered(wire: seq<Event>) {
    forall i | 0 <= i < |wire| && wire[i].Data? :: wire[i].topics <= Told(wire[..i], wire[i].client)
  }

  /** The topics client `c` has been told about or will be by the response
      that is about to be sent. */
  function Covered(s: State, c: Client): set<Topic> {
    Told(s.wire, c) + if s.pc.Replying? && s.pc.client == c then s.pc.schemas else {}
  }

  /** Between the loss of a response and the cleanup, the client is doomed. */
  predicate Doomed(s: State, c: Client) {
    s.pc.Failing? && s.pc.client == c
  }

  ghost predicate SubscriptionsCovered(s: State) {
    forall c | c in s.core.sessions && !Doomed(s, c) :: s.core.sessions[c].subscribed.Keys <= Covered(s, c)
  }

  predicate MayHavePending(pc: Pc, c: Client) {
    (pc.Replying? || pc.Failing? || pc.Flushing?) && pc.client == c
  }

  ghost predicate ReplaysCovered(s: State) {
    && (forall c | c in s.core.replays :: MayHavePending(s.pc, c))
    && (forall c | c in s.core.replays && !Doomed(s, c) :: ReplayTopics(s.core, c) <= Covered(s, c))
  }

  ghost predicate PcSound(s: State) {
    && (s.pc.Locking? && s.pc.request.Subscribe? && s.pc.client in s.core.sessions ==>
          s.core.sessions[s.pc.client].subscribed == s.pc.known)
    && (s.pc.Sending? ==> forall f | f in s.pc.frames :: f.topic in Told(s.wire, s.pc.client))
    && (s.pc.Publishing? ==> forall c | c in s.pc.gathered :: s.pc.gathered[c] <= Told(s.wire, c))
  }

  /** The sessions as they will be accounted for: one being cleaned up no longer
      counts as holding what was already released for it. */
  function Settle(m: S.Sessions, cleaner: Cleaner): S.Sessions {
    if cleaner.Releasing? && cleaner.client in m then
      m[cleaner.client := m[cleaner.client].(refHeld := m[cleaner.client].refHeld - cleaner.released)]
    else m
  }

  function Settled(s: State): Core {
    s.core.(sessions := Settle(s.core.sessions, s.cleaner))
  }

  ghost predicate CleanerSound(s: State) {
    s.cleaner.Releasing? ==>
      && s.cleaner.client in s.core.sessions
      && s.cleaner.released <= s.core.sessions[s.cleaner.client].refHeld
      && S.HeldWithinSubscribed(s.core.sessions)
  }

  /** What the clients were and will be told. */
  ghost predicate TalkInv(s: State) {
    && WireOrdered(s.wire)
    && SubscriptionsCovered(s)
    && ReplaysCovered(s)
    && PcSound(s)
  }

  ghost predicate StateInv(s: State) {
    && CoreInv(Settled(s))
    && CleanerSound(s)
    && TalkInv(s)
  }

  // ------------------------------------------------------------- preservation

  lemma ToldAppend(wire: seq<Event>, e: Event, c: Client)
    ensures Told(wire + [e], c) == Told(wire, c) + if e.Response? && e.client == c then e.schemas else {}
  {
    assert (wire + [e])[..|wire|] == wire;
  }

  lemma WireAppend(wire: seq<Event>, e: Event)
    requires WireOrdered(wire)
    requires e.Data? ==> e.topics <= Told(wire, e.client)
    ensures WireOrdered(wire + [e])
  {
    var wire' := wire + [e];
    forall i | 0 <= i < |wire'| && wire'[i].Data?
      ensures wire'[i].topics <= Told(wire'[..i], wire'[i].client)
    {
      assert wire'[..i] == wire[..i];
      assert wire[..|wire|] == wire;
    }
  }

  predicate Quiet(op: S.Op) {
    op.Create? || op.Heartbeat? || op.SetTopicUpdates? || op.SetSchemasInUpdates?
  }

  /** Session calls outside the lock change neither holders nor subscriptions. */
  lemma QuietCall(core: Core, op: S.Op)
    requires CoreInv(core) && Quiet(op)
    ensures CoreInv(core.(sessions := S.Apply(core.sessions, op)))
  {
    var sessions' := S.Apply(core.sessions, op);
    S.OnlySetRefHeldBreaks(core.sessions, op);
    forall t: Topic
      ensures Holders(sessions', t) == Holders(core.sessions, t)
    {
    }
  }

  /** They commute with the accounting of a clean-up in progress. */
  lemma QuietSettle(m: S.Sessions, op: S.Op, cleaner: Cleaner)
    requires Quiet(op) && (cleaner.Releasing? ==> cleaner.client in m)
    ensures Settle(S.Apply(m, op), cleaner) == S.Apply(Settle(m, cleaner), op)
  {
    if cleaner.Releasing? && op.client in m {
      var c := cleaner.client;
      if op.client == c {
        assert S.Apply(m, op)[c].refHeld == m[c].refHeld;
      } else {
        assert S.Apply(m, op)[c] == m[c];
      }
    }
  }

  lemma ReleaseSettle(m: S.Sessions, c: Client, released: set<Topic>, t: Topic)
    requires c in m
    ensures var before := Settle(m, Releasing(c, released));
            Settle(m, Releasing(c, released + {t})) == before[c := before[c].(refHeld := before[c].refHeld - {t})]
  {
    assert m[c].refHeld - (released + {t}) == m[c].refHeld - released - {t};
  }

  lemma EndSettle(m: S.Sessions, c: Client, released: set<Topic>)
    requires c in m && m[c].refHeld <= released
    ensures var before := Settle(m, Releasing(c, released));
            c in before && before[c].refHeld == {} && before - {c} == S.Apply(m, S.Remove(c))
  {
  }

  lemma QuietTalk(s: State, op: S.Op, pc: Pc)
    requires TalkInv(s) && Quiet(op)
    requires s.pc.Creating? || s.pc.Touching? || (s.pc.Locking? && !s.pc.request.Subscribe?)
    requires pc.Touching? || pc.Reading? || (pc.Locking? && !pc.request.Subscribe?)
    ensures TalkInv(WithSession(s, op, pc))
  {
    var s' := WithSession(s, op, pc);
    assert s.core.replays == map[];
    forall c | c in s'.core.sessions
      ensures s'.core.sessions[c].subscribed.Keys <= Covered(s', c)
    {
      assert s'.core.sessions[c].subscribed == S.Subscriptions(s.core.sessions, c);
    }
  }

  lemma SessionCallKeepsInv(s: State, op: S.Op, pc: Pc)
    requires StateInv(s) && Quiet(op)
    requires s.pc.Creating? || s.pc.Touching? || (s.pc.Locking? && !s.pc.request.Subscribe?)
    requires pc.Touching? || pc.Reading? || (pc.Locking? && !pc.request.Subscribe?)
    ensures StateInv(WithSession(s, op, pc))
  {
    QuietTalk(s, op, pc);
    QuietCall(Settled(s), op);
    QuietSettle(s.core.sessions, op, s.cleaner);
    S.OnlySetRefHeldBreaks(s.core.sessions, op);
  }

  /** A step that only takes away from client `c` leaves nothing unexplained. */
  lemma ShrinkingKeepsTalk(s: State, c: Client, core': Core, cleaner': Cleaner)
    requires TalkInv(s)
    requires core'.replays == s.core.replays || core'.replays == s.core.replays - {c}
    requires forall d | d in core'.sessions :: d in s.core.sessions
               && core'.sessions[d].subscribed == s.core.sessions[d].subscribed
    ensures TalkInv(s.(core := core', cleaner := cleaner'))
  {
    forall d | d in core'.replays
      ensures ReplayTopics(core', d) == ReplayTopics(s.core, d)
    {
    }
  }

  lemma CleanupStep(s: State, c: Client)
    requires StateInv(s) && s.cleaner.Free?
    ensures StateInv(s.(core := CleanupSection(s.core, c)))
  {
    CleanupKeepsInv(s.core, c);
    ShrinkingKeepsTalk(s, c, CleanupSection(s.core, c), Free);
  }

  lemma DisconnectStep(s: State, c: Client)
    requires StateInv(s) && Enabled(s, Disconnect(c))
    ensures StateInv(Next(s, Disconnect(c)))
  {
    ShrinkingKeepsTalk(s, c, Next(s, Disconnect(c)).core, Looking(c));
  }

  lemma FindSessionStep(s: State)
    requires StateInv(s) && s.cleaner.Looking?
    ensures StateInv(Next(s, FindSession))
  {
    var c := s.cleaner.client;
    ShrinkingKeepsTalk(s, c, s.core, Next(s, FindSession).cleaner);
    if c in s.core.sessions {
      assert s.core.sessions[c].refHeld - {} == s.core.sessions[c].refHeld;
      assert Settle(s.core.sessions, Releasing(c, {})) == s.core.sessions;
    }
  }

  lemma ReleaseOneStep(s: State, t: Topic)
    requires StateInv(s) && Enabled(s, ReleaseOne(t))
    ensures StateInv(Next(s, ReleaseOne(t)))
  {
    var core, c := Settled(s), s.cleaner.client;
    var s' := Next(s, ReleaseOne(t));
    ShrinkingKeepsTalk(s, c, s'.core, s'.cleaner);
    ReleaseOneKeepsInv(core, c, t);
    ReleaseSettle(s.core.sessions, c, s.cleaner.released, t);
  }

  lemma EndCleanupStep(s: State)
    requires StateInv(s) && Enabled(s, EndCleanup)
    ensures StateInv(Next(s, EndCleanup))
  {
    var c := s.cleaner.client;
    ShrinkingKeepsTalk(s, c, Next(s, EndCleanup).core, Free);
    EndSettle(s.core.sessions, c, s.cleaner.released);
    RemoveIdleKeepsInv(Settled(s), c);
  }

  /** Leaving the lock with a response for client `c`; before it was sent no
      replay frame was pending for anyone. */
  lemma SectionTalk(s: State, core': Core, schemas: set<Topic>)
    requires TalkInv(s) && s.pc.Locking?
    requires core'.sessions.Keys == s.core.sessions.Keys
    requires forall d | d in core'.sessions && d != s.pc.client :: core'.sessions[d] == s.core.sessions[d]
    requires s.pc.client in core'.sessions ==>
               core'.sessions[s.pc.client].subscribed.Keys <= s.core.sessions[s.pc.client].subscribed.Keys + schemas
    requires core'.replays - {s.pc.client} == s.core.replays - {s.pc.client}
    requires ReplayTopics(core', s.pc.client) <= Told(s.wire, s.pc.client) + schemas
    ensures TalkInv(s.(core := core', pc := Replying(s.pc.client, schemas)))
  {
    var c := s.pc.client;
    assert s.core.replays == map[];
    assert core'.replays - {c} == map[];
    forall d | d in core'.replays
      ensures d == c
    {
      assert d == c || d in core'.replays - {c};
    }
  }

  lemma SubscribeTalk(s: State, items: seq<(Topic, real)>, backend: Backend)
    requires TalkInv(s) && Enabled(s, LockSubscribe(items, backend))
    ensures TalkInv(Next(s, LockSubscribe(items, backend)))
  {
    var core, c := s.core, s.pc.client;
    var rates := NewRates(s.pc.request.topics, s.pc.known);
    SubscribeSectionEffects(core, c, items, rates, backend);
    assert c !in core.replays;
    var p := SubscribeSection(core, c, items, rates, backend);
    SectionTalk(s, p.core, p.schemas);
  }

  lemma SubscribeStep(s: State, items: seq<(Topic, real)>, backend: Backend)
    requires StateInv(s) && Enabled(s, LockSubscribe(items, backend))
    ensures StateInv(Next(s, LockSubscribe(items, backend)))
  {
    SubscribeTalk(s, items, backend);
    SubscribeKeepsInv(s.core, s.pc.client, items, NewRates(s.pc.request.topics, s.pc.known), backend);
  }

  lemma ResumeTalk(s: State, order: seq<Topic>, available: set<Topic>, backend: Backend)
    requires TalkInv(s) && Enabled(s, LockResume(order, available, backend))
    ensures TalkInv(Next(s, LockResume(order, available, backend)))
  {
    var core, c := s.core, s.pc.client;
    assert c !in core.replays;
    ResumeSectionEffects(core, c, order, available, backend);
    SectionTalk(s, ResumeSection(core, c, order, available, backend), {});
  }

  lemma ResumeStep(s: State, order: seq<Topic>, available: set<Topic>, backend: Backend)
    requires StateInv(s) && Enabled(s, LockResume(order, available, backend))
    ensures StateInv(Next(s, LockResume(order, available, backend)))
  {
    ResumeTalk(s, order, available, backend);
    ResumeKeepsInv(s.core, s.pc.client, order, available, backend);
  }

  lemma PauseStep(s: State)
    requires StateInv(s) && Enabled(s, LockPause)
    ensures StateInv(Next(s, LockPause))
  {
    assert s.pc.client !in s.core.replays;
    PauseKeepsInv(s.core, s.pc.client);
    SectionTalk(s, PauseSection(s.core, s.pc.client), {});
  }

  lemma UnsubscribeStep(s: State)
    requires StateInv(s) && Enabled(s, LockUnsubscribe)
    ensures StateInv(Next(s, LockUnsubscribe))
  {
    assert s.pc.client !in s.core.replays;
    UnsubscribeKeepsInv(s.core, s.pc.client, s.pc.request.names);
    SectionTalk(s, UnsubscribeSection(s.core, s.pc.client, s.pc.request.names), {});
  }

  lemma ReplyStep(s: State)
    requires StateInv(s) && s.pc.Replying?
    ensures StateInv(Next(s, ReplySent))
  {
    var e := Response(s.pc.client, s.pc.schemas);
    WireAppend(s.wire, e);
    forall c: Client
      ensures Covered(Next(s, ReplySent), c) == Covered(s, c)
    {
      ToldAppend(s.wire, e, c);
    }
  }

  lemma DataStep(s: State, e: Event, pc: Pc)
    requires StateInv(s) && e.Data? && e.topics <= Told(s.wire, e.client)
    requires pc == s.pc || (s.pc.Sending? && s.pc.frames != [] && pc == Sending(s.pc.client, s.pc.frames[1..]))
    ensures StateInv(s.(wire := s.wire + [e], pc := pc))
  {
    WireAppend(s.wire, e);
    forall c: Client
      ensures Told(s.wire + [e], c) == Told(s.wire, c)
    {
      ToldAppend(s.wire, e, c);
    }
  }

  lemma TakeReplaysStep(s: State)
    requires StateInv(s) && s.pc.Flushing?
    ensures StateInv(Next(s, TakeReplays))
  {
    var c := s.pc.client;
    var s' := Next(s, TakeReplays);
    forall f | f in s'.pc.frames
      ensures f.topic in Told(s.wire, c)
    {
      assert f.topic in ReplayTopics(s.core, c);
    }
    assert s'.core.replays == map[];
  }

  lemma BufferStep(s: State, op: B.Op, pc: Pc)
    requires StateInv(s) && (op.OpAdd? || op.OpMove?)
    requires pc == s.pc || (s.pc.Idle? && pc == Publishing(map[]))
    ensures StateInv(s.(core := s.core.(buffer := B.Apply(s.core.buffer, op, s.maxAge)), pc := pc))
  {
    B.ApplyKeepsInv(s.core.buffer, op, s.maxAge);
    var s' := s.(core := s.core.(buffer := B.Apply(s.core.buffer, op, s.maxAge)), pc := pc);
    assert Settled(s') == Settled(s).(buffer := s'.core.buffer);
    forall c | c in s'.core.replays
      ensures ReplayTopics(s'.core, c) == ReplayTopics(s.core, c)
    {
    }
  }

  /** Steps that only move the event-loop thread. */
  lemma PcStep(s: State, step: Step)
    requires StateInv(s) && Enabled(s, step)
    requires OnlyMovesPc(step)
    ensures StateInv(Next(s, step))
  {
    var pc := Next(s, step).pc;
    assert Next(s, step) == s.(pc := pc);
    assert Settled(s.(pc := pc)) == Settled(s);
    if step.ReplyLost? || step.FinishRequest? {
      AfterReplyStep(s, step);
    } else if step.Gather? || step.FinishPublish? {
      PublishStep(s, step);
    } else {
      BeforeReplyStep(s, step);
    }
  }

  lemma BeforeReplyStep(s: State, step: Step)
    requires TalkInv(s) && Enabled(s, step)
    requires step.Receive? || step.ReceiveUnknown? || step.CheckSession? || step.ReadSubscriptions? || step.FinishTouch?
    ensures TalkInv(Next(s, step))
  {
  }

  lemma AfterReplyStep(s: State, step: Step)
    requires TalkInv(s) && Enabled(s, step)
    requires step.ReplyLost? || step.FinishRequest?
    ensures TalkInv(Next(s, step))
  {
  }

  lemma PublishStep(s: State, step: Step)
    requires TalkInv(s) && Enabled(s, step) && (step.Gather? || step.FinishPublish?)
    ensures TalkInv(Next(s, step))
  {
  }

  predicate OnlyMovesPc(step: Step) {
    step.Receive? || step.ReceiveUnknown? || step.CheckSession? || step.ReadSubscriptions? || step.FinishTouch?
    || step.ReplyLost? || step.FinishRequest? || step.Gather? || step.FinishPublish?
  }

  lemma LockedStep(s: State, step: Step)
    requires StateInv(s) && Enabled(s, step) && NeedsLock(step)
    ensures StateInv(Next(s, step))
  {
    match step
    case LockSubscribe(items, backend) => SubscribeStep(s, items, backend);
    case LockResume(order, available, backend) => ResumeStep(s, order, available, backend);
    case LockUnsubscribe => UnsubscribeStep(s);
    case LockPause => PauseStep(s);
    case Timeout(c) => CleanupStep(s, c);
    case LockCleanup => CleanupStep(s, s.pc.client);
    case Disconnect(c) => DisconnectStep(s, c);
  }

  lemma NextKeepsInv(s: State, step: Step)
    requires StateInv(s) && Enabled(s, step)
    ensures StateInv(Next(s, step))
  {
    if NeedsLock(step) {
      LockedStep(s, step);
    } else if OnlyMovesPc(step) {
      PcStep(s, step);
    } else {
      match step
      case CreateSession(now) =>
        SessionCallKeepsInv(s, S.Create(s.pc.client, now), Touching(s.pc.client, s.pc.request));
      case TouchSession(now) =>
        SessionCallKeepsInv(s, S.Heartbeat(s.pc.client, now), Next(s, step).pc);
      case SetTopicUpdates =>
        SessionCallKeepsInv(s, S.SetTopicUpdates(s.pc.client, s.pc.request.on), s.pc);
      case SetSchemasInUpdates =>
        SessionCallKeepsInv(s, S.SetSchemasInUpdates(s.pc.client, s.pc.request.schemas.value), s.pc);
      case FindSession => FindSessionStep(s);
      case ReleaseOne(t) => ReleaseOneStep(s, t);
      case EndCleanup => EndCleanupStep(s);
      case ReplySent => ReplyStep(s);
      case SendReplay =>
        assert s.pc.frames[0] in s.pc.frames;
        DataStep(s, Data(s.pc.client, {s.pc.frames[0].topic}), Sending(s.pc.client, s.pc.frames[1..]));
      case SendFrame(c, topics) => DataStep(s, Data(c, topics), s.pc);
      case TakeReplays => TakeReplaysStep(s);
      case StartPublish => BufferStep(s, B.OpMove, Publishing(map[]));
      case Ingest(t, ts, data, now, received) => BufferStep(s, B.OpAdd(t, ts, data, now, received), s.pc);
    }
  }

  /** The invariant holds in every reachable state. */
  lemma {:induction false} ReachableInv(states: seq<State>, steps: seq<Step>, k: nat)
    requires IsRun(states, steps) && k < |states|
    ensures StateInv(states[k])
  {
    if k > 0 {
      ReachableInv(states, steps, k - 1);
      assert Taken(states, steps, k - 1);
      NextKeepsInv(states[k - 1], steps[k - 1]);
    }
  }

  // ----------------------------------------------------------- main results

  /** In every interleaving, whenever the cleanup lock is free, each topic's
      reference count is the number of sessions holding it, only unpaused
      sessions hold references, and nothing survives the last session.  Held
      topics are always subscribed, and no release ever found no reference. */
  lemma ReferenceCountsExact(states: seq<State>, steps: seq<Step>, k: nat)
    requires IsRun(states, steps) && k < |states|
    ensures var core := states[k].core;
            && core.misses == 0
            && S.HeldWithinSubscribed(core.sessions)
            && (states[k].cleaner.Free? ==>
                  && (forall t: Topic :: Count(core.refs, t) == |Holders(core.sessions, t)|)
                  && (forall t | t in core.refs :: core.refs[t].count > 0)
                  && (forall c | c in core.sessions && core.sessions[c].paused :: core.sessions[c].refHeld == {})
                  && (core.sessions == map[] ==> core.refs == map[] && core.buffer.retained == map[]))
  {
    ReachableInv(states, steps, k);
    if states[k].cleaner.Free? && states[k].core.sessions == map[] {
      NoSessionsNoRefs(states[k].core);
    }
  }

  /** While a clean-up is under way the counts are short by exactly what it has
      released for the session it is about to remove. */
  lemma CountsDuringCleanup(states: seq<State>, steps: seq<Step>, k: nat, t: Topic)
    requires IsRun(states, steps) && k < |states| && states[k].cleaner.Releasing?
    ensures Count(states[k].core.refs, t) ==
            |Holders(states[k].core.sessions, t)| - if t in states[k].cleaner.released then 1 else 0
  {
    ReachableInv(states, steps, k);
    SettledCounts(states[k], t);
  }

  lemma SettledCounts(s: State, t: Topic)
    requires CoreInv(Settled(s)) && CleanerSound(s) && s.cleaner.Releasing?
    ensures Count(s.core.refs, t) == |Holders(s.core.sessions, t)| - if t in s.cleaner.released then 1 else 0
  {
    var c := s.cleaner.client;
    assert Holders(Settled(s).sessions, t) ==
           Holders(s.core.sessions, t) - if t in s.cleaner.released then {c} else {};
    assert t in s.cleaner.released ==> c in Holders(s.core.sessions, t);
    assert Holders(s.core.sessions, t) - {} == Holders(s.core.sessions, t);
  }

  lemma {:induction false} ToldBy(wire: seq<Event>, c: Client, t: Topic) returns (j: int)
    requires t in Told(wire, c)
    ensures 0 <= j < |wire| && wire[j].Response? && wire[j].client == c && t in wire[j].schemas
  {
    var last := wire[|wire| - 1];
    if last.Response? && last.client == c && t in last.schemas {
      j := |wire| - 1;
    } else {
      j := ToldBy(wire[..|wire| - 1], c, t);
    }
  }

  /** Every data frame is preceded by a successfully sent response to the same
      client that carried the schema of each of its topics. */
  lemma SchemaBeforeData(states: seq<State>, steps: seq<Step>, k: nat, i: int, t: Topic)
    requires IsRun(states, steps) && k < |states|
    requires 0 <= i < |states[k].wire| && states[k].wire[i].Data? && t in states[k].wire[i].topics
    ensures exists j | 0 <= j < i ::
              && states[k].wire[j].Response?
              && states[k].wire[j].client == states[k].wire[i].client
              && t in states[k].wire[j].schemas
  {
    ReachableInv(states, steps, k);
    var j := ToldBy(states[k].wire[..i], states[k].wire[i].client, t);
    assert states[k].wire[j] == states[k].wire[..i][j];
  }

  /** Between requests no replay frame is pending for anyone, and while a
      request is served only its own client can have some. */
  lemma NoReplayStrands(states: seq<State>, steps: seq<Step>, k: nat)
    requires IsRun(states, steps) && k < |states|
    ensures states[k].pc.Idle? || states[k].pc.Publishing? ==> states[k].core.replays == map[]
    ensures forall c | c in states[k].core.replays ::
              !states[k].pc.Idle? && !states[k].pc.Publishing? && states[k].pc.client == c
  {
    ReachableInv(states, steps, k);
  }

  /** A topic is latched exactly while a transient-local subscription exists,
      which some session then holds, and a latched topic with buffered messages
      retains exactly the last of them. */
  lemma LatchFollowsSubscription(states: seq<State>, steps: seq<Step>, k: nat, t: Topic)
    requires IsRun(states, steps) && k < |states|
    ensures var core := states[k].core;
            && (t in core.buffer.latched <==> t in core.refs && core.refs[t].transientLocal)
            && (t in core.buffer.latched ==> Holders(core.sessions, t) != {})
            && (t in core.buffer.latched && t in core.buffer.buffers ==>
                  && core.buffer.buffers[t] != []
                  && t in core.buffer.retained
                  && core.buffer.retained[t] == B.Last(core.buffer.buffers[t]))
  {
    ReachableInv(states, steps, k);
    if states[k].cleaner.Releasing? {
      SettledCounts(states[k], t);
    } else {
      assert Count(states[k].core.refs, t) == |Holders(states[k].core.sessions, t)|;
    }
  }
}
