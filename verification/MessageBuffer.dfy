/**
 The per-topic message buffer: time-based eviction, draining by the publish
 cycle, and the retained sample of latched (transient-local) topics.
 */
module MessageBuffering {
  import opened Common

  datatype Message = Message(timestamp: U64, receivedAt: U64, data: seq<Byte>)

  /** The abstract value of a MessageBuffer. */
  datatype State = State(
    buffers: map<Topic, seq<Message>>,
    latched: set<Topic>,
    retained: map<Topic, Message>)

  const Empty := State(map[], {}, map[])

  function Buffered(s: State, t: Topic): seq<Message> {
    if t in s.buffers then s.buffers[t] else []
  }

  function Last<T>(s: seq<T>): T
    requires s != []
  {
    s[|s| - 1]
  }

  // ---------------------------------------------------------------- eviction

  predicate Expired(now: U64, m: Message, maxAge: U64) {
    now > m.receivedAt && Sub64(now, m.receivedAt) > maxAge
  }

  /** The wrapping subtraction never wraps: the test is the mathematical age. */
  lemma ExpiredIsAge(now: U64, m: Message, maxAge: U64)
    ensures Expired(now, m, maxAge) <==> now - m.receivedAt > maxAge
  {
    if now > m.receivedAt {
      assert Sub64(now, m.receivedAt) == now - m.receivedAt;
    }
  }

  /** How many messages the eviction pass pops from the front of a queue. */
  function ExpiredPrefix(msgs: seq<Message>, now: U64, maxAge: U64): (n: nat)
    ensures n <= |msgs|
  {
    if msgs != [] && Expired(now, msgs[0], maxAge) then 1 + ExpiredPrefix(msgs[1..], now, maxAge) else 0
  }

  /** The queue after the pass: a suffix, in the original order. */
  function DropExpired(msgs: seq<Message>, now: U64, maxAge: U64): seq<Message> {
    msgs[ExpiredPrefix(msgs, now, maxAge)..]
  }

  /** Whatever the clock did, only messages past their age are popped, and the
      pass stops at the first one that is not. */
  lemma {:induction false} PrefixIsExpired(msgs: seq<Message>, now: U64, maxAge: U64)
    ensures var n := ExpiredPrefix(msgs, now, maxAge);
            && (forall i | 0 <= i < n :: now - msgs[i].receivedAt > maxAge)
            && (n < |msgs| ==> now - msgs[n].receivedAt <= maxAge)
  {
    if msgs != [] {
      ExpiredIsAge(now, msgs[0], maxAge);
      PrefixIsExpired(msgs[1..], now, maxAge);
    }
  }

  function Fresh(msgs: seq<Message>, now: U64, maxAge: U64): seq<Message> {
    if msgs == [] then []
    else (if Expired(now, msgs[0], maxAge) then [] else [msgs[0]]) + Fresh(msgs[1..], now, maxAge)
  }

  /** Popping from the front is exact filtering as long as the clock did not step back. */
  lemma {:induction false} DropExpiredIsFilter(msgs: seq<Message>, now: U64, maxAge: U64)
    requires forall i, j | 0 <= i < j < |msgs| :: msgs[i].receivedAt <= msgs[j].receivedAt
    ensures DropExpired(msgs, now, maxAge) == Fresh(msgs, now, maxAge)
  {
    if msgs != [] {
      DropExpiredIsFilter(msgs[1..], now, maxAge);
      ExpiredIsAge(now, msgs[0], maxAge);
      if !Expired(now, msgs[0], maxAge) && |msgs| > 1 {
        ExpiredIsAge(now, msgs[1], maxAge);
      }
    }
  }

  function Evict(buffers: map<Topic, seq<Message>>, now: U64, maxAge: U64): map<Topic, seq<Message>> {
    map t | t in buffers && DropExpired(buffers[t], now, maxAge) != [] :: DropExpired(buffers[t], now, maxAge)
  }

  /** The cleanup in its two passes: pop every queue, then erase the empty ones. */
  function NonEmpty(buffers: map<Topic, seq<Message>>): map<Topic, seq<Message>> {
    map t | t in buffers && buffers[t] != [] :: buffers[t]
  }

  lemma EvictInTwoPasses(before: map<Topic, seq<Message>>, popped: map<Topic, seq<Message>>, now: U64, maxAge: U64)
    requires popped.Keys == before.Keys
    requires forall t | t in before :: popped[t] == DropExpired(before[t], now, maxAge)
    ensures NonEmpty(popped) == Evict(before, now, maxAge)
  {
  }

  // -------------------------------------------------------------- operations

  function Add(s: State, t: Topic, m: Message, now: U64, maxAge: U64): State {
    var evicted := s.(buffers := Evict(s.buffers, now, maxAge));
    State(
      evicted.buffers[t := Buffered(evicted, t) + [m]],
      s.latched,
      if t in s.latched then s.retained[t := m] else s.retained)
  }

  lemma BufferedAfterAdd(s: State, topic: Topic, m: Message, now: U64, maxAge: U64, t: Topic)
    ensures Buffered(Add(s, topic, m, now, maxAge), t) ==
            DropExpired(Buffered(s, t), now, maxAge) + (if t == topic then [m] else [])
  {
    var kept := DropExpired(Buffered(s, t), now, maxAge);
    var evicted := s.(buffers := Evict(s.buffers, now, maxAge));
    assert Buffered(evicted, t) == kept;
  }

  function SetLatched(s: State, t: Topic, on: bool): State {
    if !on then Unlatch(s, {t})
    else State(
      s.buffers,
      s.latched + {t},
      if t !in s.retained && Buffered(s, t) != [] then s.retained[t := Last(s.buffers[t])] else s.retained)
  }

  /** Clears the latched state of several topics at once. */
  function Unlatch(s: State, ts: set<Topic>): State {
    s.(latched := s.latched - ts, retained := s.retained - ts)
  }

  function ReplaySample(s: State, t: Topic): Option<Message> {
    if t in s.retained && Buffered(s, t) == [] then Some(s.retained[t]) else None
  }

  // --------------------------------------------------------------- invariant

  /** Retained keys are latched topics, no empty queue is stored, and a latched
      topic with buffered messages retains exactly the last of them. */
  ghost predicate Inv(s: State) {
    && s.retained.Keys <= s.latched
    && (forall t | t in s.buffers :: s.buffers[t] != [])
    && (forall t | t in s.buffers && t in s.latched :: t in s.retained && s.retained[t] == Last(s.buffers[t]))
  }

  /** A retained sample is delivered exactly one way: it is either still in the
      normal buffer or handed out for replay. */
  lemma RetainedDeliveredOnce(s: State, t: Topic)
    requires Inv(s) && t in s.retained
    ensures s.retained[t] in Buffered(s, t) <==> ReplaySample(s, t) == None
    ensures ReplaySample(s, t) != None ==> ReplaySample(s, t) == Some(s.retained[t])
  {
    if t in s.buffers {
      assert s.buffers[t][|s.buffers[t]| - 1] == s.retained[t];
    }
  }

  /** One call of the buffer's interface that changes it. */
  datatype Op =
    | OpAdd(topic: Topic, timestamp: U64, data: seq<Byte>, cleanupAt: U64, receivedAt: U64)
    | OpSetLatched(topic: Topic, on: bool)
    | OpMove
    | OpClear

  function Apply(s: State, op: Op, maxAge: U64): State {
    match op
    case OpAdd(t, ts, data, now, received) => Add(s, t, Message(ts, received, data), now, maxAge)
    case OpSetLatched(t, on) => SetLatched(s, t, on)
    case OpMove => s.(buffers := map[])
    case OpClear => Empty
  }

  lemma ApplyKeepsInv(s: State, op: Op, maxAge: U64)
    requires Inv(s)
    ensures Inv(Apply(s, op, maxAge))
  {
    if op.OpAdd? {
      var kept := Evict(s.buffers, op.cleanupAt, maxAge);
      forall t | t in kept
        ensures Last(kept[t]) == Last(s.buffers[t])
      {
        assert kept[t] == DropExpired(s.buffers[t], op.cleanupAt, maxAge);
      }
    }
  }

  // -------------------------------------------------------- history of a run

  /** Why a message left the buffer; eviction records the clock reading. */
  datatype Fate = Evicted(now: U64) | Drained | Cleared

  datatype Departure = Departure(msg: Message, fate: Fate)

  /** A buffer together with everything ever added to and removed from it. */
  datatype Traced = Traced(state: State, added: map<Topic, seq<Message>>, gone: map<Topic, seq<Departure>>)

  function Added(r: Traced, t: Topic): seq<Message> {
    if t in r.added then r.added[t] else []
  }

  function Gone(r: Traced, t: Topic): seq<Departure> {
    if t in r.gone then r.gone[t] else []
  }

  function Tag(msgs: seq<Message>, fate: Fate): seq<Departure> {
    seq(|msgs|, i requires 0 <= i < |msgs| => Departure(msgs[i], fate))
  }

  function Messages(ds: seq<Departure>): seq<Message> {
    seq(|ds|, i requires 0 <= i < |ds| => ds[i].msg)
  }

  /** The messages of topic `t` that `op` removes, and why. */
  function Leaving(s: State, op: Op, maxAge: U64, t: Topic): seq<Departure> {
    match op
    case OpAdd(_, _, _, now, _) =>
      var msgs := Buffered(s, t);
      Tag(msgs[..ExpiredPrefix(msgs, now, maxAge)], Evicted(now))
    case OpSetLatched(_, _) => []
    case OpMove => Tag(Buffered(s, t), Drained)
    case OpClear => Tag(Buffered(s, t), Cleared)
  }

  function Trace(r: Traced, op: Op, maxAge: U64): Traced {
    Traced(
      Apply(r.state, op, maxAge),
      if op.OpAdd? then r.added[op.topic := Added(r, op.topic) + [Message(op.timestamp, op.receivedAt, op.data)]]
      else r.added,
      map t | t in r.gone.Keys + r.state.buffers.Keys :: Gone(r, t) + Leaving(r.state, op, maxAge, t))
  }

  function Run(ops: seq<Op>, maxAge: U64): Traced {
    if ops == [] then Traced(Empty, map[], map[])
    else Trace(Run(ops[..|ops| - 1], maxAge), ops[|ops| - 1], maxAge)
  }

  /** Per topic, what was added is what left followed by what is buffered, in
      order; only messages past their age were evicted; and a retained sample
      is the newest message the topic ever received. */
  ghost predicate Accounted(r: Traced, maxAge: U64) {
    && Inv(r.state)
    && (forall t: Topic :: Added(r, t) == Messages(Gone(r, t)) + Buffered(r.state, t))
    && (forall t: Topic, i | 0 <= i < |Gone(r, t)| && Gone(r, t)[i].fate.Evicted? ::
          Gone(r, t)[i].fate.now - Gone(r, t)[i].msg.receivedAt > maxAge)
    && (forall t | t in r.state.retained :: Added(r, t) != [] && r.state.retained[t] == Last(Added(r, t)))
  }

  lemma MessagesOfTag(ds: seq<Departure>, msgs: seq<Message>, fate: Fate)
    ensures Messages(ds + Tag(msgs, fate)) == Messages(ds) + msgs
  {
  }

  lemma AddAccountsFor(s: State, t: Topic, now: U64, maxAge: U64, before: seq<Departure>)
    ensures Messages(before) + Buffered(s, t) ==
            Messages(before + Tag(Buffered(s, t)[..ExpiredPrefix(Buffered(s, t), now, maxAge)], Evicted(now)))
            + DropExpired(Buffered(s, t), now, maxAge)
  {
    var msgs := Buffered(s, t);
    var n := ExpiredPrefix(msgs, now, maxAge);
    MessagesOfTag(before, msgs[..n], Evicted(now));
    assert msgs == msgs[..n] + msgs[n..];
  }

  /** One step moves messages from the buffer to the departures, in order. */
  lemma LeavingAccountsFor(r: Traced, op: Op, maxAge: U64, t: Topic)
    requires Added(r, t) == Messages(Gone(r, t)) + Buffered(r.state, t)
    ensures Added(Trace(r, op, maxAge), t) ==
            Messages(Gone(r, t) + Leaving(r.state, op, maxAge, t)) + Buffered(Trace(r, op, maxAge).state, t)
  {
    var msgs := Buffered(r.state, t);
    match op
    case OpAdd(topic, ts, data, now, received) =>
      AddAccountsFor(r.state, t, now, maxAge, Gone(r, t));
      var m := Message(ts, received, data);
      BufferedAfterAdd(r.state, topic, m, now, maxAge, t);
      assert Added(Trace(r, op, maxAge), t) == Added(r, t) + (if t == topic then [m] else []);
    case OpSetLatched(_, _) =>
      assert Gone(r, t) + [] == Gone(r, t);
    case OpMove =>
      MessagesOfTag(Gone(r, t), msgs, Drained);
    case OpClear =>
      MessagesOfTag(Gone(r, t), msgs, Cleared);
  }

  lemma GoneAfter(r: Traced, op: Op, maxAge: U64, t: Topic)
    ensures Gone(Trace(r, op, maxAge), t) == Gone(r, t) + Leaving(r.state, op, maxAge, t)
  {
  }

  lemma TraceEvictsExpired(r: Traced, op: Op, maxAge: U64, t: Topic, i: int)
    requires forall j | 0 <= j < |Gone(r, t)| && Gone(r, t)[j].fate.Evicted? ::
               Gone(r, t)[j].fate.now - Gone(r, t)[j].msg.receivedAt > maxAge
    requires 0 <= i < |Gone(Trace(r, op, maxAge), t)| && Gone(Trace(r, op, maxAge), t)[i].fate.Evicted?
    ensures var d := Gone(Trace(r, op, maxAge), t)[i]; d.fate.now - d.msg.receivedAt > maxAge
  {
    GoneAfter(r, op, maxAge, t);
    if i >= |Gone(r, t)| {
      LeavingEvictsExpired(r.state, op, maxAge, t, i - |Gone(r, t)|);
    }
  }

  lemma LeavingEvictsExpired(s: State, op: Op, maxAge: U64, t: Topic, j: int)
    requires 0 <= j < |Leaving(s, op, maxAge, t)| && Leaving(s, op, maxAge, t)[j].fate.Evicted?
    ensures var d := Leaving(s, op, maxAge, t)[j]; d.fate.now - d.msg.receivedAt > maxAge
  {
    PrefixIsExpired(Buffered(s, t), op.cleanupAt, maxAge);
  }

  /** Where a retained sample comes from. */
  lemma RetainedAfter(s: State, op: Op, maxAge: U64, t: Topic)
    requires t in Apply(s, op, maxAge).retained
    ensures var sample := Apply(s, op, maxAge).retained[t];
            || (op.OpAdd? && op.topic == t && sample == Message(op.timestamp, op.receivedAt, op.data))
            || (!(op.OpAdd? && op.topic == t && t in s.latched) && t in s.retained && sample == s.retained[t])
            || (op.OpSetLatched? && Buffered(s, t) != [] && sample == Last(Buffered(s, t)))
  {
  }

  lemma AddedAfter(r: Traced, op: Op, maxAge: U64, t: Topic)
    ensures Added(Trace(r, op, maxAge), t) ==
            if op.OpAdd? && op.topic == t then Added(r, t) + [Message(op.timestamp, op.receivedAt, op.data)]
            else Added(r, t)
  {
  }

  lemma TraceRetainsNewest(r: Traced, op: Op, maxAge: U64, t: Topic)
    requires Accounted(r, maxAge) && t in Trace(r, op, maxAge).state.retained
    ensures var added := Added(Trace(r, op, maxAge), t);
            added != [] && Trace(r, op, maxAge).state.retained[t] == Last(added)
  {
    assert Added(r, t) == Messages(Gone(r, t)) + Buffered(r.state, t);
    RetainedAfter(r.state, op, maxAge, t);
    AddedAfter(r, op, maxAge, t);
  }

  lemma TraceKeepsAccount(r: Traced, op: Op, maxAge: U64)
    requires Accounted(r, maxAge)
    ensures Accounted(Trace(r, op, maxAge), maxAge)
  {
    var r' := Trace(r, op, maxAge);
    ApplyKeepsInv(r.state, op, maxAge);
    forall t: Topic
      ensures Added(r', t) == Messages(Gone(r', t)) + Buffered(r'.state, t)
    {
      LeavingAccountsFor(r, op, maxAge, t);
      GoneAfter(r, op, maxAge, t);
    }
    forall t: Topic, i | 0 <= i < |Gone(r', t)| && Gone(r', t)[i].fate.Evicted?
      ensures Gone(r', t)[i].fate.now - Gone(r', t)[i].msg.receivedAt > maxAge
    {
      TraceEvictsExpired(r, op, maxAge, t, i);
    }
    forall t | t in r'.state.retained
      ensures Added(r', t) != [] && r'.state.retained[t] == Last(Added(r', t))
    {
      TraceRetainsNewest(r, op, maxAge, t);
    }
  }

  /** In every reachable buffer the account holds. */
  lemma {:induction false} EveryRunAccounted(ops: seq<Op>, maxAge: U64)
    ensures Accounted(Run(ops, maxAge), maxAge)
  {
    if ops != [] {
      EveryRunAccounted(ops[..|ops| - 1], maxAge);
      TraceKeepsAccount(Run(ops[..|ops| - 1], maxAge), ops[|ops| - 1], maxAge);
    }
  }

  // -------------------------------------------------- when a sample is retained

  /** The topic was latched at step `i` and has stayed so. */
  ghost predicate LatchedSince(ops: seq<Op>, t: Topic, i: int) {
    && 0 <= i < |ops|
    && ops[i] == OpSetLatched(t, true)
    && forall j | i < j < |ops| :: ops[j] != OpSetLatched(t, false) && ops[j] != OpClear
  }

  /** A message of the topic was buffered at step `i` or arrived later. */
  ghost predicate SampleSince(ops: seq<Op>, maxAge: U64, t: Topic, i: int)
    requires 0 <= i <= |ops|
  {
    || Buffered(Run(ops[..i], maxAge).state, t) != []
    || exists j | i < j < |ops| :: ops[j].OpAdd? && ops[j].topic == t
  }

  ghost predicate HasSample(ops: seq<Op>, maxAge: U64, t: Topic) {
    exists i :: LatchedSince(ops, t, i) && SampleSince(ops, maxAge, t, i)
  }

  lemma LatchedOneMore(front: seq<Op>, op: Op, t: Topic, i: int)
    requires 0 <= i < |front|
    ensures LatchedSince(front + [op], t, i) <==>
            LatchedSince(front, t, i) && op != OpSetLatched(t, false) && op != OpClear
  {
    var ops := front + [op];
    assert ops[|front|] == op;
    if LatchedSince(ops, t, i) {
      assert forall j | i < j < |front| :: ops[j] == front[j];
    }
  }

  lemma SampleOneMore(front: seq<Op>, op: Op, maxAge: U64, t: Topic, i: int)
    requires 0 <= i < |front|
    ensures SampleSince(front + [op], maxAge, t, i) <==>
            SampleSince(front, maxAge, t, i) || (op.OpAdd? && op.topic == t)
  {
    var ops := front + [op];
    assert ops[..i] == front[..i] && ops[|front|] == op;
    assert forall j | 0 <= j < |front| :: ops[j] == front[j];
    if SampleSince(front, maxAge, t, i) && Buffered(Run(ops[..i], maxAge).state, t) == [] {
      var j :| i < j < |front| && front[j].OpAdd? && front[j].topic == t;
      assert ops[j] == front[j];
    }
  }

  /** A topic is latched exactly if some call latched it and none undid that. */
  lemma {:induction false} LatchedExactly(ops: seq<Op>, maxAge: U64, t: Topic)
    ensures t in Run(ops, maxAge).state.latched <==> exists i :: LatchedSince(ops, t, i)
  {
    if ops != [] {
      var front, op := ops[..|ops| - 1], ops[|ops| - 1];
      assert front + [op] == ops;
      LatchedExactly(front, maxAge, t);
      forall i | 0 <= i < |front|
        ensures LatchedSince(ops, t, i) <==>
                LatchedSince(front, t, i) && op != OpSetLatched(t, false) && op != OpClear
      {
        LatchedOneMore(front, op, t, i);
      }
      if op == OpSetLatched(t, true) {
        assert LatchedSince(ops, t, |front|);
      }
      if exists i :: LatchedSince(front, t, i) {
        var i :| LatchedSince(front, t, i);
        assert op != OpSetLatched(t, false) && op != OpClear ==> LatchedSince(ops, t, i);
      }
    }
  }

  /** How one call changes whether the topic has a retained sample. */
  lemma RetainsAfter(s: State, op: Op, maxAge: U64, t: Topic)
    ensures t in Apply(s, op, maxAge).retained <==>
            match op
            case OpAdd(topic, _, _, _, _) => t in s.retained || (topic == t && t in s.latched)
            case OpSetLatched(topic, on) =>
              if topic == t then on && (t in s.retained || Buffered(s, t) != []) else t in s.retained
            case OpMove => t in s.retained
            case OpClear => false
  {
  }

  /** Over every run, a topic has a retained sample exactly if it was latched,
      has stayed so, and a message was buffered then or arrived since. */
  lemma {:induction false} RetainedExactly(ops: seq<Op>, maxAge: U64, t: Topic)
    ensures t in Run(ops, maxAge).state.retained <==> HasSample(ops, maxAge, t)
  {
    if ops != [] {
      var front, op := ops[..|ops| - 1], ops[|ops| - 1];
      assert front + [op] == ops;
      RetainedExactly(front, maxAge, t);
      LatchedExactly(front, maxAge, t);
      RetainsAfter(Run(front, maxAge).state, op, maxAge, t);
      RetainedStep(front, op, maxAge, t);
    }
  }

  lemma RetainedStep(front: seq<Op>, op: Op, maxAge: U64, t: Topic)
    ensures HasSample(front + [op], maxAge, t) <==>
            match op
            case OpAdd(topic, _, _, _, _) =>
              HasSample(front, maxAge, t) || (topic == t && exists i :: LatchedSince(front, t, i))
            case OpSetLatched(topic, on) =>
              if topic == t then on && (HasSample(front, maxAge, t) || Buffered(Run(front, maxAge).state, t) != [])
              else HasSample(front, maxAge, t)
            case OpMove => HasSample(front, maxAge, t)
            case OpClear => false
  {
    var ops := front + [op];
    forall i | 0 <= i < |front|
      ensures LatchedSince(ops, t, i) <==> LatchedSince(front, t, i) && op != OpSetLatched(t, false) && op != OpClear
      ensures SampleSince(ops, maxAge, t, i) <==> SampleSince(front, maxAge, t, i) || (op.OpAdd? && op.topic == t)
    {
      LatchedOneMore(front, op, t, i);
      SampleOneMore(front, op, maxAge, t, i);
    }
    assert ops[..|front|] == front;
    assert LatchedSince(ops, t, |front|) <==> op == OpSetLatched(t, true);
    assert SampleSince(ops, maxAge, t, |front|) <==> Buffered(Run(front, maxAge).state, t) != [];
    if i :| LatchedSince(front, t, i) && SampleSince(front, maxAge, t, i) {
      assert op != OpSetLatched(t, false) && op != OpClear ==>
          LatchedSince(ops, t, i) && SampleSince(ops, maxAge, t, i);
    }
    if i :| LatchedSince(front, t, i) {
      assert op.OpAdd? && op.topic == t ==> LatchedSince(ops, t, i) && SampleSince(ops, maxAge, t, i);
    }
  }

  // ------------------------------------------------- eviction over whole runs

  /** The last time a message was received. */
  function LastReading(ops: seq<Op>): U64 {
    if ops == [] then 0
    else if ops[|ops| - 1].OpAdd? then ops[|ops| - 1].receivedAt
    else LastReading(ops[..|ops| - 1])
  }

  /** The clock never steps back. */
  predicate ClockMonotone(ops: seq<Op>) {
    ops == [] ||
    var front, op := ops[..|ops| - 1], ops[|ops| - 1];
    ClockMonotone(front) && (op.OpAdd? ==> LastReading(front) <= op.cleanupAt <= op.receivedAt)
  }

  predicate ReceivedInOrder(msgs: seq<Message>, latest: U64) {
    && (forall i, j | 0 <= i < j < |msgs| :: msgs[i].receivedAt <= msgs[j].receivedAt)
    && (forall i | 0 <= i < |msgs| :: msgs[i].receivedAt <= latest)
  }

  lemma {:induction false} BufferedInOrder(ops: seq<Op>, maxAge: U64, t: Topic)
    requires ClockMonotone(ops)
    ensures ReceivedInOrder(Buffered(Run(ops, maxAge).state, t), LastReading(ops))
  {
    if ops != [] {
      var front, op := ops[..|ops| - 1], ops[|ops| - 1];
      BufferedInOrder(front, maxAge, t);
      var s := Run(front, maxAge).state;
      if op.OpAdd? {
        var m := Message(op.timestamp, op.receivedAt, op.data);
        BufferedAfterAdd(s, op.topic, m, op.cleanupAt, maxAge, t);
        var more := if op.topic == t then [m] else [];
        AddKeepsOrder(Buffered(s, t), LastReading(front), op.cleanupAt, maxAge, more, op.receivedAt);
      } else {
        assert Buffered(Run(ops, maxAge).state, t) == if op.OpSetLatched? then Buffered(s, t) else [];
      }
    }
  }

  lemma AddKeepsOrder(msgs: seq<Message>, latest: U64, now: U64, maxAge: U64, more: seq<Message>, received: U64)
    requires ReceivedInOrder(msgs, latest) && latest <= received
    requires |more| <= 1 && forall m | m in more :: m.receivedAt == received
    ensures ReceivedInOrder(DropExpired(msgs, now, maxAge) + more, received)
  {
  }

  /** While the clock never steps back, each arrival evicts, in every topic,
      exactly the messages older than the limit. */
  lemma EvictionIsExact(ops: seq<Op>, op: Op, maxAge: U64, t: Topic)
    requires ClockMonotone(ops + [op]) && op.OpAdd?
    ensures var before := Buffered(Run(ops, maxAge).state, t);
            var after := Buffered(Run(ops + [op], maxAge).state, t);
            && after == Fresh(before, op.cleanupAt, maxAge)
                        + (if op.topic == t then [Message(op.timestamp, op.receivedAt, op.data)] else [])
            && forall i | 0 <= i < |after| :: op.cleanupAt - after[i].receivedAt <= maxAge
  {
    assert (ops + [op])[..|ops|] == ops;
    var s := Run(ops, maxAge).state;
    BufferedInOrder(ops, maxAge, t);
    DropExpiredIsFilter(Buffered(s, t), op.cleanupAt, maxAge);
    BufferedAfterAdd(s, op.topic, Message(op.timestamp, op.receivedAt, op.data), op.cleanupAt, maxAge, t);
    FreshIsYoung(Buffered(s, t), op.cleanupAt, maxAge);
  }

  lemma {:induction false} FreshIsYoung(msgs: seq<Message>, now: U64, maxAge: U64)
    ensures forall i | 0 <= i < |Fresh(msgs, now, maxAge)| :: now - Fresh(msgs, now, maxAge)[i].receivedAt <= maxAge
  {
    if msgs != [] {
      ExpiredIsAge(now, msgs[0], maxAge);
      FreshIsYoung(msgs[1..], now, maxAge);
    }
  }

  /** A client that joins a latched topic is served the newest message the
      topic ever received exactly one way if any is buffered or retained, and
      nothing otherwise. */
  lemma JoiningLatchedTopic(ops: seq<Op>, maxAge: U64, t: Topic)
    ensures var r := Run(ops, maxAge);
            var joined := SetLatched(r.state, t, true);
            var newest := Added(r, t);
            if Buffered(joined, t) != [] then
              newest != [] && Last(Buffered(joined, t)) == Last(newest) && ReplaySample(joined, t) == None
            else if t in r.state.retained then
              newest != [] && ReplaySample(joined, t) == Some(Last(newest))
            else
              ReplaySample(joined, t) == None && !HasSample(ops, maxAge, t)
  {
    EveryRunAccounted(ops, maxAge);
    RetainedExactly(ops, maxAge, t);
    var r := Run(ops, maxAge);
    assert Added(r, t) == Messages(Gone(r, t)) + Buffered(r.state, t);
  }

  // --------------------------------------------------------------- the class

  class MessageBuffer {
    var topicBuffers: map<Topic, seq<Message>>
    var latchedTopics: set<Topic>
    var latchedLast: map<Topic, Message>
    const maxMessageAge: U64

    ghost function Value(): State
      reads this
    {
      State(topicBuffers, latchedTopics, latchedLast)
    }

    constructor (maxMessageAge: U64)
      ensures Value() == Empty && this.maxMessageAge == maxMessageAge
    {
      this.maxMessageAge := maxMessageAge;
      topicBuffers, latchedTopics, latchedLast := map[], {}, map[];
    }

    /** Receives the two clock readings the call makes: one for the eviction
        pass and a later one for the new message. */
    method AddMessage(topic: Topic, timestamp: U64, data: seq<Byte>, cleanupAt: U64, receivedAt: U64)
      modifies this
      ensures Value() == old(Apply(Value(), OpAdd(topic, timestamp, data, cleanupAt, receivedAt), maxMessageAge))
    {
      CleanupOldMessages(cleanupAt);
      ghost var evicted := Value();
      var msg := Message(timestamp, receivedAt, data);
      if topic in latchedTopics {
        latchedLast := latchedLast[topic := msg];
      }
      var queue := if topic in topicBuffers then topicBuffers[topic] else [];
      assert queue == Buffered(evicted, topic);
      topicBuffers := topicBuffers[topic := queue + [msg]];
      assert Value() == Add(old(Value()), topic, msg, cleanupAt, maxMessageAge);
    }

    method SetLatched(topic: Topic, latched: bool)
      modifies this
      ensures Value() == old(Apply(Value(), OpSetLatched(topic, latched), maxMessageAge))
    {
      if latched {
        latchedTopics := latchedTopics + {topic};
        if topic !in latchedLast && topic in topicBuffers && topicBuffers[topic] != [] {
          latchedLast := latchedLast[topic := topicBuffers[topic][|topicBuffers[topic]| - 1]];
        }
      } else {
        latchedTopics := latchedTopics - {topic};
        latchedLast := latchedLast - {topic};
      }
    }

    method GetLatchedForReplay(topic: Topic) returns (sample: Option<Message>)
      ensures sample == ReplaySample(Value(), topic)
    {
      if topic !in latchedLast {
        return None;
      }
      if topic in topicBuffers && topicBuffers[topic] != [] {
        return None;
      }
      return Some(latchedLast[topic]);
    }

    /** Replaces the caller's map by the buffered messages and empties the buffer. */
    method MoveMessages() returns (moved: map<Topic, seq<Message>>)
      modifies this
      ensures moved == old(topicBuffers)
      ensures Value() == old(Apply(Value(), OpMove, maxMessageAge))
    {
      moved := topicBuffers;
      topicBuffers := map[];
    }

    method Clear()
      modifies this
      ensures Value() == Empty
    {
      topicBuffers, latchedTopics, latchedLast := map[], {}, map[];
    }

    method CleanupOldMessages(now: U64)
      modifies this
      ensures Value() == old(Value().(buffers := Evict(topicBuffers, now, maxMessageAge)))
    {
      ghost var before := topicBuffers;
      var todo := topicBuffers.Keys;
      while todo != {}
        invariant todo <= before.Keys == topicBuffers.Keys
        invariant forall t | t in todo :: topicBuffers[t] == before[t]
        invariant forall t | t in before && t !in todo :: topicBuffers[t] == DropExpired(before[t], now, maxMessageAge)
        invariant latchedTopics == old(latchedTopics) && latchedLast == old(latchedLast)
        decreases |todo|
      {
        var topic :| topic in todo;
        var kept := PopExpired(topicBuffers[topic], now);
        topicBuffers := topicBuffers[topic := kept];
        todo := todo - {topic};
      }
      EvictInTwoPasses(before, topicBuffers, now, maxMessageAge);
      EraseEmpty();
    }

    /** The inner loop of the cleanup, on one topic's queue. */
    method PopExpired(queue: seq<Message>, now: U64) returns (kept: seq<Message>)
      ensures kept == DropExpired(queue, now, maxMessageAge)
    {
      kept := queue;
      while kept != []
        invariant DropExpired(kept, now, maxMessageAge) == DropExpired(queue, now, maxMessageAge)
        decreases |kept|
      {
        if Expired(now, kept[0], maxMessageAge) {
          kept := kept[1..];
        } else {
          break;
        }
      }
    }

    method EraseEmpty()
      modifies this
      ensures topicBuffers == old(NonEmpty(topicBuffers))
      ensures latchedTopics == old(latchedTopics) && latchedLast == old(latchedLast)
    {
      ghost var before := topicBuffers;
      var todo := topicBuffers.Keys;
      while todo != {}
        invariant todo <= topicBuffers.Keys <= before.Keys
        invariant forall t | t in topicBuffers :: topicBuffers[t] == before[t]
        invariant forall t | t in before && t !in todo :: t in topicBuffers <==> before[t] != []
        invariant latchedTopics == old(latchedTopics) && latchedLast == old(latchedLast)
        decreases |todo|
      {
        var topic :| topic in todo;
        if topicBuffers[topic] == [] {
          topicBuffers := topicBuffers - {topic};
        }
        todo := todo - {topic};
      }
    }
  }
}
