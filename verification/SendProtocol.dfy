/**
 Sending binary frames as a state machine: one step per section under the
 clients lock and per call into the socket.  Every client has its own producer,
 with at most one send in flight; connections, disconnects, discards, shutdown
 and socket drains may land between any two steps.
 */
module SendProtocol {
  import opened Common
  import opened Backpressure
  import opened Middleware

  datatype Config = Config(watermark: nat, capacity: nat)

  // ----------------------------------------------------------- one send call

  /** Where a send stands: what it waits for next.  `low` is the last reading of
      the socket's buffered amount. */
  datatype Call =
    | Idle(last: Option<Outcome>)
    | Flushing(frame: Frame, maxFlush: nat, flushed: nat, low: nat)
    | Popping(frame: Frame, maxFlush: nat, flushed: nat, low: nat)
    | Feeding(queued: Frame, frame: Frame, maxFlush: nat, flushed: nat, low: nat)
    | Deciding(frame: Frame, flushed: nat, low: nat)
    | Transmitting(frame: Frame, flushed: nat)
    | Congested(frame: Frame, flushed: nat)

  /** What a call learns in one step. */
  datatype Seen =
    | Amount(amount: nat)
    | Front(front: Option<Frame>)
    | Accepted(ok: bool)
    | Settled(result: SendResult, dropped: nat)

  function Loop(frame: Frame, maxFlush: nat, flushed: nat, low: nat): Call {
    if flushed < maxFlush then Flushing(frame, maxFlush, flushed, low) else Deciding(frame, flushed, low)
  }

  function Done(result: SendResult, flushed: nat, dropped: nat): Call {
    Idle(Some(Outcome(result, flushed, dropped)))
  }

  function Advance(call: Call, seen: Seen, watermark: nat): Call {
    match (call, seen)
    case (Flushing(f, m, k, _), Amount(n)) =>
      if n < watermark then Popping(f, m, k, n) else Deciding(f, k, n)
    case (Popping(f, m, k, low), Front(front)) =>
      if front == None then Deciding(f, k, low) else Feeding(front.value, f, m, k, low)
    case (Feeding(_, f, m, k, low), Accepted(ok)) =>
      if ok then Loop(f, m, k + 1, low) else Done(ClientGone, k, 0)
    case (Deciding(f, k, _), Amount(n)) =>
      if n < watermark then Transmitting(f, k) else Congested(f, k)
    case (Transmitting(_, k), Accepted(ok)) =>
      Done(if ok then Delivered else ClientGone, k, 0)
    case (Congested(_, k), Settled(result, dropped)) =>
      Done(result, k, dropped)
    case _ => call
  }

  /** A bound on the steps a call has left. */
  function StepsLeft(call: Call): nat {
    match call
    case Idle(_) => 0
    case Flushing(_, m, k, _) => if k < m then 3 * (m - k) + 2 else 2
    case Popping(_, m, k, _) => if k < m then 3 * (m - k) + 1 else 4
    case Feeding(_, _, m, k, _) => if k < m then 3 * (m - k) else 3
    case Deciding(_, _, _) => 2
    case Transmitting(_, _) => 1
    case Congested(_, _) => 1
  }

  predicate WithinFlush(call: Call) {
    match call
    case Flushing(_, m, k, _) => k < m
    case Popping(_, m, k, _) => k < m
    case Feeding(_, _, m, k, _) => k < m
    case _ => true
  }

  /** The answer a pending call gets next from its callbacks. */
  function Reply(a: Answers, call: Call): Seen {
    match call
    case Flushing(_, _, k, _) => Amount(a.amount(k))
    case Popping(_, _, k, _) => Front(a.pop(k))
    case Feeding(_, _, _, k, _) => Accepted(a.accepts(k))
    case Deciding(_, _, _) => Amount(a.finalAmount)
    case Transmitting(_, _) => Accepted(a.acceptsFrame)
    case Congested(f, _) =>
      if f.heavy then Settled(Shed, 0)
      else if a.queued == None then Settled(ClientGone, 0)
      else Settled(Queued, a.queued.value)
    case Idle(_) => Amount(0)
  }

  /** Every step brings a call closer to its end. */
  lemma CallsTerminate(a: Answers, call: Call, watermark: nat)
    requires WithinFlush(call) && !call.Idle?
    ensures var next := Advance(call, Reply(a, call), watermark);
            WithinFlush(next) && StepsLeft(next) < StepsLeft(call)
  {
  }

  function Drive(a: Answers, call: Call, watermark: nat): Call
    requires WithinFlush(call)
    decreases StepsLeft(call)
  {
    if call.Idle? then call
    else
      CallsTerminate(a, call, watermark);
      Drive(a, Advance(call, Reply(a, call), watermark), watermark)
  }

  lemma DriveDeciding(a: Answers, frame: Frame, watermark: nat, k: nat, low: nat)
    ensures Drive(a, Deciding(frame, k, low), watermark) == Idle(Some(Conclude(a, frame, watermark, Flushed(k, false))))
  {
    var next := Advance(Deciding(frame, k, low), Amount(a.finalAmount), watermark);
    assert Drive(a, Deciding(frame, k, low), watermark) == Drive(a, next, watermark);
    var last := Advance(next, Reply(a, next), watermark);
    assert Drive(a, next, watermark) == Drive(a, last, watermark) == last;
  }

  lemma {:induction false} DriveFlush(a: Answers, frame: Frame, watermark: nat, maxFlush: nat, k: nat, low: nat)
    requires k <= maxFlush
    ensures Drive(a, Loop(frame, maxFlush, k, low), watermark) ==
            Idle(Some(Conclude(a, frame, watermark, FlushFrom(a, watermark, maxFlush, k))))
    decreases maxFlush - k
  {
    var n := a.amount(k);
    if k >= maxFlush {
      DriveDeciding(a, frame, watermark, k, low);
    } else if n >= watermark {
      DriveDeciding(a, frame, watermark, k, n);
    } else {
      DrivePopping(a, frame, watermark, maxFlush, k, n);
      if a.pop(k) == None {
        DriveDeciding(a, frame, watermark, k, n);
      } else if a.accepts(k) {
        DriveFlush(a, frame, watermark, maxFlush, k + 1, n);
      }
    }
  }

  lemma DrivePopping(a: Answers, frame: Frame, watermark: nat, maxFlush: nat, k: nat, low: nat)
    requires k < maxFlush
    ensures Drive(a, Popping(frame, maxFlush, k, low), watermark) ==
            if a.pop(k) == None then Drive(a, Deciding(frame, k, low), watermark)
            else if a.accepts(k) then Drive(a, Loop(frame, maxFlush, k + 1, low), watermark)
            else Done(ClientGone, k, 0)
  {
    if a.pop(k) != None {
      var feeding := Feeding(a.pop(k).value, frame, maxFlush, k, low);
      assert Drive(a, Popping(frame, maxFlush, k, low), watermark) == Drive(a, feeding, watermark);
      assert Drive(a, feeding, watermark) == Drive(a, Advance(feeding, Accepted(a.accepts(k)), watermark), watermark);
    }
  }

  /** Stepping a call through any answers yields what the policy loop returns
      for them. */
  lemma StepsFollowPolicy(a: Answers, frame: Frame, watermark: nat, maxFlush: nat)
    ensures Drive(a, Loop(frame, maxFlush, 0, 0), watermark) == Idle(Some(Policy(a, frame, watermark, maxFlush)))
  {
    DriveFlush(a, frame, watermark, maxFlush, 0, 0);
  }

  // ------------------------------------------------------------ the machine

  /** One client's socket with the frame and text bytes it still holds, the send
      in flight for it, and what has become of every frame submitted so far. */
  datatype Track = Track(
    joined: bool,
    binary: nat,
    text: nat,
    call: Call,
    submitted: seq<Frame>,
    wire: seq<Frame>,
    evicted: multiset<Frame>,
    shed: multiset<Frame>,
    discarded: multiset<Frame>,
    lost: multiset<Frame>)

  const NewTrack := Track(false, 0, 0, Idle(None), [], [], multiset{}, multiset{}, multiset{}, multiset{})

  /** What the socket reports: it does not tell frames from text. */
  function BufferedAmount(t: Track): nat {
    t.binary + t.text
  }

  /** `Read` asks the socket for its buffered amount; `Drain` is the network
      taking bytes away, down to the given ones, `ReplySent` a text response
      going out. */
  datatype Event =
    | Open
    | Close
    | DropPending
    | Submit(frame: Frame)
    | Read
    | Pop
    | Transmit(ok: bool)
    | Settle
    | Drain(binary: nat, text: nat)
    | ReplySent(size: nat)

  datatype Step = At(client: Client, event: Event) | Shutdown

  datatype State = State(core: Core, tracks: map<Client, Track>)

  function Submitted(core: Core, t: Track, c: Client, frame: Frame): Track {
    var t' := t.(submitted := t.submitted + [frame]);
    var found := FlushBound(core, c);
    if found == None then t'.(call := Done(ClientGone, 0, 0), lost := t.lost + multiset{frame})
    else t'.(call := Loop(frame, found.value, 0, 0))
  }

  function Transmitted(t: Track, ok: bool, watermark: nat): Track {
    var t' := t.(call := Advance(t.call, Accepted(ok), watermark));
    match t.call
    case Feeding(queued, frame, _, _, _) =>
      if ok then t'.(wire := t.wire + [queued], binary := t.binary + queued.size)
      else t'.(lost := t.lost + multiset{queued, frame})
    case Transmitting(frame, _) =>
      if ok then t'.(wire := t.wire + [frame], binary := t.binary + frame.size)
      else t'.(lost := t.lost + multiset{frame})
    case _ => t
  }

  /** The last section of a congested send: shed, queue, or the client has left. */
  function SettledTrack(core: Core, t: Track, c: Client, cfg: Config): Track
    requires t.call.Congested?
  {
    var frame := t.call.frame;
    if c !in core.clients then
      t.(call := Advance(t.call, Settled(ClientGone, 0), cfg.watermark), lost := t.lost + multiset{frame})
    else if frame.heavy then
      t.(call := Advance(t.call, Settled(Shed, 0), cfg.watermark), shed := t.shed + multiset{frame})
    else
      var out := Evicted(QueueOf(core, c), frame, cfg.capacity);
      t.(call := Advance(t.call, Settled(Queued, |out|), cfg.watermark), evicted := t.evicted + multiset(out))
  }

  function Tracked(core: Core, t: Track, c: Client, e: Event, cfg: Config): Track {
    match e
    case Open => if t.joined then t else t.(joined := true)
    case Close => t.(discarded := t.discarded + multiset(Backlog(core, c)))
    case DropPending => t.(discarded := t.discarded + multiset(Backlog(core, c)))
    case Submit(frame) => if t.call.Idle? then Submitted(core, t, c, frame) else t
    case Read => t.(call := Advance(t.call, Amount(BufferedAmount(t)), cfg.watermark))
    case Pop => if t.call.Popping? then t.(call := Advance(t.call, Front(Oldest(core, c)), cfg.watermark)) else t
    case Transmit(ok) => Transmitted(t, ok, cfg.watermark)
    case Settle => if t.call.Congested? then SettledTrack(core, t, c, cfg) else t
    case Drain(binary, text) => if binary <= t.binary && text <= t.text then t.(binary := binary, text := text) else t
    case ReplySent(size) => t.(text := t.text + size)
  }

  function Shared(core: Core, t: Track, c: Client, e: Event, cfg: Config): Core {
    match e
    case Open => if t.joined then core else core.(clients := core.clients + {c})
    case Close => Leave(core, c)
    case DropPending => Discard(core, c)
    case Pop => if t.call.Popping? then Popped(core, c) else core
    case Settle =>
      if !t.call.Congested? then core
      else if t.call.frame.heavy then Counted(core, c)
      else Enqueued(core, c, t.call.frame, cfg.capacity)
    case _ => core
  }

  ghost function Apply(s: State, step: Step, cfg: Config): State {
    match step
    case At(c, e) =>
      if c !in s.tracks then s
      else State(Shared(s.core, s.tracks[c], c, e, cfg), s.tracks[c := Tracked(s.core, s.tracks[c], c, e, cfg)])
    case Shutdown =>
      State(Stopped(s.core), map c | c in s.tracks :: Tracked(s.core, s.tracks[c], c, Close, cfg))
  }

  ghost function Init(ids: set<Client>): State {
    State(Core({}, map[], 0, 0), map c | c in ids :: NewTrack)
  }

  ghost function Run(ids: set<Client>, steps: seq<Step>, cfg: Config): State {
    if steps == [] then Init(ids) else Apply(Run(ids, steps[..|steps| - 1], cfg), steps[|steps| - 1], cfg)
  }

  // ------------------------------------------------------------ conservation

  /** A frame popped from the backlog and not yet given to the socket. */
  function InHand(call: Call): seq<Frame> {
    if call.Feeding? then [call.queued] else []
  }

  function Current(call: Call): seq<Frame> {
    if call.Idle? then [] else [call.frame]
  }

  /** How many copies of a frame each place holds, over all places a submitted
      frame can be in. */
  function Copies(f: Frame, backlog: seq<Frame>, t: Track): nat {
    multiset(t.wire)[f] + multiset(InHand(t.call))[f] + multiset(backlog)[f] + multiset(Current(t.call))[f]
    + t.evicted[f] + t.shed[f] + t.discarded[f] + t.lost[f]
  }

  /** Every submission of the frame is in exactly one place. */
  predicate Conserved(f: Frame, backlog: seq<Frame>, t: Track) {
    multiset(t.submitted)[f] == Copies(f, backlog, t)
  }

  lemma SubmitConserves(f: Frame, core: Core, t: Track, c: Client, frame: Frame)
    requires Conserved(f, Backlog(core, c), t) && t.call.Idle?
    ensures Conserved(f, Backlog(core, c), Submitted(core, t, c, frame))
  {
  }

  lemma OneMore(f: Frame, s: seq<Frame>, x: Frame)
    ensures multiset(s + [x])[f] == multiset(s)[f] + multiset([x])[f]
  {
  }

  lemma FeedConserves(f: Frame, backlog: seq<Frame>, t: Track, ok: bool, watermark: nat)
    requires Conserved(f, backlog, t) && t.call.Feeding?
    ensures Conserved(f, backlog, Transmitted(t, ok, watermark))
  {
    var t', queued, frame := Transmitted(t, ok, watermark), t.call.queued, t.call.frame;
    assert InHand(t'.call) == [] && Current(t'.call) == if ok then [frame] else [];
    if ok {
      OneMore(f, t.wire, queued);
    } else {
      assert t'.lost[f] == t.lost[f] + multiset([queued])[f] + multiset([frame])[f];
    }
  }

  lemma TransmitConserves(f: Frame, backlog: seq<Frame>, t: Track, ok: bool, watermark: nat)
    requires Conserved(f, backlog, t) && t.call.Transmitting?
    ensures Conserved(f, backlog, Transmitted(t, ok, watermark))
  {
    var next := Done(if ok then Delivered else ClientGone, t.call.flushed, 0);
    TransmittedIs(t, ok, watermark);
    if ok {
      WireConserves(f, backlog, t, next, t.binary + t.call.frame.size);
    } else {
      LossConserves(f, backlog, t, next);
    }
  }

  lemma TransmittedIs(t: Track, ok: bool, watermark: nat)
    requires t.call.Transmitting?
    ensures var frame := t.call.frame;
            var next := Done(if ok then Delivered else ClientGone, t.call.flushed, 0);
            Transmitted(t, ok, watermark) ==
            if ok then t.(call := next, wire := t.wire + [frame], binary := t.binary + frame.size)
            else t.(call := next, lost := t.lost + multiset{frame})
  {
  }

  lemma WireConserves(f: Frame, backlog: seq<Frame>, t: Track, next: Call, binary: nat)
    requires Conserved(f, backlog, t) && t.call.Transmitting? && next.Idle?
    ensures Conserved(f, backlog, t.(call := next, wire := t.wire + [t.call.frame], binary := binary))
  {
    OneMore(f, t.wire, t.call.frame);
  }

  lemma LossConserves(f: Frame, backlog: seq<Frame>, t: Track, next: Call)
    requires Conserved(f, backlog, t) && t.call.Transmitting? && next.Idle?
    ensures Conserved(f, backlog, t.(call := next, lost := t.lost + multiset{t.call.frame}))
  {
    assert (t.lost + multiset{t.call.frame})[f] == t.lost[f] + multiset([t.call.frame])[f];
  }

  lemma TakeConserves(f: Frame, backlog: seq<Frame>, t: Track, next: Call)
    requires Conserved(f, backlog, t) && backlog != []
    requires InHand(t.call) == [] && InHand(next) == [backlog[0]] && Current(next) == Current(t.call)
    ensures Conserved(f, backlog[1..], t.(call := next))
  {
    assert backlog == [backlog[0]] + backlog[1..];
    assert multiset([backlog[0]] + backlog[1..])[f] == multiset([backlog[0]])[f] + multiset(backlog[1..])[f];
  }

  lemma PopConserves(f: Frame, core: Core, t: Track, c: Client, cfg: Config)
    requires Conserved(f, Backlog(core, c), t) && t.call.Popping?
    ensures var next := Advance(t.call, Front(Oldest(core, c)), cfg.watermark);
            Conserved(f, Backlog(Popped(core, c), c), t.(call := next))
  {
    var b, next := Backlog(core, c), Advance(t.call, Front(Oldest(core, c)), cfg.watermark);
    assert Current(next) == Current(t.call);
    if b != [] {
      assert Backlog(Popped(core, c), c) == b[1..];
      TakeConserves(f, b, t, next);
    }
  }

  lemma PushConserves(f: Frame, q: Queue, frame: Frame, capacity: nat)
    requires |q.frames| <= capacity
    ensures multiset(Evicted(q, frame, capacity))[f] + multiset(Push(q, frame, capacity).frames)[f] ==
            multiset(q.frames)[f] + multiset{frame}[f]
  {
    PushAccounts(q, frame, capacity);
    var out, rest := Evicted(q, frame, capacity), Push(q, frame, capacity).frames;
    assert multiset(out + rest)[f] == multiset(q.frames + [frame])[f];
  }

  lemma SettleConserves(f: Frame, core: Core, t: Track, c: Client, cfg: Config)
    requires Conserved(f, Backlog(core, c), t) && t.call.Congested?
    ensures c !in core.clients || t.call.frame.heavy ==>
              Conserved(f, Backlog(core, c), SettledTrack(core, t, c, cfg))
  {
    var t', frame := SettledTrack(core, t, c, cfg), t.call.frame;
    assert InHand(t'.call) == [] && Current(t'.call) == [];
    if c !in core.clients {
      assert t'.lost[f] == t.lost[f] + multiset([frame])[f];
    } else if frame.heavy {
      assert t'.shed[f] == t.shed[f] + multiset([frame])[f];
    }
  }

  lemma QueueConserves(f: Frame, core: Core, t: Track, c: Client, cfg: Config)
    requires Conserved(f, Backlog(core, c), t) && t.call.Congested? && |Backlog(core, c)| <= cfg.capacity
    requires c in core.clients && !t.call.frame.heavy
    ensures Conserved(f, Backlog(Enqueued(core, c, t.call.frame, cfg.capacity), c), SettledTrack(core, t, c, cfg))
  {
    var t', frame := SettledTrack(core, t, c, cfg), t.call.frame;
    assert InHand(t'.call) == [] && Current(t'.call) == [];
    PushConserves(f, QueueOf(core, c), frame, cfg.capacity);
    assert t'.evicted[f] == t.evicted[f] + multiset(Evicted(QueueOf(core, c), frame, cfg.capacity))[f];
  }

  lemma ReadKeepsHands(call: Call, amount: nat, watermark: nat)
    ensures var next := Advance(call, Amount(amount), watermark);
            InHand(next) == InHand(call) && Current(next) == Current(call)
  {
  }

  lemma CallConserves(f: Frame, backlog: seq<Frame>, t: Track, next: Call)
    requires Conserved(f, backlog, t) && InHand(next) == InHand(t.call) && Current(next) == Current(t.call)
    ensures Conserved(f, backlog, t.(call := next))
  {
  }

  /** What others do to a client moves frames only from its backlog to the
      discarded ones. */
  lemma SurroundingsConserve(f: Frame, core: Core, t: Track, c: Client, e: Event, cfg: Config)
    requires Conserved(f, Backlog(core, c), t)
    requires e.Open? || e.Close? || e.DropPending? || e.Drain? || e.ReplySent?
    ensures Conserved(f, Backlog(Shared(core, t, c, e, cfg), c), Tracked(core, t, c, e, cfg))
  {
    if e.Close? || e.DropPending? {
      assert Backlog(Shared(core, t, c, e, cfg), c) == [];
      DiscardConserves(f, Backlog(core, c), t);
    } else {
      assert Backlog(Shared(core, t, c, e, cfg), c) == Backlog(core, c);
      SocketConserves(f, Backlog(core, c), t, Tracked(core, t, c, e, cfg));
    }
  }

  lemma SocketConserves(f: Frame, backlog: seq<Frame>, t: Track, t': Track)
    requires Conserved(f, backlog, t)
    requires t' == t.(joined := t'.joined, binary := t'.binary, text := t'.text)
    ensures Conserved(f, backlog, t')
  {
  }

  lemma DiscardConserves(f: Frame, backlog: seq<Frame>, t: Track)
    requires Conserved(f, backlog, t)
    ensures Conserved(f, [], t.(discarded := t.discarded + multiset(backlog)))
  {
  }

  lemma TransmitEventConserves(f: Frame, core: Core, t: Track, c: Client, ok: bool, cfg: Config)
    requires Conserved(f, Backlog(core, c), t)
    ensures Conserved(f, Backlog(Shared(core, t, c, Transmit(ok), cfg), c), Tracked(core, t, c, Transmit(ok), cfg))
  {
    assert Shared(core, t, c, Transmit(ok), cfg) == core;
    assert Tracked(core, t, c, Transmit(ok), cfg) == Transmitted(t, ok, cfg.watermark);
    if t.call.Feeding? {
      FeedConserves(f, Backlog(core, c), t, ok, cfg.watermark);
    } else if t.call.Transmitting? {
      TransmitConserves(f, Backlog(core, c), t, ok, cfg.watermark);
    } else {
      assert Transmitted(t, ok, cfg.watermark) == t;
    }
  }

  lemma ReadEventConserves(f: Frame, core: Core, t: Track, c: Client, cfg: Config)
    requires Conserved(f, Backlog(core, c), t)
    ensures Conserved(f, Backlog(Shared(core, t, c, Read, cfg), c), Tracked(core, t, c, Read, cfg))
  {
    var t' := Tracked(core, t, c, Read, cfg);
    ReadKeepsHands(t.call, BufferedAmount(t), cfg.watermark);
    CallConserves(f, Backlog(core, c), t, t'.call);
  }

  lemma PopEventConserves(f: Frame, core: Core, t: Track, c: Client, cfg: Config)
    requires Conserved(f, Backlog(core, c), t)
    ensures Conserved(f, Backlog(Shared(core, t, c, Pop, cfg), c), Tracked(core, t, c, Pop, cfg))
  {
    if t.call.Popping? {
      PopConserves(f, core, t, c, cfg);
    }
  }

  lemma SettleEventConserves(f: Frame, core: Core, t: Track, c: Client, cfg: Config)
    requires Conserved(f, Backlog(core, c), t) && |Backlog(core, c)| <= cfg.capacity
    ensures Conserved(f, Backlog(Shared(core, t, c, Settle, cfg), c), Tracked(core, t, c, Settle, cfg))
  {
    if t.call.Congested? {
      var t', core' := Tracked(core, t, c, Settle, cfg), Shared(core, t, c, Settle, cfg);
      assert t' == SettledTrack(core, t, c, cfg);
      if c in core.clients && !t.call.frame.heavy {
        QueueConserves(f, core, t, c, cfg);
        assert core' == Enqueued(core, c, t.call.frame, cfg.capacity);
      } else {
        SettleConserves(f, core, t, c, cfg);
        assert Backlog(core', c) == Backlog(core, c);
      }
    }
  }

  lemma SubmitEventConserves(f: Frame, core: Core, t: Track, c: Client, frame: Frame, cfg: Config)
    requires Conserved(f, Backlog(core, c), t)
    ensures Conserved(f, Backlog(Shared(core, t, c, Submit(frame), cfg), c), Tracked(core, t, c, Submit(frame), cfg))
  {
    assert Shared(core, t, c, Submit(frame), cfg) == core;
    if t.call.Idle? {
      SubmitConserves(f, core, t, c, frame);
      assert Tracked(core, t, c, Submit(frame), cfg) == Submitted(core, t, c, frame);
    } else {
      assert Tracked(core, t, c, Submit(frame), cfg) == t;
    }
  }

  lemma EventConserves(f: Frame, core: Core, t: Track, c: Client, e: Event, cfg: Config)
    requires Conserved(f, Backlog(core, c), t) && |Backlog(core, c)| <= cfg.capacity
    ensures Conserved(f, Backlog(Shared(core, t, c, e, cfg), c), Tracked(core, t, c, e, cfg))
  {
    match e
    case Submit(frame) => SubmitEventConserves(f, core, t, c, frame, cfg);
    case Transmit(ok) => TransmitEventConserves(f, core, t, c, ok, cfg);
    case Read => ReadEventConserves(f, core, t, c, cfg);
    case Pop => PopEventConserves(f, core, t, c, cfg);
    case Settle => SettleEventConserves(f, core, t, c, cfg);
    case _ => SurroundingsConserve(f, core, t, c, e, cfg);
  }

  // --------------------------------------------------------------- results

  lemma SettleEnds(core: Core, t: Track, c: Client, cfg: Config)
    requires t.call.Congested?
    ensures var t' := SettledTrack(core, t, c, cfg);
            && t'.call.Idle?
            && t'.binary == t.binary && t'.text == t.text
            && t'.wire == t.wire && t'.submitted == t.submitted
  {
  }

  /** The result of a send says where its frame went. */
  predicate FateTold(frame: Frame, out: Outcome, before: Track, after: Track, backlog: seq<Frame>, capacity: nat) {
    match out.result
    case Delivered => after.wire == before.wire + [frame]
    case Queued =>
      && !frame.heavy
      && |after.evicted| == |before.evicted| + out.dropped
      && if capacity == 0 then frame in after.evicted else frame in backlog
    case Shed => frame.heavy && after.shed == before.shed + multiset{frame}
    case ClientGone => frame in after.lost && after.wire == before.wire
  }

  /** A send finds its client, with a flush bounded by the backlog it sees, or ends
      at once with the frame lost. */
  lemma SubmitFindsClient(core: Core, t: Track, c: Client, frame: Frame)
    ensures var t' := Submitted(core, t, c, frame);
            && t' == t.(call := t'.call, submitted := t.submitted + [frame], lost := t'.lost)
            && if c in core.clients then
                 && t'.lost == t.lost
                 && t'.call == if Backlog(core, c) == [] then Deciding(frame, 0, 0)
                               else Flushing(frame, |Backlog(core, c)|, 0, 0)
               else
                 && t'.lost == t.lost + multiset{frame}
                 && t'.call == Idle(Some(Outcome(ClientGone, 0, 0)))
  {
  }

  lemma SettleTellsFate(core: Core, t: Track, c: Client, cfg: Config)
    requires t.call.Congested? && |Backlog(core, c)| <= cfg.capacity
    ensures var t' := SettledTrack(core, t, c, cfg);
            var b' := Backlog(Shared(core, t, c, Settle, cfg), c);
            && t'.call.Idle? && t'.call.last.Some?
            && FateTold(t.call.frame, t'.call.last.value, t, t', b', cfg.capacity)
  {
    if c in core.clients && !t.call.frame.heavy {
      var q := QueueOf(core, c);
      PushAccounts(q, t.call.frame, cfg.capacity);
      assert cfg.capacity == 0 ==> Evicted(q, t.call.frame, cfg.capacity) == [t.call.frame];
    }
  }

  lemma ResultTellsFate(core: Core, t: Track, c: Client, e: Event, cfg: Config)
    requires !t.call.Idle? && Tracked(core, t, c, e, cfg).call.Idle?
    requires |Backlog(core, c)| <= cfg.capacity
    ensures var t' := Tracked(core, t, c, e, cfg);
            && t'.call.last.Some?
            && FateTold(t.call.frame, t'.call.last.value, t, t', Backlog(Shared(core, t, c, e, cfg), c), cfg.capacity)
  {
    if e.Settle? {
      SettleTellsFate(core, t, c, cfg);
    } else {
      assert e.Transmit? && (t.call.Feeding? || t.call.Transmitting?);
    }
  }

  lemma OnlySubmitSubmits(core: Core, t: Track, c: Client, e: Event, cfg: Config)
    ensures var t' := Tracked(core, t, c, e, cfg);
            t'.submitted == t.submitted || (e.Submit? && t'.submitted == t.submitted + [e.frame])
  {
  }

  lemma InFlightWasSubmitted(f: Frame, backlog: seq<Frame>, t: Track)
    requires Conserved(f, backlog, t) && (f in InHand(t.call) || f in Current(t.call))
    ensures f in t.submitted
  {
    assert multiset(InHand(t.call))[f] + multiset(Current(t.call))[f] > 0;
    assert multiset(t.submitted)[f] > 0;
  }

  // -------------------------------------------------------------- whole runs

  lemma OthersUntouched(core: Core, t: Track, c: Client, e: Event, cfg: Config, d: Client)
    requires d != c
    ensures Backlog(Shared(core, t, c, e, cfg), d) == Backlog(core, d)
  {
  }

  lemma EventKeepsTidy(core: Core, t: Track, c: Client, e: Event, cfg: Config)
    requires Tidy(core, cfg.capacity)
    ensures Tidy(Shared(core, t, c, e, cfg), cfg.capacity)
  {
    match e
    case Settle =>
      if t.call.Congested? && !t.call.frame.heavy {
        EnqueueKeepsTidy(core, c, t.call.frame, cfg.capacity);
      }
    case Pop => PopKeepsTidy(core, c, cfg.capacity);
    case _ =>
  }

  /** In every run pending backlogs exist only for connected clients, never
      exceed their bound, and hold no heavy frame. */
  lemma {:induction false} BacklogsStayTidy(ids: set<Client>, steps: seq<Step>, cfg: Config)
    ensures Run(ids, steps, cfg).tracks.Keys == ids
    ensures Tidy(Run(ids, steps, cfg).core, cfg.capacity)
  {
    if steps != [] {
      var front, last := steps[..|steps| - 1], steps[|steps| - 1];
      BacklogsStayTidy(ids, front, cfg);
      var s := Run(ids, front, cfg);
      if last.At? && last.client in ids {
        EventKeepsTidy(s.core, s.tracks[last.client], last.client, last.event, cfg);
      }
    }
  }

  /** In every run each submission of every frame is in exactly one place: on
      the wire, in the backlog, in the hands of the send in flight, dropped as
      the oldest, shed, discarded with its backlog, or lost to a gone client. */
  lemma {:induction false} EveryFrameAccounted(ids: set<Client>, steps: seq<Step>, cfg: Config, c: Client, f: Frame)
    requires c in ids
    ensures var s := Run(ids, steps, cfg); c in s.tracks && Conserved(f, Backlog(s.core, c), s.tracks[c])
  {
    BacklogsStayTidy(ids, steps, cfg);
    if steps != [] {
      var front, last := steps[..|steps| - 1], steps[|steps| - 1];
      EveryFrameAccounted(ids, front, cfg, c, f);
      BacklogsStayTidy(ids, front, cfg);
      var s := Run(ids, front, cfg);
      match last
      case At(d, e) =>
        if d == c {
          EventConserves(f, s.core, s.tracks[c], c, e, cfg);
        } else if d in ids {
          OthersUntouched(s.core, s.tracks[d], d, e, cfg, c);
        }
      case Shutdown =>
        EventConserves(f, s.core, s.tracks[c], c, Close, cfg);
    }
  }

  // ---------------------------------------------------------------- counters

  function Evictions(tracks: map<Client, Track>): map<Client, nat> {
    map c | c in tracks :: |tracks[c].evicted|
  }

  function Sheds(tracks: map<Client, Track>): map<Client, nat> {
    map c | c in tracks :: |tracks[c].shed|
  }

  /** Every event moves the shared counters by what it adds to the client's
      evicted and shed frames. */
  lemma EventCounts(core: Core, t: Track, c: Client, e: Event, cfg: Config)
    ensures var core', t' := Shared(core, t, c, e, cfg), Tracked(core, t, c, e, cfg);
            && DroppedFrames(core') - DroppedFrames(core) == |t'.evicted| - |t.evicted| >= 0
            && core'.shed - core.shed == |t'.shed| - |t.shed| >= 0
  {
    match e
    case Open =>
    case Close => DiscardKeepsCount(core.(clients := core.clients - {c}), c);
    case DropPending => DiscardKeepsCount(core, c);
    case Pop => PopKeepsCount(core, c);
    case Settle =>
      if t.call.Congested? && !t.call.frame.heavy {
        EnqueueCounts(core, c, t.call.frame, cfg.capacity);
      }
    case _ =>
  }

  lemma TrackCounts(tracks: map<Client, Track>, c: Client, t: Track)
    requires c in tracks
    ensures Total(Evictions(tracks[c := t])) == Total(Evictions(tracks)) + |t.evicted| - |tracks[c].evicted|
    ensures Total(Sheds(tracks[c := t])) == Total(Sheds(tracks)) + |t.shed| - |tracks[c].shed|
  {
    assert Evictions(tracks[c := t]) == Evictions(tracks)[c := |t.evicted|];
    assert Sheds(tracks[c := t]) == Sheds(tracks)[c := |t.shed|];
    TotalUpdate(Evictions(tracks), c, |t.evicted|);
    TotalUpdate(Sheds(tracks), c, |t.shed|);
  }

  lemma ShutdownCounts(s: State, cfg: Config)
    ensures var s' := Apply(s, Shutdown, cfg);
            && DroppedFrames(s'.core) == DroppedFrames(s.core) && s'.core.shed == s.core.shed
            && Evictions(s'.tracks) == Evictions(s.tracks) && Sheds(s'.tracks) == Sheds(s.tracks)
  {
    assert Drops(map[]) == map[];
  }

  lemma {:induction false} ZeroTotal(m: map<Client, nat>)
    requires forall c | c in m :: m[c] == 0
    ensures Total(m) == 0
    decreases |m.Keys|
  {
    if m != map[] {
      var c :| c in m && Total(m) == m[c] + Total(m - {c});
      assert (m - {c}).Keys < m.Keys;
      ZeroTotal(m - {c});
    }
  }

  /** In every run the drop count the middleware reports is the number of frames
      dropped as the oldest, over all clients that ever were, and the shed count
      that of shed frames: disconnects, discards and shutdown lose nothing. */
  lemma {:induction false} CountersExact(ids: set<Client>, steps: seq<Step>, cfg: Config)
    ensures var s := Run(ids, steps, cfg);
            && DroppedFrames(s.core) == Total(Evictions(s.tracks))
            && s.core.shed == Total(Sheds(s.tracks))
  {
    if steps == [] {
      var s := Init(ids);
      assert Drops(map[]) == map[];
      ZeroTotal(Evictions(s.tracks));
      ZeroTotal(Sheds(s.tracks));
    } else {
      var front, last := steps[..|steps| - 1], steps[|steps| - 1];
      CountersExact(ids, front, cfg);
      var s := Run(ids, front, cfg);
      match last
      case At(c, e) =>
        if c in s.tracks {
          EventCounts(s.core, s.tracks[c], c, e, cfg);
          TrackCounts(s.tracks, c, Tracked(s.core, s.tracks[c], c, e, cfg));
        }
      case Shutdown => ShutdownCounts(s, cfg);
    }
  }

  /** The drop and shed counts never decrease. */
  lemma CountersGrow(s: State, step: Step, cfg: Config)
    ensures DroppedFrames(Apply(s, step, cfg).core) >= DroppedFrames(s.core)
    ensures Apply(s, step, cfg).core.shed >= s.core.shed
  {
    match step
    case At(c, e) => if c in s.tracks { EventCounts(s.core, s.tracks[c], c, e, cfg); }
    case Shutdown => ShutdownCounts(s, cfg);
  }
}
