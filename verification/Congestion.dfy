/**
 Runs on slow sockets: how full a socket gets, and what becomes of the backlog
 while it stays congested.
 */
module Congestion {
  import opened Common
  import opened Backpressure
  import opened Middleware
  import opened SendProtocol

  // --------------------------------------------------------------- overshoot

  /** Less than the watermark plus one frame is buffered, and less than the
      watermark where a frame is about to be given to the socket. */
  predicate WithinBound(t: Track, watermark: nat, largest: nat) {
    && (t.binary == 0 || t.binary < watermark + largest)
    && (t.call.Popping? || t.call.Feeding? || t.call.Transmitting? ==> t.binary < watermark)
  }

  lemma TransmitKeepsBound(t: Track, ok: bool, watermark: nat, largest: nat)
    requires WithinBound(t, watermark, largest)
    requires t.call.Feeding? ==> t.call.queued.size <= largest
    requires t.call.Transmitting? ==> t.call.frame.size <= largest
    ensures WithinBound(Transmitted(t, ok, watermark), watermark, largest)
  {
  }

  lemma ReadKeepsBound(t: Track, watermark: nat, largest: nat)
    requires WithinBound(t, watermark, largest)
    ensures WithinBound(t.(call := Advance(t.call, Amount(BufferedAmount(t)), watermark)), watermark, largest)
  {
  }

  lemma EventKeepsBound(core: Core, t: Track, c: Client, e: Event, cfg: Config, largest: nat)
    requires WithinBound(t, cfg.watermark, largest)
    requires t.call.Feeding? ==> t.call.queued.size <= largest
    requires t.call.Transmitting? ==> t.call.frame.size <= largest
    ensures WithinBound(Tracked(core, t, c, e, cfg), cfg.watermark, largest)
  {
    match e
    case Transmit(ok) => TransmitKeepsBound(t, ok, cfg.watermark, largest);
    case Read => ReadKeepsBound(t, cfg.watermark, largest);
    case Settle => if t.call.Congested? { SettleEnds(core, t, c, cfg); }
    case _ =>
  }

  /** No submitted frame exceeds `largest`. */
  predicate FramesUpTo(steps: seq<Step>, largest: nat) {
    forall i | 0 <= i < |steps| && steps[i].At? && steps[i].event.Submit? :: steps[i].event.frame.size <= largest
  }

  lemma {:induction false} SubmittedUpTo(ids: set<Client>, steps: seq<Step>, cfg: Config, c: Client, largest: nat)
    requires c in ids && FramesUpTo(steps, largest)
    ensures Run(ids, steps, cfg).tracks.Keys == ids
    ensures forall f | f in Run(ids, steps, cfg).tracks[c].submitted :: f.size <= largest
  {
    BacklogsStayTidy(ids, steps, cfg);
    if steps != [] {
      var front, last := steps[..|steps| - 1], steps[|steps| - 1];
      SubmittedUpTo(ids, front, cfg, c, largest);
      var s := Run(ids, front, cfg);
      match last
      case At(d, e) => if d == c { OnlySubmitSubmits(s.core, s.tracks[c], c, e, cfg); }
      case Shutdown => OnlySubmitSubmits(s.core, s.tracks[c], c, Close, cfg);
    }
  }

  /** Over any run the bytes of binary frames a socket holds never exceed the
      watermark minus one plus the largest frame, however much text is sent. */
  lemma {:induction false} SocketNeverOvershoots(
      ids: set<Client>, steps: seq<Step>, cfg: Config, c: Client, largest: nat)
    requires c in ids && FramesUpTo(steps, largest)
    ensures Run(ids, steps, cfg).tracks.Keys == ids
    ensures WithinBound(Run(ids, steps, cfg).tracks[c], cfg.watermark, largest)
  {
    BacklogsStayTidy(ids, steps, cfg);
    if steps != [] {
      var front, last := steps[..|steps| - 1], steps[|steps| - 1];
      SocketNeverOvershoots(ids, front, cfg, c, largest);
      SubmittedUpTo(ids, front, cfg, c, largest);
      var s := Run(ids, front, cfg);
      var t := s.tracks[c];
      forall f | f in InHand(t.call) || f in Current(t.call)
        ensures f.size <= largest
      {
        EveryFrameAccounted(ids, front, cfg, c, f);
        InFlightWasSubmitted(f, Backlog(s.core, c), t);
      }
      match last
      case At(d, e) => if d == c { EventKeepsBound(s.core, t, c, e, cfg, largest); }
      case Shutdown => EventKeepsBound(s.core, t, c, Close, cfg, largest);
    }
  }

  // -------------------------------------------------------- a congested socket

  /** The step neither ends the client's connection or backlog, nor reads its
      socket below the watermark. */
  predicate StaysFull(s: State, step: Step, c: Client, cfg: Config) {
    match step
    case Shutdown => false
    case At(d, e) =>
      d == c && c in s.tracks ==>
        && !e.Close? && !e.DropPending?
        && (e.Read? ==> BufferedAmount(s.tracks[c]) >= cfg.watermark)
  }

  /** After the run `before`, the further `steps` find client `c` connected and
      its socket congested whenever they look. */
  ghost predicate Clogged(ids: set<Client>, before: seq<Step>, steps: seq<Step>, c: Client, cfg: Config) {
    steps == [] ||
    var front, last := steps[..|steps| - 1], steps[|steps| - 1];
    && Clogged(ids, before, front, c, cfg)
    && StaysFull(Run(ids, before + front, cfg), last, c, cfg)
  }

  /** Connected, with no send in flight. */
  predicate Ready(s: State, c: Client) {
    c in s.tracks && c in s.core.clients && s.tracks[c].call.Idle?
  }

  /** What was submitted since `t0`. */
  function Since(t0: Track, t: Track): seq<Frame> {
    if |t0.submitted| <= |t.submitted| then t.submitted[|t0.submitted|..] else []
  }

  /** The queue, once the frame in flight is dealt with, is the one that sending
      every frame since `t0` to a congested socket leaves; nothing reached the
      wire. */
  ghost predicate Backed(q0: Queue, t0: Track, q: Queue, t: Track, capacity: nat) {
    && (t.call.Idle? || t.call.Flushing? || t.call.Deciding? || t.call.Congested?)
    && t.wire == t0.wire
    && |t0.submitted| <= |t.submitted| && t.submitted == t0.submitted + Since(t0, t)
    && CongestedSends(q, Current(t.call), capacity) == CongestedSends(q0, Since(t0, t), capacity)
  }

  lemma NoSend(q: Queue, capacity: nat)
    ensures CongestedSends(q, [], capacity) == q
  {
  }

  lemma OneSend(q: Queue, f: Frame, capacity: nat)
    ensures CongestedSends(q, [f], capacity) == CongestedSend(q, f, capacity)
  {
    assert [f][..0] == [];
  }

  lemma SubmitKeepsBacked(q0: Queue, t0: Track, core: Core, t: Track, c: Client, f: Frame, capacity: nat)
    requires Backed(q0, t0, QueueOf(core, c), t, capacity) && t.call.Idle? && c in core.clients
    ensures Backed(q0, t0, QueueOf(core, c), Submitted(core, t, c, f), capacity)
  {
    var q, t' := QueueOf(core, c), Submitted(core, t, c, f);
    NoSend(q, capacity);
    OneSend(q, f, capacity);
    assert Current(t'.call) == [f];
    assert Since(t0, t') == Since(t0, t) + [f];
    assert Since(t0, t')[..|Since(t0, t)|] == Since(t0, t);
  }

  lemma SettleKeepsBacked(q0: Queue, t0: Track, core: Core, t: Track, c: Client, cfg: Config)
    requires Backed(q0, t0, QueueOf(core, c), t, cfg.capacity) && t.call.Congested? && c in core.clients
    ensures Backed(q0, t0, QueueOf(Shared(core, t, c, Settle, cfg), c), SettledTrack(core, t, c, cfg), cfg.capacity)
  {
    var q' := QueueOf(Shared(core, t, c, Settle, cfg), c);
    SettleEnds(core, t, c, cfg);
    OneSend(QueueOf(core, c), t.call.frame, cfg.capacity);
    NoSend(q', cfg.capacity);
    assert q' == CongestedSend(QueueOf(core, c), t.call.frame, cfg.capacity);
  }

  lemma ReadKeepsBacked(q0: Queue, t0: Track, q: Queue, t: Track, cfg: Config)
    requires Backed(q0, t0, q, t, cfg.capacity) && BufferedAmount(t) >= cfg.watermark
    ensures Backed(q0, t0, q, t.(call := Advance(t.call, Amount(BufferedAmount(t)), cfg.watermark)), cfg.capacity)
  {
    var next := Advance(t.call, Amount(BufferedAmount(t)), cfg.watermark);
    assert Current(next) == Current(t.call);
  }

  lemma EventKeepsBacked(q0: Queue, t0: Track, s: State, c: Client, e: Event, cfg: Config)
    requires c in s.tracks && c in s.core.clients && StaysFull(s, At(c, e), c, cfg)
    requires Backed(q0, t0, QueueOf(s.core, c), s.tracks[c], cfg.capacity)
    ensures var core', t' := Shared(s.core, s.tracks[c], c, e, cfg), Tracked(s.core, s.tracks[c], c, e, cfg);
            c in core'.clients && Backed(q0, t0, QueueOf(core', c), t', cfg.capacity)
  {
    var t := s.tracks[c];
    match e
    case Submit(f) => if t.call.Idle? { SubmitKeepsBacked(q0, t0, s.core, t, c, f, cfg.capacity); }
    case Read => ReadKeepsBacked(q0, t0, QueueOf(s.core, c), t, cfg);
    case Settle => if t.call.Congested? { SettleKeepsBacked(q0, t0, s.core, t, c, cfg); }
    case _ =>
  }

  lemma OthersKeepQueue(core: Core, t: Track, d: Client, e: Event, cfg: Config, c: Client)
    requires d != c
    ensures var core' := Shared(core, t, d, e, cfg);
            QueueOf(core', c) == QueueOf(core, c) && (c in core'.clients <==> c in core.clients)
  {
  }

  lemma {:induction false} CloggedRunIsBacked(
      ids: set<Client>, before: seq<Step>, steps: seq<Step>, cfg: Config, c: Client)
    requires Ready(Run(ids, before, cfg), c) && Clogged(ids, before, steps, c, cfg)
    ensures var s0, s := Run(ids, before, cfg), Run(ids, before + steps, cfg);
            && c in s.tracks && c in s.core.clients
            && Backed(QueueOf(s0.core, c), s0.tracks[c], QueueOf(s.core, c), s.tracks[c], cfg.capacity)
  {
    var s0 := Run(ids, before, cfg);
    if steps == [] {
      assert before + steps == before;
      assert s0.tracks[c].submitted + [] == s0.tracks[c].submitted;
    } else {
      var front, last := steps[..|steps| - 1], steps[|steps| - 1];
      CloggedRunIsBacked(ids, before, front, cfg, c);
      var s := Run(ids, before + front, cfg);
      assert (before + steps)[..|before + steps| - 1] == before + front;
      if last.client == c {
        EventKeepsBacked(QueueOf(s0.core, c), s0.tracks[c], s, c, last.event, cfg);
      } else if last.client in s.tracks {
        OthersKeepQueue(s.core, s.tracks[last.client], last.client, last.event, cfg, c);
      }
    }
  }

  /** What the sends on a congested socket leave, whatever else goes on: nothing
      new on the wire, and the queue of pushing the normal frames one by one. */
  lemma CongestedSendsQueue(ids: set<Client>, before: seq<Step>, steps: seq<Step>, cfg: Config, c: Client)
    requires Ready(Run(ids, before, cfg), c) && Clogged(ids, before, steps, c, cfg)
    requires Ready(Run(ids, before + steps, cfg), c)
    ensures var s0, s := Run(ids, before, cfg), Run(ids, before + steps, cfg);
            && s.tracks[c].wire == s0.tracks[c].wire
            && s.tracks[c].submitted == s0.tracks[c].submitted + Since(s0.tracks[c], s.tracks[c])
            && QueueOf(s.core, c) == CongestedSends(QueueOf(s0.core, c), Since(s0.tracks[c], s.tracks[c]), cfg.capacity)
  {
    CloggedRunIsBacked(ids, before, steps, cfg, c);
    NoSend(QueueOf(Run(ids, before + steps, cfg).core, c), cfg.capacity);
  }

  /** While the socket stays congested, heavy frames leave no trace: two runs
      that start alike and submit the same normal frames, in order, end with the
      same backlog and drop count, however many heavy frames one of them
      submitted in between. */
  lemma HeavyLeavesNoTrace(ids: set<Client>, before: seq<Step>, a: seq<Step>, b: seq<Step>, cfg: Config, c: Client)
    requires Ready(Run(ids, before, cfg), c) && Clogged(ids, before, a, c, cfg) && Clogged(ids, before, b, c, cfg)
    requires Ready(Run(ids, before + a, cfg), c) && Ready(Run(ids, before + b, cfg), c)
    requires var t0 := Run(ids, before, cfg).tracks[c];
             var a', b' := Run(ids, before + a, cfg).tracks[c], Run(ids, before + b, cfg).tracks[c];
             Normal(Since(t0, a')) == Normal(Since(t0, b'))
    ensures QueueOf(Run(ids, before + a, cfg).core, c) == QueueOf(Run(ids, before + b, cfg).core, c)
    ensures Run(ids, before + a, cfg).tracks[c].wire == Run(ids, before + b, cfg).tracks[c].wire
  {
    var s0 := Run(ids, before, cfg);
    CongestedSendsQueue(ids, before, a, cfg, c);
    CongestedSendsQueue(ids, before, b, cfg, c);
    SkippingHeavy(QueueOf(s0.core, c), Since(s0.tracks[c], Run(ids, before + a, cfg).tracks[c]), cfg.capacity);
    SkippingHeavy(QueueOf(s0.core, c), Since(s0.tracks[c], Run(ids, before + b, cfg).tracks[c]), cfg.capacity);
  }

  /** In particular, a run that submits the other one's normal frames only. */
  lemma SameWithoutHeavy(ids: set<Client>, before: seq<Step>, a: seq<Step>, b: seq<Step>, cfg: Config, c: Client)
    requires Ready(Run(ids, before, cfg), c) && Clogged(ids, before, a, c, cfg) && Clogged(ids, before, b, c, cfg)
    requires Ready(Run(ids, before + a, cfg), c) && Ready(Run(ids, before + b, cfg), c)
    requires var t0 := Run(ids, before, cfg).tracks[c];
             Since(t0, Run(ids, before + b, cfg).tracks[c]) == Normal(Since(t0, Run(ids, before + a, cfg).tracks[c]))
    ensures QueueOf(Run(ids, before + a, cfg).core, c) == QueueOf(Run(ids, before + b, cfg).core, c)
  {
    NormalTwice(Since(Run(ids, before, cfg).tracks[c], Run(ids, before + a, cfg).tracks[c]));
    HeavyLeavesNoTrace(ids, before, a, b, cfg, c);
  }

  /** While the socket stays congested, the backlog holds the newest of what it
      held and of the normal frames submitted since, and every frame that is
      missing was counted. */
  lemma CongestedBacklogIsNewest(ids: set<Client>, before: seq<Step>, steps: seq<Step>, cfg: Config, c: Client)
    requires Ready(Run(ids, before, cfg), c) && Clogged(ids, before, steps, c, cfg)
    requires Ready(Run(ids, before + steps, cfg), c)
    ensures var s0, s := Run(ids, before, cfg), Run(ids, before + steps, cfg);
            var q0, q := QueueOf(s0.core, c), QueueOf(s.core, c);
            var normal := Normal(Since(s0.tracks[c], s.tracks[c]));
            && KeepsNewest(q, q0.frames + normal, cfg.capacity)
            && q.dropped + |q.frames| == q0.dropped + |q0.frames| + |normal|
  {
    var s0, s := Run(ids, before, cfg), Run(ids, before + steps, cfg);
    CongestedSendsQueue(ids, before, steps, cfg, c);
    BacklogsStayTidy(ids, before, cfg);
    BacklogKeepsNewest(QueueOf(s0.core, c), Since(s0.tracks[c], s.tracks[c]), cfg.capacity);
  }

  // ------------------------------------------------- such sends are possible

  lemma StepFurther(ids: set<Client>, before: seq<Step>, steps: seq<Step>, step: Step, cfg: Config, c: Client)
    requires Clogged(ids, before, steps, c, cfg) && StaysFull(Run(ids, before + steps, cfg), step, c, cfg)
    ensures Clogged(ids, before, steps + [step], c, cfg)
    ensures Run(ids, before + (steps + [step]), cfg) == Apply(Run(ids, before + steps, cfg), step, cfg)
  {
    assert (steps + [step])[..|steps|] == steps;
    var all := before + (steps + [step]);
    assert all[..|all| - 1] == before + steps;
  }

  /** One step of client `c` in a clogged run. */
  lemma Proceed(ids: set<Client>, before: seq<Step>, steps: seq<Step>, e: Event, cfg: Config, c: Client)
      returns (more: seq<Step>)
    requires Clogged(ids, before, steps, c, cfg) && StaysFull(Run(ids, before + steps, cfg), At(c, e), c, cfg)
    requires c in Run(ids, before + steps, cfg).tracks
    ensures Clogged(ids, before, more, c, cfg)
    ensures var s, s' := Run(ids, before + steps, cfg), Run(ids, before + more, cfg);
            && c in s'.tracks
            && s'.core == Shared(s.core, s.tracks[c], c, e, cfg)
            && s'.tracks[c] == Tracked(s.core, s.tracks[c], c, e, cfg)
  {
    StepFurther(ids, before, steps, At(c, e), cfg, c);
    more := steps + [At(c, e)];
  }

  /** A send to a congested socket reads it once, or twice if there is a backlog. */
  lemma SendFindsFull(ids: set<Client>, before: seq<Step>, steps: seq<Step>, f: Frame, cfg: Config, c: Client)
      returns (more: seq<Step>)
    requires Clogged(ids, before, steps, c, cfg) && Ready(Run(ids, before + steps, cfg), c)
    requires BufferedAmount(Run(ids, before + steps, cfg).tracks[c]) >= cfg.watermark
    ensures Clogged(ids, before, more, c, cfg)
    ensures var s, s' := Run(ids, before + steps, cfg), Run(ids, before + more, cfg);
            && s'.core == s.core && c in s'.tracks
            && s'.tracks[c] == s.tracks[c].(call := Congested(f, 0), submitted := s.tracks[c].submitted + [f])
  {
    more := Proceed(ids, before, steps, Submit(f), cfg, c);
    if Run(ids, before + more, cfg).tracks[c].call.Flushing? {
      more := ReadFull(ids, before, more, cfg, c);
    }
    more := ReadFull(ids, before, more, cfg, c);
  }

  lemma ReadFull(ids: set<Client>, before: seq<Step>, steps: seq<Step>, cfg: Config, c: Client)
      returns (more: seq<Step>)
    requires Clogged(ids, before, steps, c, cfg) && c in Run(ids, before + steps, cfg).tracks
    requires var t := Run(ids, before + steps, cfg).tracks[c];
             (t.call.Flushing? || t.call.Deciding?) && BufferedAmount(t) >= cfg.watermark
    ensures Clogged(ids, before, more, c, cfg)
    ensures var s, s' := Run(ids, before + steps, cfg), Run(ids, before + more, cfg);
            s'.core == s.core && c in s'.tracks && s'.tracks[c] == FoundFull(s.tracks[c])
  {
    ReadingFull(Run(ids, before + steps, cfg).tracks[c], cfg.watermark);
    more := Proceed(ids, before, steps, Read, cfg, c);
  }

  /** The first of two readings only ends the flush. */
  function FoundFull(t: Track): Track
    requires t.call.Flushing? || t.call.Deciding?
  {
    var frame, flushed := t.call.frame, t.call.flushed;
    t.(call := if t.call.Flushing? then Deciding(frame, flushed, BufferedAmount(t)) else Congested(frame, flushed))
  }

  lemma ReadingFull(t: Track, watermark: nat)
    requires (t.call.Flushing? || t.call.Deciding?) && BufferedAmount(t) >= watermark
    ensures t.(call := Advance(t.call, Amount(BufferedAmount(t)), watermark)) == FoundFull(t)
  {
  }

  /** A send to a congested socket runs to its end. */
  lemma OneCongestedSend(ids: set<Client>, before: seq<Step>, steps: seq<Step>, f: Frame, cfg: Config, c: Client)
      returns (more: seq<Step>)
    requires Clogged(ids, before, steps, c, cfg) && Ready(Run(ids, before + steps, cfg), c)
    requires BufferedAmount(Run(ids, before + steps, cfg).tracks[c]) >= cfg.watermark
    ensures Clogged(ids, before, more, c, cfg) && Ready(Run(ids, before + more, cfg), c)
    ensures var t, t' := Run(ids, before + steps, cfg).tracks[c], Run(ids, before + more, cfg).tracks[c];
            BufferedAmount(t') == BufferedAmount(t) && t'.submitted == t.submitted + [f]
  {
    more := SendFindsFull(ids, before, steps, f, cfg, c);
    var s := Run(ids, before + more, cfg);
    SettleEnds(s.core, s.tracks[c], c, cfg);
    more := Proceed(ids, before, more, Settle, cfg, c);
  }

  /** From every congested state any sequence of frames can be submitted with
      the socket staying congested. */
  lemma {:induction false} CongestedSendsHappen(
      ids: set<Client>, before: seq<Step>, frames: seq<Frame>, cfg: Config, c: Client)
      returns (steps: seq<Step>)
    requires Ready(Run(ids, before, cfg), c) && BufferedAmount(Run(ids, before, cfg).tracks[c]) >= cfg.watermark
    ensures Clogged(ids, before, steps, c, cfg) && Ready(Run(ids, before + steps, cfg), c)
    ensures Run(ids, before + steps, cfg).tracks[c].submitted == Run(ids, before, cfg).tracks[c].submitted + frames
    ensures BufferedAmount(Run(ids, before + steps, cfg).tracks[c]) >= cfg.watermark
    decreases |frames|
  {
    var t0 := Run(ids, before, cfg).tracks[c];
    if frames == [] {
      steps := [];
      assert before + steps == before;
      assert t0.submitted + [] == t0.submitted;
    } else {
      steps := CongestedSendsHappen(ids, before, frames[..|frames| - 1], cfg, c);
      steps := OneCongestedSend(ids, before, steps, frames[|frames| - 1], cfg, c);
      FramesAppend(t0.submitted, frames);
    }
  }

  lemma FramesAppend(submitted: seq<Frame>, frames: seq<Frame>)
    requires frames != []
    ensures submitted + frames[..|frames| - 1] + [frames[|frames| - 1]] == submitted + frames
  {
  }
}
