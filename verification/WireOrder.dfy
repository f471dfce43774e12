/**
 The order in which a client's frames reach the wire: kept as long as no frame
 overtakes the backlog, and not otherwise.
 */
module WireOrder {
  import opened Common
  import opened Backpressure
  import opened Middleware
  import opened SendProtocol

  /** The frames in the order in which they can still reach the wire. */
  function Line(backlog: seq<Frame>, t: Track): seq<Frame> {
    t.wire + InHand(t.call) + backlog + Current(t.call)
  }

  ghost predicate Ordered(backlog: seq<Frame>, t: Track) {
    Subsequence(Line(backlog, t), t.submitted)
  }

  /** A call that still flushes covers the whole backlog; one that is about to
      overtake the backlog finds it empty, or a socket that was full. */
  predicate Phased(backlog: seq<Frame>, t: Track, watermark: nat) {
    match t.call
    case Flushing(_, m, k, _) => |backlog| <= m - k
    case Popping(_, m, k, _) => |backlog| <= m - k
    case Feeding(_, _, m, k, _) => |backlog| < m - k
    case Deciding(_, _, low) => backlog == [] || low >= watermark
    case Transmitting(_, _) => backlog == []
    case _ => true
  }

  /** The reading is no lower than the call's previous one. */
  predicate Steady(t: Track, e: Event) {
    e.Read? && (t.call.Flushing? || t.call.Deciding?) ==> BufferedAmount(t) >= t.call.low
  }

  lemma ReadKeepsPhase(backlog: seq<Frame>, t: Track, watermark: nat)
    requires Phased(backlog, t, watermark) && Steady(t, Read)
    ensures Phased(backlog, t.(call := Advance(t.call, Amount(BufferedAmount(t)), watermark)), watermark)
  {
  }

  lemma TransmitKeepsPhase(backlog: seq<Frame>, t: Track, ok: bool, watermark: nat)
    requires Phased(backlog, t, watermark)
    ensures Phased(backlog, Transmitted(t, ok, watermark), watermark)
  {
  }

  lemma PopKeepsPhase(core: Core, t: Track, c: Client, cfg: Config)
    requires Phased(Backlog(core, c), t, cfg.watermark)
    ensures Phased(Backlog(Shared(core, t, c, Pop, cfg), c), Tracked(core, t, c, Pop, cfg), cfg.watermark)
  {
    if t.call.Popping? {
      assert Oldest(core, c) != None ==> |Backlog(Popped(core, c), c)| < |Backlog(core, c)|;
    }
  }

  lemma EventKeepsPhase(core: Core, t: Track, c: Client, e: Event, cfg: Config)
    requires Phased(Backlog(core, c), t, cfg.watermark) && Steady(t, e)
    ensures Phased(Backlog(Shared(core, t, c, e, cfg), c), Tracked(core, t, c, e, cfg), cfg.watermark)
  {
    match e
    case Read => ReadKeepsPhase(Backlog(core, c), t, cfg.watermark);
    case Transmit(ok) => TransmitKeepsPhase(Backlog(core, c), t, ok, cfg.watermark);
    case Pop => PopKeepsPhase(core, t, c, cfg);
    case Settle => if t.call.Congested? { SettleEnds(core, t, c, cfg); }
    case Close => assert Backlog(Leave(core, c), c) == [];
    case DropPending => assert Backlog(Discard(core, c), c) == [];
    case _ =>
  }

  lemma CutLast(p: seq<Frame>, x: Frame, s: seq<Frame>)
    requires Subsequence(p + [x], s)
    ensures Subsequence(p, s)
  {
    SubsequenceDropLast(p + [x], s);
    assert (p + [x])[..|p|] == p;
  }

  lemma SubmitKeepsOrder(core: Core, t: Track, c: Client, frame: Frame)
    requires Ordered(Backlog(core, c), t) && t.call.Idle?
    ensures Ordered(Backlog(core, c), Submitted(core, t, c, frame))
  {
    var b, t' := Backlog(core, c), Submitted(core, t, c, frame);
    assert InHand(t'.call) == [];
    if Current(t'.call) == [] {
      SubsequenceSkip(Line(b, t), t.submitted, frame);
    } else {
      SubsequenceExtend(Line(b, t), t.submitted, frame);
      assert Line(b, t') == Line(b, t) + [frame];
    }
  }

  lemma CutQueuedAndLast(wire: seq<Frame>, queued: Frame, b: seq<Frame>, last: Frame, s: seq<Frame>)
    requires Subsequence(wire + [queued] + b + [last], s)
    ensures Subsequence(wire + b, s)
  {
    CutLast(wire + [queued] + b, last, s);
    SubsequenceCut(wire, [queued], b, s);
  }

  lemma FeedKeepsOrder(b: seq<Frame>, t: Track, ok: bool, watermark: nat)
    requires Ordered(b, t) && t.call.Feeding?
    ensures Ordered(b, Transmitted(t, ok, watermark))
  {
    var t', queued, frame := Transmitted(t, ok, watermark), t.call.queued, t.call.frame;
    assert InHand(t'.call) == [] && Current(t'.call) == if ok then [frame] else [];
    if ok {
      assert Line(b, t') == Line(b, t);
    } else {
      CutQueuedAndLast(t.wire, queued, b, frame, t.submitted);
      assert Line(b, t') == t.wire + b;
    }
  }

  lemma TransmitKeepsOrder(b: seq<Frame>, t: Track, ok: bool, watermark: nat)
    requires Ordered(b, t) && t.call.Transmitting? && (ok ==> b == [])
    ensures Ordered(b, Transmitted(t, ok, watermark))
  {
    var t', frame := Transmitted(t, ok, watermark), t.call.frame;
    assert InHand(t'.call) == [] && Current(t'.call) == [];
    assert Line(b, t) == t.wire + b + [frame];
    if ok {
      assert Line(b, t') == Line(b, t);
    } else {
      assert Line(b, t') == t.wire + b;
      CutLast(t.wire + b, frame, t.submitted);
    }
  }

  /** The call's own frame goes out in front of the backlog. */
  predicate Overtakes(backlog: seq<Frame>, t: Track, e: Event) {
    t.call.Transmitting? && e == Transmit(true) && backlog != []
  }

  lemma PopKeepsOrder(core: Core, t: Track, c: Client, cfg: Config)
    requires Ordered(Backlog(core, c), t) && t.call.Popping?
    ensures Ordered(Backlog(Popped(core, c), c), t.(call := Advance(t.call, Front(Oldest(core, c)), cfg.watermark)))
  {
    var b, next := Backlog(core, c), Advance(t.call, Front(Oldest(core, c)), cfg.watermark);
    assert Current(next) == Current(t.call);
    var b' := Backlog(Popped(core, c), c);
    assert InHand(next) + b' == b;
    assert Line(b', t.(call := next)) == Line(b, t);
  }

  lemma LeaveKeepsOrder(b: seq<Frame>, t: Track, w: Track)
    requires Ordered(b, t) && w.call == t.call && w.wire == t.wire && w.submitted == t.submitted
    ensures Ordered([], w)
  {
    var head := t.wire + InHand(t.call);
    SubsequenceCut(head, b, Current(t.call), t.submitted);
    assert Line([], w) == head + Current(t.call);
  }

  lemma SettleKeepsOrder(core: Core, t: Track, c: Client, cfg: Config)
    requires Ordered(Backlog(core, c), t) && t.call.Congested?
    requires c !in core.clients || t.call.frame.heavy
    ensures Ordered(Backlog(core, c), SettledTrack(core, t, c, cfg))
  {
    var b, t' := Backlog(core, c), SettledTrack(core, t, c, cfg);
    assert InHand(t'.call) == [] && Current(t'.call) == [];
    assert Line(b, t) == Line(b, t') + [t.call.frame];
    CutLast(Line(b, t'), t.call.frame, t.submitted);
  }

  lemma PushKeepsOrder(wire: seq<Frame>, q: Queue, frame: Frame, capacity: nat, s: seq<Frame>)
    requires Subsequence(wire + (q.frames + [frame]), s) && |q.frames| <= capacity
    ensures Subsequence(wire + Push(q, frame, capacity).frames, s)
  {
    PushAccounts(q, frame, capacity);
    var out, rest := Evicted(q, frame, capacity), Push(q, frame, capacity).frames;
    assert wire + (out + rest) == wire + out + rest;
    SubsequenceCut(wire, out, rest, s);
  }

  lemma QueueKeepsOrder(core: Core, t: Track, c: Client, cfg: Config)
    requires Ordered(Backlog(core, c), t) && t.call.Congested? && |Backlog(core, c)| <= cfg.capacity
    requires c in core.clients && !t.call.frame.heavy
    ensures Ordered(Backlog(Enqueued(core, c, t.call.frame, cfg.capacity), c), SettledTrack(core, t, c, cfg))
  {
    var q, frame := QueueOf(core, c), t.call.frame;
    CongestedLine(q.frames, t);
    PushKeepsOrder(t.wire, q, frame, cfg.capacity, t.submitted);
    SettleEnds(core, t, c, cfg);
    IdleLine(Push(q, frame, cfg.capacity).frames, SettledTrack(core, t, c, cfg));
  }

  lemma CongestedLine(b: seq<Frame>, t: Track)
    requires t.call.Congested?
    ensures Line(b, t) == t.wire + (b + [t.call.frame])
  {
  }

  lemma IdleLine(b: seq<Frame>, t: Track)
    requires t.call.Idle?
    ensures Line(b, t) == t.wire + b
  {
  }

  lemma EventKeepsOrder(core: Core, t: Track, c: Client, e: Event, cfg: Config)
    requires Ordered(Backlog(core, c), t) && |Backlog(core, c)| <= cfg.capacity
    requires !Overtakes(Backlog(core, c), t, e)
    ensures Ordered(Backlog(Shared(core, t, c, e, cfg), c), Tracked(core, t, c, e, cfg))
  {
    match e
    case Submit(frame) => if t.call.Idle? { SubmitKeepsOrder(core, t, c, frame); }
    case Transmit(ok) =>
      if t.call.Feeding? {
        FeedKeepsOrder(Backlog(core, c), t, ok, cfg.watermark);
      } else if t.call.Transmitting? {
        TransmitKeepsOrder(Backlog(core, c), t, ok, cfg.watermark);
      }
    case Read =>
      var next := Advance(t.call, Amount(BufferedAmount(t)), cfg.watermark);
      assert InHand(next) == InHand(t.call) && Current(next) == Current(t.call);
    case Pop => if t.call.Popping? { PopKeepsOrder(core, t, c, cfg); }
    case Settle =>
      if t.call.Congested? {
        if c in core.clients && !t.call.frame.heavy {
          QueueKeepsOrder(core, t, c, cfg);
        } else {
          SettleKeepsOrder(core, t, c, cfg);
        }
      }
    case Close => LeaveKeepsOrder(Backlog(core, c), t, Tracked(core, t, c, e, cfg));
    case DropPending => LeaveKeepsOrder(Backlog(core, c), t, Tracked(core, t, c, e, cfg));
    case _ =>
  }

  // ------------------------------------------------------- order in whole runs

  /** The frame in flight is the last one submitted. */
  predicate CurrentIsLast(t: Track) {
    !t.call.Idle? ==> t.submitted != [] && t.submitted[|t.submitted| - 1] == t.call.frame
  }

  lemma EventKeepsCurrent(core: Core, t: Track, c: Client, e: Event, cfg: Config)
    requires CurrentIsLast(t)
    ensures var t' := Tracked(core, t, c, e, cfg); CurrentIsLast(t') && t.submitted <= t'.submitted
  {
    match e
    case Settle => if t.call.Congested? { SettleEnds(core, t, c, cfg); }
    case Read =>
      var next := Advance(t.call, Amount(BufferedAmount(t)), cfg.watermark);
      assert Current(next) == Current(t.call);
    case Transmit(ok) => TransmitKeepsCurrent(t, ok, cfg.watermark);
    case Pop =>
      var next := Advance(t.call, Front(Oldest(core, c)), cfg.watermark);
      assert t.call.Popping? ==> Current(next) == Current(t.call);
    case _ =>
  }

  lemma TransmitKeepsCurrent(t: Track, ok: bool, watermark: nat)
    requires CurrentIsLast(t)
    ensures var t' := Transmitted(t, ok, watermark); CurrentIsLast(t') && t'.submitted == t.submitted
  {
  }

  lemma {:induction false} CurrentStaysLast(ids: set<Client>, steps: seq<Step>, cfg: Config, c: Client)
    requires c in ids
    ensures Run(ids, steps, cfg).tracks.Keys == ids
    ensures CurrentIsLast(Run(ids, steps, cfg).tracks[c])
  {
    BacklogsStayTidy(ids, steps, cfg);
    if steps != [] {
      var front, last := steps[..|steps| - 1], steps[|steps| - 1];
      CurrentStaysLast(ids, front, cfg, c);
      var s := Run(ids, front, cfg);
      match last
      case At(d, e) => if d == c { EventKeepsCurrent(s.core, s.tracks[c], c, e, cfg); }
      case Shutdown => EventKeepsCurrent(s.core, s.tracks[c], c, Close, cfg);
    }
  }

  /** Client `c` can still get all its frames in order, now and at every earlier
      point of the run. */
  ghost predicate AlwaysOrdered(ids: set<Client>, steps: seq<Step>, cfg: Config, c: Client)
    requires c in ids
  {
    BacklogsStayTidy(ids, steps, cfg);
    var s := Run(ids, steps, cfg);
    && Ordered(Backlog(s.core, c), s.tracks[c])
    && (steps != [] ==> AlwaysOrdered(ids, steps[..|steps| - 1], cfg, c))
  }

  /** No frame of client `c` ever overtakes its backlog. */
  ghost predicate NeverOvertakes(ids: set<Client>, steps: seq<Step>, cfg: Config, c: Client)
    requires c in ids
  {
    steps == [] ||
    var front, last := steps[..|steps| - 1], steps[|steps| - 1];
    BacklogsStayTidy(ids, front, cfg);
    var s := Run(ids, front, cfg);
    && NeverOvertakes(ids, front, cfg, c)
    && (last.At? && last.client == c ==> !Overtakes(Backlog(s.core, c), s.tracks[c], last.event))
  }

  /** One step without overtaking keeps the order. */
  lemma StepKeepsOrder(s: State, step: Step, cfg: Config, c: Client)
    requires c in s.tracks && Ordered(Backlog(s.core, c), s.tracks[c]) && |Backlog(s.core, c)| <= cfg.capacity
    requires step.At? && step.client == c ==> !Overtakes(Backlog(s.core, c), s.tracks[c], step.event)
    ensures var s' := Apply(s, step, cfg); c in s'.tracks && Ordered(Backlog(s'.core, c), s'.tracks[c])
  {
    match step
    case At(d, e) =>
      if d == c {
        EventKeepsOrder(s.core, s.tracks[c], c, e, cfg);
      } else if d in s.tracks {
        OthersUntouched(s.core, s.tracks[d], d, e, cfg, c);
      }
    case Shutdown =>
      EventKeepsOrder(s.core, s.tracks[c], c, Close, cfg);
  }

  lemma OvertakingStep(b: seq<Frame>, t: Track, cfg: Config)
    requires Ordered(b, t) && CurrentIsLast(t) && NoDuplicates(t.submitted)
    requires Overtakes(b, t, Transmit(true))
    ensures !Ordered(b, Transmitted(t, true, cfg.watermark))
  {
    var sent := Transmitted(t, true, cfg.watermark);
    assert Line(b, sent) == t.wire + [t.call.frame] + b;
    assert Line(b, t) == t.wire + b + [t.call.frame];
    OvertakenBy(t.wire, b, t.call.frame, t.submitted);
  }

  /** Over every run of distinct frames, the order is never lost exactly if no
      frame goes out while older ones wait in the backlog. */
  lemma {:induction false} OrderedUnlessOvertaken(ids: set<Client>, steps: seq<Step>, cfg: Config, c: Client)
    requires c in ids
    ensures Run(ids, steps, cfg).tracks.Keys == ids
    ensures NoDuplicates(Run(ids, steps, cfg).tracks[c].submitted) ==>
              (AlwaysOrdered(ids, steps, cfg, c) <==> NeverOvertakes(ids, steps, cfg, c))
  {
    BacklogsStayTidy(ids, steps, cfg);
    if steps != [] && NoDuplicates(Run(ids, steps, cfg).tracks[c].submitted) {
      var front, last := steps[..|steps| - 1], steps[|steps| - 1];
      BacklogsStayTidy(ids, front, cfg);
      CurrentStaysLast(ids, front, cfg, c);
      var s := Run(ids, front, cfg);
      SubmissionsGrow(s, last, cfg, c);
      OrderedUnlessOvertaken(ids, front, cfg, c);
      if AlwaysOrdered(ids, front, cfg, c) {
        assert NoDuplicates(s.tracks[c].submitted);
        StepOrderedUnlessOvertaken(s, last, cfg, c);
      }
    }
  }

  lemma StepOrderedUnlessOvertaken(s: State, step: Step, cfg: Config, c: Client)
    requires c in s.tracks && Ordered(Backlog(s.core, c), s.tracks[c]) && |Backlog(s.core, c)| <= cfg.capacity
    requires CurrentIsLast(s.tracks[c]) && NoDuplicates(s.tracks[c].submitted)
    ensures var s' := Apply(s, step, cfg);
            && c in s'.tracks
            && (Ordered(Backlog(s'.core, c), s'.tracks[c]) <==>
                  !(step.At? && step.client == c && Overtakes(Backlog(s.core, c), s.tracks[c], step.event)))
  {
    if step.At? && step.client == c && Overtakes(Backlog(s.core, c), s.tracks[c], step.event) {
      OvertakingApplied(s, cfg, c);
    } else {
      StepKeepsOrder(s, step, cfg, c);
    }
  }

  lemma OvertakingApplied(s: State, cfg: Config, c: Client)
    requires c in s.tracks && Ordered(Backlog(s.core, c), s.tracks[c])
    requires CurrentIsLast(s.tracks[c]) && NoDuplicates(s.tracks[c].submitted)
    requires Overtakes(Backlog(s.core, c), s.tracks[c], Transmit(true))
    ensures var s' := Apply(s, At(c, Transmit(true)), cfg);
            c in s'.tracks && !Ordered(Backlog(s'.core, c), s'.tracks[c])
  {
    OvertakingStep(Backlog(s.core, c), s.tracks[c], cfg);
    assert Apply(s, At(c, Transmit(true)), cfg).core == s.core;
  }

  lemma SubmissionsGrow(s: State, step: Step, cfg: Config, c: Client)
    requires c in s.tracks && CurrentIsLast(s.tracks[c])
    ensures var s' := Apply(s, step, cfg); c in s'.tracks && s.tracks[c].submitted <= s'.tracks[c].submitted
  {
    match step
    case At(d, e) => if d == c { EventKeepsCurrent(s.core, s.tracks[c], c, e, cfg); }
    case Shutdown => EventKeepsCurrent(s.core, s.tracks[c], c, Close, cfg);
  }

  // -------------------------------------------------------- the wire by itself

  /** `x` comes before `y`. */
  ghost predicate Precedes(s: seq<Frame>, x: Frame, y: Frame) {
    exists i, j :: 0 <= i < j < |s| && s[i] == x && s[j] == y
  }

  lemma PrecedesInFront(s: seq<Frame>, x: Frame, y: Frame)
    requires s != [] && NoDuplicates(s) && y != s[|s| - 1]
    ensures Precedes(s, x, y) <==> Precedes(s[..|s| - 1], x, y)
  {
    var front := s[..|s| - 1];
    if i, j :| 0 <= i < j < |s| && s[i] == x && s[j] == y {
      assert front[i] == x && front[j] == y;
    }
    if i, j :| 0 <= i < j < |front| && front[i] == x && front[j] == y {
      assert s[i] == x && s[j] == y;
    }
  }

  lemma LastIsPreceded(s: seq<Frame>, x: Frame)
    requires x in s && NoDuplicates(s) && x != s[|s| - 1]
    ensures Precedes(s, x, s[|s| - 1]) && !Precedes(s, s[|s| - 1], x)
  {
    var i :| 0 <= i < |s| && s[i] == x;
  }

  lemma MembersOfAppend(a: seq<Frame>, x: Frame, y: Frame)
    requires y in a
    ensures y in a + [x]
  {
  }

  /** Of distinct frames, one more can follow a subsequence exactly if it
      precedes none of it. */
  lemma {:induction false} FollowsUnlessOlder(a: seq<Frame>, x: Frame, s: seq<Frame>)
    requires Subsequence(a, s) && NoDuplicates(s) && x in s && x !in a
    ensures Subsequence(a + [x], s) <==> forall y | y in a :: !Precedes(s, x, y)
    decreases |s|
  {
    var front, last := s[..|s| - 1], s[|s| - 1];
    assert (a + [x])[..|a|] == a;
    SubsequenceMembers(a, s);
    if x == last {
      forall y | y in a
        ensures !Precedes(s, x, y)
      {
        LastIsPreceded(s, y);
      }
    } else if last in a {
      LastIsPreceded(s, x);
      if Subsequence(a + [x], front) {
        SubsequenceMembers(a + [x], front);
        MembersOfAppend(a, x, last);
      }
    } else {
      assert x in front;
      FollowsUnlessOlder(a, x, front);
      forall y | y in a
        ensures Precedes(s, x, y) <==> Precedes(front, x, y)
      {
        PrecedesInFront(s, x, y);
      }
    }
  }

  lemma {:induction false} OccursOnce(s: seq<Frame>, x: Frame)
    requires NoDuplicates(s)
    ensures multiset(s)[x] <= 1
  {
    if s != [] {
      var front, last := s[..|s| - 1], s[|s| - 1];
      OccursOnce(front, x);
      assert s == front + [last];
      if x == last {
        assert x !in front;
        assert multiset(front)[x] == 0;
      }
    }
  }

  /** A frame in flight was submitted and is not on the wire yet. */
  lemma InFlightIsNew(f: Frame, backlog: seq<Frame>, t: Track)
    requires Conserved(f, backlog, t) && NoDuplicates(t.submitted) && (f in InHand(t.call) || f in Current(t.call))
    ensures f in t.submitted && f !in t.wire
  {
    InFlightWasSubmitted(f, backlog, t);
    OccursOnce(t.submitted, f);
    assert multiset(InHand(t.call))[f] + multiset(Current(t.call))[f] > 0;
    assert multiset(t.wire)[f] == 0;
  }

  /** A frame flushed from the backlog was submitted before one that is already
      on the wire. */
  ghost predicate FlushesOlder(t: Track, e: Event) {
    t.call.Feeding? && e == Transmit(true) && exists f | f in t.wire :: Precedes(t.submitted, t.call.queued, f)
  }

  lemma WireGrows(core: Core, t: Track, c: Client, e: Event, cfg: Config)
    ensures Tracked(core, t, c, e, cfg).wire ==
            if e == Transmit(true) && t.call.Feeding? then t.wire + [t.call.queued]
            else if e == Transmit(true) && t.call.Transmitting? then t.wire + [t.call.frame]
            else t.wire
  {
    if e.Settle? && t.call.Congested? {
      SettleEnds(core, t, c, cfg);
    }
  }

  lemma EventKeepsWireOrder(core: Core, t: Track, c: Client, e: Event, cfg: Config)
    requires Subsequence(t.wire, t.submitted) && CurrentIsLast(t) && NoDuplicates(t.submitted)
    requires t.call.Feeding? ==> t.call.queued in t.submitted && t.call.queued !in t.wire
    requires t.call.Transmitting? ==> t.call.frame in t.submitted && t.call.frame !in t.wire
    ensures var t' := Tracked(core, t, c, e, cfg); Subsequence(t'.wire, t'.submitted) <==> !FlushesOlder(t, e)
  {
    WireGrows(core, t, c, e, cfg);
    OnlySubmitSubmits(core, t, c, e, cfg);
    match e
    case Submit(f) => SubsequenceSkip(t.wire, t.submitted, f);
    case Transmit(ok) =>
      if t.call.Feeding? {
        FollowsUnlessOlder(t.wire, t.call.queued, t.submitted);
      } else if t.call.Transmitting? {
        SubsequenceMembers(t.wire, t.submitted);
        forall y | y in t.wire
          ensures !Precedes(t.submitted, t.call.frame, y)
        {
          LastIsPreceded(t.submitted, y);
        }
        FollowsUnlessOlder(t.wire, t.call.frame, t.submitted);
      }
    case _ =>
  }

  /** Client `c`'s wire is in order, now and at every earlier point of the run. */
  ghost predicate WireAlwaysOrdered(ids: set<Client>, steps: seq<Step>, cfg: Config, c: Client)
    requires c in ids
  {
    BacklogsStayTidy(ids, steps, cfg);
    var t := Run(ids, steps, cfg).tracks[c];
    && Subsequence(t.wire, t.submitted)
    && (steps != [] ==> WireAlwaysOrdered(ids, steps[..|steps| - 1], cfg, c))
  }

  ghost predicate NeverFlushesOlder(ids: set<Client>, steps: seq<Step>, cfg: Config, c: Client)
    requires c in ids
  {
    steps == [] ||
    var front, last := steps[..|steps| - 1], steps[|steps| - 1];
    BacklogsStayTidy(ids, front, cfg);
    && NeverFlushesOlder(ids, front, cfg, c)
    && (last.At? && last.client == c ==> !FlushesOlder(Run(ids, front, cfg).tracks[c], last.event))
  }

  lemma StepKeepsWireOrder(ids: set<Client>, front: seq<Step>, step: Step, cfg: Config, c: Client)
    requires c in ids && Run(ids, front, cfg).tracks.Keys == ids
    requires var t := Run(ids, front, cfg).tracks[c]; Subsequence(t.wire, t.submitted) && NoDuplicates(t.submitted)
    ensures var s' := Apply(Run(ids, front, cfg), step, cfg);
            && c in s'.tracks
            && (Subsequence(s'.tracks[c].wire, s'.tracks[c].submitted) <==>
                  !(step.At? && step.client == c && FlushesOlder(Run(ids, front, cfg).tracks[c], step.event)))
  {
    var s := Run(ids, front, cfg);
    var t := s.tracks[c];
    CurrentStaysLast(ids, front, cfg, c);
    forall f | f in InHand(t.call) || f in Current(t.call)
      ensures f in t.submitted && f !in t.wire
    {
      EveryFrameAccounted(ids, front, cfg, c, f);
      InFlightIsNew(f, Backlog(s.core, c), t);
    }
    match step
    case At(d, e) => if d == c { EventKeepsWireOrder(s.core, t, c, e, cfg); }
    case Shutdown => EventKeepsWireOrder(s.core, t, c, Close, cfg);
  }

  /** Over every run of distinct frames, a client's wire stays in submission order
      exactly if no flushed frame is older than one already on the wire. */
  lemma {:induction false} WireOrderedExactly(ids: set<Client>, steps: seq<Step>, cfg: Config, c: Client)
    requires c in ids
    ensures Run(ids, steps, cfg).tracks.Keys == ids
    ensures NoDuplicates(Run(ids, steps, cfg).tracks[c].submitted) ==>
              (WireAlwaysOrdered(ids, steps, cfg, c) <==> NeverFlushesOlder(ids, steps, cfg, c))
  {
    BacklogsStayTidy(ids, steps, cfg);
    if steps != [] && NoDuplicates(Run(ids, steps, cfg).tracks[c].submitted) {
      var front, last := steps[..|steps| - 1], steps[|steps| - 1];
      WireOrderedExactly(ids, front, cfg, c);
      CurrentStaysLast(ids, front, cfg, c);
      SubmissionsGrow(Run(ids, front, cfg), last, cfg, c);
      if WireAlwaysOrdered(ids, front, cfg, c) {
        assert NoDuplicates(Run(ids, front, cfg).tracks[c].submitted);
        StepKeepsWireOrder(ids, front, last, cfg, c);
      }
    }
  }

  // ------------------------------------------------------------------ the guard

  /** The last reading of a call finds no backlog, or the socket full. */
  predicate Guarded(backlog: seq<Frame>, t: Track, e: Event, watermark: nat) {
    e.Read? && t.call.Deciding? ==> backlog == [] || BufferedAmount(t) >= watermark
  }

  ghost predicate GuardedRun(ids: set<Client>, steps: seq<Step>, cfg: Config, c: Client)
    requires c in ids
  {
    steps == [] ||
    var front, last := steps[..|steps| - 1], steps[|steps| - 1];
    BacklogsStayTidy(ids, front, cfg);
    var s := Run(ids, front, cfg);
    && GuardedRun(ids, front, cfg, c)
    && (last.At? && last.client == c ==> Guarded(Backlog(s.core, c), s.tracks[c], last.event, cfg.watermark))
  }

  /** A frame about to go out has no backlog before it. */
  predicate Clear(backlog: seq<Frame>, t: Track) {
    t.call.Transmitting? ==> backlog == []
  }

  lemma ReadKeepsClear(b: seq<Frame>, t: Track, watermark: nat)
    requires Clear(b, t) && Guarded(b, t, Read, watermark)
    ensures Clear(b, t.(call := Advance(t.call, Amount(BufferedAmount(t)), watermark)))
  {
  }

  lemma TransmitKeepsClear(b: seq<Frame>, t: Track, ok: bool, watermark: nat)
    requires Clear(b, t)
    ensures Clear(b, Transmitted(t, ok, watermark))
  {
  }

  lemma PopKeepsClear(core: Core, t: Track, c: Client, cfg: Config)
    requires Clear(Backlog(core, c), t)
    ensures Clear(Backlog(Shared(core, t, c, Pop, cfg), c), Tracked(core, t, c, Pop, cfg))
  {
  }

  lemma EventKeepsClear(core: Core, t: Track, c: Client, e: Event, cfg: Config)
    requires Clear(Backlog(core, c), t) && Guarded(Backlog(core, c), t, e, cfg.watermark)
    ensures Clear(Backlog(Shared(core, t, c, e, cfg), c), Tracked(core, t, c, e, cfg))
  {
    match e
    case Read => ReadKeepsClear(Backlog(core, c), t, cfg.watermark);
    case Transmit(ok) => TransmitKeepsClear(Backlog(core, c), t, ok, cfg.watermark);
    case Pop => PopKeepsClear(core, t, c, cfg);
    case Settle => if t.call.Congested? { SettleEnds(core, t, c, cfg); }
    case _ =>
  }

  lemma {:induction false} GuardedNeverOvertakes(ids: set<Client>, steps: seq<Step>, cfg: Config, c: Client)
    requires c in ids && GuardedRun(ids, steps, cfg, c)
    ensures Run(ids, steps, cfg).tracks.Keys == ids
    ensures var s := Run(ids, steps, cfg); Clear(Backlog(s.core, c), s.tracks[c])
    ensures NeverOvertakes(ids, steps, cfg, c)
  {
    BacklogsStayTidy(ids, steps, cfg);
    if steps != [] {
      var front, last := steps[..|steps| - 1], steps[|steps| - 1];
      GuardedNeverOvertakes(ids, front, cfg, c);
      var s := Run(ids, front, cfg);
      match last
      case At(d, e) =>
        if d == c {
          EventKeepsClear(s.core, s.tracks[c], c, e, cfg);
        } else if d in ids {
          OthersUntouched(s.core, s.tracks[d], d, e, cfg, c);
        }
      case Shutdown =>
        EventKeepsClear(s.core, s.tracks[c], c, Close, cfg);
    }
  }

  lemma {:induction false} NotOvertakenIsOrdered(ids: set<Client>, steps: seq<Step>, cfg: Config, c: Client)
    requires c in ids && NeverOvertakes(ids, steps, cfg, c)
    ensures Run(ids, steps, cfg).tracks.Keys == ids
    ensures var s := Run(ids, steps, cfg); Ordered(Backlog(s.core, c), s.tracks[c])
  {
    BacklogsStayTidy(ids, steps, cfg);
    if steps != [] {
      var front, last := steps[..|steps| - 1], steps[|steps| - 1];
      NotOvertakenIsOrdered(ids, front, cfg, c);
      BacklogsStayTidy(ids, front, cfg);
      StepKeepsOrder(Run(ids, front, cfg), last, cfg, c);
    }
  }

  /** If every last reading of a call finds no backlog or a full socket, frames
      reach the client's wire in the order in which they were submitted, however
      the socket drains otherwise and whatever happens to the connection. */
  lemma GuardedWireKeepsOrder(ids: set<Client>, steps: seq<Step>, cfg: Config, c: Client)
    requires c in ids && GuardedRun(ids, steps, cfg, c)
    ensures var s := Run(ids, steps, cfg); c in s.tracks && Subsequence(s.tracks[c].wire, s.tracks[c].submitted)
  {
    GuardedNeverOvertakes(ids, steps, cfg, c);
    NotOvertakenIsOrdered(ids, steps, cfg, c);
    var s := Run(ids, steps, cfg);
    WireIsFirst(Backlog(s.core, c), s.tracks[c]);
  }

  /** Within every call the readings of client `c`'s socket never decrease. */
  ghost predicate SteadyRun(ids: set<Client>, steps: seq<Step>, cfg: Config, c: Client)
    requires c in ids
  {
    steps == [] ||
    var front, last := steps[..|steps| - 1], steps[|steps| - 1];
    BacklogsStayTidy(ids, front, cfg);
    && SteadyRun(ids, front, cfg, c)
    && (last.At? && last.client == c ==> Steady(Run(ids, front, cfg).tracks[c], last.event))
  }

  /** Steady readings are a special case: the flush then leaves no backlog, or
      has seen the socket full. */
  lemma {:induction false} SteadyIsGuarded(ids: set<Client>, steps: seq<Step>, cfg: Config, c: Client)
    requires c in ids && SteadyRun(ids, steps, cfg, c)
    ensures Run(ids, steps, cfg).tracks.Keys == ids
    ensures var s := Run(ids, steps, cfg); Phased(Backlog(s.core, c), s.tracks[c], cfg.watermark)
    ensures GuardedRun(ids, steps, cfg, c)
  {
    BacklogsStayTidy(ids, steps, cfg);
    if steps != [] {
      var front, last := steps[..|steps| - 1], steps[|steps| - 1];
      SteadyIsGuarded(ids, front, cfg, c);
      var s := Run(ids, front, cfg);
      match last
      case At(d, e) =>
        if d == c {
          EventKeepsPhase(s.core, s.tracks[c], c, e, cfg);
        } else if d in ids {
          OthersUntouched(s.core, s.tracks[d], d, e, cfg, c);
        }
      case Shutdown =>
        EventKeepsPhase(s.core, s.tracks[c], c, Close, cfg);
    }
  }

  /** If the readings never decrease within a call, frames reach the client's
      wire in the order in which they were submitted. */
  lemma WireKeepsOrder(ids: set<Client>, steps: seq<Step>, cfg: Config, c: Client)
    requires c in ids && SteadyRun(ids, steps, cfg, c)
    ensures var s := Run(ids, steps, cfg); c in s.tracks && Subsequence(s.tracks[c].wire, s.tracks[c].submitted)
  {
    SteadyIsGuarded(ids, steps, cfg, c);
    GuardedWireKeepsOrder(ids, steps, cfg, c);
  }

  lemma WireIsFirst(backlog: seq<Frame>, t: Track)
    requires Ordered(backlog, t)
    ensures Subsequence(t.wire, t.submitted)
  {
    CutTail(t.wire + InHand(t.call) + backlog, Current(t.call), t.submitted);
    CutTail(t.wire + InHand(t.call), backlog, t.submitted);
    CutTail(t.wire, InHand(t.call), t.submitted);
  }

  lemma CutTail(p: seq<Frame>, tail: seq<Frame>, s: seq<Frame>)
    requires Subsequence(p + tail, s)
    ensures Subsequence(p, s)
  {
    assert p + tail == p + tail + [];
    SubsequenceCut(p, tail, [], s);
    assert p + [] == p;
  }

  /** The last of several distinct frames can only come last. */
  lemma NothingFollowsTheLast(a: seq<Frame>, b: seq<Frame>)
    requires Subsequence(a, b) && NoDuplicates(b) && b != []
    ensures forall k | 0 <= k < |a| - 1 :: a[k] != b[|b| - 1]
  {
    if a != [] {
      var a', b' := a[..|a| - 1], b[..|b| - 1];
      if a[|a| - 1] == b[|b| - 1] {
        SubsequenceMembers(a', b');
      } else {
        SubsequenceMembers(a, b');
      }
      forall k | 0 <= k < |a| - 1
        ensures a[k] != b[|b| - 1]
      {
        assert a[k] == a'[k] && a[k] in b';
      }
    }
  }

  /** Sending the call's own frame keeps the order exactly when the backlog is
      empty or the socket is still full at the last reading: a socket that
      drains between the two readings of one call lets the new frame overtake
      the backlog. */
  lemma OvertakingBreaksOrder(core: Core, t: Track, c: Client, cfg: Config)
    requires t.call.Deciding? && Ordered(Backlog(core, c), t)
    requires t.submitted != [] && t.submitted[|t.submitted| - 1] == t.call.frame && NoDuplicates(t.submitted)
    ensures var decided := Tracked(core, t, c, Read, cfg);
            var sent := Tracked(core, decided, c, Transmit(true), cfg);
            Ordered(Backlog(core, c), sent) <==> Backlog(core, c) == [] || BufferedAmount(t) >= cfg.watermark
  {
    var b := Backlog(core, c);
    var decided := Tracked(core, t, c, Read, cfg);
    var sent := Tracked(core, decided, c, Transmit(true), cfg);
    if BufferedAmount(t) >= cfg.watermark {
      assert sent == decided && Line(b, sent) == Line(b, t);
    } else {
      assert Line(b, sent) == t.wire + [t.call.frame] + b;
      assert Line(b, t) == t.wire + b + [t.call.frame];
      OvertakenBy(t.wire, b, t.call.frame, t.submitted);
    }
  }

  lemma OvertakenBy(wire: seq<Frame>, b: seq<Frame>, last: Frame, s: seq<Frame>)
    requires Subsequence(wire + b + [last], s) && NoDuplicates(s) && s != [] && s[|s| - 1] == last
    ensures Subsequence(wire + [last] + b, s) <==> b == []
  {
    var line := wire + [last] + b;
    if b == [] {
      assert line == wire + b + [last];
    } else {
      assert line[|wire|] == last;
      if Subsequence(line, s) {
        NothingFollowsTheLast(line, s);
      }
    }
  }

  // --------------------------------------------------- overtaking can happen

  datatype Local = Local(core: Core, track: Track)

  ghost function Single(c: Client, l: Local): State {
    State(l.core, map[c := l.track])
  }

  function After(l: Local, c: Client, e: Event, cfg: Config): Local {
    Local(Shared(l.core, l.track, c, e, cfg), Tracked(l.core, l.track, c, e, cfg))
  }

  lemma Extend(steps: seq<Step>, c: Client, l: Local, e: Event, cfg: Config, l': Local) returns (more: seq<Step>)
    requires Run({c}, steps, cfg) == Single(c, l) && After(l, c, e, cfg) == l'
    ensures Run({c}, more, cfg) == Single(c, l')
  {
    more := steps + [At(c, e)];
    assert more[..|more| - 1] == steps;
  }

  const Tight := Config(1, 1)
  const F0 := Frame(0, false, 1)
  const F1 := Frame(1, false, 1)
  const F2 := Frame(2, false, 1)
  const F3 := Frame(3, false, 1)

  /** The client connected and its backlog, and where its frames are. */
  function Scene(c: Client, pending: map<Client, Queue>, buffered: nat, call: Call, submitted: seq<Frame>,
                 wire: seq<Frame>): Local {
    Local(Core({c}, pending, 0, 0),
          NewTrack.(joined := true, binary := buffered, call := call, submitted := submitted, wire := wire))
  }

  function Behind(c: Client, frames: seq<Frame>): map<Client, Queue> {
    map[c := Queue(frames, 0)]
  }

  /** The first frame finds an empty socket. */
  lemma FindEmpty(c: Client) returns (steps: seq<Step>)
    ensures Run({c}, steps, Tight) == Single(c, Scene(c, map[], 0, Deciding(F0, 0, 0), [F0], []))
  {
    assert Init({c}).tracks == map[c := NewTrack];
    var l := Local(Core({}, map[], 0, 0), NewTrack);
    var l1 := Scene(c, map[], 0, Idle(None), [], []);
    steps := Extend([], c, l, Open, Tight, l1);
    var l2 := Scene(c, map[], 0, Deciding(F0, 0, 0), [F0], []);
    steps := Extend(steps, c, l1, Submit(F0), Tight, l2);
  }

  /** It fills the socket. */
  lemma FillSocket(c: Client) returns (steps: seq<Step>)
    ensures Run({c}, steps, Tight) == Single(c, Scene(c, map[], 1, Done(Delivered, 0, 0), [F0], [F0]))
  {
    steps := FindEmpty(c);
    var l2 := Scene(c, map[], 0, Deciding(F0, 0, 0), [F0], []);
    var l3 := Scene(c, map[], 0, Transmitting(F0, 0), [F0], []);
    steps := Extend(steps, c, l2, Read, Tight, l3);
    var l4 := Scene(c, map[], 1, Done(Delivered, 0, 0), [F0], [F0]);
    steps := Extend(steps, c, l3, Transmit(true), Tight, l4);
  }

  /** The second frame finds it full. */
  lemma FindFull(c: Client) returns (steps: seq<Step>)
    ensures Run({c}, steps, Tight) == Single(c, Scene(c, map[], 1, Congested(F1, 0), [F0, F1], [F0]))
  {
    steps := FillSocket(c);
    var l := Scene(c, map[], 1, Done(Delivered, 0, 0), [F0], [F0]);
    var l1 := Scene(c, map[], 1, Deciding(F1, 0, 0), [F0, F1], [F0]);
    steps := Extend(steps, c, l, Submit(F1), Tight, l1);
    steps := Extend(steps, c, l1, Read, Tight, Scene(c, map[], 1, Congested(F1, 0), [F0, F1], [F0]));
  }

  /** So it is queued. */
  lemma QueueOne(c: Client) returns (steps: seq<Step>)
    ensures Run({c}, steps, Tight) ==
            Single(c, Scene(c, Behind(c, [F1]), 1, Done(Queued, 0, 0), [F0, F1], [F0]))
  {
    steps := FindFull(c);
    var l := Scene(c, map[], 1, Congested(F1, 0), [F0, F1], [F0]);
    assert Push(EmptyQueue, F1, 1) == Queue([F1], 0) && Evicted(EmptyQueue, F1, 1) == [];
    steps := Extend(steps, c, l, Settle, Tight, Scene(c, Behind(c, [F1]), 1, Done(Queued, 0, 0), [F0, F1], [F0]));
  }

  /** The third send reads a full socket. */
  lemma FindFullAgain(c: Client) returns (steps: seq<Step>)
    ensures Run({c}, steps, Tight) ==
            Single(c, Scene(c, Behind(c, [F1]), 1, Deciding(F2, 0, 1), [F0, F1, F2], [F0]))
  {
    steps := QueueOne(c);
    var l := Scene(c, Behind(c, [F1]), 1, Done(Queued, 0, 0), [F0, F1], [F0]);
    var l1 := Scene(c, Behind(c, [F1]), 1, Flushing(F2, 1, 0, 0), [F0, F1, F2], [F0]);
    steps := Extend(steps, c, l, Submit(F2), Tight, l1);
    var l2 := Scene(c, Behind(c, [F1]), 1, Deciding(F2, 0, 1), [F0, F1, F2], [F0]);
    steps := Extend(steps, c, l1, Read, Tight, l2);
  }

  /** Then an empty one. */
  lemma DrainInBetween(c: Client) returns (steps: seq<Step>)
    ensures Run({c}, steps, Tight) ==
            Single(c, Scene(c, Behind(c, [F1]), 1, Done(Delivered, 0, 0), [F0, F1, F2], [F0, F2]))
  {
    steps := FindFullAgain(c);
    var l2 := Scene(c, Behind(c, [F1]), 1, Deciding(F2, 0, 1), [F0, F1, F2], [F0]);
    var l3 := Scene(c, Behind(c, [F1]), 0, Deciding(F2, 0, 1), [F0, F1, F2], [F0]);
    steps := Extend(steps, c, l2, Drain(0, 0), Tight, l3);
    var l4 := Scene(c, Behind(c, [F1]), 0, Transmitting(F2, 0), [F0, F1, F2], [F0]);
    steps := Extend(steps, c, l3, Read, Tight, l4);
    var l5 := Scene(c, Behind(c, [F1]), 1, Done(Delivered, 0, 0), [F0, F1, F2], [F0, F2]);
    steps := Extend(steps, c, l4, Transmit(true), Tight, l5);
  }

  /** The fourth send finds room and turns to the backlog. */
  lemma TurnToBacklog(c: Client) returns (steps: seq<Step>)
    ensures Run({c}, steps, Tight) ==
            Single(c, Scene(c, Behind(c, [F1]), 0, Popping(F3, 1, 0, 0), [F0, F1, F2, F3], [F0, F2]))
  {
    steps := DrainInBetween(c);
    var l := Scene(c, Behind(c, [F1]), 1, Done(Delivered, 0, 0), [F0, F1, F2], [F0, F2]);
    var l1 := Scene(c, Behind(c, [F1]), 0, Done(Delivered, 0, 0), [F0, F1, F2], [F0, F2]);
    steps := Extend(steps, c, l, Drain(0, 0), Tight, l1);
    var l2 := Scene(c, Behind(c, [F1]), 0, Flushing(F3, 1, 0, 0), [F0, F1, F2, F3], [F0, F2]);
    steps := Extend(steps, c, l1, Submit(F3), Tight, l2);
    var l3 := Scene(c, Behind(c, [F1]), 0, Popping(F3, 1, 0, 0), [F0, F1, F2, F3], [F0, F2]);
    steps := Extend(steps, c, l2, Read, Tight, l3);
  }

  /** It flushes the second frame behind the third. */
  lemma FlushQueued(c: Client) returns (steps: seq<Step>)
    ensures Run({c}, steps, Tight) ==
            Single(c, Scene(c, Behind(c, []), 1, Deciding(F3, 1, 0), [F0, F1, F2, F3], [F0, F2, F1]))
  {
    steps := TurnToBacklog(c);
    var l := Scene(c, Behind(c, [F1]), 0, Popping(F3, 1, 0, 0), [F0, F1, F2, F3], [F0, F2]);
    assert [F1][1..] == [];
    var l1 := Scene(c, Behind(c, []), 0, Feeding(F1, F3, 1, 0, 0), [F0, F1, F2, F3], [F0, F2]);
    steps := Extend(steps, c, l, Pop, Tight, l1);
    var l2 := Scene(c, Behind(c, []), 1, Deciding(F3, 1, 0), [F0, F1, F2, F3], [F0, F2, F1]);
    steps := Extend(steps, c, l1, Transmit(true), Tight, l2);
  }

  /** A run in which frames reach the wire in another order than submitted: the
      socket drains between the two readings of one call. */
  lemma FramesCanOvertake(c: Client) returns (steps: seq<Step>)
    ensures var s := Run({c}, steps, Tight);
            && s.tracks.Keys == {c}
            && s.tracks[c].submitted == [F0, F1, F2, F3]
            && s.tracks[c].wire == [F0, F2, F1]
            && !Subsequence(s.tracks[c].wire, s.tracks[c].submitted)
  {
    steps := FlushQueued(c);
    OutOfOrder();
  }

  lemma OutOfOrder()
    ensures !Subsequence([F0, F2, F1], [F0, F1, F2, F3])
  {
    var a, b := [F0, F2, F1], [F0, F1, F2, F3];
    assert b[..3] == [F0, F1, F2] && [F0, F1, F2][..2] == [F0, F1];
    assert a[..2] == [F0, F2] && [F0, F1][..1] == [F0] && [F0][..0] == [];
    assert !Subsequence([F0, F2], [F0]);
    assert !Subsequence(a, [F0, F1]);
  }
}
