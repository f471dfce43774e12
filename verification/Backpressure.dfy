/**
 The bounded drop-oldest backlog of one client, and the policy that decides
 whether a frame is sent, queued or shed.
 */
module Backpressure {
  import opened Common

  /** A binary frame; the id tells submissions with equal content apart. */
  datatype Frame = Frame(id: nat, heavy: bool, size: nat)

  // ------------------------------------------------------------------ backlog

  datatype Queue = Queue(frames: seq<Frame>, dropped: nat)

  const EmptyQueue := Queue([], 0)

  function Push(q: Queue, f: Frame, capacity: nat): Queue {
    if capacity == 0 then q.(dropped := q.dropped + 1)
    else if |q.frames| >= capacity && q.frames != [] then Queue(q.frames[1..] + [f], q.dropped + 1)
    else q.(frames := q.frames + [f])
  }

  /** The frames a push throws away: the oldest, or the new one if there is no
      room at all. */
  function Evicted(q: Queue, f: Frame, capacity: nat): seq<Frame> {
    if capacity == 0 then [f]
    else if |q.frames| >= capacity && q.frames != [] then [q.frames[0]]
    else []
  }

  /** A push accounts for every frame, keeps the newest, and counts its drops. */
  lemma PushAccounts(q: Queue, f: Frame, capacity: nat)
    requires |q.frames| <= capacity
    ensures var q' := Push(q, f, capacity);
            && Evicted(q, f, capacity) + q'.frames == q.frames + [f]
            && |q'.frames| <= capacity
            && q'.dropped == q.dropped + |Evicted(q, f, capacity)|
            && (capacity > 0 ==> q'.frames != [] && q'.frames[|q'.frames| - 1] == f)
  {
    if capacity > 0 && |q.frames| >= capacity {
      assert q.frames == [q.frames[0]] + q.frames[1..];
    }
  }

  class BoundedFrameQueue {
    const maxFrames: nat
    var frames: seq<Frame>
    var droppedTotal: nat

    ghost function Value(): Queue
      reads this
    {
      Queue(frames, droppedTotal)
    }

    constructor (maxFrames: nat)
      ensures Value() == EmptyQueue && this.maxFrames == maxFrames
    {
      this.maxFrames := maxFrames;
      frames, droppedTotal := [], 0;
    }

    /** A queue with the given content. */
    constructor Restore(maxFrames: nat, value: Queue)
      ensures Value() == value && this.maxFrames == maxFrames
    {
      this.maxFrames := maxFrames;
      frames, droppedTotal := value.frames, value.dropped;
    }

    method PushFrame(frame: Frame) returns (dropped: nat)
      requires |frames| <= maxFrames
      modifies this
      ensures Value() == Push(old(Value()), frame, maxFrames)
      ensures dropped == |Evicted(old(Value()), frame, maxFrames)| && |frames| <= maxFrames
    {
      if maxFrames == 0 {
        droppedTotal := droppedTotal + 1;
        return 1;
      }
      dropped := 0;
      if |frames| >= maxFrames {
        frames := frames[1..];
        droppedTotal := droppedTotal + 1;
        dropped := 1;
      }
      frames := frames + [frame];
    }

    method PopFront() returns (front: Option<Frame>)
      modifies this
      ensures old(frames) == [] ==> front == None && frames == []
      ensures old(frames) != [] ==> front == Some(old(frames)[0]) && frames == old(frames)[1..]
      ensures droppedTotal == old(droppedTotal)
    {
      if frames == [] {
        return None;
      }
      front := Some(frames[0]);
      frames := frames[1..];
    }
  }

  // ------------------------------------------------------------------- policy

  /** What the caller's callbacks answer during one call, by how often each was
      asked before.  They may answer anything: the socket drains, other threads
      touch the backlog, the client disappears. */
  datatype Answers = Answers(
    amount: nat -> nat,
    pop: nat -> Option<Frame>,
    accepts: nat -> bool,
    finalAmount: nat,
    acceptsFrame: bool,
    queued: Option<nat>)

  datatype Outcome = Outcome(result: SendResult, flushed: nat, dropped: nat)

  /** How the flush loop ends after `k` frames went out. */
  datatype Flush = Flushed(count: nat, gone: bool)

  function FlushFrom(a: Answers, watermark: nat, maxFlush: nat, k: nat): (f: Flush)
    ensures k <= maxFlush ==> k <= f.count <= maxFlush
    decreases maxFlush - k
  {
    if k >= maxFlush || a.amount(k) >= watermark || a.pop(k) == None then Flushed(k, false)
    else if !a.accepts(k) then Flushed(k, true)
    else FlushFrom(a, watermark, maxFlush, k + 1)
  }

  function Policy(a: Answers, frame: Frame, watermark: nat, maxFlush: nat): Outcome {
    Conclude(a, frame, watermark, FlushFrom(a, watermark, maxFlush, 0))
  }

  /** What becomes of the call's own frame after the flush loop. */
  function Conclude(a: Answers, frame: Frame, watermark: nat, f: Flush): Outcome {
    if f.gone then Outcome(ClientGone, f.count, 0)
    else if a.finalAmount < watermark then Outcome(if a.acceptsFrame then Delivered else ClientGone, f.count, 0)
    else if frame.heavy then Outcome(Shed, f.count, 0)
    else if a.queued == None then Outcome(ClientGone, f.count, 0)
    else Outcome(Queued, f.count, a.queued.value)
  }

  method RunBackpressure(a: Answers, frame: Frame, watermark: nat, maxFlush: nat) returns (out: Outcome)
    ensures out == Policy(a, frame, watermark, maxFlush)
  {
    var flushed := 0;
    while flushed < maxFlush && a.amount(flushed) < watermark
      invariant flushed <= maxFlush
      invariant FlushFrom(a, watermark, maxFlush, 0) == FlushFrom(a, watermark, maxFlush, flushed)
      decreases maxFlush - flushed
    {
      var queued := a.pop(flushed);
      if queued == None {
        break;
      }
      if !a.accepts(flushed) {
        return Outcome(ClientGone, flushed, 0);
      }
      flushed := flushed + 1;
    }
    if a.finalAmount < watermark {
      return Outcome(if a.acceptsFrame then Delivered else ClientGone, flushed, 0);
    }
    if frame.heavy {
      return Outcome(Shed, flushed, 0);
    }
    if a.queued == None {
      return Outcome(ClientGone, flushed, 0);
    }
    return Outcome(Queued, flushed, a.queued.value);
  }

  lemma {:induction false} FlushFedOnlyBelow(a: Answers, watermark: nat, maxFlush: nat, k: nat)
    ensures var f := FlushFrom(a, watermark, maxFlush, k);
            forall i | k <= i < f.count :: a.amount(i) < watermark && a.pop(i) != None && a.accepts(i)
    decreases maxFlush - k
  {
    if !(k >= maxFlush || a.amount(k) >= watermark || a.pop(k) == None) && a.accepts(k) {
      FlushFedOnlyBelow(a, watermark, maxFlush, k + 1);
    }
  }

  /** Even if popping never runs dry, one call flushes at most `maxFlush` frames
      and feeds the socket only below the watermark; only normal frames are
      queued, only heavy ones shed, and both only at or above the watermark. */
  lemma PolicyBounds(a: Answers, frame: Frame, watermark: nat, maxFlush: nat)
    ensures var out := Policy(a, frame, watermark, maxFlush);
            && out.flushed <= maxFlush
            && (forall i | 0 <= i < out.flushed :: a.amount(i) < watermark && a.pop(i) != None && a.accepts(i))
            && (out.result == Queued ==> !frame.heavy && a.finalAmount >= watermark && a.queued == Some(out.dropped))
            && (out.result == Shed ==> frame.heavy && a.finalAmount >= watermark)
            && (out.result == Delivered ==> a.finalAmount < watermark)
  {
    FlushFedOnlyBelow(a, watermark, maxFlush, 0);
  }

  lemma {:induction false} FlushStopsForAReason(a: Answers, watermark: nat, maxFlush: nat, k: nat)
    requires k <= maxFlush
    ensures var f := FlushFrom(a, watermark, maxFlush, k);
            if f.gone then
              f.count < maxFlush && a.amount(f.count) < watermark && a.pop(f.count) != None && !a.accepts(f.count)
            else
              f.count == maxFlush || a.amount(f.count) >= watermark || a.pop(f.count) == None
    decreases maxFlush - k
  {
    if k < maxFlush && a.amount(k) < watermark && a.pop(k) != None && a.accepts(k) {
      FlushStopsForAReason(a, watermark, maxFlush, k + 1);
    }
  }

  /** What the policy answers, for any answers of its callbacks: it flushes until
      the bound, the watermark or an empty backlog stops it, and then transmits
      below the watermark, sheds a heavy frame and queues a normal one.  A client
      is reported gone exactly if a callback said so. */
  lemma PolicyExactly(a: Answers, frame: Frame, watermark: nat, maxFlush: nat)
    ensures var out := Policy(a, frame, watermark, maxFlush);
            var refused := out.flushed < maxFlush && a.amount(out.flushed) < watermark && a.pop(out.flushed) != None;
            && (refused ==> !a.accepts(out.flushed) && out.result == ClientGone)
            && (!refused && a.finalAmount < watermark ==>
                  out.result == if a.acceptsFrame then Delivered else ClientGone)
            && (!refused && a.finalAmount >= watermark && frame.heavy ==> out.result == Shed)
            && (!refused && a.finalAmount >= watermark && !frame.heavy ==>
                  if a.queued == None then out.result == ClientGone
                  else out.result == Queued && out.dropped == a.queued.value)
            && (out.result != Queued ==> out.dropped == 0)
  {
    FlushStopsForAReason(a, watermark, maxFlush, 0);
  }

  /** A socket that is congested throughout is fed nothing. */
  lemma CongestedCall(a: Answers, frame: Frame, watermark: nat, maxFlush: nat)
    requires a.amount(0) >= watermark && a.finalAmount >= watermark && a.queued != None
    ensures Policy(a, frame, watermark, maxFlush) ==
            if frame.heavy then Outcome(Shed, 0, 0) else Outcome(Queued, 0, a.queued.value)
  {
  }

  /** The backlog a send to a congested socket is meant to leave; that it does is
      shown where sends are modelled step by step. */
  function CongestedSend(q: Queue, frame: Frame, capacity: nat): Queue {
    if frame.heavy then q else Push(q, frame, capacity)
  }

  function CongestedSends(q: Queue, frames: seq<Frame>, capacity: nat): Queue {
    if frames == [] then q
    else CongestedSend(CongestedSends(q, frames[..|frames| - 1], capacity), frames[|frames| - 1], capacity)
  }

  function Normal(frames: seq<Frame>): seq<Frame> {
    if frames == [] then []
    else Normal(frames[..|frames| - 1]) + if frames[|frames| - 1].heavy then [] else [frames[|frames| - 1]]
  }

  lemma {:induction false} NormalTwice(frames: seq<Frame>)
    ensures Normal(Normal(frames)) == Normal(frames)
  {
    if frames != [] {
      var front, last := frames[..|frames| - 1], frames[|frames| - 1];
      NormalTwice(front);
      if last.heavy {
        assert Normal(frames) == Normal(front);
      } else {
        assert Normal(frames)[..|Normal(frames)| - 1] == Normal(front);
      }
    }
  }

  lemma {:induction false} SkippingHeavy(q: Queue, frames: seq<Frame>, capacity: nat)
    ensures CongestedSends(q, frames, capacity) == CongestedSends(q, Normal(frames), capacity)
  {
    if frames != [] {
      var front, last := frames[..|frames| - 1], frames[|frames| - 1];
      SkippingHeavy(q, front, capacity);
      if last.heavy {
        assert Normal(frames) == Normal(front);
      } else {
        assert Normal(frames)[..|Normal(frames)| - 1] == Normal(front);
      }
    }
  }

  /** The queue holds as many of the newest of `all` as fit. */
  predicate KeepsNewest(q: Queue, all: seq<Frame>, capacity: nat) {
    && |q.frames| == (if |all| < capacity then |all| else capacity)
    && q.frames == all[|all| - |q.frames|..]
  }

  lemma PushKeepsNewest(q: Queue, all: seq<Frame>, f: Frame, capacity: nat)
    requires KeepsNewest(q, all, capacity)
    ensures KeepsNewest(Push(q, f, capacity), all + [f], capacity)
  {
  }

  /** After pushing the normal frames the backlog holds the newest of what was
      there and what was pushed since, and has counted every frame that is
      missing. */
  lemma {:induction false} BacklogKeepsNewest(q: Queue, frames: seq<Frame>, capacity: nat)
    requires |q.frames| <= capacity
    ensures var q' := CongestedSends(q, frames, capacity);
            && KeepsNewest(q', q.frames + Normal(frames), capacity)
            && q'.dropped + |q'.frames| == q.dropped + |q.frames| + |Normal(frames)|
  {
    if frames == [] {
      assert q.frames + [] == q.frames;
    } else {
      var front, last := frames[..|frames| - 1], frames[|frames| - 1];
      BacklogKeepsNewest(q, front, capacity);
      if !last.heavy {
        PushKeepsNewest(CongestedSends(q, front, capacity), q.frames + Normal(front), last, capacity);
        assert q.frames + Normal(frames) == q.frames + Normal(front) + [last];
      } else {
        assert Normal(frames) == Normal(front);
      }
    }
  }
}
