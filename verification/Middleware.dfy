/**
 The middleware's per-client state: who is connected, the backlog of each slow
 client, and the lifetime counters.  Each operation here is one section under
 the clients lock.
 */
module Middleware {
  import opened Common
  import opened Backpressure

  datatype Core = Core(clients: set<Client>, pending: map<Client, Queue>, folded: nat, shed: nat)

  function Backlog(core: Core, c: Client): seq<Frame> {
    if c in core.pending then core.pending[c].frames else []
  }

  /** Discards a backlog; its drop count lives on in the total. */
  function Discard(core: Core, c: Client): Core {
    if c in core.pending then
      core.(pending := core.pending - {c}, folded := core.folded + core.pending[c].dropped)
    else core
  }

  function Leave(core: Core, c: Client): Core {
    Discard(core.(clients := core.clients - {c}), c)
  }

  ghost function Stopped(core: Core): Core {
    Core({}, map[], core.folded + Total(Drops(core.pending)), core.shed)
  }

  /** Whether the client is connected, and how long its backlog is. */
  function FlushBound(core: Core, c: Client): Option<nat> {
    if c in core.clients then Some(|Backlog(core, c)|) else None
  }

  function Popped(core: Core, c: Client): Core {
    if Backlog(core, c) == [] then core
    else core.(pending := core.pending[c := core.pending[c].(frames := core.pending[c].frames[1..])])
  }

  function Oldest(core: Core, c: Client): Option<Frame> {
    if Backlog(core, c) == [] then None else Some(Backlog(core, c)[0])
  }

  function QueueOf(core: Core, c: Client): Queue {
    if c in core.pending then core.pending[c] else EmptyQueue
  }

  function Enqueued(core: Core, c: Client, f: Frame, capacity: nat): Core {
    if c in core.clients then core.(pending := core.pending[c := Push(QueueOf(core, c), f, capacity)]) else core
  }

  function Counted(core: Core, c: Client): Core {
    if c in core.clients then core.(shed := core.shed + 1) else core
  }

  function Drops(pending: map<Client, Queue>): map<Client, nat> {
    map c | c in pending :: pending[c].dropped
  }

  /** How many frames were ever dropped for being the oldest. */
  ghost function DroppedFrames(core: Core): nat {
    core.folded + Total(Drops(core.pending))
  }

  // -------------------------------------------------------------- properties

  /** Backlogs exist only for connected clients, within their bound, and hold
      no heavy frame. */
  predicate Tidy(core: Core, capacity: nat) {
    forall c | c in core.pending ::
      && c in core.clients
      && |core.pending[c].frames| <= capacity
      && forall f | f in core.pending[c].frames :: !f.heavy
  }

  lemma EnqueueKeepsTidy(core: Core, c: Client, f: Frame, capacity: nat)
    requires Tidy(core, capacity) && !f.heavy
    ensures Tidy(Enqueued(core, c, f, capacity), capacity)
  {
    PushAccounts(QueueOf(core, c), f, capacity);
  }

  lemma PopKeepsTidy(core: Core, c: Client, capacity: nat)
    requires Tidy(core, capacity)
    ensures Tidy(Popped(core, c), capacity)
  {
  }

  /** Discarding a backlog never lowers the drop count. */
  lemma DiscardKeepsCount(core: Core, c: Client)
    ensures DroppedFrames(Discard(core, c)) == DroppedFrames(core)
  {
    if c in core.pending {
      assert Drops(core.pending - {c}) == Drops(core.pending) - {c};
      TotalSplit(Drops(core.pending), c);
    }
  }

  lemma PopKeepsCount(core: Core, c: Client)
    ensures DroppedFrames(Popped(core, c)) == DroppedFrames(core)
  {
    assert Drops(Popped(core, c).pending) == Drops(core.pending);
  }

  /** Queueing raises the drop count by the evicted frames. */
  lemma EnqueueCounts(core: Core, c: Client, f: Frame, capacity: nat)
    ensures DroppedFrames(Enqueued(core, c, f, capacity)) ==
            DroppedFrames(core) + if c in core.clients then |Evicted(QueueOf(core, c), f, capacity)| else 0
  {
    if c in core.clients {
      var q := Push(QueueOf(core, c), f, capacity);
      assert Drops(core.pending[c := q]) == Drops(core.pending)[c := q.dropped];
      TotalUpdate(Drops(core.pending), c, q.dropped);
    }
  }

  class WebSocketMiddleware {
    const clientBacklogSize: nat
    var clients: set<Client>
    var pendingFrames: map<Client, Queue>
    var droppedFromDisconnected: nat
    var heavyShedTotal: nat

    ghost function State(): Core
      reads this
    {
      Core(clients, pendingFrames, droppedFromDisconnected, heavyShedTotal)
    }

    constructor (clientBacklogSize: nat)
      ensures State() == Core({}, map[], 0, 0) && this.clientBacklogSize == clientBacklogSize
      ensures Tidy(State(), clientBacklogSize)
    {
      this.clientBacklogSize := clientBacklogSize;
      clients, pendingFrames, droppedFromDisconnected, heavyShedTotal := {}, map[], 0, 0;
    }

    method OnOpen(c: Client)
      requires Tidy(State(), clientBacklogSize)
      modifies this
      ensures State() == old(State()).(clients := old(clients) + {c})
      ensures Tidy(State(), clientBacklogSize)
    {
      clients := clients + {c};
    }

    method OnClose(c: Client)
      requires Tidy(State(), clientBacklogSize)
      modifies this
      ensures State() == Leave(old(State()), c) && c !in clients && c !in pendingFrames
      ensures Tidy(State(), clientBacklogSize)
      ensures DroppedFrames(State()) == DroppedFrames(old(State()))
    {
      clients := clients - {c};
      DiscardKeepsCount(State(), c);
      if c in pendingFrames {
        droppedFromDisconnected := droppedFromDisconnected + pendingFrames[c].dropped;
        pendingFrames := pendingFrames - {c};
      }
    }

    /** Discards the backlog of a client whose session timed out; its socket
        stays open. */
    method DropPending(c: Client)
      requires Tidy(State(), clientBacklogSize)
      modifies this
      ensures State() == Discard(old(State()), c) && c !in pendingFrames && clients == old(clients)
      ensures Tidy(State(), clientBacklogSize)
      ensures DroppedFrames(State()) == DroppedFrames(old(State()))
    {
      DiscardKeepsCount(State(), c);
      if c in pendingFrames {
        droppedFromDisconnected := droppedFromDisconnected + pendingFrames[c].dropped;
        pendingFrames := pendingFrames - {c};
      }
    }

    /** Forgets every client, folding all drop counts into the total. */
    method Shutdown()
      modifies this
      ensures State() == Stopped(old(State()))
      ensures Tidy(State(), clientBacklogSize)
      ensures DroppedFrames(State()) == DroppedFrames(old(State()))
    {
      clients := {};
      var sum := SumDrops();
      droppedFromDisconnected := droppedFromDisconnected + sum;
      pendingFrames := map[];
    }

    /** Adds up the drop counts of all backlogs. */
    method SumDrops() returns (sum: nat)
      ensures sum == Total(Drops(pendingFrames))
    {
      sum := 0;
      var rest := pendingFrames;
      while rest != map[]
        invariant sum + Total(Drops(rest)) == Total(Drops(pendingFrames))
        decreases |rest.Keys|
      {
        assert rest.Keys != {};
        var c :| c in rest;
        sum := sum + rest[c].dropped;
        TotalSplit(Drops(rest), c);
        assert Drops(rest) - {c} == Drops(rest - {c});
        assert (rest - {c}).Keys < rest.Keys;
        rest := rest - {c};
      }
      assert Drops(map[]) == map[];
    }

    method DroppedFrameCount() returns (total: nat)
      ensures total == DroppedFrames(State())
    {
      var sum := SumDrops();
      total := droppedFromDisconnected + sum;
    }

    /** The first section of a send: finds the client and bounds the flush. */
    method BeginSend(c: Client) returns (maxFlush: Option<nat>)
      ensures maxFlush == FlushBound(State(), c)
      ensures maxFlush == None <==> c !in clients
      ensures c in clients ==> maxFlush.value == if c in pendingFrames then |pendingFrames[c].frames| else 0
    {
      if c !in clients {
        return None;
      }
      if c in pendingFrames {
        return Some(|pendingFrames[c].frames|);
      }
      return Some(0);
    }

    method PopPending(c: Client) returns (front: Option<Frame>)
      requires Tidy(State(), clientBacklogSize)
      modifies this
      ensures State() == Popped(old(State()), c) && front == Oldest(old(State()), c)
      ensures front == None <==> Backlog(old(State()), c) == []
      ensures front.Some? ==> Backlog(old(State()), c) == [front.value] + Backlog(State(), c)
      ensures Tidy(State(), clientBacklogSize)
    {
      if c !in pendingFrames || pendingFrames[c].frames == [] {
        return None;
      }
      var q := pendingFrames[c];
      front := Some(q.frames[0]);
      pendingFrames := pendingFrames[c := Queue(q.frames[1..], q.dropped)];
    }

    /** Queues a normal frame, unless the client has left meanwhile. */
    method QueuePending(c: Client, frame: Frame) returns (dropped: Option<nat>)
      requires Tidy(State(), clientBacklogSize) && !frame.heavy
      modifies this
      ensures State() == Enqueued(old(State()), c, frame, clientBacklogSize)
      ensures dropped ==
              if c in clients then Some(|Evicted(QueueOf(old(State()), c), frame, clientBacklogSize)|) else None
      ensures Tidy(State(), clientBacklogSize)
    {
      if c !in clients {
        return None;
      }
      var value := if c in pendingFrames then pendingFrames[c] else EmptyQueue;
      var queue := new BoundedFrameQueue.Restore(clientBacklogSize, value);
      var n := queue.PushFrame(frame);
      pendingFrames := pendingFrames[c := Queue(queue.frames, queue.droppedTotal)];
      return Some(n);
    }

    /** Counts a shed frame, unless the client has left meanwhile. */
    method CountShed(c: Client) returns (present: bool)
      requires Tidy(State(), clientBacklogSize)
      modifies this
      ensures State() == Counted(old(State()), c) && present == (c in clients)
      ensures Tidy(State(), clientBacklogSize)
    {
      if c !in clients {
        return false;
      }
      heavyShedTotal := heavyShedTotal + 1;
      return true;
    }
  }
}
