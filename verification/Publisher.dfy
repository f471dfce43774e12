/**
 The publish cycle: clients with the same subscriptions are served together
 from one representative's rate limiter.  Grouping is an optimisation; every
 client gets what it would get if it were served alone.
 */
module Publishing {
  import opened Common
  import opened RateLimiting
  import B = MessageBuffering

  type Rate = r: real | r >= 0.0

  /** Topic to limit in milli-hertz; zero means unlimited. */
  type Key = map<Topic, nat>

  /** Last-sent timestamps per rate-limited topic; a missing one counts as 0. */
  type Memory = map<Topic, U64>

  datatype Entry = Entry(topic: Topic, msg: B.Message)

  type Batch = map<Topic, seq<B.Message>>

  function KeyOf(subs: map<Topic, Rate>): Key {
    map t | t in subs :: MilliHertz(subs[t])
  }

  function Lookup(m: Memory, t: Topic): U64 {
    if t in m then m[t] else 0
  }

  // -------------------------------------------------------- serving one client

  /** The messages of one topic that a limiter lets through. */
  function Pass(msgs: seq<B.Message>, last: U64, interval: U64): seq<B.Message> {
    if msgs == [] then []
    else
      var m := msgs[|msgs| - 1];
      var before := Pass(msgs[..|msgs| - 1], last, interval);
      if Admits(PassedLast(msgs[..|msgs| - 1], last, interval), interval, m.timestamp) then before + [m] else before
  }

  function PassedLast(msgs: seq<B.Message>, last: U64, interval: U64): U64 {
    LastSent(Timestamps(msgs), last, interval)
  }

  function Timestamps(msgs: seq<B.Message>): seq<U64> {
    seq(|msgs|, i requires 0 <= i < |msgs| => msgs[i].timestamp)
  }

  /** What passes carries exactly the timestamps the limiter admits. */
  lemma {:induction false} PassIsSent(msgs: seq<B.Message>, last: U64, interval: U64)
    ensures Timestamps(Pass(msgs, last, interval)) == Sent(Timestamps(msgs), last, interval)
  {
    if msgs != [] {
      PassIsSent(msgs[..|msgs| - 1], last, interval);
      assert Timestamps(msgs)[..|msgs| - 1] == Timestamps(msgs[..|msgs| - 1]);
    }
  }

  function Entries(t: Topic, msgs: seq<B.Message>): seq<Entry> {
    seq(|msgs|, i requires 0 <= i < |msgs| => Entry(t, msgs[i]))
  }

  /** The admitted messages in the order met, and the limiter's new memory. */
  datatype Served = Served(entries: seq<Entry>, memory: Memory)

  function ServeTopic(s: Served, t: Topic, msgs: seq<B.Message>, key: Key): Served {
    if t !in key then s
    else if key[t] == 0 then s.(entries := s.entries + Entries(t, msgs))
    else
      var interval := Interval(key[t]);
      var last := Lookup(s.memory, t);
      Served(s.entries + Entries(t, Pass(msgs, last, interval)), s.memory[t := PassedLast(msgs, last, interval)])
  }

  /** One cycle for one limiter; `order` is the order in which the hash map of
      drained messages yields its topics. */
  function Serve(order: seq<Topic>, batch: Batch, key: Key, memory: Memory): Served {
    if order == [] then Served([], memory)
    else
      var t := order[|order| - 1];
      ServeTopic(Serve(order[..|order| - 1], batch, key, memory), t, if t in batch then batch[t] else [], key)
  }

  /** Two memories that a limiter with this key cannot tell apart. */
  ghost predicate Agree(a: Memory, b: Memory, key: Key) {
    forall t | t in key && key[t] != 0 :: Lookup(a, t) == Lookup(b, t)
  }

  lemma {:induction false} ServeOfAgreeing(order: seq<Topic>, batch: Batch, key: Key, a: Memory, b: Memory)
    requires Agree(a, b, key)
    ensures Serve(order, batch, key, a).entries == Serve(order, batch, key, b).entries
    ensures Agree(Serve(order, batch, key, a).memory, Serve(order, batch, key, b).memory, key)
  {
    if order != [] {
      ServeOfAgreeing(order[..|order| - 1], batch, key, a, b);
    }
  }

  lemma {:induction false} NothingPassed(msgs: seq<B.Message>, last: U64, interval: U64)
    requires Pass(msgs, last, interval) == []
    ensures PassedLast(msgs, last, interval) == last
  {
    if msgs != [] {
      NothingPassed(msgs[..|msgs| - 1], last, interval);
      assert Timestamps(msgs)[..|msgs| - 1] == Timestamps(msgs[..|msgs| - 1]);
    }
  }

  /** A limiter that let nothing through has not moved. */
  lemma {:induction false} IdleServe(order: seq<Topic>, batch: Batch, key: Key, memory: Memory)
    requires Serve(order, batch, key, memory).entries == []
    ensures Agree(Serve(order, batch, key, memory).memory, memory, key)
  {
    if order != [] {
      var front := Serve(order[..|order| - 1], batch, key, memory);
      var t := order[|order| - 1];
      assert front.entries == [];
      IdleServe(order[..|order| - 1], batch, key, memory);
      if t in key && key[t] != 0 {
        var msgs := if t in batch then batch[t] else [];
        var last := Lookup(front.memory, t);
        assert |Entries(t, Pass(msgs, last, Interval(key[t])))| == 0;
        NothingPassed(msgs, last, Interval(key[t]));
      }
    }
  }

  // ---------------------------------------------------------- grouped serving

  type Memories = map<Client, Memory>

  function MemoryOf(ms: Memories, c: Client): Memory {
    if c in ms then ms[c] else map[]
  }

  /** Everything a cycle depends on besides the memories: the topic order, the
      drained messages, and the representative of each group. */
  datatype Cycle = Cycle(order: seq<Topic>, batch: Batch, reps: map<Key, Client>)

  predicate RepsFit(keys: map<Client, Key>, reps: map<Key, Client>) {
    forall c | c in keys :: keys[c] in reps && reps[keys[c]] in keys && keys[reps[keys[c]]] == keys[c]
  }

  /** What the group of client `c` is served. */
  function GroupServe(ms: Memories, keys: map<Client, Key>, cycle: Cycle, c: Client): Served
    requires RepsFit(keys, cycle.reps) && c in keys
  {
    Serve(cycle.order, cycle.batch, keys[c], MemoryOf(ms, cycle.reps[keys[c]]))
  }

  /** The representative's memory moves on; it is copied to the other members
      only when something was admitted. */
  function GroupedCycle(ms: Memories, keys: map<Client, Key>, cycle: Cycle): Memories
    requires RepsFit(keys, cycle.reps)
  {
    map c | c in ms.Keys + keys.Keys ::
      if c in keys && (c == cycle.reps[keys[c]] || GroupServe(ms, keys, cycle, c).entries != [])
      then GroupServe(ms, keys, cycle, c).memory
      else MemoryOf(ms, c)
  }

  ghost predicate GroupsAgree(ms: Memories, keys: map<Client, Key>) {
    forall c, d | c in keys && d in keys && keys[c] == keys[d] :: Agree(MemoryOf(ms, c), MemoryOf(ms, d), keys[c])
  }

  /** With agreeing members the choice of the representative is immaterial, and
      afterwards each member remembers what it would remember alone. */
  lemma GroupedIsAlone(ms: Memories, keys: map<Client, Key>, cycle: Cycle, c: Client)
    requires RepsFit(keys, cycle.reps) && GroupsAgree(ms, keys) && c in keys
    ensures var alone := Serve(cycle.order, cycle.batch, keys[c], MemoryOf(ms, c));
            && GroupServe(ms, keys, cycle, c).entries == alone.entries
            && Agree(MemoryOf(GroupedCycle(ms, keys, cycle), c), alone.memory, keys[c])
  {
    var rep := cycle.reps[keys[c]];
    ServeOfAgreeing(cycle.order, cycle.batch, keys[c], MemoryOf(ms, rep), MemoryOf(ms, c));
    if GroupServe(ms, keys, cycle, c).entries == [] {
      IdleServe(cycle.order, cycle.batch, keys[c], MemoryOf(ms, c));
    }
  }

  /** Cycles with and without admitted messages re-establish agreement. */
  lemma GroupedKeepsAgreement(ms: Memories, keys: map<Client, Key>, cycle: Cycle)
    requires RepsFit(keys, cycle.reps) && GroupsAgree(ms, keys)
    ensures GroupsAgree(GroupedCycle(ms, keys, cycle), keys)
  {
    var ms' := GroupedCycle(ms, keys, cycle);
    forall c, d | c in keys && d in keys && keys[c] == keys[d]
      ensures Agree(MemoryOf(ms', c), MemoryOf(ms', d), keys[c])
    {
      GroupedIsAlone(ms, keys, cycle, c);
      GroupedIsAlone(ms, keys, cycle, d);
      ServeOfAgreeing(cycle.order, cycle.batch, keys[c], MemoryOf(ms, c), MemoryOf(ms, d));
    }
  }

  ghost predicate AllFit(keys: map<Client, Key>, cycles: seq<Cycle>) {
    forall i | 0 <= i < |cycles| :: RepsFit(keys, cycles[i].reps)
  }

  ghost function GroupedRun(ms: Memories, keys: map<Client, Key>, cycles: seq<Cycle>): Memories
    requires AllFit(keys, cycles)
  {
    if cycles == [] then ms
    else GroupedCycle(GroupedRun(ms, keys, cycles[..|cycles| - 1]), keys, cycles[|cycles| - 1])
  }

  /** The memory of a client that was served alone in every cycle. */
  function AloneRun(memory: Memory, key: Key, cycles: seq<Cycle>): Memory {
    if cycles == [] then memory
    else
      var last := cycles[|cycles| - 1];
      Serve(last.order, last.batch, key, AloneRun(memory, key, cycles[..|cycles| - 1])).memory
  }

  lemma {:induction false} RunsAgree(ms: Memories, keys: map<Client, Key>, cycles: seq<Cycle>)
    requires AllFit(keys, cycles) && GroupsAgree(ms, keys)
    ensures GroupsAgree(GroupedRun(ms, keys, cycles), keys)
    ensures forall c | c in keys ::
              Agree(MemoryOf(GroupedRun(ms, keys, cycles), c), AloneRun(MemoryOf(ms, c), keys[c], cycles), keys[c])
  {
    if cycles != [] {
      var front, last := cycles[..|cycles| - 1], cycles[|cycles| - 1];
      RunsAgree(ms, keys, front);
      var before := GroupedRun(ms, keys, front);
      GroupedKeepsAgreement(before, keys, last);
      forall c | c in keys
        ensures Agree(MemoryOf(GroupedRun(ms, keys, cycles), c), AloneRun(MemoryOf(ms, c), keys[c], cycles), keys[c])
      {
        GroupedIsAlone(before, keys, last, c);
        var alone := AloneRun(MemoryOf(ms, c), keys[c], front);
        ServeOfAgreeing(last.order, last.batch, keys[c], MemoryOf(before, c), alone);
      }
    }
  }

  /** In every cycle of every run, whichever representatives are picked, each
      client is served exactly the messages it would be served alone. */
  lemma GroupingRefinesAlone(ms: Memories, keys: map<Client, Key>, cycles: seq<Cycle>, k: nat, c: Client)
    requires AllFit(keys, cycles) && GroupsAgree(ms, keys) && k < |cycles| && c in keys
    ensures GroupServe(GroupedRun(ms, keys, cycles[..k]), keys, cycles[k], c).entries ==
            Serve(cycles[k].order, cycles[k].batch, keys[c], AloneRun(MemoryOf(ms, c), keys[c], cycles[..k])).entries
  {
    RunsAgree(ms, keys, cycles[..k]);
    var before := GroupedRun(ms, keys, cycles[..k]);
    GroupedIsAlone(before, keys, cycles[k], c);
    ServeOfAgreeing(cycles[k].order, cycles[k].batch, keys[c], MemoryOf(before, c),
                    AloneRun(MemoryOf(ms, c), keys[c], cycles[..k]));
  }

  // ------------------------------------------------------------------- lanes

  predicate Heavy(threshold: nat, e: Entry) {
    threshold != 0 && |e.msg.data| >= threshold
  }

  /** The heavy or the light entries, in order. */
  function Lane(entries: seq<Entry>, threshold: nat, heavy: bool): seq<Entry> {
    if entries == [] then []
    else
      var e := entries[|entries| - 1];
      var before := Lane(entries[..|entries| - 1], threshold, heavy);
      if Heavy(threshold, e) == heavy then before + [e] else before
  }

  /** The two lanes partition what was admitted by size; with a threshold of
      zero nothing is heavy. */
  lemma {:induction false} LanesPartition(entries: seq<Entry>, threshold: nat)
    ensures multiset(Lane(entries, threshold, false)) + multiset(Lane(entries, threshold, true)) == multiset(entries)
    ensures forall e | e in Lane(entries, threshold, true) :: threshold != 0 && |e.msg.data| >= threshold
    ensures forall e | e in Lane(entries, threshold, false) :: threshold == 0 || |e.msg.data| < threshold
    ensures threshold == 0 ==> Lane(entries, threshold, true) == []
  {
    if entries != [] {
      LanesPartition(entries[..|entries| - 1], threshold);
      assert entries == entries[..|entries| - 1] + [entries[|entries| - 1]];
    }
  }

  lemma LanesEmpty(entries: seq<Entry>, threshold: nat)
    ensures entries == [] <==> Lane(entries, threshold, false) == [] && Lane(entries, threshold, true) == []
  {
  }

  /** Within a lane the order of admission is kept. */
  lemma {:induction false} LaneKeepsOrder(entries: seq<Entry>, threshold: nat, heavy: bool)
    ensures Subsequence(Lane(entries, threshold, heavy), entries)
  {
    if entries != [] {
      var front, e := entries[..|entries| - 1], entries[|entries| - 1];
      LaneKeepsOrder(front, threshold, heavy);
      SubsequenceSkip(Lane(front, threshold, heavy), front, e);
      SubsequenceExtend(Lane(front, threshold, heavy), front, e);
      assert front + [e] == entries;
    }
  }

  /** A frame on its way to a group: at most one light one, then one for every
      heavy message. */
  datatype Frame = Frame(entries: seq<Entry>, heavy: bool, clients: seq<Client>)

  function HeavyFrames(entries: seq<Entry>, clients: seq<Client>): seq<Frame> {
    seq(|entries|, i requires 0 <= i < |entries| => Frame([entries[i]], true, clients))
  }

  function FramesOf(entries: seq<Entry>, threshold: nat, clients: seq<Client>): seq<Frame> {
    var light := Lane(entries, threshold, false);
    (if light != [] then [Frame(light, false, clients)] else [])
    + HeavyFrames(Lane(entries, threshold, true), clients)
  }

  /** The frames addressed to client `c`, in sending order. */
  function FramesTo(frames: seq<Frame>, c: Client): seq<Frame> {
    if frames == [] then []
    else
      var f := frames[|frames| - 1];
      FramesTo(frames[..|frames| - 1], c) + if c in f.clients then [f] else []
  }

  lemma {:induction false} FramesToAppend(a: seq<Frame>, b: seq<Frame>, c: Client)
    ensures FramesTo(a + b, c) == FramesTo(a, c) + FramesTo(b, c)
  {
    if b == [] {
      assert a + b == a;
    } else {
      FramesToAppend(a, b[..|b| - 1], c);
      assert (a + b)[..|a + b| - 1] == a + b[..|b| - 1];
    }
  }

  lemma {:induction false} FramesToGroup(frames: seq<Frame>, clients: seq<Client>, c: Client)
    requires forall f | f in frames :: f.clients == clients
    ensures FramesTo(frames, c) == if c in clients then frames else []
  {
    if frames != [] {
      FramesToGroup(frames[..|frames| - 1], clients, c);
      assert frames == frames[..|frames| - 1] + [frames[|frames| - 1]];
    }
  }

  // ---------------------------------------------------------------- grouping

  /** The configuration of every active client that has subscriptions. */
  function KeysOf(active: seq<Client>, subs: map<Client, map<Topic, Rate>>): map<Client, Key> {
    map c | c in active && c in subs && subs[c] != map[] :: KeyOf(subs[c])
  }

  /** `groups` partitions the clients by their configuration. */
  ghost predicate Grouped(groups: map<Key, seq<Client>>, keys: map<Client, Key>) {
    && (forall c | c in keys :: keys[c] in groups)
    && (forall k | k in groups ::
          && groups[k] != []
          && NoDuplicates(groups[k])
          && (forall c: Client :: c in groups[k] <==> c in keys && keys[c] == k))
  }

  ghost function Representatives(groups: map<Key, seq<Client>>): map<Key, Client> {
    map k | k in groups && groups[k] != [] :: groups[k][0]
  }

  lemma GroupedAppend(groups: map<Key, seq<Client>>, keys: map<Client, Key>, c: Client, key: Key)
    requires Grouped(groups, keys) && c !in keys
    ensures Grouped(groups[key := (if key in groups then groups[key] else []) + [c]], keys[c := key])
  {
    var groups' := groups[key := (if key in groups then groups[key] else []) + [c]];
    forall k, d: Client | k in groups'
      ensures d in groups'[k] <==> d in keys[c := key] && keys[c := key][d] == k
    {
    }
  }

  /** The first member of each group can represent it. */
  lemma GroupedFit(groups: map<Key, seq<Client>>, keys: map<Client, Key>)
    requires Grouped(groups, keys)
    ensures RepsFit(keys, Representatives(groups))
    ensures forall k | k in groups :: groups[k] != [] && groups[k][0] in keys && keys[groups[k][0]] == k
  {
    forall k | k in groups
      ensures groups[k][0] in keys && keys[groups[k][0]] == k
    {
      assert groups[k][0] in groups[k];
    }
  }

  /** What the published cycle gives each client, in terms of serving it alone:
      the frames it is due carry what its own limiter admits. */
  lemma DueFramesAreAlone(ms: Memories, keys: map<Client, Key>, cycle: Cycle, threshold: nat,
                          groups: map<Key, seq<Client>>, c: Client)
    requires RepsFit(keys, cycle.reps) && Grouped(groups, keys) && GroupsAgree(ms, keys) && c in keys
    ensures DueFrames(ms, keys, cycle, threshold, groups, {}, c) ==
            FramesOf(Serve(cycle.order, cycle.batch, keys[c], MemoryOf(ms, c)).entries, threshold, groups[keys[c]])
  {
    GroupedIsAlone(ms, keys, cycle, c);
  }

  lemma KeysOfAppend(active: seq<Client>, i: int, subs: map<Client, map<Topic, Rate>>)
    requires NoDuplicates(active) && 0 <= i < |active| && active[i] in subs
    ensures active[i] !in KeysOf(active[..i], subs)
    ensures KeysOf(active[..i + 1], subs) ==
            if subs[active[i]] == map[] then KeysOf(active[..i], subs)
            else KeysOf(active[..i], subs)[active[i] := KeyOf(subs[active[i]])]
  {
    assert active[..i + 1] == active[..i] + [active[i]];
  }

  /** The clients of every group outside `todo` remember what they should. */
  ghost predicate MemoriesDone(now: Memories, before: Memories, keys: map<Client, Key>, cycle: Cycle, todo: set<Key>)
    requires RepsFit(keys, cycle.reps)
  {
    forall c: Client :: MemoryOf(now, c) ==
      if c in keys && keys[c] !in todo then MemoryOf(GroupedCycle(before, keys, cycle), c) else MemoryOf(before, c)
  }

  lemma MemoriesStep(now: Memories, now': Memories, before: Memories, keys: map<Client, Key>, cycle: Cycle,
                     todo: set<Key>, key: Key, clients: seq<Client>)
    requires RepsFit(keys, cycle.reps) && MemoriesDone(now, before, keys, cycle, todo)
    requires key in todo && clients != [] && key in cycle.reps && cycle.reps[key] == clients[0]
    requires forall c: Client :: c in clients <==> c in keys && keys[c] == key
    requires var served := Serve(cycle.order, cycle.batch, key, MemoryOf(now, clients[0]));
             forall c: Client :: MemoryOf(now', c) ==
               if c == clients[0] || (c in clients && served.entries != []) then served.memory else MemoryOf(now, c)
    ensures MemoriesDone(now', before, keys, cycle, todo - {key})
  {
    assert clients[0] in clients;
    forall c: Client
      ensures MemoryOf(now', c) ==
              if c in keys && keys[c] !in todo - {key} then MemoryOf(GroupedCycle(before, keys, cycle), c)
              else MemoryOf(before, c)
    {
      if c in clients {
        assert GroupServe(before, keys, cycle, c) == Serve(cycle.order, cycle.batch, key, MemoryOf(before, clients[0]));
      }
    }
  }

  /** The frames client `c` is due once every group outside `todo` is served. */
  function DueFrames(before: Memories, keys: map<Client, Key>, cycle: Cycle,
                     threshold: nat, groups: map<Key, seq<Client>>, todo: set<Key>, c: Client): seq<Frame>
    requires RepsFit(keys, cycle.reps)
  {
    if c in keys && keys[c] !in todo && keys[c] in groups
    then FramesOf(GroupServe(before, keys, cycle, c).entries, threshold, groups[keys[c]])
    else []
  }

  /** All frames of a group go to exactly its members. */
  lemma FramesToOf(entries: seq<Entry>, threshold: nat, clients: seq<Client>, c: Client)
    ensures FramesTo(FramesOf(entries, threshold, clients), c) ==
            if c in clients then FramesOf(entries, threshold, clients) else []
  {
    forall f | f in FramesOf(entries, threshold, clients)
      ensures f.clients == clients
    {
    }
    FramesToGroup(FramesOf(entries, threshold, clients), clients, c);
  }

  lemma CycleStarts(before: Memories, keys: map<Client, Key>, cycle: Cycle, threshold: nat,
                    groups: map<Key, seq<Client>>)
    requires RepsFit(keys, cycle.reps) && Grouped(groups, keys)
    ensures MemoriesDone(before, before, keys, cycle, groups.Keys)
    ensures FramesDone([], before, keys, cycle, threshold, groups, groups.Keys)
  {
  }

  lemma DueStep(frames: seq<Frame>, more: seq<Frame>, before: Memories, keys: map<Client, Key>, cycle: Cycle,
                threshold: nat, groups: map<Key, seq<Client>>, todo: set<Key>, key: Key, c: Client)
    requires RepsFit(keys, cycle.reps)
    requires FramesTo(frames, c) == DueFrames(before, keys, cycle, threshold, groups, todo, c)
    requires key in todo && key in groups && key in cycle.reps
    requires c in groups[key] <==> c in keys && keys[c] == key
    requires more == FramesOf(Serve(cycle.order, cycle.batch, key, MemoryOf(before, cycle.reps[key])).entries,
                              threshold, groups[key])
    ensures FramesTo(frames + more, c) == DueFrames(before, keys, cycle, threshold, groups, todo - {key}, c)
  {
    FramesToAppend(frames, more, c);
    var served := Serve(cycle.order, cycle.batch, key, MemoryOf(before, cycle.reps[key]));
    FramesToOf(served.entries, threshold, groups[key], c);
    if c in groups[key] {
      assert FramesTo(frames, c) == [];
      assert [] + more == more;
    } else {
      assert FramesTo(frames, c) + [] == FramesTo(frames, c);
    }
  }

  ghost predicate FramesDone(frames: seq<Frame>, before: Memories, keys: map<Client, Key>, cycle: Cycle,
                             threshold: nat, groups: map<Key, seq<Client>>, todo: set<Key>)
    requires RepsFit(keys, cycle.reps)
  {
    forall c: Client :: FramesTo(frames, c) == DueFrames(before, keys, cycle, threshold, groups, todo, c)
  }

  lemma FramesStep(frames: seq<Frame>, more: seq<Frame>, before: Memories, keys: map<Client, Key>, cycle: Cycle,
                   threshold: nat, groups: map<Key, seq<Client>>, todo: set<Key>, key: Key)
    requires RepsFit(keys, cycle.reps) && FramesDone(frames, before, keys, cycle, threshold, groups, todo)
    requires key in todo && key in groups && key in cycle.reps
    requires forall c: Client :: c in groups[key] <==> c in keys && keys[c] == key
    requires more == FramesOf(Serve(cycle.order, cycle.batch, key, MemoryOf(before, cycle.reps[key])).entries,
                              threshold, groups[key])
    ensures FramesDone(frames + more, before, keys, cycle, threshold, groups, todo - {key})
  {
    forall c: Client
      ensures FramesTo(frames + more, c) == DueFrames(before, keys, cycle, threshold, groups, todo - {key}, c)
    {
      DueStep(frames, more, before, keys, cycle, threshold, groups, todo, key, c);
    }
  }

  // ---------------------------------------------------------------- offering

  /** One call into the middleware: the client and the frame. */
  type Offer = (Client, Frame)

  /** A frame is offered to its clients in turn, except the paused ones. */
  function OffersOf(f: Frame, clients: seq<Client>, paused: set<Client>): seq<Offer> {
    if clients == [] then []
    else
      var c := clients[|clients| - 1];
      OffersOf(f, clients[..|clients| - 1], paused) + if c in paused then [] else [(c, f)]
  }

  function Offers(frames: seq<Frame>, paused: set<Client>): seq<Offer> {
    if frames == [] then []
    else
      var f := frames[|frames| - 1];
      Offers(frames[..|frames| - 1], paused) + OffersOf(f, f.clients, paused)
  }

  /** What client `c` was offered, in order. */
  function OfferedTo(log: seq<Offer>, c: Client): seq<Frame> {
    if log == [] then []
    else
      var last := log[|log| - 1];
      OfferedTo(log[..|log| - 1], c) + if last.0 == c then [last.1] else []
  }

  lemma {:induction false} OfferedToAppend(a: seq<Offer>, b: seq<Offer>, c: Client)
    ensures OfferedTo(a + b, c) == OfferedTo(a, c) + OfferedTo(b, c)
  {
    if b == [] {
      assert a + b == a;
    } else {
      OfferedToAppend(a, b[..|b| - 1], c);
      assert (a + b)[..|a + b| - 1] == a + b[..|b| - 1];
    }
  }

  lemma {:induction false} FrameReaches(f: Frame, clients: seq<Client>, paused: set<Client>, c: Client)
    requires NoDuplicates(clients)
    ensures OfferedTo(OffersOf(f, clients, paused), c) == if c in clients && c !in paused then [f] else []
  {
    if clients != [] {
      var front, last := clients[..|clients| - 1], clients[|clients| - 1];
      FrameReaches(f, front, paused, c);
      assert clients == front + [last];
      var mine: seq<Offer> := if last in paused then [] else [(last, f)];
      OfferedToAppend(OffersOf(f, front, paused), mine, c);
      OfferedToOne(mine, c);
    }
  }

  lemma OfferedToOne(log: seq<Offer>, c: Client)
    requires |log| <= 1
    ensures OfferedTo(log, c) == if log != [] && log[0].0 == c then [log[0].1] else []
  {
    if log != [] {
      assert log[..0] == [];
    }
  }

  /** An unpaused client is offered exactly the frames addressed to it, in
      order, each once; a paused one nothing. */
  lemma {:induction false} OffersReach(frames: seq<Frame>, paused: set<Client>, c: Client)
    requires forall f | f in frames :: NoDuplicates(f.clients)
    ensures OfferedTo(Offers(frames, paused), c) == if c in paused then [] else FramesTo(frames, c)
  {
    if frames != [] {
      var front, f := frames[..|frames| - 1], frames[|frames| - 1];
      OffersReach(front, paused, c);
      OfferedToAppend(Offers(front, paused), OffersOf(f, f.clients, paused), c);
      FrameReaches(f, f.clients, paused, c);
    }
  }

  /** In every cycle of every run, the frames each client is due carry what its
      own limiter, run alone from the start, admits. */
  lemma DueFramesOverRuns(ms: Memories, keys: map<Client, Key>, cycles: seq<Cycle>, k: nat, threshold: nat,
                          groups: map<Key, seq<Client>>, c: Client)
    requires AllFit(keys, cycles) && GroupsAgree(ms, keys) && k < |cycles| && c in keys && Grouped(groups, keys)
    ensures var memory := AloneRun(MemoryOf(ms, c), keys[c], cycles[..k]);
            var alone := Serve(cycles[k].order, cycles[k].batch, keys[c], memory);
            DueFrames(GroupedRun(ms, keys, cycles[..k]), keys, cycles[k], threshold, groups, {}, c) ==
            FramesOf(alone.entries, threshold, groups[keys[c]])
  {
    GroupingRefinesAlone(ms, keys, cycles, k, c);
  }

  // ------------------------------------------------------------- statistics

  type Counts = map<Topic, nat>

  function CountOf(m: Counts, t: Topic): nat {
    if t in m then m[t] else 0
  }

  function CountEntries(entries: seq<Entry>): Counts {
    if entries == [] then map[]
    else
      var before := CountEntries(entries[..|entries| - 1]);
      var t := entries[|entries| - 1].topic;
      before[t := CountOf(before, t) + 1]
  }

  lemma {:induction false} CountEntriesTotal(entries: seq<Entry>)
    ensures Total(CountEntries(entries)) == |entries|
  {
    if entries != [] {
      var before := CountEntries(entries[..|entries| - 1]);
      CountEntriesTotal(entries[..|entries| - 1]);
      var t := entries[|entries| - 1].topic;
      TotalUpdate(before, t, CountOf(before, t) + 1);
    }
  }

  /** How many of the entries belong to the topic. */
  function EntriesOn(entries: seq<Entry>, t: Topic): nat {
    |set i | 0 <= i < |entries| && entries[i].topic == t|
  }

  lemma EntriesOnAppend(front: seq<Entry>, last: Entry, t: Topic)
    ensures EntriesOn(front + [last], t) == EntriesOn(front, t) + if last.topic == t then 1 else 0
  {
    var all := front + [last];
    var before := set i | 0 <= i < |front| && front[i].topic == t;
    assert (set i | 0 <= i < |all| && all[i].topic == t) == before + if last.topic == t then {|front|} else {};
  }

  lemma {:induction false} CountsPerTopic(entries: seq<Entry>, t: Topic)
    ensures CountOf(CountEntries(entries), t) == EntriesOn(entries, t)
  {
    if entries != [] {
      var front, last := entries[..|entries| - 1], entries[|entries| - 1];
      CountsPerTopic(front, t);
      EntriesOnAppend(front, last, t);
      assert front + [last] == entries;
    }
  }

  function Merge(a: Counts, b: Counts): Counts {
    map t | t in a.Keys + b.Keys :: CountOf(a, t) + CountOf(b, t)
  }

  lemma MergeSplit(a: Counts, b: Counts, t: Topic)
    requires t in b
    ensures Merge(a, b) == Merge(a, b - {t})[t := CountOf(a, t) + b[t]]
    ensures CountOf(Merge(a, b - {t}), t) == CountOf(a, t)
    ensures (b - {t}).Keys < b.Keys
  {
  }

  lemma {:induction false} TotalMerge(a: Counts, b: Counts)
    ensures Total(Merge(a, b)) == Total(a) + Total(b)
    decreases b.Keys
  {
    if b == map[] {
      assert Merge(a, b) == a;
    } else {
      assert b.Keys != {};
      var t :| t in b;
      MergeSplit(a, b, t);
      TotalMerge(a, b - {t});
      TotalSplit(b, t);
      TotalUpdate(Merge(a, b - {t}), t, CountOf(a, t) + b[t]);
    }
  }

  /** A frame counts once if any unpaused client got it or will. */
  predicate Forwarded(f: Frame, index: nat, paused: set<Client>, outcome: (nat, Client) -> SendResult) {
    exists c | c in f.clients :: c !in paused && (outcome(index, c).Delivered? || outcome(index, c).Queued?)
  }

  /** A frame counts unless every client it was for was paused, shed it or was
      gone: delivered and queued frames count alike. */
  lemma ForwardedUnlessNobodyGotIt(f: Frame, index: nat, paused: set<Client>, outcome: (nat, Client) -> SendResult)
    ensures Forwarded(f, index, paused, outcome) <==>
            !forall c | c in f.clients :: c in paused || outcome(index, c) == Shed || outcome(index, c) == ClientGone
  {
    forall c | c in f.clients
      ensures c in paused || outcome(index, c) == Shed || outcome(index, c) == ClientGone <==>
              !(c !in paused && (outcome(index, c).Delivered? || outcome(index, c).Queued?))
    {
    }
  }

  /** The frames of `frames` that count. */
  function ForwardedFrames(frames: seq<Frame>, paused: set<Client>, outcome: (nat, Client) -> SendResult): seq<Frame> {
    if frames == [] then []
    else
      var last := |frames| - 1;
      ForwardedFrames(frames[..last], paused, outcome)
      + if Forwarded(frames[last], last, paused, outcome) then [frames[last]] else []
  }

  function MessageCount(frames: seq<Frame>): nat {
    if frames == [] then 0 else MessageCount(frames[..|frames| - 1]) + |frames[|frames| - 1].entries|
  }

  function TopicCounts(frames: seq<Frame>): Counts {
    if frames == [] then map[]
    else Merge(TopicCounts(frames[..|frames| - 1]), CountEntries(frames[|frames| - 1].entries))
  }

  lemma {:induction false} TopicCountsTotal(frames: seq<Frame>)
    ensures Total(TopicCounts(frames)) == MessageCount(frames)
  {
    if frames != [] {
      TopicCountsTotal(frames[..|frames| - 1]);
      CountEntriesTotal(frames[|frames| - 1].entries);
      TotalMerge(TopicCounts(frames[..|frames| - 1]), CountEntries(frames[|frames| - 1].entries));
    }
  }

  /** The messages of topic `t` that the frames carry. */
  function MessagesOn(frames: seq<Frame>, t: Topic): nat {
    if frames == [] then 0
    else MessagesOn(frames[..|frames| - 1], t) + EntriesOn(frames[|frames| - 1].entries, t)
  }

  lemma {:induction false} TopicCountsExact(frames: seq<Frame>, t: Topic)
    ensures CountOf(TopicCounts(frames), t) == MessagesOn(frames, t)
  {
    if frames != [] {
      TopicCountsExact(frames[..|frames| - 1], t);
      CountsPerTopic(frames[|frames| - 1].entries, t);
    }
  }

  datatype Stats = Stats(messages: nat, cycles: nat, forward: Counts)

  const NoStats := Stats(0, 0, map[])

  function Record(st: Stats, counted: seq<Frame>): Stats {
    if MessageCount(counted) == 0 then st
    else Stats(st.messages + MessageCount(counted), st.cycles + 1, Merge(st.forward, TopicCounts(counted)))
  }

  /** One statistics event: a cycle that counted some frames, or a snapshot,
      which resets everything but the lifetime message total. */
  datatype StatsOp = Published(counted: seq<Frame>) | Snapshot

  function StatsAfter(ops: seq<StatsOp>): Stats {
    if ops == [] then NoStats
    else
      var st := StatsAfter(ops[..|ops| - 1]);
      match ops[|ops| - 1]
      case Published(counted) => Record(st, counted)
      case Snapshot => st.(cycles := 0, forward := map[])
  }

  /** The forward counts all snapshots so far have handed out, per topic. */
  function Handed(ops: seq<StatsOp>): Counts {
    if ops == [] then map[]
    else
      var before := Handed(ops[..|ops| - 1]);
      if ops[|ops| - 1].Snapshot? then Merge(before, StatsAfter(ops[..|ops| - 1]).forward) else before
  }

  /** Nothing is lost or counted twice between snapshots: the current and the
      handed-out forward counts together make up every message published. */
  lemma {:induction false} ForwardCountsConserved(ops: seq<StatsOp>)
    ensures Total(StatsAfter(ops).forward) + Total(Handed(ops)) == StatsAfter(ops).messages
  {
    if ops != [] {
      var front := ops[..|ops| - 1];
      ForwardCountsConserved(front);
      match ops[|ops| - 1]
      case Published(counted) =>
        TopicCountsTotal(counted);
        TotalMerge(StatsAfter(front).forward, TopicCounts(counted));
      case Snapshot =>
        TotalMerge(Handed(front), StatsAfter(front).forward);
    }
  }

  /** The cycles since the last snapshot that published something. */
  function BusyCycles(ops: seq<StatsOp>): nat {
    if ops == [] then 0
    else
      match ops[|ops| - 1]
      case Snapshot => 0
      case Published(counted) => BusyCycles(ops[..|ops| - 1]) + if MessageCount(counted) > 0 then 1 else 0
  }

  lemma {:induction false} CyclesCounted(ops: seq<StatsOp>)
    ensures StatsAfter(ops).cycles == BusyCycles(ops)
  {
    if ops != [] {
      CyclesCounted(ops[..|ops| - 1]);
    }
  }

  /** What the cycles published on a topic. */
  function PublishedOn(ops: seq<StatsOp>, t: Topic): nat {
    if ops == [] then 0
    else
      PublishedOn(ops[..|ops| - 1], t)
      + match ops[|ops| - 1] { case Published(counted) => MessagesOn(counted, t) case Snapshot => 0 }
  }

  /** The same topic by topic. */
  lemma {:induction false} TopicCountsConserved(ops: seq<StatsOp>, t: Topic)
    ensures CountOf(StatsAfter(ops).forward, t) + CountOf(Handed(ops), t) == PublishedOn(ops, t)
  {
    if ops != [] {
      TopicCountsConserved(ops[..|ops| - 1], t);
      match ops[|ops| - 1]
      case Published(counted) =>
        TopicCountsExact(counted, t);
        if MessageCount(counted) == 0 {
          NothingOn(counted, t);
        }
      case Snapshot =>
    }
  }

  lemma {:induction false} NothingOn(frames: seq<Frame>, t: Topic)
    requires MessageCount(frames) == 0
    ensures MessagesOn(frames, t) == 0
  {
    if frames != [] {
      NothingOn(frames[..|frames| - 1], t);
      CountsPerTopic(frames[|frames| - 1].entries, t);
    }
  }

  /** However many clients got a frame, it counts at most once. */
  lemma {:induction false} CountedAtMostOnce(
    frames: seq<Frame>, paused: set<Client>, outcome: (nat, Client) -> SendResult)
    ensures Subsequence(ForwardedFrames(frames, paused, outcome), frames)
  {
    if frames != [] {
      var front, f := frames[..|frames| - 1], frames[|frames| - 1];
      var before := ForwardedFrames(front, paused, outcome);
      CountedAtMostOnce(front, paused, outcome);
      SubsequenceSkip(before, front, f);
      SubsequenceExtend(before, front, f);
      assert front + [f] == frames && before + [] == before;
    }
  }

  /** The frames that count are exactly those at the positions where some
      unpaused client got or will get them, in order. */
  lemma {:induction false} CountedExactly(
    frames: seq<Frame>, paused: set<Client>, outcome: (nat, Client) -> SendResult) returns (at: seq<nat>)
    ensures forall j, k | 0 <= j < k < |at| :: at[j] < at[k]
    ensures forall i: nat :: i in at <==> i < |frames| && Forwarded(frames[i], i, paused, outcome)
    ensures |at| == |ForwardedFrames(frames, paused, outcome)|
    ensures forall j | 0 <= j < |at| :: at[j] < |frames| && ForwardedFrames(frames, paused, outcome)[j] == frames[at[j]]
  {
    at := [];
    if frames != [] {
      var last := |frames| - 1;
      at := CountedExactly(frames[..last], paused, outcome);
      assert forall j | 0 <= j < |at| :: at[j] in at;
      if Forwarded(frames[last], last, paused, outcome) {
        at := at + [last];
      }
    }
  }

  /** Nothing counts exactly when every frame was shed, or its clients were all
      gone or paused. */
  lemma {:induction false} UndeliveredNotCounted(
    frames: seq<Frame>, paused: set<Client>, outcome: (nat, Client) -> SendResult)
    ensures ForwardedFrames(frames, paused, outcome) == [] <==>
            forall i | 0 <= i < |frames| :: !Forwarded(frames[i], i, paused, outcome)
  {
    if frames != [] {
      var last := |frames| - 1;
      UndeliveredNotCounted(frames[..last], paused, outcome);
      if forall i | 0 <= i < last :: !Forwarded(frames[..last][i], i, paused, outcome) {
        forall i | 0 <= i < last
          ensures !Forwarded(frames[i], i, paused, outcome)
        {
          assert frames[..last][i] == frames[i];
        }
      } else {
        var i :| 0 <= i < last && Forwarded(frames[..last][i], i, paused, outcome);
        assert Forwarded(frames[i], i, paused, outcome);
      }
    }
  }

  // --------------------------------------------------------------- the class

  class Publisher {
    var lastSent: Memories
    var messages: nat
    var cycles: nat
    var forward: Counts
    const threshold: nat

    ghost function StatsValue(): Stats
      reads this
    {
      Stats(messages, cycles, forward)
    }

    constructor (threshold: nat)
      ensures lastSent == map[] && StatsValue() == NoStats && this.threshold == threshold
    {
      this.threshold := threshold;
      lastSent, messages, cycles, forward := map[], 0, 0, map[];
    }

    /** One admitted message into its lane. */
    method Route(e: Entry, light: seq<Entry>, heavy: seq<Entry>, ghost entries: seq<Entry>)
      returns (light': seq<Entry>, heavy': seq<Entry>)
      requires light == Lane(entries, threshold, false) && heavy == Lane(entries, threshold, true)
      ensures light' == Lane(entries + [e], threshold, false) && heavy' == Lane(entries + [e], threshold, true)
    {
      assert (entries + [e])[..|entries|] == entries;
      if threshold != 0 && |e.msg.data| >= threshold {
        light', heavy' := light, heavy + [e];
      } else {
        light', heavy' := light + [e], heavy;
      }
    }

    /** One topic of an unlimited subscription. */
    method RouteEverything(topic: Topic, msgs: seq<B.Message>, light: seq<Entry>, heavy: seq<Entry>,
                           ghost entries: seq<Entry>)
      returns (light': seq<Entry>, heavy': seq<Entry>)
      requires light == Lane(entries, threshold, false) && heavy == Lane(entries, threshold, true)
      ensures light' == Lane(entries + Entries(topic, msgs), threshold, false)
      ensures heavy' == Lane(entries + Entries(topic, msgs), threshold, true)
    {
      light', heavy' := light, heavy;
      assert entries + Entries(topic, []) == entries;
      for i := 0 to |msgs|
        invariant light' == Lane(entries + Entries(topic, msgs[..i]), threshold, false)
        invariant heavy' == Lane(entries + Entries(topic, msgs[..i]), threshold, true)
      {
        light', heavy' := Route(Entry(topic, msgs[i]), light', heavy', entries + Entries(topic, msgs[..i]));
        assert entries + Entries(topic, msgs[..i + 1]) == entries + Entries(topic, msgs[..i]) + [Entry(topic, msgs[i])];
      }
      assert msgs[..|msgs|] == msgs;
    }

    /** One topic of a rate-limited subscription. */
    method RouteLimited(topic: Topic, msgs: seq<B.Message>, start: U64, interval: U64,
                        light: seq<Entry>, heavy: seq<Entry>, ghost entries: seq<Entry>)
      returns (light': seq<Entry>, heavy': seq<Entry>, last: U64)
      requires light == Lane(entries, threshold, false) && heavy == Lane(entries, threshold, true)
      ensures light' == Lane(entries + Entries(topic, Pass(msgs, start, interval)), threshold, false)
      ensures heavy' == Lane(entries + Entries(topic, Pass(msgs, start, interval)), threshold, true)
      ensures last == PassedLast(msgs, start, interval)
    {
      light', heavy', last := light, heavy, start;
      ghost var done := entries;
      assert entries + Entries(topic, []) == entries;
      for i := 0 to |msgs|
        invariant light' == Lane(done, threshold, false) && heavy' == Lane(done, threshold, true)
        invariant done == entries + Entries(topic, Pass(msgs[..i], start, interval))
        invariant last == PassedLast(msgs[..i], start, interval)
      {
        PassOneMore(msgs, i, start, interval);
        if msgs[i].timestamp >= Add64(last, interval) {
          EntriesAppend(topic, Pass(msgs[..i], start, interval), msgs[i]);
          light', heavy' := Route(Entry(topic, msgs[i]), light', heavy', done);
          done := done + [Entry(topic, msgs[i])];
          last := msgs[i].timestamp;
        }
      }
      assert msgs[..|msgs|] == msgs;
    }

    /** One cycle of one limiter, message by message. */
    method BuildLanes(order: seq<Topic>, batch: Batch, subs: map<Topic, Rate>, start: Memory)
      returns (light: seq<Entry>, heavy: seq<Entry>, memory: Memory)
      ensures var served := Serve(order, batch, KeyOf(subs), start);
              && light == Lane(served.entries, threshold, false)
              && heavy == Lane(served.entries, threshold, true)
              && memory == served.memory
    {
      ghost var served := Served([], start);
      light, heavy, memory := [], [], start;
      for i := 0 to |order|
        invariant served == Serve(order[..i], batch, KeyOf(subs), start)
        invariant memory == served.memory
        invariant light == Lane(served.entries, threshold, false) && heavy == Lane(served.entries, threshold, true)
      {
        var topic := order[i];
        assert order[..i + 1][..i] == order[..i];
        var msgs := if topic in batch then batch[topic] else [];
        ghost var next := ServeTopic(served, topic, msgs, KeyOf(subs));
        if topic in subs {
          var milliHertz := MilliHertz(subs[topic]);
          if milliHertz == 0 {
            light, heavy := RouteEverything(topic, msgs, light, heavy, served.entries);
          } else {
            var last;
            light, heavy, last :=
              RouteLimited(topic, msgs, Lookup(memory, topic), Interval(milliHertz), light, heavy, served.entries);
            memory := memory[topic := last];
          }
        }
        served := next;
      }
      assert order[..|order|] == order;
    }

    /** Serves one group of clients with equal subscriptions `subs` from the
        limiter of its first member. */
    method ServeGroup(clients: seq<Client>, order: seq<Topic>, batch: Batch, subs: map<Topic, Rate>)
      returns (frames: seq<Frame>)
      requires clients != []
      modifies this`lastSent
      ensures var served := Serve(order, batch, KeyOf(subs), MemoryOf(old(lastSent), clients[0]));
              && frames == FramesOf(served.entries, threshold, clients)
              && (forall c: Client :: MemoryOf(lastSent, c) ==
                    if c == clients[0] || (c in clients && served.entries != []) then served.memory
                    else MemoryOf(old(lastSent), c))
    {
      var light, heavy, memory := BuildLanes(order, batch, subs, MemoryOf(lastSent, clients[0]));
      ghost var entries := Serve(order, batch, KeyOf(subs), MemoryOf(lastSent, clients[0])).entries;
      LanesEmpty(entries, threshold);
      lastSent := lastSent[clients[0] := memory];
      frames := [];
      if |light| + |heavy| == 0 {
        return;
      }
      CopyMemory(clients, memory);
      if light != [] {
        frames := frames + [Frame(light, false, clients)];
      }
      frames := frames + HeavyFrames(heavy, clients);
    }

    /** Groups the clients that have subscriptions by their configuration. */
    static method GroupClients(active: seq<Client>, subs: map<Client, map<Topic, Rate>>)
      returns (groups: map<Key, seq<Client>>)
      requires NoDuplicates(active) && forall c | c in active :: c in subs
      ensures Grouped(groups, KeysOf(active, subs))
    {
      groups := map[];
      for i := 0 to |active|
        invariant Grouped(groups, KeysOf(active[..i], subs))
      {
        var c := active[i];
        KeysOfAppend(active, i, subs);
        if subs[c] != map[] {
          var key := KeyOf(subs[c]);
          GroupedAppend(groups, KeysOf(active[..i], subs), c, key);
          groups := groups[key := (if key in groups then groups[key] else []) + [c]];
        }
      }
      assert active[..|active|] == active;
    }

    /** The frames of one publish cycle.  The groups come in any order. */
    method BuildFrames(active: seq<Client>, subs: map<Client, map<Topic, Rate>>, order: seq<Topic>, batch: Batch)
      returns (frames: seq<Frame>, ghost groups: map<Key, seq<Client>>)
      requires NoDuplicates(active) && forall c | c in active :: c in subs
      modifies this`lastSent
      ensures var keys := KeysOf(active, subs);
              var cycle := Cycle(order, batch, Representatives(groups));
              && Grouped(groups, keys)
              && RepsFit(keys, cycle.reps)
              && MemoriesDone(lastSent, old(lastSent), keys, cycle, {})
              && FramesDone(frames, old(lastSent), keys, cycle, threshold, groups, {})
      ensures forall f | f in frames :: NoDuplicates(f.clients)
    {
      var table := GroupClients(active, subs);
      groups := table;
      ghost var keys := KeysOf(active, subs);
      GroupedFit(table, keys);
      frames := ServeGroups(table, subs, order, batch, keys, Cycle(order, batch, Representatives(table)));
    }

    method ServeGroups(table: map<Key, seq<Client>>, subs: map<Client, map<Topic, Rate>>,
                       order: seq<Topic>, batch: Batch, ghost keys: map<Client, Key>, ghost cycle: Cycle)
      returns (frames: seq<Frame>)
      requires Grouped(table, keys) && RepsFit(keys, cycle.reps) && cycle.order == order && cycle.batch == batch
      requires forall k | k in table ::
                 k in cycle.reps && cycle.reps[k] == table[k][0] && table[k][0] in subs && KeyOf(subs[table[k][0]]) == k
      modifies this`lastSent
      ensures MemoriesDone(lastSent, old(lastSent), keys, cycle, {})
      ensures FramesDone(frames, old(lastSent), keys, cycle, threshold, table, {})
      ensures forall f | f in frames :: NoDuplicates(f.clients)
    {
      frames := [];
      CycleStarts(lastSent, keys, cycle, threshold, table);
      var todo := table.Keys;
      while todo != {}
        invariant todo <= table.Keys
        invariant MemoriesDone(lastSent, old(lastSent), keys, cycle, todo)
        invariant FramesDone(frames, old(lastSent), keys, cycle, threshold, table, todo)
        invariant forall f | f in frames :: NoDuplicates(f.clients)
        decreases |todo|
      {
        var key :| key in todo;
        var more := ServeNext(table[key], subs, order, batch, key, keys, cycle, old(lastSent), todo);
        FramesStep(frames, more, old(lastSent), keys, cycle, threshold, table, todo, key);
        frames := frames + more;
        todo := todo - {key};
      }
    }

    /** Serves the next group, in the middle of a cycle. */
    method ServeNext(clients: seq<Client>, subs: map<Client, map<Topic, Rate>>, order: seq<Topic>, batch: Batch,
                     ghost key: Key, ghost keys: map<Client, Key>, ghost cycle: Cycle,
                     ghost before: Memories, ghost todo: set<Key>)
      returns (more: seq<Frame>)
      requires clients != [] && clients[0] in subs && KeyOf(subs[clients[0]]) == key
      requires cycle.order == order && cycle.batch == batch
      requires RepsFit(keys, cycle.reps) && MemoriesDone(lastSent, before, keys, cycle, todo)
      requires key in todo && key in cycle.reps && cycle.reps[key] == clients[0]
      requires forall c: Client :: c in clients <==> c in keys && keys[c] == key
      modifies this`lastSent
      ensures MemoriesDone(lastSent, before, keys, cycle, todo - {key})
      ensures more == FramesOf(Serve(order, batch, key, MemoryOf(before, clients[0])).entries, threshold, clients)
      ensures forall f | f in more :: f.clients == clients
    {
      ghost var now := lastSent;
      assert clients[0] in clients;
      more := ServeGroup(clients, order, batch, subs[clients[0]]);
      MemoriesStep(now, lastSent, before, keys, cycle, todo, key, clients);
    }

    /** One publish cycle over the drained messages: every unpaused client is
        offered exactly the frames it is due, in order. */
    method Publish(active: seq<Client>, subs: map<Client, map<Topic, Rate>>, paused: set<Client>, order: seq<Topic>,
                   batch: Batch, outcome: (nat, Client) -> SendResult)
      returns (log: seq<Offer>, ghost groups: map<Key, seq<Client>>)
      requires NoDuplicates(active) && forall c | c in active :: c in subs
      requires Enumerates(order, batch.Keys)
      modifies this
      ensures var keys := KeysOf(active, subs);
              var cycle := Cycle(order, batch, Representatives(groups));
              && Grouped(groups, keys)
              && RepsFit(keys, cycle.reps)
              && MemoriesDone(lastSent, old(lastSent), keys, cycle, {})
              && forall c: Client :: OfferedTo(log, c) ==
                   if c in paused then [] else DueFrames(old(lastSent), keys, cycle, threshold, groups, {}, c)
    {
      var frames;
      frames, groups := BuildFrames(active, subs, order, batch);
      log := SendFrames(frames, paused, outcome);
      forall c: Client
        ensures OfferedTo(log, c) == if c in paused then [] else FramesTo(frames, c)
      {
        OffersReach(frames, paused, c);
      }
    }

    /** Hands the frames to the middleware, client by client; `outcome` is how
        it handled each of them, the log what it was called with. */
    method SendFrames(frames: seq<Frame>, paused: set<Client>, outcome: (nat, Client) -> SendResult)
      returns (log: seq<Offer>)
      modifies this`messages, this`cycles, this`forward
      ensures log == Offers(frames, paused)
      ensures StatsValue() == Record(old(StatsValue()), ForwardedFrames(frames, paused, outcome))
    {
      var total, counts;
      total, counts, log := SendAll(frames, paused, outcome);
      if total > 0 {
        messages := messages + total;
        cycles := cycles + 1;
        forward := Merge(forward, counts);
      }
    }

    static method SendAll(frames: seq<Frame>, paused: set<Client>, outcome: (nat, Client) -> SendResult)
      returns (total: nat, counts: Counts, log: seq<Offer>)
      ensures log == Offers(frames, paused)
      ensures total == MessageCount(ForwardedFrames(frames, paused, outcome))
      ensures counts == TopicCounts(ForwardedFrames(frames, paused, outcome))
    {
      total, counts, log := 0, map[], [];
      ghost var counted: seq<Frame> := [];
      for i := 0 to |frames|
        invariant counted == ForwardedFrames(frames[..i], paused, outcome)
        invariant log == Offers(frames[..i], paused)
        invariant total == MessageCount(counted) && counts == TopicCounts(counted)
      {
        assert frames[..i + 1][..i] == frames[..i];
        var anySent, calls := SendOne(frames[i], i, paused, outcome);
        log := log + calls;
        if anySent {
          total := total + |frames[i].entries|;
          counts := Merge(counts, CountEntries(frames[i].entries));
          assert (counted + [frames[i]])[..|counted|] == counted;
          counted := counted + [frames[i]];
        } else {
          assert counted + [] == counted;
        }
      }
      assert frames[..|frames|] == frames;
    }

    static method SendOne(frame: Frame, index: nat, paused: set<Client>, outcome: (nat, Client) -> SendResult)
      returns (anySent: bool, calls: seq<Offer>)
      ensures anySent == Forwarded(frame, index, paused, outcome)
      ensures calls == OffersOf(frame, frame.clients, paused)
    {
      anySent, calls := false, [];
      for j := 0 to |frame.clients|
        invariant anySent <==> exists c | c in frame.clients[..j] ::
                    c !in paused && (outcome(index, c).Delivered? || outcome(index, c).Queued?)
        invariant calls == OffersOf(frame, frame.clients[..j], paused)
      {
        var c := frame.clients[j];
        assert frame.clients[..j + 1] == frame.clients[..j] + [c];
        if c !in paused {
          calls := calls + [(c, frame)];
          var result := outcome(index, c);
          if result == Delivered || result == Queued {
            anySent := true;
          }
        }
      }
      assert frame.clients[..|frame.clients|] == frame.clients;
    }

    method SnapshotAndReset() returns (handed: Counts)
      modifies this`cycles, this`forward
      ensures handed == old(forward)
      ensures StatsValue() == old(StatsValue()).(cycles := 0, forward := map[])
    {
      handed := forward;
      forward, cycles := map[], 0;
    }

    method CopyMemory(clients: seq<Client>, memory: Memory)
      modifies this`lastSent
      ensures forall c: Client :: MemoryOf(lastSent, c) == if c in clients then memory else MemoryOf(old(lastSent), c)
    {
      for i := 0 to |clients|
        invariant forall c: Client ::
                    MemoryOf(lastSent, c) == if c in clients[..i] then memory else MemoryOf(old(lastSent), c)
      {
        assert clients[..i + 1] == clients[..i] + [clients[i]];
        lastSent := lastSent[clients[i] := memory];
      }
      assert clients[..|clients|] == clients;
    }
  }

  lemma EntriesAppend(t: Topic, msgs: seq<B.Message>, m: B.Message)
    ensures Entries(t, msgs + [m]) == Entries(t, msgs) + [Entry(t, m)]
  {
  }

  lemma PassOneMore(msgs: seq<B.Message>, i: int, last: U64, interval: U64)
    requires 0 <= i < |msgs|
    ensures var admitted := Admits(PassedLast(msgs[..i], last, interval), interval, msgs[i].timestamp);
            && Pass(msgs[..i + 1], last, interval) ==
               Pass(msgs[..i], last, interval) + (if admitted then [msgs[i]] else [])
            && PassedLast(msgs[..i + 1], last, interval) ==
               if admitted then msgs[i].timestamp else PassedLast(msgs[..i], last, interval)
  {
    assert msgs[..i + 1][..i] == msgs[..i];
    assert Timestamps(msgs[..i + 1])[..i] == Timestamps(msgs[..i]);
  }
}
