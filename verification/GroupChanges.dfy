/**
 Groups that change between cycles: when sharing a representative's limiter is
 harmless, and when it breaks a client's spacing.
 */
module GroupChanges {
  import opened Common
  import opened RateLimiting
  import opened Publishing
  import B = MessageBuffering

  // ------------------------------------------------------ the exact condition

  lemma AddIsInjective(a: U64, b: U64, interval: U64)
    requires a != b
    ensures Add64(a, interval) != Add64(b, interval)
  {
  }

  function One(timestamp: U64): B.Message {
    B.Message(timestamp, 0, [])
  }

  lemma PassOne(timestamp: U64, last: U64, interval: U64)
    ensures Pass([One(timestamp)], last, interval) == if Admits(last, interval, timestamp) then [One(timestamp)] else []
    ensures PassedLast([One(timestamp)], last, interval) ==
            if Admits(last, interval, timestamp) then timestamp else last
  {
    assert [One(timestamp)][..0] == [];
    assert Timestamps([One(timestamp)])[..0] == [];
  }

  /** A cycle with one message, on one limited topic. */
  lemma ServeOne(t: Topic, timestamp: U64, key: Key, memory: Memory)
    requires t in key && key[t] != 0
    ensures var served := Serve([t], map[t := [One(timestamp)]], key, memory);
            var last := Lookup(memory, t);
            if Admits(last, Interval(key[t]), timestamp) then
              served == Served([Entry(t, One(timestamp))], memory[t := timestamp])
            else
              served == Served([], memory[t := last])
  {
    var batch := map[t := [One(timestamp)]];
    assert [t][..0] == [];
    assert Serve([], batch, key, memory) == Served([], memory);
    PassOne(timestamp, Lookup(memory, t), Interval(key[t]));
    assert Entries(t, [One(timestamp)]) == [Entry(t, One(timestamp))];
    assert Entries(t, []) == [];
  }

  ghost function AnyMember(keys: map<Client, Key>, k: Key): Client
    requires k in keys.Values
  {
    var c :| c in keys && keys[c] == k;
    c
  }

  /** Any member of a group may represent it. */
  lemma RepresentedBy(keys: map<Client, Key>, d: Client) returns (reps: map<Key, Client>)
    requires d in keys
    ensures RepsFit(keys, reps) && reps[keys[d]] == d
  {
    reps := map k | k in keys.Values :: if k == keys[d] then d else AnyMember(keys, k);
  }

  /** Members that disagree on a limited topic are told apart by one message. */
  lemma DisagreementShows(ms: Memories, keys: map<Client, Key>, c: Client, d: Client, t: Topic) returns (cycle: Cycle)
    requires c in keys && d in keys && keys[c] == keys[d] && t in keys[c] && keys[c][t] != 0
    requires Lookup(MemoryOf(ms, c), t) != Lookup(MemoryOf(ms, d), t)
    ensures RepsFit(keys, cycle.reps)
    ensures GroupServe(ms, keys, cycle, c).entries !=
            Serve(cycle.order, cycle.batch, keys[c], MemoryOf(ms, c)).entries
  {
    var interval := Interval(keys[c][t]);
    var mine, other := Add64(Lookup(MemoryOf(ms, c), t), interval), Add64(Lookup(MemoryOf(ms, d), t), interval);
    AddIsInjective(Lookup(MemoryOf(ms, c), t), Lookup(MemoryOf(ms, d), t), interval);
    var timestamp := if mine < other then mine else other;
    var reps := RepresentedBy(keys, d);
    cycle := Cycle([t], map[t := [One(timestamp)]], reps);
    ServeOne(t, timestamp, keys[c], MemoryOf(ms, c));
    ServeOne(t, timestamp, keys[c], MemoryOf(ms, d));
  }

  /** Whichever representatives are picked and whatever arrives, each client is
      served what its own limiter would serve it, exactly if the members of each
      group agree on their limited topics. */
  lemma AgreementIsExact(ms: Memories, keys: map<Client, Key>)
    ensures GroupsAgree(ms, keys) <==>
            forall cycle: Cycle, c | RepsFit(keys, cycle.reps) && c in keys ::
              GroupServe(ms, keys, cycle, c).entries ==
              Serve(cycle.order, cycle.batch, keys[c], MemoryOf(ms, c)).entries
  {
    if GroupsAgree(ms, keys) {
      forall cycle: Cycle, c | RepsFit(keys, cycle.reps) && c in keys
        ensures GroupServe(ms, keys, cycle, c).entries ==
                Serve(cycle.order, cycle.batch, keys[c], MemoryOf(ms, c)).entries
      {
        GroupedIsAlone(ms, keys, cycle, c);
      }
    } else {
      var c, d :| c in keys && d in keys && keys[c] == keys[d] && !Agree(MemoryOf(ms, c), MemoryOf(ms, d), keys[c]);
      var t :| t in keys[c] && keys[c][t] != 0 && Lookup(MemoryOf(ms, c), t) != Lookup(MemoryOf(ms, d), t);
      var cycle := DisagreementShows(ms, keys, c, d, t);
    }
  }

  // ------------------------------------------------------ one client's stamps

  /** The timestamps of one topic's entries. */
  function StampsOn(entries: seq<Entry>, t: Topic): seq<U64> {
    if entries == [] then []
    else
      var last := entries[|entries| - 1];
      StampsOn(entries[..|entries| - 1], t) + if last.topic == t then [last.msg.timestamp] else []
  }

  lemma {:induction false} StampsAppend(a: seq<Entry>, b: seq<Entry>, t: Topic)
    ensures StampsOn(a + b, t) == StampsOn(a, t) + StampsOn(b, t)
  {
    if b == [] {
      assert a + b == a;
    } else {
      StampsAppend(a, b[..|b| - 1], t);
      assert (a + b)[..|a + b| - 1] == a + b[..|b| - 1];
    }
  }

  lemma {:induction false} StampsOfEntries(u: Topic, msgs: seq<B.Message>, t: Topic)
    ensures StampsOn(Entries(u, msgs), t) == if u == t then Timestamps(msgs) else []
  {
    if msgs != [] {
      StampsOfEntries(u, msgs[..|msgs| - 1], t);
      assert Entries(u, msgs)[..|msgs| - 1] == Entries(u, msgs[..|msgs| - 1]);
      assert Timestamps(msgs)[..|msgs| - 1] == Timestamps(msgs[..|msgs| - 1]);
    }
  }

  function Final(stamps: seq<U64>, last: U64): U64 {
    if stamps == [] then last else stamps[|stamps| - 1]
  }

  lemma JoinSpaced(p: seq<U64>, q: seq<U64>, last: U64, interval: U64)
    requires Spaced(p, last, interval) && Spaced(q, Final(p, last), interval)
    ensures Spaced(p + q, last, interval) && Final(p + q, last) == Final(q, Final(p, last))
  {
  }

  lemma {:induction false} SpacedGrows(p: seq<U64>, last: U64, interval: U64)
    requires Spaced(p, last, interval)
    ensures Final(p, last) >= last
  {
    if p != [] {
      SpacedGrows(p[..|p| - 1], last, interval);
    }
  }

  /** Timestamps below this never make the limiter's addition wrap. */
  const LATEST: U64 := TWO64 - 1 - 1_000_000_000_000

  predicate SmallBatch(batch: Batch) {
    forall t, i | t in batch && 0 <= i < |batch[t]| :: batch[t][i].timestamp <= LATEST
  }

  ghost predicate SmallMemory(m: Memory) {
    forall t: Topic :: Lookup(m, t) <= LATEST
  }

  lemma IntervalSmall(milliHertz: nat)
    requires milliHertz > 0
    ensures Interval(milliHertz) <= 1_000_000_000_000
  {
  }

  /** One topic's messages through the limiter, as timestamps. */
  lemma PassSpaced(msgs: seq<B.Message>, last: U64, interval: U64)
    requires last <= LATEST && interval <= 1_000_000_000_000
    requires forall i | 0 <= i < |msgs| :: msgs[i].timestamp <= LATEST
    ensures var passed := Timestamps(Pass(msgs, last, interval));
            && Spaced(passed, last, interval)
            && PassedLast(msgs, last, interval) == Final(passed, last) <= LATEST
  {
    var ts := Timestamps(msgs);
    PassIsSent(msgs, last, interval);
    SentSpaced(ts, last, interval);
    LastSentIsLast(ts, last, interval);
    SentStems(ts, last, interval);
    var sent := Sent(ts, last, interval);
    assert sent != [] ==> sent[|sent| - 1] in sent;
  }

  /** What a limiter serves on a limited topic keeps the interval from where the
      limiter stood, and the limiter ends at the last of it. */
  lemma {:induction false} ServeSpaced(order: seq<Topic>, batch: Batch, key: Key, memory: Memory, t: Topic)
    requires t in key && key[t] != 0 && SmallBatch(batch) && Lookup(memory, t) <= LATEST
    ensures var served := Serve(order, batch, key, memory);
            var stamps := StampsOn(served.entries, t);
            && Spaced(stamps, Lookup(memory, t), Interval(key[t]))
            && Lookup(served.memory, t) == Final(stamps, Lookup(memory, t)) <= LATEST
  {
    if order != [] {
      var front, u := order[..|order| - 1], order[|order| - 1];
      ServeSpaced(front, batch, key, memory, t);
      ServeTopicSpaced(Serve(front, batch, key, memory), u, if u in batch then batch[u] else [], key, memory, t);
    }
  }

  lemma ServeTopicSpaced(s: Served, u: Topic, msgs: seq<B.Message>, key: Key, memory: Memory, t: Topic)
    requires t in key && key[t] != 0 && Lookup(s.memory, t) <= LATEST
    requires forall i | 0 <= i < |msgs| :: msgs[i].timestamp <= LATEST
    requires Spaced(StampsOn(s.entries, t), Lookup(memory, t), Interval(key[t]))
    requires Lookup(s.memory, t) == Final(StampsOn(s.entries, t), Lookup(memory, t))
    ensures var s' := ServeTopic(s, u, msgs, key);
            && Spaced(StampsOn(s'.entries, t), Lookup(memory, t), Interval(key[t]))
            && Lookup(s'.memory, t) == Final(StampsOn(s'.entries, t), Lookup(memory, t)) <= LATEST
  {
    if u in key {
      var passed := if key[u] == 0 then msgs else Pass(msgs, Lookup(s.memory, u), Interval(key[u]));
      StampsAppend(s.entries, Entries(u, passed), t);
      StampsOfEntries(u, passed, t);
      if u == t {
        IntervalSmall(key[t]);
        PassSpaced(msgs, Lookup(s.memory, t), Interval(key[t]));
        JoinSpaced(StampsOn(s.entries, t), Timestamps(passed), Lookup(memory, t), Interval(key[t]));
      } else {
        assert StampsOn(s.entries, t) + [] == StampsOn(s.entries, t);
      }
    }
  }

  /** A limiter does not touch what it remembers of other topics. */
  lemma {:induction false} ServeKeepsOthers(order: seq<Topic>, batch: Batch, key: Key, memory: Memory, t: Topic)
    requires t !in key || key[t] == 0
    ensures Lookup(Serve(order, batch, key, memory).memory, t) == Lookup(memory, t)
  {
    if order != [] {
      ServeKeepsOthers(order[..|order| - 1], batch, key, memory, t);
    }
  }

  /** A limiter's memory never goes back. */
  lemma ServeGrows(order: seq<Topic>, batch: Batch, key: Key, memory: Memory, t: Topic)
    requires SmallBatch(batch) && Lookup(memory, t) <= LATEST
    ensures Lookup(memory, t) <= Lookup(Serve(order, batch, key, memory).memory, t) <= LATEST
  {
    if t in key && key[t] != 0 {
      ServeSpaced(order, batch, key, memory, t);
      SpacedGrows(StampsOn(Serve(order, batch, key, memory).entries, t), Lookup(memory, t), Interval(key[t]));
    } else {
      ServeKeepsOthers(order, batch, key, memory, t);
    }
  }

  // ------------------------------------------------------ when spacing is kept

  /** The representative remembers at least as much as client `c`, for every
      topic, subscribed or not. */
  ghost predicate Leads(ms: Memories, keys: map<Client, Key>, reps: map<Key, Client>, c: Client)
    requires RepsFit(keys, reps) && c in keys
  {
    forall t: Topic :: Lookup(MemoryOf(ms, reps[keys[c]]), t) >= Lookup(MemoryOf(ms, c), t)
  }

  /** What client `c` is served in the cycle is properly spaced from what it
      remembers, and it forgets nothing. */
  ghost predicate KeepsSpacing(ms: Memories, keys: map<Client, Key>, cycle: Cycle, c: Client)
    requires RepsFit(keys, cycle.reps) && c in keys
  {
    && (forall t | t in keys[c] && keys[c][t] != 0 ::
          Spaced(StampsOn(GroupServe(ms, keys, cycle, c).entries, t), Lookup(MemoryOf(ms, c), t), Interval(keys[c][t])))
    && (forall t: Topic :: Lookup(MemoryOf(GroupedCycle(ms, keys, cycle), c), t) >= Lookup(MemoryOf(ms, c), t))
  }

  lemma LeadingKeepsSpacing(ms: Memories, keys: map<Client, Key>, cycle: Cycle, c: Client)
    requires RepsFit(keys, cycle.reps) && c in keys && Leads(ms, keys, cycle.reps, c)
    requires SmallBatch(cycle.batch) && SmallMemory(MemoryOf(ms, cycle.reps[keys[c]]))
    ensures KeepsSpacing(ms, keys, cycle, c)
  {
    var led := MemoryOf(ms, cycle.reps[keys[c]]);
    forall t | t in keys[c] && keys[c][t] != 0
      ensures Spaced(StampsOn(GroupServe(ms, keys, cycle, c).entries, t), Lookup(MemoryOf(ms, c), t),
                     Interval(keys[c][t]))
    {
      ServeSpaced(cycle.order, cycle.batch, keys[c], led, t);
    }
    forall t: Topic
      ensures Lookup(MemoryOf(GroupedCycle(ms, keys, cycle), c), t) >= Lookup(MemoryOf(ms, c), t)
    {
      ServeGrows(cycle.order, cycle.batch, keys[c], led, t);
    }
  }

  /** Memories so far from the end of the clock that another message can follow. */
  ghost predicate RoomyMemory(m: Memory) {
    forall t: Topic :: Lookup(m, t) + 1_000_000_000_000 <= LATEST
  }

  /** A representative that is behind on a topic lets a message through too
      early, or makes the client forget. */
  lemma BehindBreaksSpacing(ms: Memories, keys: map<Client, Key>, reps: map<Key, Client>, c: Client, t: Topic)
      returns (cycle: Cycle)
    requires RepsFit(keys, reps) && c in keys && keys[c] != map[]
    requires RoomyMemory(MemoryOf(ms, c)) && RoomyMemory(MemoryOf(ms, reps[keys[c]]))
    requires Lookup(MemoryOf(ms, reps[keys[c]]), t) < Lookup(MemoryOf(ms, c), t)
    ensures cycle.reps == reps && SmallBatch(cycle.batch) && !KeepsSpacing(ms, keys, cycle, c)
  {
    if t in keys[c] && keys[c][t] != 0 {
      cycle := BehindIsEarly(ms, keys, reps, c, t);
    } else {
      cycle := BehindForgets(ms, keys, reps, c, t);
    }
  }

  lemma BehindIsEarly(ms: Memories, keys: map<Client, Key>, reps: map<Key, Client>, c: Client, t: Topic)
      returns (cycle: Cycle)
    requires RepsFit(keys, reps) && c in keys && t in keys[c] && keys[c][t] != 0
    requires RoomyMemory(MemoryOf(ms, c)) && RoomyMemory(MemoryOf(ms, reps[keys[c]]))
    requires Lookup(MemoryOf(ms, reps[keys[c]]), t) < Lookup(MemoryOf(ms, c), t)
    ensures cycle.reps == reps && SmallBatch(cycle.batch) && !KeepsSpacing(ms, keys, cycle, c)
  {
    var key, led := keys[c], MemoryOf(ms, reps[keys[c]]);
    var timestamp := Lookup(led, t) + Interval(key[t]);
    IntervalSmall(key[t]);
    cycle := Cycle([t], map[t := [One(timestamp)]], reps);
    ServeOne(t, timestamp, key, led);
    StampOne(t, timestamp);
  }

  lemma BehindForgets(ms: Memories, keys: map<Client, Key>, reps: map<Key, Client>, c: Client, t: Topic)
      returns (cycle: Cycle)
    requires RepsFit(keys, reps) && c in keys && keys[c] != map[] && (t !in keys[c] || keys[c][t] == 0)
    requires RoomyMemory(MemoryOf(ms, reps[keys[c]]))
    requires Lookup(MemoryOf(ms, reps[keys[c]]), t) < Lookup(MemoryOf(ms, c), t)
    ensures cycle.reps == reps && SmallBatch(cycle.batch) && !KeepsSpacing(ms, keys, cycle, c)
  {
    var key, led := keys[c], MemoryOf(ms, reps[keys[c]]);
    assert key.Keys != {};
    var u :| u in key;
    cycle := Cycle([u], map[u := [One(LATEST)]], reps);
    LatestGetsThrough(u, key, led);
    ServeKeepsOthers([u], cycle.batch, key, led, t);
  }

  lemma StampOne(t: Topic, timestamp: U64)
    ensures StampsOn([Entry(t, One(timestamp))], t) == [timestamp]
  {
    assert [Entry(t, One(timestamp))][..0] == [];
  }

  lemma LatestGetsThrough(u: Topic, key: Key, memory: Memory)
    requires u in key && RoomyMemory(memory)
    ensures Serve([u], map[u := [One(LATEST)]], key, memory).entries != []
  {
    if key[u] != 0 {
      IntervalSmall(key[u]);
      ServeOne(u, LATEST, key, memory);
    } else {
      var batch := map[u := [One(LATEST)]];
      assert [u][..0] == [];
      assert Serve([], batch, key, memory) == Served([], memory);
      assert |Entries(u, [One(LATEST)])| == 1;
    }
  }

  /** Whatever arrives, a cycle keeps a client's spacing exactly if its
      representative remembers at least as much as the client. */
  lemma LeadingIsExact(ms: Memories, keys: map<Client, Key>, reps: map<Key, Client>, c: Client)
    requires RepsFit(keys, reps) && c in keys && keys[c] != map[]
    requires RoomyMemory(MemoryOf(ms, c)) && RoomyMemory(MemoryOf(ms, reps[keys[c]]))
    ensures Leads(ms, keys, reps, c) <==>
            forall cycle: Cycle | cycle.reps == reps && SmallBatch(cycle.batch) :: KeepsSpacing(ms, keys, cycle, c)
  {
    if Leads(ms, keys, reps, c) {
      forall cycle: Cycle | cycle.reps == reps && SmallBatch(cycle.batch)
        ensures KeepsSpacing(ms, keys, cycle, c)
      {
        LeadingKeepsSpacing(ms, keys, cycle, c);
      }
    } else {
      var t :| Lookup(MemoryOf(ms, reps[keys[c]]), t) < Lookup(MemoryOf(ms, c), t);
      var cycle := BehindBreaksSpacing(ms, keys, reps, c, t);
    }
  }

  // --------------------------------------------------- runs of changing groups

  /** One publish cycle of a run: the clients whose sessions ended before it,
      and the configurations it found. */
  datatype Round = Round(gone: set<Client>, keys: map<Client, Key>, cycle: Cycle)

  ghost predicate RoundsFit(rounds: seq<Round>) {
    forall i | 0 <= i < |rounds| :: RepsFit(rounds[i].keys, rounds[i].cycle.reps) && SmallBatch(rounds[i].cycle.batch)
  }

  /** The memories a round starts from. */
  ghost function Before(rounds: seq<Round>, next: Round): Memories
    requires RoundsFit(rounds)
  {
    After(rounds) - next.gone
  }

  ghost function After(rounds: seq<Round>): Memories
    requires RoundsFit(rounds)
    decreases |rounds|, 0
  {
    if rounds == [] then map[]
    else
      var front, last := rounds[..|rounds| - 1], rounds[|rounds| - 1];
      assert RepsFit(last.keys, last.cycle.reps);
      GroupedCycle(After(front) - last.gone, last.keys, last.cycle)
  }

  /** A served timestamp and the interval in force when it was served. */
  datatype Stamp = Stamp(at: U64, interval: U64)

  function Stamped(stamps: seq<U64>, interval: U64): seq<Stamp> {
    seq(|stamps|, i requires 0 <= i < |stamps| => Stamp(stamps[i], interval))
  }

  /** What client `c` is served on topic `t` in a cycle, if it limits the topic. */
  function Received(ms: Memories, keys: map<Client, Key>, cycle: Cycle, c: Client, t: Topic): seq<Stamp>
    requires RepsFit(keys, cycle.reps)
  {
    if c in keys && t in keys[c] && keys[c][t] != 0
    then Stamped(StampsOn(GroupServe(ms, keys, cycle, c).entries, t), Interval(keys[c][t]))
    else []
  }

  /** What client `c` was served on topic `t` while limiting it, since its
      session began. */
  ghost function History(rounds: seq<Round>, c: Client, t: Topic): seq<Stamp>
    requires RoundsFit(rounds)
  {
    if rounds == [] then []
    else
      var front, last := rounds[..|rounds| - 1], rounds[|rounds| - 1];
      assert RepsFit(last.keys, last.cycle.reps);
      (if c in last.gone then [] else History(front, c, t)) + Received(Before(front, last), last.keys, last.cycle, c, t)
  }

  /** Every message comes at least the interval after the one before it. */
  predicate Apart(h: seq<Stamp>) {
    forall i | 0 <= i < |h| :: FollowsInTime(h, i)
  }

  predicate FollowsInTime(h: seq<Stamp>, i: int)
    requires 0 <= i < |h|
  {
    h[i].at >= (if i == 0 then 0 else h[i - 1].at) + h[i].interval
  }

  /** In every round client `c` takes part in, its representative remembers at
      least as much as `c`. */
  ghost predicate AlwaysLed(rounds: seq<Round>, c: Client)
    requires RoundsFit(rounds)
  {
    rounds == [] ||
    var front, last := rounds[..|rounds| - 1], rounds[|rounds| - 1];
    assert RepsFit(last.keys, last.cycle.reps);
    AlwaysLed(front, c) && (c in last.keys ==> Leads(Before(front, last), last.keys, last.cycle.reps, c))
  }

  lemma CycleKeepsSmall(ms: Memories, keys: map<Client, Key>, cycle: Cycle)
    requires RepsFit(keys, cycle.reps) && SmallBatch(cycle.batch) && forall d: Client :: SmallMemory(MemoryOf(ms, d))
    ensures forall d: Client :: SmallMemory(MemoryOf(GroupedCycle(ms, keys, cycle), d))
  {
    forall d: Client, t: Topic
      ensures Lookup(MemoryOf(GroupedCycle(ms, keys, cycle), d), t) <= LATEST
    {
      if d in keys {
        ServeGrows(cycle.order, cycle.batch, keys[d], MemoryOf(ms, cycle.reps[keys[d]]), t);
      }
    }
  }

  lemma {:induction false} MemoriesStaySmall(rounds: seq<Round>)
    requires RoundsFit(rounds)
    ensures forall d: Client :: SmallMemory(MemoryOf(After(rounds), d))
  {
    if rounds != [] {
      var front, last := rounds[..|rounds| - 1], rounds[|rounds| - 1];
      MemoriesStaySmall(front);
      var ms := Before(front, last);
      forall d: Client
        ensures SmallMemory(MemoryOf(ms, d))
      {
        assert MemoryOf(ms, d) == map[] || MemoryOf(ms, d) == MemoryOf(After(front), d);
      }
      CycleKeepsSmall(ms, last.keys, last.cycle);
    }
  }

  function LastAt(h: seq<Stamp>): U64 {
    if h == [] then 0 else h[|h| - 1].at
  }

  lemma ApartJoin(h: seq<Stamp>, stamps: seq<U64>, interval: U64, last: U64)
    requires Apart(h) && LastAt(h) <= last && Spaced(stamps, last, interval)
    ensures Apart(h + Stamped(stamps, interval))
    ensures LastAt(h + Stamped(stamps, interval)) == if stamps == [] then LastAt(h) else stamps[|stamps| - 1]
  {
    var h' := h + Stamped(stamps, interval);
    forall i | 0 <= i < |h'|
      ensures FollowsInTime(h', i)
    {
      if i < |h| {
        assert FollowsInTime(h, i);
      } else {
        var j := i - |h|;
        assert h'[i] == Stamp(stamps[j], interval);
        if j > 0 {
          assert h'[i - 1] == Stamp(stamps[j - 1], interval) && stamps[j] >= stamps[j - 1] + interval;
        }
      }
    }
  }

  /** One round keeps the spacing of a client that is led in it. */
  lemma RoundKeepsApart(ms: Memories, keys: map<Client, Key>, cycle: Cycle, c: Client, t: Topic, h: seq<Stamp>)
    requires RepsFit(keys, cycle.reps) && SmallBatch(cycle.batch) && forall d: Client :: SmallMemory(MemoryOf(ms, d))
    requires c in keys ==> Leads(ms, keys, cycle.reps, c)
    requires Apart(h) && LastAt(h) <= Lookup(MemoryOf(ms, c), t)
    ensures var h' := h + Received(ms, keys, cycle, c, t);
            Apart(h') && LastAt(h') <= Lookup(MemoryOf(GroupedCycle(ms, keys, cycle), c), t)
  {
    if c !in keys {
      assert h + [] == h;
    } else {
      LeadingKeepsSpacing(ms, keys, cycle, c);
      if t in keys[c] && keys[c][t] != 0 {
        var served := GroupServe(ms, keys, cycle, c);
        var stamps := StampsOn(served.entries, t);
        ServeSpaced(cycle.order, cycle.batch, keys[c], MemoryOf(ms, cycle.reps[keys[c]]), t);
        ApartJoin(h, stamps, Interval(keys[c][t]), Lookup(MemoryOf(ms, c), t));
        assert stamps != [] ==> served.entries != [];
      } else {
        assert h + [] == h;
      }
    }
  }

  /** Over any run of changing groups, configurations and sessions, a client that
      is always led gets no message on a limited topic earlier than the interval
      after the one before it. */
  lemma {:induction false} SpacingAcrossGroups(rounds: seq<Round>, c: Client, t: Topic)
    requires RoundsFit(rounds) && AlwaysLed(rounds, c)
    ensures Apart(History(rounds, c, t))
    ensures LastAt(History(rounds, c, t)) <= Lookup(MemoryOf(After(rounds), c), t)
  {
    if rounds != [] {
      var front, last := rounds[..|rounds| - 1], rounds[|rounds| - 1];
      SpacingAcrossGroups(front, c, t);
      MemoriesStaySmall(front);
      var ms := Before(front, last);
      forall d: Client
        ensures SmallMemory(MemoryOf(ms, d))
      {
        assert MemoryOf(ms, d) == map[] || MemoryOf(ms, d) == MemoryOf(After(front), d);
      }
      RoundKeepsApart(ms, last.keys, last.cycle, c, t, if c in last.gone then [] else History(front, c, t));
    }
  }

  // ------------------------------------------------------- a joiner breaks it

  /** A limit of one million messages a second, an interval of 1000 ns. */
  const FAST: nat := 1_000_000_000

  function AtOnce(t: Topic, timestamp: U64, rep: Client): Cycle {
    Cycle([t], map[t := [One(timestamp)]], map[map[t := FAST] := rep])
  }

  /** Client `c` is served alone; then `d` joins and represents the group. */
  function JoinerRun(c: Client, d: Client, t: Topic): seq<Round> {
    var key := map[t := FAST];
    [Round({}, map[c := key], AtOnce(t, 5000, c)), Round({}, map[c := key, d := key], AtOnce(t, 5001, d))]
  }

  lemma FirstRound(c: Client, d: Client, t: Topic)
    requires c != d
    ensures var front := JoinerRun(c, d, t)[..1];
            && RoundsFit(front)
            && After(front) == map[c := map[t := 5000]]
            && History(front, c, t) == [Stamp(5000, 1000)]
  {
    var front := JoinerRun(c, d, t)[..1];
    var round := front[0];
    assert front[..0] == [] && Before([], round) == map[];
    ServeOne(t, 5000, map[t := FAST], map[]);
    StampOne(t, 5000);
    assert GroupServe(map[], round.keys, round.cycle, c) == Served([Entry(t, One(5000))], map[t := 5000]);
    assert GroupedCycle(map[], round.keys, round.cycle) == map[c := map[t := 5000]];
    assert Stamped([5000], 1000) == [Stamp(5000, 1000)];
    assert Received(map[], round.keys, round.cycle, c, t) == [Stamp(5000, 1000)];
  }

  /** A fresh client chosen as representative makes its group get a message too
      early: 1 ns after the last one, with an interval of 1000. */
  lemma JoinerBreaksSpacing(c: Client, d: Client, t: Topic)
    requires c != d
    ensures var rounds := JoinerRun(c, d, t);
            && RoundsFit(rounds)
            && History(rounds, c, t) == [Stamp(5000, 1000), Stamp(5001, 1000)]
            && !Apart(History(rounds, c, t))
  {
    var rounds := JoinerRun(c, d, t);
    var round := rounds[1];
    FirstRound(c, d, t);
    SecondRound(c, d, t);
    assert rounds[..|rounds| - 1] == rounds[..1];
    assert Before(rounds[..1], round) == map[c := map[t := 5000]];
    assert History(rounds[..1], c, t) + [Stamp(5001, 1000)] == [Stamp(5000, 1000), Stamp(5001, 1000)];
    assert !FollowsInTime([Stamp(5000, 1000), Stamp(5001, 1000)], 1);
  }

  lemma SecondRound(c: Client, d: Client, t: Topic)
    requires c != d
    ensures var round := JoinerRun(c, d, t)[1];
            && RepsFit(round.keys, round.cycle.reps)
            && Received(map[c := map[t := 5000]], round.keys, round.cycle, c, t) == [Stamp(5001, 1000)]
  {
    var round, ms := JoinerRun(c, d, t)[1], map[c := map[t := 5000]];
    ServeOne(t, 5001, map[t := FAST], map[]);
    StampOne(t, 5001);
    assert GroupServe(ms, round.keys, round.cycle, c).entries == [Entry(t, One(5001))];
    assert Stamped([5001], 1000) == [Stamp(5001, 1000)];
  }

  // ------------------------------------------- serving alone, in changing groups

  /** Two memories that no limiter can tell apart. */
  ghost predicate Same(a: Memory, b: Memory) {
    forall t: Topic :: Lookup(a, t) == Lookup(b, t)
  }

  lemma ServeOfSame(order: seq<Topic>, batch: Batch, key: Key, a: Memory, b: Memory)
    requires Same(a, b)
    ensures Serve(order, batch, key, a).entries == Serve(order, batch, key, b).entries
    ensures Same(Serve(order, batch, key, a).memory, Serve(order, batch, key, b).memory)
  {
    ServeOfAgreeing(order, batch, key, a, b);
    forall t: Topic
      ensures Lookup(Serve(order, batch, key, a).memory, t) == Lookup(Serve(order, batch, key, b).memory, t)
    {
      if t !in key || key[t] == 0 {
        ServeKeepsOthers(order, batch, key, a, t);
        ServeKeepsOthers(order, batch, key, b, t);
      }
    }
  }

  lemma IdleServeSame(order: seq<Topic>, batch: Batch, key: Key, memory: Memory)
    requires Serve(order, batch, key, memory).entries == []
    ensures Same(Serve(order, batch, key, memory).memory, memory)
  {
    IdleServe(order, batch, key, memory);
    forall t: Topic
      ensures Lookup(Serve(order, batch, key, memory).memory, t) == Lookup(memory, t)
    {
      if t !in key || key[t] == 0 {
        ServeKeepsOthers(order, batch, key, memory, t);
      }
    }
  }

  /** What client `c` would remember if it were always served alone. */
  function OwnMemory(rounds: seq<Round>, c: Client): Memory {
    if rounds == [] then map[]
    else
      var last := rounds[|rounds| - 1];
      var before := if c in last.gone then map[] else OwnMemory(rounds[..|rounds| - 1], c);
      if c in last.keys then Serve(last.cycle.order, last.cycle.batch, last.keys[c], before).memory else before
  }

  /** In every round client `c` takes part in, its representative remembers the
      same as `c`. */
  ghost predicate AlwaysMatched(rounds: seq<Round>, c: Client)
    requires RoundsFit(rounds)
  {
    rounds == [] ||
    var front, last := rounds[..|rounds| - 1], rounds[|rounds| - 1];
    assert RepsFit(last.keys, last.cycle.reps);
    var ms := Before(front, last);
    && AlwaysMatched(front, c)
    && (c in last.keys ==> Same(MemoryOf(ms, last.cycle.reps[last.keys[c]]), MemoryOf(ms, c)))
  }

  lemma MatchedRound(ms: Memories, keys: map<Client, Key>, cycle: Cycle, c: Client, own: Memory)
    requires RepsFit(keys, cycle.reps) && c in keys
    requires Same(MemoryOf(ms, c), own) && Same(MemoryOf(ms, cycle.reps[keys[c]]), MemoryOf(ms, c))
    ensures var alone := Serve(cycle.order, cycle.batch, keys[c], own);
            && GroupServe(ms, keys, cycle, c).entries == alone.entries
            && Same(MemoryOf(GroupedCycle(ms, keys, cycle), c), alone.memory)
  {
    var led := MemoryOf(ms, cycle.reps[keys[c]]);
    ServeOfSame(cycle.order, cycle.batch, keys[c], led, own);
    if GroupServe(ms, keys, cycle, c).entries == [] {
      IdleServeSame(cycle.order, cycle.batch, keys[c], own);
    }
  }

  /** Over any run of changing groups, configurations and sessions, a client that
      is always matched is remembered as if it had been served alone. */
  lemma {:induction false} MatchedMemory(rounds: seq<Round>, c: Client)
    requires RoundsFit(rounds) && AlwaysMatched(rounds, c)
    ensures Same(MemoryOf(After(rounds), c), OwnMemory(rounds, c))
  {
    if rounds != [] {
      var front, last := rounds[..|rounds| - 1], rounds[|rounds| - 1];
      MatchedMemory(front, c);
      var ms := Before(front, last);
      var own := if c in last.gone then map[] else OwnMemory(front, c);
      assert c in last.gone ==> MemoryOf(ms, c) == map[];
      assert c !in last.gone ==> MemoryOf(ms, c) == MemoryOf(After(front), c);
      if c in last.keys {
        MatchedRound(ms, last.keys, last.cycle, c, own);
      }
    }
  }

  /** And it is served in every round exactly what it would be served alone. */
  lemma ChangingGroupsRefineAlone(rounds: seq<Round>, next: Round, c: Client)
    requires RoundsFit(rounds + [next]) && AlwaysMatched(rounds + [next], c) && c in next.keys
    ensures RoundsFit(rounds) && RepsFit(next.keys, next.cycle.reps)
    ensures var own := if c in next.gone then map[] else OwnMemory(rounds, c);
            GroupServe(Before(rounds, next), next.keys, next.cycle, c).entries ==
            Serve(next.cycle.order, next.cycle.batch, next.keys[c], own).entries
  {
    var all := rounds + [next];
    assert all[..|rounds|] == rounds && all[|rounds|] == next;
    assert forall i | 0 <= i < |rounds| :: rounds[i] == all[i];
    MatchedMemory(rounds, c);
    var ms := Before(rounds, next);
    assert c in next.gone ==> MemoryOf(ms, c) == map[];
    assert c !in next.gone ==> MemoryOf(ms, c) == MemoryOf(After(rounds), c);
    MatchedRound(ms, next.keys, next.cycle, c, if c in next.gone then map[] else OwnMemory(rounds, c));
  }
}
