/**
 What a publish cycle gives a client, told without the functions that compute
 it: which of the drained messages, in which frames.
 */
module PublishLaws {
  import opened Common
  import opened RateLimiting
  import opened Publishing
  import B = MessageBuffering

  // ---------------------------------------------------- one topic, one client

  /** The messages of one topic's entries, in order. */
  function MessagesOf(entries: seq<Entry>, t: Topic): seq<B.Message> {
    if entries == [] then []
    else
      var last := entries[|entries| - 1];
      MessagesOf(entries[..|entries| - 1], t) + if last.topic == t then [last.msg] else []
  }

  lemma {:induction false} MessagesAppend(a: seq<Entry>, b: seq<Entry>, t: Topic)
    ensures MessagesOf(a + b, t) == MessagesOf(a, t) + MessagesOf(b, t)
  {
    if b == [] {
      assert a + b == a;
    } else {
      MessagesAppend(a, b[..|b| - 1], t);
      assert (a + b)[..|a + b| - 1] == a + b[..|b| - 1];
    }
  }

  lemma {:induction false} MessagesOfEntries(u: Topic, msgs: seq<B.Message>, t: Topic)
    ensures MessagesOf(Entries(u, msgs), t) == if u == t then msgs else []
  {
    if msgs != [] {
      MessagesOfEntries(u, msgs[..|msgs| - 1], t);
      assert Entries(u, msgs)[..|msgs| - 1] == Entries(u, msgs[..|msgs| - 1]);
    }
  }

  /** `on` are the messages of `msgs` at the increasing positions `at`. */
  ghost predicate Picked(on: seq<B.Message>, msgs: seq<B.Message>, at: seq<nat>) {
    && |at| == |on|
    && (forall i, j | 0 <= i < j < |at| :: at[i] < at[j])
    && forall i | 0 <= i < |at| :: at[i] < |msgs| && on[i] == msgs[at[i]]
  }

  /** The message at position `i` is due: the last one let through before it, or
      the remembered one, is at least the interval older. */
  predicate Due(msgs: seq<B.Message>, last: U64, interval: U64, i: nat)
    requires i < |msgs|
  {
    Admits(LastSent(Timestamps(msgs[..i]), last, interval), interval, msgs[i].timestamp)
  }

  /** A limiter passes exactly the messages that are due. */
  lemma {:induction false} PassPicksDue(msgs: seq<B.Message>, last: U64, interval: U64) returns (at: seq<nat>)
    ensures Picked(Pass(msgs, last, interval), msgs, at)
    ensures forall i: nat :: i in at <==> i < |msgs| && Due(msgs, last, interval, i)
  {
    at := [];
    if msgs != [] {
      var front, n := msgs[..|msgs| - 1], |msgs| - 1;
      var before := PassPicksDue(front, last, interval);
      DuePrefix(msgs, last, interval);
      PickedMore(Pass(front, last, interval), front, msgs[n], before);
      assert front + [msgs[n]] == msgs;
      PassMore(msgs, last, interval);
      at := before + if Due(msgs, last, interval, n) then [n] else [];
      assert before + [] == before;
    }
  }

  lemma PassMore(msgs: seq<B.Message>, last: U64, interval: U64)
    requires msgs != []
    ensures var n := |msgs| - 1;
            Pass(msgs, last, interval) ==
            if Due(msgs, last, interval, n) then Pass(msgs[..n], last, interval) + [msgs[n]]
            else Pass(msgs[..n], last, interval)
  {
  }

  lemma DuePrefix(msgs: seq<B.Message>, last: U64, interval: U64)
    requires msgs != []
    ensures forall i: nat | i < |msgs| - 1 :: Due(msgs, last, interval, i) == Due(msgs[..|msgs| - 1], last, interval, i)
  {
    forall i: nat | i < |msgs| - 1
      ensures Due(msgs, last, interval, i) == Due(msgs[..|msgs| - 1], last, interval, i)
    {
      assert msgs[..|msgs| - 1][..i] == msgs[..i];
    }
  }

  lemma PickedMore(on: seq<B.Message>, msgs: seq<B.Message>, m: B.Message, at: seq<nat>)
    requires Picked(on, msgs, at)
    ensures Picked(on, msgs + [m], at) && Picked(on + [m], msgs + [m], at + [|msgs|])
  {
  }

  lemma PickAll(msgs: seq<B.Message>) returns (at: seq<nat>)
    ensures Picked(msgs, msgs, at) && forall i: nat :: i in at <==> i < |msgs|
  {
    at := seq(|msgs|, i requires 0 <= i < |msgs| => i);
    forall i: nat | i < |msgs|
      ensures i in at
    {
      assert at[i] == i;
    }
  }

  function Drained(batch: Batch, t: Topic): seq<B.Message> {
    if t in batch then batch[t] else []
  }

  /** What one limiter serves on one topic, the topics coming in any order. */
  lemma {:induction false} ServedOn(order: seq<Topic>, batch: Batch, key: Key, memory: Memory, t: Topic)
    requires NoDuplicates(order)
    ensures var served := Serve(order, batch, key, memory);
            && MessagesOf(served.entries, t) ==
               (if t !in order || t !in key then []
                else if key[t] == 0 then Drained(batch, t)
                else Pass(Drained(batch, t), Lookup(memory, t), Interval(key[t])))
            && Lookup(served.memory, t) ==
               (if t !in order || t !in key || key[t] == 0 then Lookup(memory, t)
                else LastSent(Timestamps(Drained(batch, t)), Lookup(memory, t), Interval(key[t])))
  {
    if order != [] {
      var front, u := order[..|order| - 1], order[|order| - 1];
      ServedOn(front, batch, key, memory, t);
      assert order == front + [u] && u !in front;
      TopicServed(Serve(front, batch, key, memory), u, Drained(batch, u), key, t);
    }
  }

  lemma TopicServed(s: Served, u: Topic, msgs: seq<B.Message>, key: Key, t: Topic)
    ensures var s' := ServeTopic(s, u, msgs, key);
            && MessagesOf(s'.entries, t) == MessagesOf(s.entries, t) +
               (if u != t || t !in key then []
                else if key[t] == 0 then msgs
                else Pass(msgs, Lookup(s.memory, t), Interval(key[t])))
            && Lookup(s'.memory, t) ==
               if u != t || t !in key || key[t] == 0 then Lookup(s.memory, t)
               else LastSent(Timestamps(msgs), Lookup(s.memory, t), Interval(key[t]))
  {
    assert MessagesOf(s.entries, t) + [] == MessagesOf(s.entries, t);
    if u in key {
      var passed := if key[u] == 0 then msgs else Pass(msgs, Lookup(s.memory, u), Interval(key[u]));
      MessagesAppend(s.entries, Entries(u, passed), t);
      MessagesOfEntries(u, passed, t);
    }
  }

  /** Every drained message of an unlimited topic is served, in order; of a limited
      one exactly those that are due since the remembered timestamp; of a topic
      the client is not subscribed to none. */
  lemma ServeExactly(order: seq<Topic>, batch: Batch, key: Key, memory: Memory, t: Topic) returns (at: seq<nat>)
    requires Enumerates(order, batch.Keys)
    ensures var on := MessagesOf(Serve(order, batch, key, memory).entries, t);
            var msgs := Drained(batch, t);
            && Picked(on, msgs, at)
            && (t !in key ==> on == [])
            && (t in key && key[t] == 0 ==> on == msgs)
            && (t in key && key[t] != 0 ==>
                  forall i: nat :: i in at <==> i < |msgs| && Due(msgs, Lookup(memory, t), Interval(key[t]), i))
  {
    ServedOn(order, batch, key, memory, t);
    if t !in key {
      at := [];
    } else if t !in batch {
      at := [];
    } else if key[t] == 0 {
      at := PickAll(batch[t]);
    } else {
      at := PassPicksDue(batch[t], Lookup(memory, t), Interval(key[t]));
    }
  }

  /** A subscription's rates become limits in milli-hertz, rounded down, so that
      only rates under a thousandth of a hertz mean no limit. */
  lemma KeyKeepsRates(subs: map<Topic, Rate>)
    ensures KeyOf(subs).Keys == subs.Keys
    ensures forall t | t in subs :: KeyOf(subs)[t] as real <= 1000.0 * subs[t] < (KeyOf(subs)[t] + 1) as real
    ensures forall t | t in subs :: KeyOf(subs)[t] == 0 <==> subs[t] < 0.001
  {
    forall t | t in subs
      ensures KeyOf(subs)[t] as real <= 1000.0 * subs[t] < (KeyOf(subs)[t] + 1) as real
    {
      RateIsKept(subs[t]);
    }
  }

  /** Exactly the active clients with subscriptions take part, each with its own. */
  lemma KeysAreSubscriptions(active: seq<Client>, subs: map<Client, map<Topic, Rate>>)
    requires forall c | c in active :: c in subs
    ensures forall c: Client :: c in KeysOf(active, subs) <==> c in active && subs[c].Keys != {}
    ensures forall c | c in KeysOf(active, subs) :: c in subs && KeysOf(active, subs)[c] == KeyOf(subs[c])
  {
    forall c | c in active
      ensures subs[c].Keys != {} <==> subs[c] != map[]
    {
    }
  }

  /** Where the memories are after a cycle: the representative's has moved on, the
      other members got a copy if the group was served anything, and everybody
      else's is unchanged. */
  lemma MemoriesMove(ms: Memories, keys: map<Client, Key>, cycle: Cycle, c: Client)
    requires RepsFit(keys, cycle.reps)
    ensures var after := MemoryOf(GroupedCycle(ms, keys, cycle), c);
            if c !in keys then after == MemoryOf(ms, c)
            else
              var rep := cycle.reps[keys[c]];
              var served := Serve(cycle.order, cycle.batch, keys[c], MemoryOf(ms, rep));
              && (c == rep ==> after == served.memory)
              && (c != rep && served.entries == [] ==> after == MemoryOf(ms, c))
              && (c != rep && served.entries != [] ==> after == served.memory)
  {
  }

  // -------------------------------------------------------------------- frames

  /** All entries of the frames, frame after frame. */
  function Carried(frames: seq<Frame>): seq<Entry> {
    if frames == [] then [] else Carried(frames[..|frames| - 1]) + frames[|frames| - 1].entries
  }

  lemma {:induction false} CarriedAppend(a: seq<Frame>, b: seq<Frame>)
    ensures Carried(a + b) == Carried(a) + Carried(b)
  {
    if b == [] {
      assert a + b == a;
    } else {
      CarriedAppend(a, b[..|b| - 1]);
      assert (a + b)[..|a + b| - 1] == a + b[..|b| - 1];
      var last := b[|b| - 1].entries;
      assert Carried(a) + Carried(b[..|b| - 1]) + last == Carried(a) + (Carried(b[..|b| - 1]) + last);
    }
  }

  lemma {:induction false} CarriedSingles(entries: seq<Entry>, clients: seq<Client>)
    ensures Carried(HeavyFrames(entries, clients)) == entries
  {
    if entries != [] {
      CarriedSingles(entries[..|entries| - 1], clients);
      assert HeavyFrames(entries, clients)[..|entries| - 1] == HeavyFrames(entries[..|entries| - 1], clients);
    }
  }

  lemma CarriedOne(f: Frame)
    ensures Carried([f]) == f.entries
  {
    assert [f][..0] == [];
  }

  /** A frame as the middleware should get it: not empty, and marked heavy exactly
      if it is one message of at least the threshold on its own. */
  predicate WellFormed(f: Frame, threshold: nat, clients: seq<Client>) {
    && f.clients == clients
    && f.entries != []
    && (f.heavy ==> |f.entries| == 1)
    && forall e | e in f.entries :: f.heavy <==> threshold > 0 && |e.msg.data| >= threshold
  }

  /** The frames of a group carry every served entry exactly once; small messages
      share one frame, which goes first, large ones have a frame each; and in
      both the order of serving is kept. */
  lemma FramesCarryAll(entries: seq<Entry>, threshold: nat, clients: seq<Client>)
    ensures var frames := FramesOf(entries, threshold, clients);
            && multiset(Carried(frames)) == multiset(entries)
            && (forall f | f in frames :: WellFormed(f, threshold, clients))
            && (forall i | 0 < i < |frames| :: frames[i].heavy)
  {
    var light, heavy := Lane(entries, threshold, false), Lane(entries, threshold, true);
    var frames := FramesOf(entries, threshold, clients);
    LanesPartition(entries, threshold);
    FramesCarryLanes(entries, threshold, clients);
    forall f | f in frames
      ensures WellFormed(f, threshold, clients)
    {
      if f.heavy {
        assert f in HeavyFrames(heavy, clients);
      }
    }
  }

  lemma FramesCarryLanes(entries: seq<Entry>, threshold: nat, clients: seq<Client>)
    ensures Carried(FramesOf(entries, threshold, clients)) ==
            Lane(entries, threshold, false) + Lane(entries, threshold, true)
  {
    var light, heavy := Lane(entries, threshold, false), Lane(entries, threshold, true);
    var first := if light != [] then [Frame(light, false, clients)] else [];
    CarriedAppend(first, HeavyFrames(heavy, clients));
    CarriedSingles(heavy, clients);
    CarriedOne(Frame(light, false, clients));
  }

  // ------------------------------------------------------------- end to end

  /** The messages of one topic with a size on one side of the threshold. */
  function Sized(msgs: seq<B.Message>, threshold: nat, heavy: bool): seq<B.Message> {
    if msgs == [] then []
    else
      var m := msgs[|msgs| - 1];
      Sized(msgs[..|msgs| - 1], threshold, heavy)
      + if (threshold > 0 && |m.data| >= threshold) == heavy then [m] else []
  }

  lemma {:induction false} LaneMessages(entries: seq<Entry>, threshold: nat, heavy: bool, t: Topic)
    ensures MessagesOf(Lane(entries, threshold, heavy), t) == Sized(MessagesOf(entries, t), threshold, heavy)
  {
    if entries != [] {
      var front, e := entries[..|entries| - 1], entries[|entries| - 1];
      LaneMessages(front, threshold, heavy, t);
      LaneMessage(front, e, threshold, heavy, t);
      assert front + [e] == entries;
    }
  }

  lemma LaneMessage(front: seq<Entry>, e: Entry, threshold: nat, heavy: bool, t: Topic)
    requires MessagesOf(Lane(front, threshold, heavy), t) == Sized(MessagesOf(front, t), threshold, heavy)
    ensures MessagesOf(Lane(front + [e], threshold, heavy), t) ==
            Sized(MessagesOf(front + [e], t), threshold, heavy)
  {
    LaneMore(front, e, threshold, heavy);
    MessageMore(Lane(front, threshold, heavy), e, t);
    MessageMore(front, e, t);
    SizedMore(MessagesOf(front, t), e.msg, threshold, heavy);
  }

  lemma LaneMore(front: seq<Entry>, e: Entry, threshold: nat, heavy: bool)
    ensures Lane(front + [e], threshold, heavy) ==
            if Heavy(threshold, e) == heavy then Lane(front, threshold, heavy) + [e] else Lane(front, threshold, heavy)
  {
    assert (front + [e])[..|front|] == front;
  }

  lemma MessageMore(entries: seq<Entry>, e: Entry, t: Topic)
    ensures MessagesOf(entries + [e], t) ==
            if e.topic == t then MessagesOf(entries, t) + [e.msg] else MessagesOf(entries, t)
  {
    assert (entries + [e])[..|entries|] == entries;
    assert MessagesOf(entries, t) + [] == MessagesOf(entries, t);
  }

  lemma SizedMore(msgs: seq<B.Message>, m: B.Message, threshold: nat, heavy: bool)
    ensures Sized(msgs + [m], threshold, heavy) ==
            if (threshold > 0 && |m.data| >= threshold) == heavy then Sized(msgs, threshold, heavy) + [m]
            else Sized(msgs, threshold, heavy)
  {
    assert (msgs + [m])[..|msgs|] == msgs;
    assert Sized(msgs, threshold, heavy) + [] == Sized(msgs, threshold, heavy);
  }

  /** What a client is due on one topic in a cycle: of the messages its own limiter
      lets through, first the small ones and then the large ones, in order. */
  lemma ClientIsDue(ms: Memories, keys: map<Client, Key>, cycle: Cycle, threshold: nat, groups: map<Key, seq<Client>>,
                    c: Client, t: Topic) returns (at: seq<nat>, on: seq<B.Message>)
    requires RepsFit(keys, cycle.reps) && Grouped(groups, keys) && GroupsAgree(ms, keys) && c in keys
    requires Enumerates(cycle.order, cycle.batch.Keys)
    ensures MessagesOf(Carried(DueFrames(ms, keys, cycle, threshold, groups, {}, c)), t) ==
            Sized(on, threshold, false) + Sized(on, threshold, true)
    ensures Picked(on, Drained(cycle.batch, t), at)
    ensures t !in keys[c] ==> on == []
    ensures t in keys[c] && keys[c][t] == 0 ==> on == Drained(cycle.batch, t)
    ensures t in keys[c] && keys[c][t] != 0 ==>
              forall i: nat :: i in at <==>
                i < |Drained(cycle.batch, t)|
                && Due(Drained(cycle.batch, t), Lookup(MemoryOf(ms, c), t), Interval(keys[c][t]), i)
  {
    var entries := Serve(cycle.order, cycle.batch, keys[c], MemoryOf(ms, c)).entries;
    DueFramesAreAlone(ms, keys, cycle, threshold, groups, c);
    on := MessagesOf(entries, t);
    at := ServeExactly(cycle.order, cycle.batch, keys[c], MemoryOf(ms, c), t);
    FramesCarryLanes(entries, threshold, groups[keys[c]]);
    MessagesAppend(Lane(entries, threshold, false), Lane(entries, threshold, true), t);
    LaneMessages(entries, threshold, false, t);
    LaneMessages(entries, threshold, true, t);
  }
}
