/**
 Pushed topic advertisement: each poll diffs the whitelisted topics against the
 previous poll and notifies clients of what was added and removed.
 */
module TopicWatching {
  import opened Common

  /** Topic name to message type. */
  type Catalog = map<Topic, string>

  /** A topic whose type changed is both removed and added again. */
  datatype Notification = Notification(added: Catalog, removed: set<Topic>)

  /** What the whitelist lets through; a later entry of a name wins. */
  function Visible(topics: seq<(Topic, string)>, matches: Topic -> bool): Catalog {
    if topics == [] then map[]
    else
      var last := topics[|topics| - 1];
      var before := Visible(topics[..|topics| - 1], matches);
      if matches(last.0) then before[last.0 := last.1] else before
  }

  /** Exactly the whitelisted names are visible, each with a type listed for it,
      the one listed last. */
  lemma {:induction false} VisibleExactly(topics: seq<(Topic, string)>, matches: Topic -> bool)
    ensures forall t | t in Visible(topics, matches) :: matches(t) && (t, Visible(topics, matches)[t]) in topics
    ensures forall t | matches(t) && (exists messageType :: (t, messageType) in topics) :: t in Visible(topics, matches)
    ensures forall i | LastOfName(topics, i) && matches(topics[i].0) ::
              topics[i].0 in Visible(topics, matches) && Visible(topics, matches)[topics[i].0] == topics[i].1
  {
    if topics != [] {
      var front, last := topics[..|topics| - 1], topics[|topics| - 1];
      VisibleExactly(front, matches);
      assert topics == front + [last];
      forall i | LastOfName(topics, i) && matches(topics[i].0)
        ensures topics[i].0 in Visible(topics, matches) && Visible(topics, matches)[topics[i].0] == topics[i].1
      {
        if i < |front| {
          assert topics[|front|] == last;
          assert forall j | i < j < |front| :: front[j] == topics[j];
          assert LastOfName(front, i);
        }
      }
    }
  }

  /** No later entry has the same name. */
  predicate LastOfName(topics: seq<(Topic, string)>, i: int) {
    0 <= i < |topics| && forall j | i < j < |topics| :: topics[j].0 != topics[i].0
  }

  /** The notification names just the topics that appeared, vanished or changed
      their type. */
  ghost predicate OnlyChanges(known: Catalog, current: Catalog, n: Notification) {
    && (forall t :: t in n.added <==> t in current && (t !in known || known[t] != current[t]))
    && (forall t | t in n.added :: t in current && n.added[t] == current[t])
    && (forall t :: t in n.removed <==> t in known && (t !in current || known[t] != current[t]))
  }

  lemma DiffIsMinimal(known: Catalog, current: Catalog)
    ensures OnlyChanges(known, current, Diff(known, current))
  {
  }

  predicate Same(a: Catalog, b: Catalog, t: Topic) {
    t in a && t in b && a[t] == b[t]
  }

  function Diff(known: Catalog, current: Catalog): Notification {
    Notification(map t | t in current && !Same(known, current, t) :: current[t],
                 set t | t in known && !Same(known, current, t))
  }

  predicate Silent(n: Notification) {
    n.added == map[] && n.removed == {}
  }

  /** How a client applies a notification: removals first. */
  function Patch(view: Catalog, n: Notification): Catalog {
    (view - n.removed) + n.added
  }

  lemma PatchOfDiff(known: Catalog, current: Catalog)
    ensures Patch(known, Diff(known, current)) == current
    ensures Silent(Diff(known, current)) <==> known == current
  {
    if Silent(Diff(known, current)) {
      forall t: Topic
        ensures t in known <==> t in current
        ensures t in known ==> known[t] == current[t]
      {
        assert t !in Diff(known, current).added && t !in Diff(known, current).removed;
      }
    }
  }

  /** The notifications a run of polls sends, the first poll being silent. */
  function Sent(polls: seq<Catalog>): seq<Notification> {
    if |polls| < 2 then []
    else
      var n := Diff(polls[|polls| - 2], polls[|polls| - 1]);
      Sent(polls[..|polls| - 1]) + if Silent(n) then [] else [n]
  }

  function Fold(view: Catalog, ns: seq<Notification>): Catalog {
    if ns == [] then view else Patch(Fold(view, ns[..|ns| - 1]), ns[|ns| - 1])
  }

  /** A client that knew the baseline and applied every notification knows the
      current topics and types; and only changes are notified. */
  lemma {:induction false} NotificationsTrackTopics(polls: seq<Catalog>)
    requires polls != []
    ensures Fold(polls[0], Sent(polls)) == polls[|polls| - 1]
    ensures Sent(polls) == [] <==> forall i | 0 <= i < |polls| :: polls[i] == polls[0]
  {
    if |polls| > 1 {
      var front := polls[..|polls| - 1];
      NotificationsTrackTopics(front);
      PatchOfDiff(polls[|polls| - 2], polls[|polls| - 1]);
      var n := Diff(polls[|polls| - 2], polls[|polls| - 1]);
      assert (Sent(front) + [n])[..|Sent(front)|] == Sent(front);
      assert Sent(front) + [] == Sent(front);
      assert forall i | 0 <= i < |front| :: front[i] == polls[i];
      if Sent(polls) == [] {
        forall i | 0 <= i < |polls|
          ensures polls[i] == polls[0]
        {
          assert i < |front| ==> front[i] == front[0];
          assert front[|front| - 1] == front[0];
        }
      }
    }
  }

  /** A client's own view, from a topic list it asked for at any time, becomes
      right with the next notification exactly if it is right about every topic
      the notification does not mention. */
  lemma ViewCatchesUp(view: Catalog, known: Catalog, current: Catalog)
    ensures Patch(view, Diff(known, current)) == current <==> Reconcilable(view, known, current)
  {
    var n := Diff(known, current);
    var patched := Patch(view, n);
    forall t: Topic
      ensures Unmentioned(known, current, t) ==> (AgreeOn(view, current, t) <==> AgreeOn(patched, current, t))
      ensures !Unmentioned(known, current, t) ==> AgreeOn(patched, current, t)
    {
    }
    if patched == current {
      assert forall t: Topic :: AgreeOn(patched, current, t);
    } else if Reconcilable(view, known, current) {
      forall t: Topic
        ensures AgreeOn(patched, current, t)
      {
      }
      AgreeingIsEqual(patched, current);
    }
  }

  lemma AgreeingIsEqual(a: Catalog, b: Catalog)
    requires forall t: Topic :: AgreeOn(a, b, t)
    ensures a == b
  {
    forall t: Topic
      ensures t in a <==> t in b
      ensures t in a ==> a[t] == b[t]
    {
      assert AgreeOn(a, b, t);
    }
  }

  /** The notification says nothing about the topic: it is known and current
      with one type, or neither. */
  predicate Unmentioned(known: Catalog, current: Catalog, t: Topic) {
    Same(known, current, t) || (t !in known && t !in current)
  }

  predicate AgreeOn(a: Catalog, b: Catalog, t: Topic) {
    Same(a, b, t) || (t !in a && t !in b)
  }

  ghost predicate Reconcilable(view: Catalog, known: Catalog, current: Catalog) {
    forall t: Topic | Unmentioned(known, current, t) :: AgreeOn(view, current, t)
  }

  /** From then on it stays right, over any run of polls. */
  lemma LateViewTracksTopics(view: Catalog, known: Catalog, polls: seq<Catalog>)
    requires polls != [] && Reconcilable(view, known, polls[0])
    ensures Fold(Patch(view, Diff(known, polls[0])), Sent(polls)) == polls[|polls| - 1]
  {
    ViewCatchesUp(view, known, polls[0]);
    NotificationsTrackTopics(polls);
  }

  /** A topic that appears and vanishes between two polls stays in the view of a
      client that asked meanwhile. */
  lemma ViewCanGoStale(t: Topic, messageType: string)
    ensures var view := map[t := messageType];
            Silent(Diff(map[], map[])) && Patch(view, Diff(map[], map[])) != map[]
  {
    var view: Catalog := map[t := messageType];
    ViewCatchesUp(view, map[], map[]);
    assert !AgreeOn(view, map[], t) && Unmentioned(map[], map[], t);
  }

  class TopicWatch {
    var known: Catalog
    var snapshotTaken: bool

    constructor ()
      ensures !snapshotTaken && known == map[]
    {
      known, snapshotTaken := map[], false;
    }

    /** One poll; the first one only takes the baseline. */
    method CheckTopicChanges(topics: seq<(Topic, string)>, matches: Topic -> bool) returns (n: Option<Notification>)
      modifies this
      ensures snapshotTaken && known == Visible(topics, matches)
      ensures n.Some? <==> old(snapshotTaken) && known != old(known)
      ensures n.Some? ==> n.value == Diff(old(known), known) && Patch(old(known), n.value) == known
      ensures forall t | t in known :: matches(t) && (t, known[t]) in topics
      ensures forall t | matches(t) && (exists messageType :: (t, messageType) in topics) :: t in known
      ensures n.Some? ==> OnlyChanges(old(known), known, n.value)
    {
      var current := Collect(topics, matches);
      VisibleExactly(topics, matches);
      DiffIsMinimal(known, current);
      if !snapshotTaken {
        known, snapshotTaken := current, true;
        return None;
      }
      var added := Changed(current, known);
      var removed := Changed(known, current);
      PatchOfDiff(known, current);
      assert added == Diff(known, current).added;
      assert removed.Keys == Diff(known, current).removed;
      known := current;
      if added == map[] && removed.Keys == {} {
        return None;
      }
      return Some(Notification(added, removed.Keys));
    }

    static method Collect(topics: seq<(Topic, string)>, matches: Topic -> bool) returns (current: Catalog)
      ensures current == Visible(topics, matches)
    {
      current := map[];
      for i := 0 to |topics|
        invariant current == Visible(topics[..i], matches)
      {
        assert topics[..i + 1][..i] == topics[..i];
        if matches(topics[i].0) {
          current := current[topics[i].0 := topics[i].1];
        }
      }
      assert topics[..|topics|] == topics;
    }

    /** The entries of `a` that are missing from `b` or different there. */
    static method Changed(a: Catalog, b: Catalog) returns (changed: Catalog)
      ensures changed == map t | t in a && !Same(a, b, t) :: a[t]
    {
      changed := map[];
      var todo := a.Keys;
      while todo != {}
        invariant todo <= a.Keys
        invariant changed == map t | t in a && t !in todo && !Same(a, b, t) :: a[t]
        decreases |todo|
      {
        var topic :| topic in todo;
        if topic !in b || b[topic] != a[topic] {
          changed := changed[topic := a[topic]];
        }
        todo := todo - {topic};
      }
    }
  }
}
