/**
 Client sessions: subscriptions with their rates, the topics for which the
 session holds a backend reference, and the paused flag.
 */
module SessionManagement {
  import opened Common

  datatype Session = Session(
    subscribed: map<Topic, real>,
    refHeld: set<Topic>,
    paused: bool,
    topicUpdates: bool,
    schemasInUpdates: bool,
    lastHeartbeat: nat)

  type Sessions = map<Client, Session>

  /** One mutating call of the manager; each is atomic under its mutex. */
  datatype Op =
    | Create(client: Client, now: nat)
    | Heartbeat(client: Client, now: nat)
    | UpdateSubscriptions(client: Client, topics: map<Topic, real>)
    | AddSubscription(client: Client, topic: Topic, rate: real)
    | RemoveSubscription(client: Client, topic: Topic)
    | SetRefHeld(client: Client, topic: Topic, held: bool)
    | SetPaused(client: Client, paused: bool)
    | SetTopicUpdates(client: Client, on: bool)
    | SetSchemasInUpdates(client: Client, on: bool)
    | Remove(client: Client)

  /** The effect of an update on an existing session. */
  function Change(s: Session, op: Op): Session
    requires !op.Create? && !op.Remove?
  {
    match op
    case Heartbeat(_, now) => s.(lastHeartbeat := now)
    case UpdateSubscriptions(_, topics) => s.(subscribed := topics, refHeld := s.refHeld * topics.Keys)
    case AddSubscription(_, t, rate) => s.(subscribed := s.subscribed[t := rate])
    case RemoveSubscription(_, t) => s.(subscribed := s.subscribed - {t}, refHeld := s.refHeld - {t})
    case SetRefHeld(_, t, held) => s.(refHeld := if held then s.refHeld + {t} else s.refHeld - {t})
    case SetPaused(_, paused) => s.(paused := paused)
    case SetTopicUpdates(_, on) => s.(topicUpdates := on)
    case SetSchemasInUpdates(_, on) => s.(schemasInUpdates := on)
  }

  /** Every update of a missing session is a no-op. */
  function Apply(m: Sessions, op: Op): Sessions {
    if op.Create? then
      if op.client in m then m else m[op.client := Session(map[], {}, false, false, false, op.now)]
    else if op.client !in m then m
    else if op.Remove? then m - {op.client}
    else m[op.client := Change(m[op.client], op)]
  }

  function Subscriptions(m: Sessions, c: Client): map<Topic, real> {
    if c in m then m[c].subscribed else map[]
  }

  function RefHeldTopics(m: Sessions, c: Client): set<Topic> {
    if c in m then m[c].refHeld else {}
  }

  predicate IsPaused(m: Sessions, c: Client) {
    c in m && m[c].paused
  }

  predicate TimedOut(s: Session, now: nat, timeout: nat) {
    now - s.lastHeartbeat > timeout
  }

  /** References are held only for subscribed topics. */
  ghost predicate HeldWithinSubscribed(m: Sessions) {
    forall c | c in m :: m[c].refHeld <= m[c].subscribed.Keys
  }

  /** Only marking an unsubscribed topic as held can break the inclusion. */
  lemma OnlySetRefHeldBreaks(m: Sessions, op: Op)
    requires HeldWithinSubscribed(m)
    ensures HeldWithinSubscribed(Apply(m, op)) <==>
            !(op.SetRefHeld? && op.held && op.client in m && op.topic !in m[op.client].subscribed)
  {
    var m' := Apply(m, op);
    if op.SetRefHeld? && op.client in m {
      var held := m[op.client].refHeld;
      assert m'[op.client].refHeld == if op.held then held + {op.topic} else held - {op.topic};
      if op.held {
        assert op.topic in m'[op.client].refHeld;
      }
    }
  }

  /** What each call leaves of a session that exists, and of the others. */
  lemma CallsChangeOneSession(m: Sessions, op: Op)
    ensures forall c | c != op.client :: c in Apply(m, op) <==> c in m
    ensures forall c | c in m && c != op.client :: Apply(m, op)[c] == m[c]
    ensures op.client in Apply(m, op) <==> if op.Create? then true else op.client in m && !op.Remove?
    ensures op.Create? && op.client !in m ==>
              Apply(m, op)[op.client] == Session(map[], {}, false, false, false, op.now)
    ensures op.Create? && op.client in m ==> Apply(m, op) == m
    ensures op.client in m && op.client in Apply(m, op) && !op.Create? ==>
              Changed(m[op.client], Apply(m, op)[op.client], op)
  {
  }

  /** The one field, or the two, a call is about; all others stay. */
  ghost predicate Changed(s: Session, s': Session, op: Op) {
    && (op.Heartbeat? ==> s' == s.(lastHeartbeat := op.now))
    && (op.AddSubscription? ==> s' == s.(subscribed := s.subscribed[op.topic := op.rate]))
    && (op.RemoveSubscription? ==>
          && s' == s.(subscribed := s'.subscribed, refHeld := s'.refHeld)
          && s'.subscribed.Keys == s.subscribed.Keys - {op.topic}
          && (forall t | t in s'.subscribed :: s'.subscribed[t] == s.subscribed[t])
          && s'.refHeld == s.refHeld - {op.topic})
    && (op.UpdateSubscriptions? ==>
          && s' == s.(subscribed := op.topics, refHeld := s'.refHeld)
          && forall t :: t in s'.refHeld <==> t in s.refHeld && t in op.topics)
    && (op.SetRefHeld? ==>
          && s' == s.(refHeld := s'.refHeld)
          && forall t :: t in s'.refHeld <==> if t == op.topic then op.held else t in s.refHeld)
    && (op.SetPaused? ==> s' == s.(paused := op.paused))
    && (op.SetTopicUpdates? ==> s' == s.(topicUpdates := op.on))
    && (op.SetSchemasInUpdates? ==> s' == s.(schemasInUpdates := op.on))
  }

  /** A heartbeat postpones the timeout to more than the limit after it. */
  lemma HeartbeatPostponesTimeout(m: Sessions, c: Client, at: nat, now: nat, timeout: nat)
    requires c in m
    ensures var m' := Apply(m, Heartbeat(c, at)); c in m' && (TimedOut(m'[c], now, timeout) <==> now > at + timeout)
  {
  }

  class SessionManager {
    var sessions: Sessions
    const timeout: nat

    constructor (timeout: nat)
      ensures sessions == map[] && this.timeout == timeout
    {
      this.timeout := timeout;
      sessions := map[];
    }

    method CreateSession(client: Client, now: nat) returns (ok: bool)
      modifies this
      ensures ok == (client !in old(sessions))
      ensures sessions == Apply(old(sessions), Create(client, now))
    {
      if client in sessions {
        return false;
      }
      sessions := sessions[client := Session(map[], {}, false, false, false, now)];
      return true;
    }

    method UpdateHeartbeat(client: Client, now: nat) returns (ok: bool)
      modifies this
      ensures ok == (client in old(sessions))
      ensures sessions == Apply(old(sessions), Heartbeat(client, now))
    {
      if client !in sessions {
        return false;
      }
      sessions := sessions[client := sessions[client].(lastHeartbeat := now)];
      return true;
    }

    method ReplaceSubscriptions(client: Client, topics: map<Topic, real>) returns (ok: bool)
      modifies this
      ensures ok == (client in old(sessions))
      ensures sessions == Apply(old(sessions), UpdateSubscriptions(client, topics))
    {
      if client !in sessions {
        return false;
      }
      var held := KeepSubscribed(sessions[client].refHeld, topics);
      sessions := sessions[client := sessions[client].(subscribed := topics, refHeld := held)];
      return true;
    }

    /** References can only be held for subscribed topics. */
    static method KeepSubscribed(held: set<Topic>, topics: map<Topic, real>) returns (kept: set<Topic>)
      ensures kept == held * topics.Keys
    {
      kept := held;
      var todo := held;
      while todo != {}
        invariant todo <= held
        invariant forall t :: t in kept <==> t in held && (t in todo || t in topics)
        decreases |todo|
      {
        var topic :| topic in todo;
        if topic !in topics {
          kept := kept - {topic};
        }
        todo := todo - {topic};
      }
    }

    method AddSub(client: Client, topic: Topic, rate: real) returns (ok: bool)
      modifies this
      ensures ok == (client in old(sessions))
      ensures sessions == Apply(old(sessions), AddSubscription(client, topic, rate))
    {
      if client !in sessions {
        return false;
      }
      var s := sessions[client];
      sessions := sessions[client := s.(subscribed := s.subscribed[topic := rate])];
      return true;
    }

    method RemoveSub(client: Client, topic: Topic) returns (ok: bool)
      modifies this
      ensures ok == (topic in Subscriptions(old(sessions), client))
      ensures sessions == Apply(old(sessions), RemoveSubscription(client, topic))
    {
      if client !in sessions {
        return false;
      }
      var s := sessions[client];
      sessions := sessions[client := s.(refHeld := s.refHeld - {topic}, subscribed := s.subscribed - {topic})];
      return topic in s.subscribed;
    }

    method SetHeld(client: Client, topic: Topic, held: bool) returns (ok: bool)
      modifies this
      ensures ok == (client in old(sessions))
      ensures sessions == Apply(old(sessions), SetRefHeld(client, topic, held))
    {
      if client !in sessions {
        return false;
      }
      var s := sessions[client];
      if held {
        sessions := sessions[client := s.(refHeld := s.refHeld + {topic})];
      } else {
        sessions := sessions[client := s.(refHeld := s.refHeld - {topic})];
      }
      return true;
    }

    method MarkPaused(client: Client, paused: bool) returns (ok: bool)
      modifies this
      ensures ok == (client in old(sessions))
      ensures sessions == Apply(old(sessions), SetPaused(client, paused))
    {
      if client !in sessions {
        return false;
      }
      sessions := sessions[client := sessions[client].(paused := paused)];
      return true;
    }

    method RemoveSession(client: Client) returns (ok: bool)
      modifies this
      ensures ok == (client in old(sessions))
      ensures sessions == Apply(old(sessions), Remove(client))
    {
      if client !in sessions {
        return false;
      }
      sessions := sessions - {client};
      return true;
    }

    method GetTimedOutSessions(now: nat) returns (timedOut: seq<Client>)
      ensures Enumerates(timedOut, set c | c in sessions && TimedOut(sessions[c], now, timeout))
      ensures forall c :: c in timedOut <==> c in sessions && now > sessions[c].lastHeartbeat + timeout
    {
      timedOut := [];
      var todo := sessions.Keys;
      while todo != {}
        invariant todo <= sessions.Keys
        invariant NoDuplicates(timedOut)
        invariant forall c :: c in timedOut <==> c in sessions && c !in todo && TimedOut(sessions[c], now, timeout)
        decreases |todo|
      {
        var client :| client in todo;
        if now - sessions[client].lastHeartbeat > timeout {
          timedOut := timedOut + [client];
        }
        todo := todo - {client};
      }
    }
  }
}
