/** The broker's registry as a value (the fields of MessageBroker in
    broker.go), one function per operation giving the state it leaves and the
    outcome it reports, and the properties the broker keeps. */
module Registry {
  import opened Subscribers

  /** One entry of a topic's history (MessagesHistory). */
  datatype Record = Record(timeStamp: string, message: string, sender: string)

  /** The errors the broker reports; each Go error string is one constructor. */
  datatype Error =
    | LimitReached           // "topic has reached the limit of subscribers"
    | NotOwner               // "admin is not owner of the group"
    | NotSubscribed          // "subscriber is not subscribed to the topic"
    | SenderNotSubscribed    // "sender is not subscribed to the topic"
    | ReceiverNotSubscribed  // "reciever is not subscribed to sender"

  datatype Outcome = Ok | Fail(error: Error)

  /** A member table: subscriber name to subscriber. */
  type Table = map<string, Subscriber>

  datatype BrokerState = BrokerState(
    subscribers: Table,
    topics: map<string, Table>,
    topicLimit: map<string, int>,
    groupAdmin: map<string, seq<string>>,
    history: map<string, seq<Record>>)

  /** The state an operation leaves and what it reports to its caller. */
  datatype Step = Step(next: BrokerState, outcome: Outcome)

  /** The state NewMessageBroker builds. */
  const Empty := BrokerState(map[], map[], map[], map[], map[])

  // Go reads an absent map key as the zero value; these lookups do the same.

  function Members(s: BrokerState, topic: string): Table
  {
    if topic in s.topics then s.topics[topic] else map[]
  }

  function Limit(s: BrokerState, topic: string): int
  {
    if topic in s.topicLimit then s.topicLimit[topic] else 0
  }

  function Admins(s: BrokerState, topic: string): seq<string>
  {
    if topic in s.groupAdmin then s.groupAdmin[topic] else []
  }

  function History(s: BrokerState, topic: string): seq<Record>
  {
    if topic in s.history then s.history[topic] else []
  }

  /** The most members the join path ever lets into `topic`. */
  function Capacity(s: BrokerState, topic: string): nat
  {
    if Limit(s, topic) < 0 then 0 else Limit(s, topic)
  }

  /** The admin check of SubscribeToGroup and LeaveGroup. */
  predicate Authorizes(s: BrokerState, topic: string, admin: string): (b: bool)
    ensures b <==> admin != "" && exists i :: 0 <= i < |Admins(s, topic)| && Admins(s, topic)[i] == admin
  {
    admin != "" && admin in Admins(s, topic)
  }

  /** The subscribers that receive a broadcast on `topic`. */
  function Recipients(s: BrokerState, topic: string): set<Subscriber>
  {
    Members(s, topic).Values
  }

  /** The table stores every subscriber under its own name. */
  ghost predicate Keyed(m: Table)
  {
    forall n | n in m :: m[n].name == n
  }

  /** Every table of the broker is keyed by name. */
  ghost predicate KeyedByName(s: BrokerState)
  {
    Keyed(s.subscribers) && forall t | t in s.topics :: Keyed(s.topics[t])
  }

  /** The topic holds no more members than its limit allows. */
  ghost predicate Fits(s: BrokerState, topic: string)
  {
    |Members(s, topic)| <= Capacity(s, topic)
  }

  /** No topic holds more members than its limit allows. */
  ghost predicate WithinLimits(s: BrokerState)
  {
    forall t {:trigger Fits(s, t)} :: Fits(s, t)
  }

  ghost predicate Consistent(s: BrokerState)
  {
    KeyedByName(s) && WithinLimits(s)
  }

  // ---------------------------------------------------------------------
  // Operations

  /** Attach: the new subscriber replaces any earlier one of the same name. */
  function Attached(s: BrokerState, sub: Subscriber): (r: BrokerState)
    ensures sub.name in r.subscribers && r.subscribers[sub.name] == sub
    ensures r.topics == s.topics && r.topicLimit == s.topicLimit
    ensures r.groupAdmin == s.groupAdmin && r.history == s.history
  {
    s.(subscribers := s.subscribers[sub.name := sub])
  }

  /** Subscribe: creates an empty member table for an absent topic and
      adds nobody. */
  function WithTopic(s: BrokerState, topic: string): (r: BrokerState)
    ensures topic in r.topics
    ensures forall u :: Members(r, u) == Members(s, u)
    ensures r.subscribers == s.subscribers && r.topicLimit == s.topicLimit
    ensures r.groupAdmin == s.groupAdmin && r.history == s.history
  {
    if topic in s.topics then s else s.(topics := s.topics[topic := map[]])
  }

  /** SubscribeToGroup: creates the topic if absent, checks the limit, then
      the admin, then inserts. */
  function Joined(s: BrokerState, sub: Subscriber, topic: string, admin: string): (step: Step)
    ensures step.next.subscribers == s.subscribers
    ensures step.next.topicLimit == s.topicLimit && step.next.groupAdmin == s.groupAdmin
    ensures step.next.history == s.history
  {
    var members := Members(s, topic);
    if |members| >= Limit(s, topic) then Step(WithTopic(s, topic), Fail(LimitReached))
    else if !Authorizes(s, topic, admin) then Step(WithTopic(s, topic), Fail(NotOwner))
    else Step(s.(topics := s.topics[topic := members[sub.name := sub]]), Ok)
  }

  /** LeaveGroup: checks the admin, then membership, then deletes. */
  function Left(s: BrokerState, name: string, topic: string, admin: string): (step: Step)
    ensures step.next.topics.Keys == s.topics.Keys
    ensures step.next.subscribers == s.subscribers
    ensures step.next.topicLimit == s.topicLimit && step.next.groupAdmin == s.groupAdmin
    ensures step.next.history == s.history
  {
    if !Authorizes(s, topic, admin) then Step(s, Fail(NotOwner))
    else if name !in Members(s, topic) then Step(s, Fail(NotSubscribed))
    else Step(s.(topics := s.topics[topic := s.topics[topic] - {name}]), Ok)
  }

  /** Unsubscribe: removes the name from an existing topic. */
  function Unsubscribed(s: BrokerState, name: string, topic: string): (r: BrokerState)
    ensures Members(r, topic) == Members(s, topic) - {name}
    ensures r.topics.Keys == s.topics.Keys
    ensures r.subscribers == s.subscribers && r.topicLimit == s.topicLimit
    ensures r.groupAdmin == s.groupAdmin && r.history == s.history
  {
    if topic in s.topics then s.(topics := s.topics[topic := s.topics[topic] - {name}]) else s
  }

  /** Detach: drops the subscriber table entry and unsubscribes the name from
      every topic of `ts` (the subscriber's topic set). */
  function Detached(s: BrokerState, name: string, ts: set<string>): (r: BrokerState)
    ensures r.topics.Keys == s.topics.Keys
    ensures r.topicLimit == s.topicLimit && r.groupAdmin == s.groupAdmin && r.history == s.history
  {
    s.(subscribers := s.subscribers - {name},
       topics := map t | t in s.topics :: if t in ts then s.topics[t] - {name} else s.topics[t])
  }

  /** Broadcast: a sender that is a member appends one history record. */
  function Broadcasted(s: BrokerState, timeStamp: string, payload: string, sender: string, topic: string): (step: Step)
    ensures step.outcome == Ok || step.next == s
    ensures |History(s, topic)| <= |History(step.next, topic)| <= |History(s, topic)| + 1
    ensures History(step.next, topic)[..|History(s, topic)|] == History(s, topic)
    ensures step.next.topics == s.topics && step.next.subscribers == s.subscribers
    ensures step.next.topicLimit == s.topicLimit && step.next.groupAdmin == s.groupAdmin
  {
    if sender !in Members(s, topic) then Step(s, Fail(SenderNotSubscribed))
    else Step(s.(history := s.history[topic := History(s, topic) + [Record(timeStamp, payload, sender)]]), Ok)
  }

  /** The first half of CreateTopic: an absent topic gets an empty member
      table, its limit and the admin list [admin]. */
  function Created(s: BrokerState, name: string, limit: int, admin: string): (r: BrokerState)
    ensures name in r.topics
    ensures name in s.topics ==> r == s
    ensures forall u :: Members(r, u) == Members(s, u)
    ensures r.subscribers == s.subscribers && r.history == s.history
  {
    if name in s.topics then s
    else s.(topics := s.topics[name := map[]],
            topicLimit := s.topicLimit[name := limit],
            groupAdmin := s.groupAdmin[name := [admin]])
  }

  /** CreateTopic: creation, then Attach(admin) with the fresh subscriber
      `sub`, then SubscribeToGroup(sub, name, admin), whose error is ignored. */
  function CreatedTopic(s: BrokerState, name: string, limit: int, admin: string, sub: Subscriber): (step: Step)
    requires sub.name == admin
    ensures name in step.next.topics
    ensures step.next.subscribers == s.subscribers[admin := sub]
    ensures step.next.history == s.history
  {
    Joined(Attached(Created(s, name, limit, admin), sub), sub, name, admin)
  }

  /** Where Send hands its message. */
  datatype Dispatch =
    | Refused                   // the membership check failed
    | Deliver(target: Subscriber)
    | NilTarget                 // Signal on a nil subscriber (a run-time panic in Go)
    | Drop                      // nobody to deliver to; nothing is sent

  /** Send as it is written: after the check it dispatches to
      subscribers[receiver], which is nil when no such subscriber is attached. */
  function SendAsWritten(s: BrokerState, sender: string, receiver: string): (d: Dispatch)
    ensures d == Refused <==> sender !in Members(s, receiver)
    ensures d == NilTarget <==> sender in Members(s, receiver) && receiver !in s.subscribers
  {
    if sender !in Members(s, receiver) then Refused
    else if receiver in s.subscribers then Deliver(s.subscribers[receiver])
    else NilTarget
  }

  /** A state CreateTopic reaches from an empty broker in which the as-written
      Send hands the message to a nil subscriber: "alice" creates the group
      "team" and, as its only member, sends to "team". No subscriber is
      attached under a group's name. */
  lemma SendAsWrittenNilOnGroup(sub: Subscriber)
    requires sub.name == "alice"
    ensures var s := CreatedTopic(Empty, "team", 2, "alice", sub).next;
      && Consistent(s)
      && SendAsWritten(s, "alice", "team") == NilTarget
      && SendDispatch(s, "alice", "team") == Drop
  {
    EmptyConsistent();
    CreatedTopicConsistent(Empty, "team", 2, "alice", sub);
    CreatedTopicFresh(Empty, "team", 2, "alice", sub);
  }

  /** Send with an unattached receiver dropping the message. It agrees with
      SendAsWritten wherever that one has a subscriber to hand to. */
  function SendDispatch(s: BrokerState, sender: string, receiver: string): (d: Dispatch)
    ensures d != NilTarget
    ensures d == Refused <==> sender !in Members(s, receiver)
    ensures d.Deliver? ==> receiver in s.subscribers && d.target == s.subscribers[receiver]
    ensures SendAsWritten(s, sender, receiver) != NilTarget ==> d == SendAsWritten(s, sender, receiver)
    ensures SendAsWritten(s, sender, receiver) == NilTarget ==> d == Drop
  {
    if sender !in Members(s, receiver) then Refused
    else if receiver in s.subscribers then Deliver(s.subscribers[receiver])
    else Drop
  }

  /** Successive Broadcast calls on one topic, in call order. */
  function Broadcasts(s: BrokerState, topic: string, posts: seq<Record>): BrokerState
    decreases |posts|
  {
    if posts == [] then s
    else
      var p := posts[0];
      Broadcasts(Broadcasted(s, p.timeStamp, p.message, p.sender, topic).next, topic, posts[1..])
  }

  /** The posts whose sender is a member of the topic, in order. */
  function Accepted(members: Table, posts: seq<Record>): seq<Record>
  {
    if posts == [] then []
    else (if posts[0].sender in members then [posts[0]] else []) + Accepted(members, posts[1..])
  }

  // ---------------------------------------------------------------------
  // Properties

  /** Deleting a name never grows a member table. */
  lemma RemoveShrinks(m: Table, name: string)
    ensures |m - {name}| <= |m|
  {
    assert (m - {name}).Keys == m.Keys - {name};
    assert |m.Keys - {name}| <= |m.Keys|;
  }

  lemma EmptyConsistent()
    ensures Consistent(Empty)
    ensures forall t :: Members(Empty, t) == map[] && History(Empty, t) == [] && Admins(Empty, t) == []
  {
  }

  lemma AttachedConsistent(s: BrokerState, sub: Subscriber)
    requires Consistent(s)
    ensures Consistent(Attached(s, sub))
  {
    var r := Attached(s, sub);
    forall t ensures Fits(r, t) {
      assert Fits(s, t);
    }
  }

  /** Attach touches no subscriber entry but the one under its own name. */
  lemma AttachedKeepsOthers(s: BrokerState, sub: Subscriber)
    ensures Attached(s, sub).subscribers.Keys == s.subscribers.Keys + {sub.name}
    ensures forall n | n in s.subscribers && n != sub.name :: Attached(s, sub).subscribers[n] == s.subscribers[n]
  {
  }

  /** Subscribe keeps the registry consistent and can be repeated. */
  lemma WithTopicConsistent(s: BrokerState, topic: string)
    requires Consistent(s)
    ensures Consistent(WithTopic(s, topic))
    ensures WithTopic(WithTopic(s, topic), topic) == WithTopic(s, topic)
  {
    var r := WithTopic(s, topic);
    forall t ensures Fits(r, t) {
      assert Fits(s, t);
    }
  }

  /** The join path never takes a topic past its limit. */
  lemma JoinedConsistent(s: BrokerState, sub: Subscriber, topic: string, admin: string)
    requires Consistent(s)
    ensures Consistent(Joined(s, sub, topic, admin).next)
  {
    var step := Joined(s, sub, topic, admin);
    WithTopicConsistent(s, topic);
    if step.outcome == Ok {
      var members := Members(s, topic);
      assert |members| < Limit(s, topic);
      assert |members[sub.name := sub]| <= |members| + 1;
      forall t ensures Fits(step.next, t) {
        if t != topic {
          assert Fits(s, t);
        }
      }
    }
  }

  /** Joined, read against the state in which the topic already exists: the
      shape SubscribeToGroup follows after its first step. */
  lemma JoinedAfterCreation(s: BrokerState, sub: Subscriber, topic: string, admin: string)
    ensures var w := WithTopic(s, topic);
      && topic in w.topics
      && Joined(s, sub, topic, admin) ==
           if |w.topics[topic]| >= Limit(w, topic) then Step(w, Fail(LimitReached))
           else if !Authorizes(w, topic, admin) then Step(w, Fail(NotOwner))
           else Step(w.(topics := w.topics[topic := w.topics[topic][sub.name := sub]]), Ok)
  {
  }

  /** What SubscribeToGroup reports and changes: the limit is checked first
      (an unset limit reads 0, so such a join always fails), then the admin; a
      refused join only creates the empty topic; an accepted one adds exactly
      this subscriber under its name. */
  lemma JoinedOutcome(s: BrokerState, sub: Subscriber, topic: string, admin: string)
    ensures var step := Joined(s, sub, topic, admin);
      && (step.outcome == Fail(LimitReached) <==> |Members(s, topic)| >= Limit(s, topic))
      && (step.outcome == Fail(NotOwner) <==> |Members(s, topic)| < Limit(s, topic) && !Authorizes(s, topic, admin))
      && (step.outcome == Ok <==> |Members(s, topic)| < Limit(s, topic) && Authorizes(s, topic, admin))
      && (topic !in s.topicLimit ==> step.outcome == Fail(LimitReached))
      && (step.outcome != Ok ==> step.next == WithTopic(s, topic))
      && (step.outcome == Ok ==>
            && Members(step.next, topic) == Members(s, topic)[sub.name := sub]
            && |Members(step.next, topic)| <= Limit(s, topic)
            && (forall u | u != topic :: Members(step.next, u) == Members(s, u))
            && step.next.subscribers == s.subscribers
            && step.next.topicLimit == s.topicLimit
            && step.next.groupAdmin == s.groupAdmin
            && step.next.history == s.history)
  {
    var members := Members(s, topic);
    assert |members[sub.name := sub]| <= |members| + 1;
  }

  lemma LeftConsistent(s: BrokerState, name: string, topic: string, admin: string)
    requires Consistent(s)
    ensures Consistent(Left(s, name, topic, admin).next)
  {
    var step := Left(s, name, topic, admin);
    if step.outcome == Ok {
      RemoveShrinks(s.topics[topic], name);
      forall t ensures Fits(step.next, t) {
        assert Fits(s, t);
      }
    }
  }

  /** What LeaveGroup reports and changes: the admin is checked first, then
      membership; a refusal changes nothing; an accepted leave removes exactly
      this name from the topic and leaves the admin list and every other table
      as it was. */
  lemma LeftOutcome(s: BrokerState, name: string, topic: string, admin: string)
    ensures var step := Left(s, name, topic, admin);
      && (step.outcome == Fail(NotOwner) <==> !Authorizes(s, topic, admin))
      && (step.outcome == Fail(NotSubscribed) <==> Authorizes(s, topic, admin) && name !in Members(s, topic))
      && (step.outcome == Ok <==> Authorizes(s, topic, admin) && name in Members(s, topic))
      && (step.outcome != Ok ==> step.next == s)
      && (step.outcome == Ok ==>
            && Members(step.next, topic) == Members(s, topic) - {name}
            && |Members(step.next, topic)| == |Members(s, topic)| - 1
            && (forall u | u != topic :: Members(step.next, u) == Members(s, u))
            && step.next.groupAdmin == s.groupAdmin
            && step.next.subscribers == s.subscribers
            && step.next.history == s.history)
  {
  }

  /** A LeaveGroup sponsored by the same admin undoes a successful join of a
      subscriber that was not yet a member. */
  lemma {:induction false} LeaveUndoesJoin(s: BrokerState, sub: Subscriber, topic: string, admin: string)
    requires sub.name !in Members(s, topic)
    requires Joined(s, sub, topic, admin).outcome == Ok
    ensures Left(Joined(s, sub, topic, admin).next, sub.name, topic, admin) == Step(WithTopic(s, topic), Ok)
  {
    var joined := Joined(s, sub, topic, admin).next;
    var members := Members(s, topic);
    assert Admins(joined, topic) == Admins(s, topic);
    assert sub.name in Members(joined, topic);
    assert members[sub.name := sub] - {sub.name} == members;
  }

  lemma UnsubscribedConsistent(s: BrokerState, name: string, topic: string)
    requires Consistent(s)
    ensures Consistent(Unsubscribed(s, name, topic))
  {
    if topic in s.topics {
      RemoveShrinks(s.topics[topic], name);
      var r := Unsubscribed(s, name, topic);
      forall t ensures Fits(r, t) {
        assert Fits(s, t);
      }
    }
  }

  /** After Unsubscribe a subscriber is not among the recipients of a
      broadcast on that topic, and every other topic keeps its members. */
  lemma UnsubscribedNotRecipient(s: BrokerState, sub: Subscriber, topic: string)
    requires KeyedByName(s)
    ensures sub !in Recipients(Unsubscribed(s, sub.name, topic), topic)
    ensures forall u | u != topic :: Members(Unsubscribed(s, sub.name, topic), u) == Members(s, u)
  {
  }

  lemma DetachedConsistent(s: BrokerState, name: string, ts: set<string>)
    requires Consistent(s)
    ensures Consistent(Detached(s, name, ts))
  {
    var r := Detached(s, name, ts);
    forall t ensures Fits(r, t) {
      assert Fits(s, t);
      if t in s.topics {
        RemoveShrinks(s.topics[t], name);
      }
    }
  }

  /** After Detach the name is gone from the subscriber table, the subscriber
      is no recipient of any topic of `ts`, and topics outside `ts` keep their
      members. */
  lemma DetachedNoMembership(s: BrokerState, sub: Subscriber, ts: set<string>)
    requires KeyedByName(s)
    ensures sub.name !in Detached(s, sub.name, ts).subscribers
    ensures forall t | t in ts :: sub !in Recipients(Detached(s, sub.name, ts), t)
    ensures forall t | t !in ts :: Members(Detached(s, sub.name, ts), t) == Members(s, t)
  {
  }

  /** Detach's first step: dropping the table entry is Detached with no topic. */
  lemma DetachStart(s: BrokerState, name: string)
    ensures s.(subscribers := s.subscribers - {name}) == Detached(s, name, {})
  {
    var r := Detached(s, name, {});
    assert r.topics == s.topics;
  }

  /** Detach's loop step: one more Unsubscribe extends the detached set by
      that topic. */
  lemma DetachStep(s: BrokerState, name: string, ts: set<string>, topic: string)
    ensures Unsubscribed(Detached(s, name, ts), name, topic) == Detached(s, name, ts + {topic})
  {
    var before := Detached(s, name, ts);
    var after := Detached(s, name, ts + {topic});
    if topic in s.topics {
      var r := before.(topics := before.topics[topic := before.topics[topic] - {name}]);
      forall t | t in s.topics
        ensures r.topics[t] == after.topics[t]
      {
        if t == topic {
          assert s.topics[t] - {name} - {name} == s.topics[t] - {name};
        }
      }
      assert r.topics == after.topics;
    } else {
      assert before.topics == after.topics;
    }
  }

  lemma BroadcastedConsistent(s: BrokerState, timeStamp: string, payload: string, sender: string, topic: string)
    requires Consistent(s)
    ensures Consistent(Broadcasted(s, timeStamp, payload, sender, topic).next)
  {
    var r := Broadcasted(s, timeStamp, payload, sender, topic).next;
    forall t ensures Fits(r, t) {
      assert Fits(s, t);
    }
  }

  /** What Broadcast reports and changes: it refuses, changing nothing, unless
      the sender is a member; otherwise the topic's history grows by exactly
      the one record of this timestamp, payload and sender, at its end. */
  lemma BroadcastedOutcome(s: BrokerState, timeStamp: string, payload: string, sender: string, topic: string)
    ensures var step := Broadcasted(s, timeStamp, payload, sender, topic);
      && (step.outcome == Ok <==> sender in Members(s, topic))
      && (step.outcome != Ok ==> step.outcome == Fail(SenderNotSubscribed) && step.next == s)
      && (step.outcome == Ok ==>
            && History(step.next, topic) == History(s, topic) + [Record(timeStamp, payload, sender)]
            && (forall u | u != topic :: History(step.next, u) == History(s, u))
            && step.next.topics == s.topics
            && step.next.subscribers == s.subscribers)
  {
  }

  /** A run of broadcasts on one topic leaves in its history exactly the
      accepted posts, in call order, after what was there; the members and
      every other topic's history stay as they were. */
  lemma {:induction false} BroadcastsHistory(s: BrokerState, topic: string, posts: seq<Record>)
    ensures Broadcasts(s, topic, posts).topics == s.topics
    ensures History(Broadcasts(s, topic, posts), topic) == History(s, topic) + Accepted(Members(s, topic), posts)
    ensures forall u | u != topic :: History(Broadcasts(s, topic, posts), u) == History(s, u)
    decreases |posts|
  {
    if posts != [] {
      var p := posts[0];
      var next := Broadcasted(s, p.timeStamp, p.message, p.sender, topic).next;
      BroadcastedOutcome(s, p.timeStamp, p.message, p.sender, topic);
      BroadcastsHistory(next, topic, posts[1..]);
      assert Members(next, topic) == Members(s, topic);
      var head := if p.sender in Members(s, topic) then [p] else [];
      assert History(next, topic) == History(s, topic) + head;
      assert History(s, topic) + head + Accepted(Members(s, topic), posts[1..])
          == History(s, topic) + (head + Accepted(Members(s, topic), posts[1..]));
    }
  }

  /** K broadcasts by members leave exactly K more records, one per call, in
      call order. */
  lemma {:induction false} AcceptedAll(members: Table, posts: seq<Record>)
    requires forall p | p in posts :: p.sender in members
    ensures Accepted(members, posts) == posts
    decreases |posts|
  {
    if posts != [] {
      assert forall p | p in posts[1..] :: p in posts;
      AcceptedAll(members, posts[1..]);
      assert posts == [posts[0]] + posts[1..];
    }
  }

  lemma CreatedConsistent(s: BrokerState, name: string, limit: int, admin: string)
    requires Consistent(s)
    ensures Consistent(Created(s, name, limit, admin))
  {
    var c := Created(s, name, limit, admin);
    forall t ensures Fits(c, t) {
      assert Fits(s, t);
    }
  }

  /** CreateTopic keeps the registry consistent. */
  lemma CreatedTopicConsistent(s: BrokerState, name: string, limit: int, admin: string, sub: Subscriber)
    requires Consistent(s)
    requires sub.name == admin
    ensures Consistent(CreatedTopic(s, name, limit, admin, sub).next)
  {
    var c := Created(s, name, limit, admin);
    CreatedConsistent(s, name, limit, admin);
    AttachedConsistent(c, sub);
    JoinedConsistent(Attached(c, sub), sub, name, admin);
  }

  /** CreateTopic on an existing name keeps its limit and admin list; only
      the re-attached admin may be re-admitted. */
  lemma CreatedTopicExisting(s: BrokerState, name: string, limit: int, admin: string, sub: Subscriber)
    requires sub.name == admin
    requires name in s.topics
    ensures var step := CreatedTopic(s, name, limit, admin, sub);
      && step.next.topicLimit == s.topicLimit
      && step.next.groupAdmin == s.groupAdmin
      && step.next.subscribers == s.subscribers[admin := sub]
      && Members(step.next, name) == (if step.outcome == Ok then Members(s, name)[admin := sub] else Members(s, name))
      && (forall u | u != name :: Members(step.next, u) == Members(s, u))
  {
    var a := Attached(s, sub);
    assert Created(s, name, limit, admin) == s;
    JoinedOutcome(a, sub, name, admin);
  }

  /** CreateTopic on a new name records the limit and [admin], and admits the
      admin as the only member exactly when the limit is positive and the
      admin name is non-empty. */
  lemma CreatedTopicFresh(s: BrokerState, name: string, limit: int, admin: string, sub: Subscriber)
    requires sub.name == admin
    requires name !in s.topics
    ensures var step := CreatedTopic(s, name, limit, admin, sub);
      && step.next.topicLimit == s.topicLimit[name := limit]
      && step.next.groupAdmin == s.groupAdmin[name := [admin]]
      && (step.outcome == Ok <==> 0 < limit && admin != "")
      && Members(step.next, name) == (if step.outcome == Ok then map[admin := sub] else map[])
  {
    var a := Attached(Created(s, name, limit, admin), sub);
    assert Members(a, name) == map[] && Limit(a, name) == limit && Admins(a, name) == [admin];
    JoinedOutcome(a, sub, name, admin);
  }
}
