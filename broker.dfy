/** The in-memory message broker (broker.go): a subscriber table and, per
    topic, a member table, a limit, an admin list and a history, updated in
    place by each operation. Every method is one atomic step; its new state is
    the Registry function of the same operation applied to the old state. */
module Broker {
  import opened Messages
  import opened Subscribers
  import opened Registry

  class MessageBroker {
    var subscribers: Table
    var topics: map<string, Table>
    var topicLimit: map<string, int>
    var groupAdmin: map<string, seq<string>>
    var history: map<string, seq<Record>>

    /** The broker's fields as a Registry value. */
    function State(): BrokerState
      reads this
    {
      BrokerState(subscribers, topics, topicLimit, groupAdmin, history)
    }

    ghost predicate Valid()
      reads this
    {
      Consistent(State())
    }

    /** NewMessageBroker: every table empty. */
    constructor ()
      ensures Valid()
      ensures State() == Empty
      ensures subscribers == map[] && topics == map[] && topicLimit == map[]
      ensures groupAdmin == map[] && history == map[]
    {
      subscribers := map[];
      topics := map[];
      topicLimit := map[];
      groupAdmin := map[];
      history := map[];
    }

    /** Creates a subscriber named `name` and registers it, replacing any
        earlier subscriber of that name. */
    method Attach(name: string) returns (subscriber: Subscriber)
      requires Valid()
      modifies this`subscribers
      ensures Valid()
      ensures fresh(subscriber) && subscriber.name == name
      ensures subscriber.topics == {} && subscriber.inbox == [] && !subscriber.destroyed
      ensures State() == Attached(old(State()), subscriber)
      ensures subscribers == old(subscribers)[name := subscriber]
    {
      subscriber := new Subscriber(name);
      subscribers := subscribers[subscriber.name := subscriber];
      AttachedConsistent(old(State()), subscriber);
    }

    /** Creates an empty member table for an absent topic; adds nobody. */
    method Subscribe(subscriber: Subscriber, topic: string)
      requires Valid()
      modifies this`topics
      ensures Valid()
      ensures State() == WithTopic(old(State()), topic)
    {
      if topic !in topics {
        topics := topics[topic := map[]];
      }
      WithTopicConsistent(old(State()), topic);
    }

    /** The admin check: scans the topic's admin list for a non-empty `admin`. */
    method IsOwner(topic: string, admin: string) returns (found: bool)
      ensures found == Authorizes(State(), topic, admin)
    {
      if admin == "" {
        return false;
      }
      var admins := Admins(State(), topic);
      var i := 0;
      while i < |admins|
        invariant 0 <= i <= |admins|
        invariant admin !in admins[..i]
      {
        if admins[i] == admin {
          return true;
        }
        assert admins[..i + 1] == admins[..i] + [admins[i]];
        i := i + 1;
      }
      assert admins[..i] == admins;
      found := false;
    }

    /** Joins a group: the limit is checked first, then the admin; only an
        accepted join records the topic on the subscriber. */
    method SubscribeToGroup(subscriber: Subscriber, topic: string, admin: string) returns (o: Outcome)
      requires Valid()
      modifies this`topics, subscriber`topics
      ensures Valid()
      ensures var step := Joined(old(State()), subscriber, topic, admin);
        State() == step.next && o == step.outcome
      ensures forall t :: t in subscriber.topics <==> t in old(subscriber.topics) || (o == Ok && t == topic)
    {
      JoinedConsistent(State(), subscriber, topic, admin);
      JoinedAfterCreation(State(), subscriber, topic, admin);
      if topic !in topics {
        topics := topics[topic := map[]];
      }
      if |topics[topic]| >= Limit(State(), topic) {
        return Fail(LimitReached);
      }
      var owner := IsOwner(topic, admin);
      if owner {
        topics := topics[topic := topics[topic][subscriber.name := subscriber]];
        subscriber.AddTopic(topic);
        return Ok;
      }
      return Fail(NotOwner);
    }

    /** Leaves a group: the admin is checked first, then membership. The
        subscriber's own topic set is not touched. */
    method LeaveGroup(subscriber: Subscriber, topic: string, admin: string) returns (o: Outcome)
      requires Valid()
      modifies this`topics
      ensures Valid()
      ensures var step := Left(old(State()), subscriber.name, topic, admin);
        State() == step.next && o == step.outcome
    {
      LeftConsistent(State(), subscriber.name, topic, admin);
      var owner := IsOwner(topic, admin);
      if owner {
        if subscriber.name !in Members(State(), topic) {
          return Fail(NotSubscribed);
        }
        topics := topics[topic := topics[topic] - {subscriber.name}];
        return Ok;
      }
      return Fail(NotOwner);
    }

    /** Removes the subscriber from an existing topic, on both sides. */
    method Unsubscribe(subscriber: Subscriber, topic: string)
      requires Valid()
      modifies this`topics, subscriber`topics
      ensures Valid()
      ensures State() == Unsubscribed(old(State()), subscriber.name, topic)
      ensures subscriber.topics == if topic in old(topics) then old(subscriber.topics) - {topic} else old(subscriber.topics)
    {
      UnsubscribedConsistent(State(), subscriber.name, topic);
      if topic in topics {
        topics := topics[topic := topics[topic] - {subscriber.name}];
        subscriber.RemoveTopic(topic);
      }
    }

    /** Drops the subscriber from the table and unsubscribes it from every
        topic in its own topic set. */
    method Detach(subscriber: Subscriber)
      requires Valid()
      modifies this`subscribers, this`topics, subscriber`topics
      ensures Valid()
      ensures State() == Detached(old(State()), subscriber.name, old(subscriber.topics))
      ensures subscriber.topics == old(subscriber.topics) - old(topics).Keys
    {
      ghost var s0 := State();
      ghost var mine := subscriber.topics;
      DetachStart(s0, subscriber.name);
      if subscriber.name in subscribers {
        subscribers := subscribers - {subscriber.name};
      } else {
        assert subscribers - {subscriber.name} == subscribers;
      }
      var ts := subscriber.GetTopics();
      ghost var done: set<string> := {};
      var i := 0;
      while i < |ts|
        invariant 0 <= i <= |ts|
        invariant done <= mine
        invariant forall t | t in ts[..i] :: t in done
        invariant State() == Detached(s0, subscriber.name, done)
        invariant forall t :: t in subscriber.topics <==> t in mine && !(t in done && t in s0.topics)
      {
        DetachedConsistent(s0, subscriber.name, done);
        assert ts[i] in topics <==> ts[i] in s0.topics;
        Unsubscribe(subscriber, ts[i]);
        DetachStep(s0, subscriber.name, done, ts[i]);
        done := done + {ts[i]};
        assert ts[..i + 1] == ts[..i] + [ts[i]];
        i := i + 1;
      }
      assert ts[..i] == ts;
      assert done == mine;
      DetachedConsistent(s0, subscriber.name, mine);
    }

    /** The number of members of `topic`; never above what its limit allows. */
    function Subscribers(topic: string): (n: nat)
      reads this
      ensures n == |Members(State(), topic)|
      ensures Valid() ==> n <= Capacity(State(), topic)
    {
      assert Valid() ==> Fits(State(), topic);
      if topic in topics then |topics[topic]| else 0
    }

    /** Publishes `payload` on `topic`: a sender that is a member appends one
        history record, then every member is signalled with the message. */
    method Broadcast(timeStamp: string, payload: string, sender: string, topic: string) returns (o: Outcome)
      requires Valid()
      modifies this`history, Recipients(State(), topic)`inbox
      ensures Valid()
      ensures var step := Broadcasted(old(State()), timeStamp, payload, sender, topic);
        State() == step.next && o == step.outcome
      ensures forall sub | sub in old(Recipients(State(), topic)) ::
        sub.inbox == old(sub.inbox) + (if o == Ok then Delivery(sub.topics, sub.destroyed, Message(topic, payload)) else [])
    {
      BroadcastedConsistent(State(), timeStamp, payload, sender, topic);
      if sender !in Members(State(), topic) {
        return Fail(SenderNotSubscribed);
      }
      history := history[topic := History(State(), topic) + [Record(timeStamp, payload, sender)]];
      var members := Members(State(), topic);
      var msg := Message(topic, payload);
      assert forall n | n in members :: members[n].name == n;
      var pending := members.Keys;
      while pending != {}
        invariant pending <= members.Keys
        invariant forall n | n in members && n !in pending ::
          members[n].inbox == old(members[n].inbox) + Delivery(members[n].topics, members[n].destroyed, msg)
        invariant forall n | n in pending :: members[n].inbox == old(members[n].inbox)
        modifies members.Values`inbox
        decreases pending
      {
        var n :| n in pending;
        var signalled := members[n].Signal(msg);
        pending := pending - {n};
      }
      o := Ok;
      forall sub | sub in members.Values
        ensures sub.inbox == old(sub.inbox) + Delivery(sub.topics, sub.destroyed, msg)
      {
        var n :| n in members && members[n] == sub;
      }
    }

    /** The subscriber Send would hand its message to, if one is attached. */
    function Addressee(receiver: string): set<Subscriber>
      reads this
    {
      if receiver in subscribers then {subscribers[receiver]} else {}
    }

    /** Sends `payload` to `receiver`, which is allowed only when `sender` is a
        member of the topic named `receiver`; the message's topic is the
        receiver's name. */
    method Send(payload: string, sender: string, receiver: string) returns (o: Outcome)
      modifies Addressee(receiver)`inbox
      ensures o == if SendDispatch(State(), sender, receiver) == Refused then Fail(ReceiverNotSubscribed) else Ok
      ensures SendDispatch(State(), sender, receiver).Deliver? ==>
        var target := subscribers[receiver];
        target.inbox == old(target.inbox) + Delivery(target.topics, target.destroyed, Message(receiver, payload))
      ensures !SendDispatch(State(), sender, receiver).Deliver? ==>
        forall target | target in Addressee(receiver) :: target.inbox == old(target.inbox)
    {
      var msg := Message(receiver, payload);
      if sender !in Members(State(), receiver) {
        return Fail(ReceiverNotSubscribed);
      }
      if receiver in subscribers {
        var signalled := subscribers[receiver].Signal(msg);
      }
      return Ok;
    }

    /** Creates a group if the name is new, then attaches a fresh subscriber
        for the admin and tries to admit it; the join's error is ignored. */
    method CreateTopic(groupName: string, limit: int, admin: string)
      requires Valid()
      modifies this`subscribers, this`topics, this`topicLimit, this`groupAdmin
      ensures Valid()
      ensures admin in subscribers && fresh(subscribers[admin])
      ensures var sub := subscribers[admin];
        var step := CreatedTopic(old(State()), groupName, limit, admin, sub);
        && sub.name == admin
        && State() == step.next
        && (forall t :: t in sub.topics <==> t == groupName && step.outcome == Ok)
        && sub.inbox == [] && !sub.destroyed
    {
      ghost var s0 := State();
      CreatedConsistent(s0, groupName, limit, admin);
      if groupName !in topics {
        topics := topics[groupName := map[]];
        topicLimit := topicLimit[groupName := limit];
        groupAdmin := groupAdmin[groupName := [admin]];
      }
      assert State() == Created(s0, groupName, limit, admin);
      var subscriber := Attach(admin);
      ghost var step := CreatedTopic(s0, groupName, limit, admin, subscriber);
      var joined := SubscribeToGroup(subscriber, groupName, admin);
      assert joined == step.outcome && State() == step.next;
      assert subscribers[admin] == subscriber;
    }

    /** The topic's history, empty for a topic never broadcast to. */
    function GetHistory(topic: string): (h: seq<Record>)
      reads this
      ensures h == History(State(), topic)
      ensures topic !in history ==> h == []
    {
      if topic in history then history[topic] else []
    }
  }
}
