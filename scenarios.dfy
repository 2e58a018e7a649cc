/** Short client runs, each from a fresh broker or subscriber, that fix the
    outcomes the model gives for the design's worked examples and for the
    behaviours where the code departs from that design. */
module Scenarios {
  import opened Messages
  import opened Subscribers
  import opened Registry
  import opened Broker

  /** "alice" creates "team" with room for one member and is admitted; "bob",
      sponsored by alice, is then turned away because the group is full. */
  method FullGroup() returns (count: nat, bobJoin: Outcome)
    ensures count == 1
    ensures bobJoin == Fail(LimitReached)
  {
    var broker := new MessageBroker();
    broker.CreateTopic("team", 1, "alice");
    CreatedTopicFresh(Empty, "team", 1, "alice", broker.subscribers["alice"]);
    count := broker.Subscribers("team");
    var bob := broker.Attach("bob");
    bobJoin := broker.SubscribeToGroup(bob, "team", "alice");
  }

  /** A group created with an empty admin name admits nobody, not even its
      creator: the empty name never passes the admin check. */
  method NoAdmin() returns (count: nat, bobJoin: Outcome)
    ensures count == 0
    ensures bobJoin == Fail(NotOwner)
  {
    var broker := new MessageBroker();
    broker.CreateTopic("news", 5, "");
    count := broker.Subscribers("news");
    var bob := broker.Attach("bob");
    bobJoin := broker.SubscribeToGroup(bob, "news", "");
  }

  /** Subscribe only creates the topic: it does not make "alice" a member, so
      her Broadcast on it is refused and leaves no history. */
  method SubscribeThenBroadcast() returns (o: Outcome, history: seq<Record>)
    ensures o == Fail(SenderNotSubscribed)
    ensures history == []
  {
    var broker := new MessageBroker();
    var alice := broker.Attach("alice");
    broker.Subscribe(alice, "news");
    o := broker.Broadcast("t0", "hello", "alice", "news");
    history := broker.GetHistory("news");
  }

  /** A subscriber destroyed while it still lists "news": Signal as written
      would send on the closed inbox; the modelled Signal leaves the inbox as
      it was. */
  method SignalAfterDestroy() returns (asWritten: Handoff, inbox: seq<Message>)
    ensures asWritten == SendOnClosed
    ensures inbox == []
  {
    var bob := new Subscriber("bob");
    bob.AddTopic("news");
    bob.Destroy();
    var msg := Message("news", "hello");
    asWritten := SignalAsWritten(bob.topics, bob.destroyed, msg);
    var signalled := bob.Signal(msg);
    inbox := bob.inbox;
  }

  /** "bob" joins "team", sponsored by its creator alice; his broadcast on
      it is accepted, recorded and reaches his own inbox. */
  method MemberBroadcast() returns (inbox: seq<Message>, history: seq<Record>)
    ensures inbox == [Message("team", "hi")]
    ensures history == [Record("t0", "hi", "bob")]
  {
    var broker := new MessageBroker();
    var alice, bob := JoinedTeam(broker);
    ghost var s := broker.State();
    BroadcastedOutcome(s, "t0", "hi", "bob", "team");
    var sent := broker.Broadcast("t0", "hi", "bob", "team");
    inbox := bob.inbox;
    history := broker.GetHistory("team");
  }

  /** After the same join, LeaveGroup takes bob out of the member table but
      not out of his own topic set: the two sides of membership disagree. */
  method LeaveKeepsTopic() returns (left: Outcome, stillListed: bool, count: nat)
    ensures left == Ok
    ensures stillListed
    ensures count == 1
  {
    var broker := new MessageBroker();
    var alice, bob := JoinedTeam(broker);
    ghost var s := broker.State();
    LeftOutcome(s, "bob", "team", "alice");
    left := broker.LeaveGroup(bob, "team", "alice");
    stillListed := "team" in bob.topics;
    count := broker.Subscribers("team");
    DropSecond(alice, bob);
  }

  /** The shared start: alice creates "team" (limit 3) on an empty broker,
      then "bob" is attached and joins sponsored by alice. */
  method JoinedTeam(broker: MessageBroker) returns (alice: Subscriber, bob: Subscriber)
    requires broker.Valid() && broker.State() == Empty
    modifies broker
    ensures broker.Valid() && fresh(alice) && fresh(bob)
    ensures Members(broker.State(), "team") == map["alice" := alice, "bob" := bob]
    ensures Authorizes(broker.State(), "team", "alice")
    ensures broker.State().history == map[]
    ensures bob.name == "bob" && bob.topics == {"team"} && bob.inbox == [] && !bob.destroyed
  {
    broker.CreateTopic("team", 3, "alice");
    alice := broker.subscribers["alice"];
    CreatedTopicFresh(Empty, "team", 3, "alice", alice);
    bob := broker.Attach("bob");
    ghost var s := broker.State();
    assert Members(s, "team") == map["alice" := alice] && Authorizes(s, "team", "alice");
    JoinedOutcome(s, bob, "team", "alice");
    var joined := broker.SubscribeToGroup(bob, "team", "alice");
  }

  lemma DropSecond(alice: Subscriber, bob: Subscriber)
    ensures map["alice" := alice, "bob" := bob] - {"bob"} == map["alice" := alice]
  {
  }
}
