/** A subscriber endpoint: its name, the set of topics it belongs to, its
    inbox and its destroyed flag (subscriber.go). */
module Subscribers {
  import opened Messages

  /** What a single call of Signal does with a message. */
  datatype Handoff =
    | Delivered     // the message reaches the inbox
    | Filtered      // the message's topic is not in the subscriber's set
    | Dropped       // the subscriber is destroyed; nothing is sent
    | SendOnClosed  // a send on the closed inbox channel (a run-time panic in Go)

  /** Signal as it is written: the topic filter is the only check, so a message
      that passes it is sent even after Destroy has closed the inbox. */
  function SignalAsWritten(topics: set<string>, destroyed: bool, msg: Message): (h: Handoff)
    ensures h != Dropped
    ensures h == Filtered <==> msg.topic !in topics
    ensures h == SendOnClosed <==> msg.topic in topics && destroyed
  {
    if msg.topic !in topics then Filtered
    else if destroyed then SendOnClosed
    else Delivered
  }

  /** Every destroyed subscriber that still lists the topic makes Signal as
      written send on its closed inbox. */
  lemma SignalAsWrittenSendsOnClosed(msg: Message)
    ensures SignalAsWritten({msg.topic}, true, msg) == SendOnClosed
  {
  }

  /** Signal with the filter of the source and a destroyed subscriber dropping
      the message, as Destroy's closing of the inbox intends. It agrees with
      SignalAsWritten on every input where that one does not send on a closed
      inbox. */
  function SignalOutcome(topics: set<string>, destroyed: bool, msg: Message): (h: Handoff)
    ensures h != SendOnClosed
    ensures h == Delivered <==> msg.topic in topics && !destroyed
    ensures SignalAsWritten(topics, destroyed, msg) != SendOnClosed ==> h == SignalAsWritten(topics, destroyed, msg)
    ensures SignalAsWritten(topics, destroyed, msg) == SendOnClosed ==> h == Dropped
  {
    if msg.topic !in topics then Filtered
    else if destroyed then Dropped
    else Delivered
  }

  /** The messages one Signal call appends to the inbox. */
  function Delivery(topics: set<string>, destroyed: bool, msg: Message): seq<Message>
  {
    if SignalOutcome(topics, destroyed, msg) == Delivered then [msg] else []
  }

  /** No two positions of `s` hold the same topic. */
  predicate Distinct(s: seq<string>)
  {
    forall i, j | 0 <= i < j < |s| :: s[i] != s[j]
  }

  class Subscriber {
    /** The name the subscriber was created with; never changes. */
    const name: string
    /** The topics this subscriber belongs to (the Go map used as a set). */
    var topics: set<string>
    /** The messages handed to this subscriber, oldest first; the inbox channel
        is closed exactly when `destroyed` holds. */
    var inbox: seq<Message>
    var destroyed: bool

    /** NewSubscriber: a fresh endpoint with no topics and an open inbox. */
    constructor (name: string)
      ensures this.name == name
      ensures topics == {} && inbox == [] && !destroyed
    {
      this.name := name;
      topics := {};
      inbox := [];
      destroyed := false;
    }

    method AddTopic(topic: string)
      modifies this`topics
      ensures topics == old(topics) + {topic}
    {
      topics := topics + {topic};
    }

    method RemoveTopic(topic: string)
      modifies this`topics
      ensures topics == old(topics) - {topic}
    {
      topics := topics - {topic};
    }

    /** Lists the topic set, in no particular order, each topic once. */
    method GetTopics() returns (r: seq<string>)
      ensures forall t :: t in r <==> t in topics
      ensures Distinct(r)
      ensures |r| == |topics|
    {
      r := [];
      var rest := topics;
      while rest != {}
        invariant rest <= topics
        invariant forall t :: t in r <==> t in topics - rest
        invariant Distinct(r)
        invariant |r| + |rest| == |topics|
        decreases |rest|
      {
        var t :| t in rest;
        assert t !in r;
        r := r + [t];
        rest := rest - {t};
      }
    }

    /** Hands `msg` to this subscriber if its topic is one of the subscriber's
        topics; returns the subscriber itself. */
    method Signal(msg: Message) returns (r: Subscriber)
      modifies this`inbox
      ensures r == this
      ensures inbox == old(inbox) + Delivery(topics, destroyed, msg)
    {
      if msg.topic in topics {
        if !destroyed {
          inbox := inbox + [msg];
        }
      }
      r := this;
    }

    /** Closes the inbox on the first call; any later call changes nothing. */
    method Destroy()
      modifies this`destroyed
      ensures destroyed
      ensures old(destroyed) ==> unchanged(this)
    {
      if !destroyed {
        destroyed := true;
      }
    }
  }
}
