# In-process publish/subscribe broker, modelled in Dafny

This project models the broker of a Go chat back end (package `pubsub`):

- `broker.go` holds `MessageBroker`. It keeps:
  - a subscriber table keyed by name;
  - per topic: a member table keyed by subscriber name, a membership limit, an admin list and a history of broadcast records.
- `subscriber.go` holds `Subscriber`. It has:
  - a name;
  - a topic set;
  - an inbox channel;
  - a destroyed flag.

Both files work by changing state in place, so the model keeps their form:

- `Subscribers.Subscriber` (`subscriber.dfy`) and `Broker.MessageBroker` (`broker.dfy`) are classes with the source's fields. Their methods follow the Go code branch by branch and use loops where the Go code loops:
  - the topic listing;
  - the admin scan;
  - Detach's unsubscribe loop;
  - Broadcast's fan-out.
- Each broker method is proved against a pure step function in `Registry` (`registry.dfy`):
  - `State()` packages the broker's fields as a `BrokerState` value;
  - every method ensures that its new state and its returned outcome are those of the step function of the same operation applied to the old state.
- The properties are lemmas about the step functions:
  - the admin and limit rules;
  - the error cases;
  - leave undoing join;
  - Detach as a fold of Unsubscribe;
  - history after a run of broadcasts.
- The registry invariant `Registry.Consistent` is kept by every broker method (`Valid()` in and out). It has two parts:
  - every table stores each subscriber under its own name;
  - no topic holds more members than its limit allows.
- `Scenarios` (`scenarios.dfy`) holds short client runs, each starting from a fresh broker or subscriber. They fix the outcomes for:
  - the design's worked examples;
  - the places where the code departs from the design;
  - the first finding below.

Error values follow the Go error strings, one constructor each (`Registry.Error`). Go's zero value for an absent map key is modelled by `Members`, `Limit`, `Admins` and `History`.

Where the code and the broker's design description disagree, the model follows the code:

- `Subscribe` only creates an empty member table for an absent topic. It adds nobody, so a "plain subscriber" cannot broadcast (`Scenarios.SubscribeThenBroadcast`).
- `SubscribeToGroup` checks the limit before the admin. A topic that never got a limit reads 0, so every join to it fails with the limit error.
- `SubscribeToGroup` creates the topic even when the join is refused.
- `SubscribeToGroup` has no "promote" option, and nothing ever adds to an admin list after `CreateTopic`.
- History is unbounded; nothing trims it.
- The design asks that a subscriber's own topic set and the topic member tables agree. The code does not keep that:
  - `LeaveGroup` deletes the name from the member table (broker.go:91) but never calls `RemoveTopic`, so the subscriber still lists the topic afterwards (`Scenarios.LeaveKeepsTopic`).
  - A later `Detach` of that subscriber then unsubscribes it from the topic once more, which changes no member count. So the design's "each such topic's count drops by one" does not hold for it.
  - `Registry.Consistent` therefore relates member tables to names and limits only, not to the subscribers' own topic sets.
- `CreateTopic` on an existing name is not a no-op. It keeps the topic's limit and admin list, but it still attaches a fresh subscriber for the admin, replacing any earlier one of that name, and retries the join (broker.go:182-183; `Registry.CreatedTopicExisting`).
- `subscriber.go:5` declares the table type as a map from name to a slice of subscribers, while every use in `broker.go` stores one subscriber per name. The model stores one subscriber per name.

## Model

| member | source | states |
|---|---|---|
| Subscribers.Subscriber.constructor | subscriber.go:15-22 | a new subscriber has the given name, no topics, an empty open inbox and is not destroyed |
| Subscribers.Subscriber.AddTopic | subscriber.go:24-28 | the topic set gains exactly the topic; nothing else changes |
| Subscribers.Subscriber.RemoveTopic | subscriber.go:30-34 | the topic set loses exactly the topic; nothing else changes |
| Subscribers.Subscriber.GetTopics | subscriber.go:36-44 | the returned list holds exactly the subscriber's topics, each once (so its length is the set's size) |
| Subscribers.Subscriber.Signal | subscriber.go:52-59 | returns the subscriber itself; the inbox grows by the message exactly when its topic is in the topic set and the subscriber is not destroyed, else stays as it was |
| Subscribers.Subscriber.Destroy | subscriber.go:61-68 | afterwards the subscriber is destroyed; a second call changes nothing |
| Subscribers.SignalAsWritten | subscriber.go:52-59 | as written, Signal filters only on the topic: it never drops, and it sends on a closed inbox exactly when the topic passes and the subscriber is destroyed |
| Subscribers.SignalAsWrittenSendsOnClosed | subscriber.go:52-59 | a destroyed subscriber that lists the message's topic makes the as-written Signal send on its closed inbox |
| Subscribers.SignalOutcome | subscriber.go:52-68 | the corrected hand-off never sends on a closed inbox, delivers exactly when the topic passes and the subscriber is live, and agrees with the as-written one everywhere else |
| Registry.Authorizes | broker.go:66-74 | the admin check passes iff the admin name is non-empty and some position of the topic's admin list holds it; `Registry.CreatedTopicFresh` and the frames of the other steps show that only CreateTopic on a new name ever sets an admin list |
| Registry.Attached | broker.go:39-45 | after Attach the subscriber is registered under its own name, and no topic table, limit, admin list or history changes; `Registry.AttachedConsistent` is its invariant |
| Registry.AttachedKeepsOthers | broker.go:39-45 | Attach adds at most the subscriber's own name to the table and keeps every other entry as it was |
| Registry.WithTopic | broker.go:48-54 | Subscribe leaves the topic present, every topic's members unchanged and every other table unchanged |
| Registry.Joined | broker.go:56-77 | a join never touches the subscriber table, limits, admin lists or history |
| Registry.Left | broker.go:80-98 | a leave never adds or removes a topic and never touches the subscriber table, limits, admin lists or history; `Registry.LeftOutcome` gives its outcomes |
| Registry.Unsubscribed | broker.go:101-108 | the topic's members afterwards are the old ones without that name, while the topic set, the subscriber table, limits, admin lists and history stay as they were; `Registry.UnsubscribedNotRecipient` and `Registry.DetachStep` build on it |
| Registry.Broadcasted | broker.go:130-153 | a refused broadcast changes nothing; the topic's history only grows, by at most one record, keeping the old history as its prefix (append-only); membership, limits and admin lists are untouched; `Registry.BroadcastedOutcome` gives the exact record |
| Registry.Created | broker.go:174-181 | the creation half leaves the topic present, changes nothing for an existing name, and changes no members, no subscriber table and no history |
| Registry.CreatedTopic | broker.go:174-184 | CreateTopic leaves the topic present, the admin's fresh subscriber registered under the admin's name, and history unchanged; `Registry.CreatedTopicFresh` and `Registry.CreatedTopicExisting` give the two cases |
| Registry.Detached | broker.go:111-120 | Detach keeps the set of topics (topics are never deleted), the limits, the admin lists and the history |
| Registry.SendAsWritten | broker.go:156-172 | as written, Send refuses exactly when the sender is not a member of the topic named after the receiver, and hands to a nil subscriber exactly when it accepts but nobody is attached under that name |
| Registry.SendAsWrittenNilOnGroup | broker.go:156-172 | from a new broker, CreateTopic("team", 2, "alice") reaches a consistent state in which alice's Send to "team" hands the message to a nil subscriber |
| Registry.SendDispatch | broker.go:164-170 | the corrected dispatch never targets a nil subscriber, refuses exactly as the source does, delivers only to the attached receiver, and agrees with the as-written one everywhere else |
| Registry.EmptyConsistent | broker.go:27-36 | the new broker is consistent, and every topic reads as no members, no history and no admins |
| Registry.AttachedConsistent | broker.go:39-45 | Attach keeps the registry consistent |
| Registry.WithTopicConsistent | broker.go:48-54 | Subscribe keeps the registry consistent and is idempotent |
| Registry.JoinedConsistent | broker.go:56-77 | the join path never takes a topic past its limit nor breaks name keying |
| Registry.JoinedAfterCreation | broker.go:58-73 | the join decision reads the same against the state where the topic has just been created |
| Registry.JoinedOutcome | broker.go:56-77 | a join fails with the limit error iff members >= limit, with the admin error iff under the limit and the admin is empty or not listed, succeeds iff neither; an unset limit always refuses; a refused join only creates the topic; an accepted one adds exactly this subscriber under its name, stays within the limit and leaves other topics alone |
| Registry.LeftConsistent | broker.go:80-98 | LeaveGroup keeps the registry consistent |
| Registry.LeftOutcome | broker.go:80-98 | a leave fails with the admin error iff the admin is empty or not listed, with the not-subscribed error iff authorised but not a member, succeeds iff both hold; a refusal changes nothing; a success removes exactly that name (count drops by one) and leaves the admin list and other topics alone |
| Registry.LeaveUndoesJoin | broker.go:56-98 | a leave sponsored by the same admin right after a successful join of a non-member restores the state (up to the topic's creation) |
| Registry.UnsubscribedConsistent | broker.go:101-108 | Unsubscribe keeps the registry consistent |
| Registry.UnsubscribedNotRecipient | broker.go:101-108 | after Unsubscribe the subscriber receives no broadcast on that topic, and other topics keep their members |
| Registry.DetachedConsistent | broker.go:111-120 | Detach keeps the registry consistent |
| Registry.DetachedNoMembership | broker.go:111-120 | after Detach the name is gone from the subscriber table, the subscriber receives no broadcast on any of its topics, and other topics keep their members |
| Registry.DetachStart | broker.go:114-116 | removing the table entry is Detach over no topics |
| Registry.DetachStep | broker.go:117-119 | one more Unsubscribe in Detach's loop extends the detached topic set by that topic |
| Registry.BroadcastedConsistent | broker.go:130-153 | Broadcast keeps the registry consistent |
| Registry.BroadcastedOutcome | broker.go:130-153 | Broadcast succeeds iff the sender is a member; a refusal changes nothing; a success appends exactly one record (timestamp, payload, sender) to that topic's history and changes no other history and no membership |
| Registry.BroadcastsHistory | broker.go:130-153 | after a run of broadcasts on a topic its history is the old history followed by exactly the posts of members, in call order; membership and other topics' histories are unchanged |
| Registry.AcceptedAll | broker.go:136-140 | when every post is by a member, all K posts are recorded, in call order |
| Registry.CreatedConsistent | broker.go:174-181 | the creation half of CreateTopic keeps the registry consistent |
| Registry.CreatedTopicConsistent | broker.go:174-184 | CreateTopic keeps the registry consistent |
| Registry.CreatedTopicExisting | broker.go:174-184 | CreateTopic on an existing name keeps its limit and admin list, re-attaches the admin, adds the admin's new subscriber to the topic iff the retried join succeeds (else leaves the members as they were) and leaves other topics alone |
| Registry.CreatedTopicFresh | broker.go:174-184 | CreateTopic on a new name records the limit and the admin list [admin], and admits the admin as sole member iff the limit is positive and the admin name non-empty |
| Broker.MessageBroker.constructor | broker.go:27-36 | every table of the new broker is empty and the registry is consistent |
| Broker.MessageBroker.Attach | broker.go:39-45 | returns a fresh subscriber of that name with no topics, registered under its name in place of any earlier one; nothing else changes |
| Broker.MessageBroker.Subscribe | broker.go:48-54 | the new state is the Subscribe step of the old one |
| Broker.MessageBroker.IsOwner | broker.go:65-73 | the admin scan finds the admin iff it is non-empty and on the topic's admin list |
| Broker.MessageBroker.SubscribeToGroup | broker.go:56-77 | the new state and the returned error are the join step of the old state; the subscriber's topic set gains the topic iff the join succeeds |
| Broker.MessageBroker.LeaveGroup | broker.go:80-98 | the new state and the returned error are the leave step of the old state |
| Broker.MessageBroker.Unsubscribe | broker.go:101-108 | the new state is the Unsubscribe step; the subscriber loses the topic when the topic exists |
| Broker.MessageBroker.Detach | broker.go:111-120 | the new state is Detach over the subscriber's old topic set; the subscriber keeps only the topics that did not exist |
| Broker.MessageBroker.Subscribers | broker.go:123-127 | the member count of the topic (0 for an unknown topic), never above the topic's limit |
| Broker.MessageBroker.Broadcast | broker.go:130-153 | the new state and error are the Broadcast step; on success every member's inbox grows by the hand-off of the message (topic, payload), and on refusal no inbox changes |
| Broker.MessageBroker.Send | broker.go:156-172 | refuses exactly when the sender is not a member of the topic named after the receiver; otherwise the attached receiver gets the hand-off of the message addressed to its name, and with no receiver attached no inbox changes |
| Broker.MessageBroker.CreateTopic | broker.go:174-184 | the new state is the CreateTopic step; a fresh admin subscriber is registered under its name, holding the topic iff it was admitted, with an empty open inbox |
| Broker.MessageBroker.GetHistory | broker.go:187-189 | the topic's history, empty for a topic never broadcast to |
| Scenarios.FullGroup | broker.go:174-184 | "alice" creates "team" with limit 1 and is its one member; "bob" sponsored by alice is refused with the limit error |
| Scenarios.NoAdmin | broker.go:65-76 | a group created with an empty admin name has no members and refuses joins with the admin error |
| Scenarios.SubscribeThenBroadcast | broker.go:48-54 | a broadcast by a subscriber that only called Subscribe is refused and leaves no history |
| Scenarios.MemberBroadcast | broker.go:130-153 | after bob joins "team", his broadcast is recorded as the topic's only history record and reaches his own inbox |
| Scenarios.LeaveKeepsTopic | broker.go:80-98 | after bob joins "team", LeaveGroup succeeds and leaves one member (alice), yet bob still lists "team" |
| Scenarios.JoinedTeam | broker.go:56-77 | from an empty broker, alice creates "team" (limit 3) and bob joins sponsored by her: both are members, alice is authorised, bob lists exactly "team" with an empty open inbox, and there is no history |
| Scenarios.SignalAfterDestroy | subscriber.go:52-68 | a destroyed subscriber that still lists the topic makes the as-written Signal send on its closed inbox, while the modelled inbox stays empty |

## Left out

- Goroutines and locks: the registry lock and each subscriber's lock are not modelled, and every broker method is one atomic step.
  - Detach re-acquires the registry lock inside its loop through Unsubscribe. With Go's non-reentrant mutex that blocks whenever the subscriber has a topic; the model treats the whole call as one step.
  - A refused Broadcast returns without releasing its read lock. That leaks the lock, and the model does not capture it.
- Broadcast and Send hand each message to Signal in a new goroutine. The model signals the members in turn inside the call, so it does not capture the order in which concurrent deliveries land.
- The inbox is an unbuffered channel. The model makes it a sequence that a send appends to, so a blocked send (nobody reading) is not modelled.
- GetMessage (a blocking channel receive) is not modelled.
- Logging (`fmt.Println` / `Printf`) is not modelled.
- Broadcast's timestamp is `time.Now()` in the source. Here it is a parameter.
- Message payloads are `interface{}` in the source. Here they are strings, which is the only kind the broker builds.
- The HTTP handlers (`App/main.go`), the demo client (`Examples/main.go`) and the request types (`models.go`) are not part of this model.
- Message accessors (`message.go`) are not modelled. The message is a datatype with two fields.

## Findings

| source | as written | input that shows it | evidently intended | confidence | as-written member | corrected member |
|---|---|---|---|---|---|---|
| subscriber.go:52-59 | Signal sends on the inbox whenever the message's topic is in the topic set, without looking at the destroyed flag that Destroy sets when it closes the inbox | a subscriber holding topic "news" is destroyed, then a message on "news" is signalled (Go panics on a send to a closed channel) | a destroyed subscriber drops the message | likely; not executed | Subscribers.SignalAsWritten | Subscribers.SignalOutcome |
| broker.go:164-170 | after the membership check, Send signals `subscribers[receiver]` without checking that someone is attached under that name | on a new broker, CreateTopic("team", 2, "alice") then Send(p, "alice", "team"): alice is a member of "team" but nobody is attached as "team", so Signal runs on a nil subscriber | with no attached receiver nothing is sent | likely; not executed | Registry.SendAsWritten | Registry.SendDispatch |

`Subscribers.SignalAsWrittenSendsOnClosed` and `Scenarios.SignalAfterDestroy` exhibit the first row. `Registry.SendAsWrittenNilOnGroup` exhibits the second. `Subscribers.Subscriber.Signal` and `Broker.MessageBroker.Send` are the corrected behaviour that the rest of the model uses.
