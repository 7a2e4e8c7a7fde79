# sirkeji event bus — a Dafny model

This project models the core of sirkeji, a small in-process event bus written in Go.
Publishers build `Event`s and broadcast them through a `DefaultStreamer`. Subscribers
are attached to the streamer by a `SubscriptionManager`, which runs a receive loop that
hands every delivered event to the subscriber's `Process`. A process-wide registry
keeps event type tags unique. A `Logger` subscriber renders each event as one line.

The streamer's and the registry's public calls each take a lock, so each is modelled as
one atomic transition of an immutable value. The manager's `Subscribe` and `Unsubscribe`
take no lock of their own; the model still treats each of them as one uninterrupted
step (see "## Left out").

- `Events` (events.go): the `Event` record with an opaque optional payload, `NewEvent`
  and its two refusals, the `InfoEvent`/`ErrorEvent` helpers, and the event type
  registry as a `set` that starts as {Error, Info, Shutdown} and only grows. Go panics
  become `Failure` results.
- `Streaming` (streamer.go): the subscriber map from uid to channel id, over a heap of
  channels. Each channel is a queue of sent events plus a `closed` flag. The id of a new
  channel is the heap's length, so ids are never reused. A blocking unbuffered send is
  an append. The invariant `Valid` says three things:
  - every mapped channel exists and is open;
  - distinct uids own distinct channels;
  - a channel is open only while some uid owns it.

  `NewStreamer` establishes `Valid` and every call preserves it. `Publish` has two forms:
  - a reference function that appends one copy to each owned channel;
  - a method that sends per map entry in an arbitrary order, as Go's map iteration
    does; it is proved to give the same result.

  Lemmas about runs of calls and runs of broadcasts live here too.
- `Subscriptions` (subscriber.go, and the wrapper in sirkeji.go): construction with nil
  references as `Option`s, and manager subscribe/unsubscribe as traces of `Call`s. The
  receive loop drains its channel into a multiset of events handed to `Process`. The
  `Session` method runs a whole subscribe–publish–unsubscribe–publish sequence and
  shows that `Process` sees exactly the events published while the subscriber was
  connected.
- `Logging` (logger.go): the body of the log line and the payload status, and the
  logger's uid. A parser inverts the body: it always recovers the payload flag, and it
  recovers all four fields when the publisher holds no `]` and the type no `*`.

In two places the code checks less than a reader might expect, and the model follows
the code:
- `NewEvent` does not check that the type is registered.
- `InfoEvent` and `ErrorEvent` do not check for an empty publisher, so they can build
  events that `NewEvent` refuses (`Events.HelpersAgreeWithNewEvent`).

## Model

| member | source | states |
|---|---|---|
| `Events.NewEvent` | events.go:24-37 | Succeeds exactly when publisher and type are both non-empty. An empty publisher is reported first, then an empty type. On success all four fields equal the arguments. |
| `Events.EventMessage` | events.go:25-30 | Each refusal of `NewEvent` has its own panic text. |
| `Events.NewEventRoundTrip` | events.go:24-37 | An event is well-formed exactly when `NewEvent` rebuilds it unchanged from its own fields. |
| `Events.InfoEvent` | events.go:66-72 | Type is Info, publisher and meta are the arguments, there is no payload, and nothing is checked. |
| `Events.ErrorEvent` | events.go:89-95 | Type is Error, publisher and meta are the arguments, there is no payload, and nothing is checked. |
| `Events.HelpersAgreeWithNewEvent` | events.go:24-95 | With a non-empty publisher the helpers equal `NewEvent` with no payload. With an empty publisher they build events that `NewEvent` would refuse. |
| `Events.RegistryMessage` | events.go:124-126 | The duplicate-registration panic text is "duplicate event type registration: " followed by the offending tag. |
| `Events.Register` | events.go:120-128 | Fails with DuplicateRegistration exactly when the tag is already registered. Otherwise it adds exactly that tag and keeps every earlier one. |
| `Events.IsRegistered` | events.go:143-149 | A tag is reported registered exactly when registering it would be refused. The registry is a value, so the query cannot change it. |
| `Events.InitialRegistryContents` | events.go:99-108 | At start the registered tags are exactly Error, Info and Shutdown; "UnregisteredEvent" is not registered. |
| `Events.RegisterThenRegistered` | events.go:120-149 | After registering a fresh tag it is reported registered. Other tags keep their answer. Registering it again fails. |
| `Events.RegisterAllSucceedsIff` | events.go:120-128 | A run of registrations succeeds exactly when its tags are pairwise distinct and not yet registered. The registry then holds the old tags plus exactly the new ones. |
| `Events.RegistryOnlyGrows` | events.go:120-149 | A tag that was registered stays registered after any successful run of registrations. |
| `Streaming.StreamMessage` | streamer.go:74-76 | The duplicate-subscription error text is "subscriber " followed by the uid and then " already subscribed", so the uid can be read back from it. |
| `Streaming.NewStreamer` | streamer.go:44-48 | Starts with no subscribers and satisfies the streamer invariant. |
| `Streaming.Subscribe` | streamer.go:70-81 | A registered uid gets AlreadySubscribed and the state is unchanged. A fresh uid gets a new, empty, open channel with an id never used before. Other entries and existing channels are untouched. The invariant is preserved. |
| `Streaming.Unsubscribe` | streamer.go:97-105 | A registered uid's channel is closed with its queue kept, and the uid is removed. Nothing else changes. An unknown uid leaves the state identical. |
| `Streaming.Publish` | streamer.go:121-128 | The map is unchanged. Every owned channel's queue gains exactly one copy of the event. Unowned (closed) channels are untouched. With no subscribers nothing changes. |
| `Streaming.PublishInMapOrder` | streamer.go:121-128 | Sending once per map entry, in whatever order the entries are visited, gives exactly the reference broadcast. |
| `Streaming.ClosedChannelsStayClosed` | streamer.go:97-128 | A closed channel stays closed and receives nothing under any later sequence of calls. |
| `Streaming.QueuesOnlyGrow` | streamer.go:70-128 | Every channel's queue after any sequence of calls extends its earlier queue. |
| `Streaming.DuplicateSubscribeKeepsOriginal` | streamer.go:70-81 | A second subscribe with the same uid fails and leaves the state unchanged. A later publish still reaches the first channel. |
| `Streaming.UnsubscribeThenPublish` | streamer.go:97-128 | After unsubscribing, a publish leaves the old channel closed with its queue unchanged. The uid can subscribe again and gets a different channel. |
| `Subscriptions.ManagerMessage` | subscriber.go:52-58 | Each construction error has its own text. |
| `Subscriptions.NewSubscriptionManager` | subscriber.go:83-95 | A nil streamer gives StreamerShouldNotBeNil whatever the subscriber is. A nil subscriber with a streamer gives SubscriberShouldNotBeNil. Otherwise the manager holds exactly the two given references. |
| `Subscriptions.ManagerSubscribe` | subscriber.go:119-135 | The streamer's subscribe comes first. On error that error is returned, the state is unchanged, and that call is the whole trace. On success the trace is exactly: the streamer's subscribe, one loop start on the channel now mapped to the uid, then one `Subscribed`. `Unsubscribed` is never called. |
| `Subscriptions.ManagerUnsubscribe` | subscriber.go:155-160 | The trace is exactly the streamer's unsubscribe followed by one `Unsubscribed`, even for an unregistered uid. No error is returned and the uid is no longer registered. |
| `Subscriptions.MustSubscribe` | sirkeji.go:23-31 | When both references are present and the uid is fresh, it returns no error. The state is the streamer's subscribe result and keeps `Valid`. The trace is exactly the streamer's subscribe, one loop start on the new channel, then `Subscribed`. |
| `Subscriptions.ReceiveLoop` | subscriber.go:125-129 | Every queued event from the read position on is handed to `Process` exactly once (as a multiset). The loop ends exactly when the channel is closed. |
| `Streaming.PublishAllAppends` | streamer.go:121-128 | A subscribed channel receives a run of broadcasts as exactly those events, in order, and stays open. |
| `Streaming.PublishAllSkipsClosed` | streamer.go:97-128 | A closed channel is unchanged by any run of broadcasts. |
| `Subscriptions.Session` | subscriber.go:119-160 | For a fresh subscriber, `Process` receives exactly the events published while it was subscribed and none after unsubscribing. The loop ends, and `Subscribed` and `Unsubscribed` are each called once. |
| `Logging.PayloadStatus` | logger.go:66-69 | The status is "empty" exactly when the payload is absent and "full" exactly when it is present. |
| `Logging.NewLogger` | logger.go:31-36 | The logger's uid is the one given at construction. |
| `Logging.Uid` | logger.go:48-50 | A logger is determined by its uid: rebuilding a logger from its uid gives the same logger. |
| `Logging.FormatBody` | logger.go:66-70 | The payload flag can always be read back from the end of the body. Publisher, type, meta and payload flag can all be read back when the publisher holds no `]` and the type no `*`. |
| `Logging.FieldsReadBack` | logger.go:70 | The parser recovers all four fields from a body laid out as `[publisher] *type*, m: meta` followed by the fixed payload-status suffix, given unambiguous delimiters. |
| `Logging.Process` | logger.go:65-71 | The logger keeps its state. The line written reads back to the event's payload flag, and to all its fields when the delimiters are unambiguous. |
| `Logging.ProcessAll` | logger.go:48-71 | The uid fixed at construction survives any number of processed events. One line is written per event. Each line reads back to its event's payload flag, and to all its fields when the delimiters are unambiguous. |

## Left out

- Goroutines, the read/write mutexes and the blocking hand-off of unbuffered channels are not modelled. Each public call is one atomic step, and a send is an append. A slow subscriber stalling `Publish` (and through the read lock, subscribe/unsubscribe) cannot be expressed.
- Subscriptions.ManagerSubscribe: modelled as one uninterrupted step, but the source holds no lock across it. A `Publish` can run between the streamer subscribe (subscriber.go:120) and `Subscribed()` (subscriber.go:131), so `Process` can run before `Subscribed`. The model does not show this ordering.
- Subscriptions.Session: treats each manager call as one step. A spawned `Process` (subscriber.go:127) can still run after `Unsubscribed` (subscriber.go:157) in the source; the model does not show this ordering.
- Logging.FormatBody: a publisher holding `]` or a type holding `*` makes the body ambiguous, so the full read-back is stated only without those characters. The payload flag is recovered for every event.
- Logging.Process: for a publisher holding `]` or a type holding `*` the written line is pinned only to the event's payload flag, because the body is then ambiguous.
- Logging.ProcessAll: likewise, a line whose event has a publisher holding `]` or a type holding `*` is pinned only to that event's payload flag.
- Subscriptions.NewSubscriptionManager: `None` stands only for a nil interface value. A typed nil pointer (a nil `*DefaultStreamer` passed as a `Streamer`) is a non-nil interface in Go. The source accepts it and later panics in the streamer's `Subscribe`; that case is not modelled.
- Subscriptions.ReceiveLoop: drains what is queued in one step. It does not model its interleaving with publishers, and the spawned `Process` calls are only a multiset, since their order is not fixed in the source.
- Streaming.Unsubscribe and Streaming.Publish require the streamer invariant `Valid`. The model assumes that nothing but the streamer closes or sends on a subscriber channel. Go's `chan Event` type, which `Subscribe` hands to its caller (streamer.go:70-80), does not enforce this. A holder that closes the channel makes the next `Publish` (streamer.go:126) and `Unsubscribe` (streamer.go:102) panic. A holder that sends on it injects events the receive loop hands to `Process`. Neither case is modelled.
- `log.Printf` in the manager's subscribe and unsubscribe, and the logger's timestamp prefix and output sink: I/O.
- Logger uid generation from wall-clock nanoseconds: the clock is replaced by a `NewLogger` parameter.
- The logger's `OnSubscribed`/`OnUnsubscribed` are no-ops. Their names differ from the `Subscribed`/`Unsubscribed` methods the subscriber interface requires, so the logger cannot be passed to the manager as written.
- termination.go: OS signal handling and a two-second sleep. Its only logic is one broadcast of a fixed Shutdown event, which `Streaming.Publish` covers.
- example/: demo publishers driven by timers and random numbers.
- Payload contents: the payload is an opaque handle, and Go's typed-nil subtlety (a nil pointer in an `interface{}` is not nil) is not modelled.
