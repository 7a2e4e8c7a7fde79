/**
 The subscription lifecycle manager (subscriber.go, `SubscriptionManager`).

 The manager's side effects are recorded as a trace of `Call`s: the call into
 the streamer, the start of the receive loop, and the subscriber callbacks.
 The receive loop and the `Process` calls it spawns run concurrently in the
 source; here the loop drains its channel in one step and what it hands to
 `Process` is a multiset, because the spawned calls run in no fixed order.
 */
module Subscriptions {
  import opened Wrappers
  import opened Events
  import opened Streaming

  /** A subscriber as the manager uses it: its uid (`Uid()`). */
  datatype Subscriber = Subscriber(uid: string)

  /** A non-nil reference to a streamer; the state it refers to is passed
      explicitly to each call. */
  datatype StreamerRef = StreamerRef(handle: nat)

  /** A manager binding one subscriber to one streamer. */
  datatype Manager = Manager(streamer: StreamerRef, subscriber: Subscriber)

  /** The two construction errors. */
  datatype ManagerError = StreamerShouldNotBeNil | SubscriberShouldNotBeNil

  /** The texts of the construction errors. */
  function ManagerMessage(err: ManagerError): (msg: string)
    ensures msg == "streamer shouldn't be nil" <==> err == StreamerShouldNotBeNil
    ensures msg == "subscriber shouldn't be nil" <==> err == SubscriberShouldNotBeNil
  {
    match err
    case StreamerShouldNotBeNil => "streamer shouldn't be nil"
    case SubscriberShouldNotBeNil => "subscriber shouldn't be nil"
  }

  /** Builds a manager; a nil streamer is reported before a nil subscriber. */
  function NewSubscriptionManager(streamer: Option<StreamerRef>, subscriber: Option<Subscriber>): (r: Result<Manager, ManagerError>)
    ensures r.Success? <==> streamer.Some? && subscriber.Some?
    ensures streamer.None? ==> r == Failure(StreamerShouldNotBeNil)
    ensures streamer.Some? && subscriber.None? ==> r == Failure(SubscriberShouldNotBeNil)
    ensures r.Success? ==> r.value.streamer == streamer.value && r.value.subscriber == subscriber.value
  {
    if streamer.None? then Failure(StreamerShouldNotBeNil)
    else if subscriber.None? then Failure(SubscriberShouldNotBeNil)
    else Success(Manager(streamer.value, subscriber.value))
  }

  /** An observable step of the manager. */
  datatype Call =
    | StreamerSubscribe(uid: string)
    | LoopStarted(channel: ChanId)
    | Subscribed
    | StreamerUnsubscribe(uid: string)
    | Unsubscribed

  /** The streamer state after a manager call, the calls made, and the error returned. */
  datatype Outcome = Outcome(streamer: Streamer, calls: seq<Call>, err: Option<StreamError>)

  /** `a` occurs somewhere before `b` in the trace. */
  ghost predicate Precedes(calls: seq<Call>, a: Call, b: Call) {
    exists i, j :: 0 <= i < j < |calls| && calls[i] == a && calls[j] == b
  }

  /** Subscribes through the streamer; on success starts the receive loop on
      the new channel and then calls `Subscribed`; on failure returns the
      streamer's error and neither starts the loop nor calls back. */
  function ManagerSubscribe(m: Manager, s: Streamer): (r: Outcome)
    ensures |r.calls| > 0 && r.calls[0] == StreamerSubscribe(m.subscriber.uid)
    ensures r.streamer == Subscribe(s, m.subscriber.uid).streamer
    ensures r.err.Some? <==> m.subscriber.uid in s.subscribers
    ensures r.err.Some? ==> r.err.value == AlreadySubscribed(m.subscriber.uid)
    ensures r.err.Some? ==> r.streamer == s && r.calls == [StreamerSubscribe(m.subscriber.uid)]
    ensures r.err.None? ==> m.subscriber.uid in r.streamer.subscribers
    ensures r.err.None? ==> r.calls == [StreamerSubscribe(m.subscriber.uid), LoopStarted(r.streamer.subscribers[m.subscriber.uid]), Subscribed]
    ensures Unsubscribed !in r.calls
    ensures r.err.None? ==> multiset(r.calls)[Subscribed] == 1
    ensures r.err.None? ==> Precedes(r.calls, LoopStarted(r.streamer.subscribers[m.subscriber.uid]), Subscribed)
  {
    var uid := m.subscriber.uid;
    var sub := Subscribe(s, uid);
    match sub.outcome
    case Failure(err) => Outcome(sub.streamer, [StreamerSubscribe(uid)], Some(err))
    case Success(ch) =>
      var calls := [StreamerSubscribe(uid), LoopStarted(ch), Subscribed];
      assert calls[1] == LoopStarted(ch) && calls[2] == Subscribed;
      Outcome(sub.streamer, calls, None)
  }

  /** Unsubscribes through the streamer and then calls `Unsubscribed`,
      whether or not the uid was registered; no error is returned. */
  function ManagerUnsubscribe(m: Manager, s: Streamer): (r: Outcome)
    requires Valid(s)
    ensures r.err.None?
    ensures r.streamer == Unsubscribe(s, m.subscriber.uid)
    ensures m.subscriber.uid !in r.streamer.subscribers
    ensures r.calls == [StreamerUnsubscribe(m.subscriber.uid), Unsubscribed]
    ensures multiset(r.calls)[Unsubscribed] == 1
    ensures Precedes(r.calls, StreamerUnsubscribe(m.subscriber.uid), Unsubscribed)
  {
    var calls := [StreamerUnsubscribe(m.subscriber.uid), Unsubscribed];
    assert calls[0] == StreamerUnsubscribe(m.subscriber.uid) && calls[1] == Unsubscribed;
    Outcome(Unsubscribe(s, m.subscriber.uid), calls, None)
  }

  /** The convenience wrapper of sirkeji.go: construction and subscription
      must both succeed, otherwise the source panics, so both are caller
      obligations here. */
  function MustSubscribe(streamer: Option<StreamerRef>, subscriber: Option<Subscriber>, s: Streamer): (r: Outcome)
    requires streamer.Some? && subscriber.Some?
    requires subscriber.value.uid !in s.subscribers
    ensures r.err.None?
    ensures r.streamer == Subscribe(s, subscriber.value.uid).streamer
    ensures subscriber.value.uid in r.streamer.subscribers
    ensures r.calls == [StreamerSubscribe(subscriber.value.uid), LoopStarted(r.streamer.subscribers[subscriber.value.uid]), Subscribed]
    ensures Valid(s) ==> Valid(r.streamer)
  {
    ManagerSubscribe(NewSubscriptionManager(streamer, subscriber).value, s)
  }

  /** The receive loop: hands every event queued on the channel from
      position `from` onwards to `Process` exactly once, and ends when the
      channel is closed and drained. */
  method ReceiveLoop(c: Channel, from: nat) returns (dispatched: multiset<Event>, next: nat, ended: bool)
    requires from <= |c.queue|
    ensures next == |c.queue|
    ensures dispatched == multiset(c.queue[from..])
    ensures ended <==> c.closed
  {
    dispatched := multiset{};
    next := from;
    while next < |c.queue|
      invariant from <= next <= |c.queue|
      invariant dispatched == multiset(c.queue[from..next])
    {
      assert c.queue[from..next + 1] == c.queue[from..next] + [c.queue[next]];
      dispatched := dispatched + multiset{c.queue[next]};
      next := next + 1;
    }
    assert c.queue[from..next] == c.queue[from..];
    ended := c.closed;
  }

  /** A whole session of a fresh subscriber: subscribe through the manager,
      `before` is broadcast, unsubscribe through the manager, `after` is
      broadcast. The subscriber's `Process` is handed exactly the events of
      `before`, each once, its receive loop ends, and `Subscribed` and
      `Unsubscribed` were each called once. */
  method Session(m: Manager, s: Streamer, before: seq<Event>, after: seq<Event>)
      returns (processed: multiset<Event>, ended: bool, calls: seq<Call>)
    requires Valid(s) && m.subscriber.uid !in s.subscribers
    ensures processed == multiset(before)
    ensures ended
    ensures multiset(calls)[Subscribed] == 1 && multiset(calls)[Unsubscribed] == 1
  {
    var uid := m.subscriber.uid;
    var sub := ManagerSubscribe(m, s);
    var ch := sub.streamer.subscribers[uid];
    var s1 := PublishAll(sub.streamer, before);
    PublishAllAppends(sub.streamer, before, uid);
    var unsub := ManagerUnsubscribe(m, s1);
    PublishAllSkipsClosed(unsub.streamer, after, ch);
    var s3 := PublishAll(unsub.streamer, after);
    assert s3.channels[ch] == Channel(before, true);
    var next;
    processed, next, ended := ReceiveLoop(s3.channels[ch], 0);
    assert before[0..] == before;
    calls := sub.calls + unsub.calls;
    assert Unsubscribed !in sub.calls;
    assert Subscribed !in unsub.calls;
  }
}
