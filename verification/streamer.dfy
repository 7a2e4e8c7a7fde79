/**
 The broadcast registry (streamer.go, `DefaultStreamer`).

 Each public call runs under the streamer's lock, so it is modelled as one
 atomic transition of an immutable state. A channel is a queue of the events
 sent to it plus a `closed` flag; an unbuffered blocking send becomes an
 append. Channels live in a heap `channels` indexed by their id, so a new
 channel takes the id `|channels|` (the fresh-id counter) and closed channels
 stay in the heap where the reader can still observe them.
 */
module Streaming {
  import opened Wrappers
  import opened Events

  /** The identity of a channel: its index in the channel heap. */
  type ChanId = nat

  /** A delivery channel: the events sent to it, in order, and whether it was closed. */
  datatype Channel = Channel(queue: seq<Event>, closed: bool)

  /** The streamer: subscriber uid to channel id, and every channel ever made. */
  datatype Streamer = Streamer(subscribers: map<string, ChanId>, channels: seq<Channel>)

  /** The only error `Subscribe` returns. */
  datatype StreamError = AlreadySubscribed(uid: string)

  /** The text of the error (`fmt.Errorf("subscriber %s already subscribed", uid)`). */
  function StreamMessage(err: StreamError): (msg: string)
    ensures |msg| == |"subscriber "| + |err.uid| + |" already subscribed"|
    ensures msg[..|"subscriber "|] == "subscriber "
    ensures msg[|"subscriber "|..|msg| - |" already subscribed"|] == err.uid
    ensures msg[|msg| - |" already subscribed"|..] == " already subscribed"
  {
    "subscriber " + err.uid + " already subscribed"
  }

  /** The invariant of every streamer reachable from `NewStreamer`:
      every mapped channel exists and is open, distinct uids own distinct
      channels, and a channel is open only while some uid owns it. */
  ghost predicate Valid(s: Streamer) {
    && (forall uid :: uid in s.subscribers ==> s.subscribers[uid] < |s.channels| && !s.channels[s.subscribers[uid]].closed)
    && (forall u, v :: u in s.subscribers && v in s.subscribers && u != v ==> s.subscribers[u] != s.subscribers[v])
    && (forall i :: 0 <= i < |s.channels| && !s.channels[i].closed ==> i in s.subscribers.Values)
  }

  /** A streamer with no subscribers. */
  function NewStreamer(): (s: Streamer)
    ensures s.subscribers == map[]
    ensures Valid(s)
  {
    Streamer(map[], [])
  }

  /** What `Subscribe` leaves behind: the (possibly unchanged) streamer and
      either the new channel's id or the error. */
  datatype Subscription = Subscription(streamer: Streamer, outcome: Result<ChanId, StreamError>)

  /** Registers `uid` with a new open channel, or refuses a uid that is
      already registered and changes nothing. */
  function Subscribe(s: Streamer, uid: string): (r: Subscription)
    ensures r.outcome.Failure? <==> uid in s.subscribers
    ensures r.outcome.Failure? ==> r.outcome.error == AlreadySubscribed(uid) && r.streamer == s
    ensures r.outcome.Success? ==>
              var id := r.outcome.value;
              && r.streamer.subscribers.Keys == s.subscribers.Keys + {uid}
              && r.streamer.subscribers[uid] == id
              && (forall u :: u in s.subscribers ==> r.streamer.subscribers[u] == s.subscribers[u])
              && id == |s.channels|
              && (Valid(s) ==> id !in s.subscribers.Values)
              && |r.streamer.channels| == |s.channels| + 1
              && id < |r.streamer.channels|
              && r.streamer.channels[id] == Channel([], false)
              && (forall i :: 0 <= i < |s.channels| ==> i != id && r.streamer.channels[i] == s.channels[i])
    ensures Valid(s) ==> Valid(r.streamer)
  {
    if uid in s.subscribers then
      Subscription(s, Failure(AlreadySubscribed(uid)))
    else
      var id := |s.channels|;
      Subscription(Streamer(s.subscribers[uid := id], s.channels + [Channel([], false)]), Success(id))
  }

  /** Closes and forgets the channel of `uid`; an unknown uid changes nothing. */
  function Unsubscribe(s: Streamer, uid: string): (r: Streamer)
    requires Valid(s)
    ensures r.subscribers.Keys == s.subscribers.Keys - {uid}
    ensures forall u :: u in r.subscribers ==> r.subscribers[u] == s.subscribers[u]
    ensures |r.channels| == |s.channels|
    ensures uid in s.subscribers ==> r.channels[s.subscribers[uid]] == Channel(s.channels[s.subscribers[uid]].queue, true)
    ensures forall i :: 0 <= i < |s.channels| && (uid !in s.subscribers || i != s.subscribers[uid]) ==> r.channels[i] == s.channels[i]
    ensures uid !in s.subscribers ==> r == s
    ensures Valid(r)
  {
    if uid in s.subscribers then
      var id := s.subscribers[uid];
      Streamer(s.subscribers - {uid}, s.channels[id := Channel(s.channels[id].queue, true)])
    else
      s
  }

  /** One blocking send, modelled as an append. */
  function Send(c: Channel, e: Event): Channel {
    c.(queue := c.queue + [e])
  }

  /** The reference meaning of a broadcast: every channel owned by a
      subscriber receives exactly one copy of `e`, every other channel is
      untouched, and the subscriber map is unchanged. */
  function Publish(s: Streamer, e: Event): (r: Streamer)
    requires Valid(s)
    ensures r.subscribers == s.subscribers
    ensures |r.channels| == |s.channels|
    ensures forall uid :: uid in s.subscribers ==> r.channels[s.subscribers[uid]].queue == s.channels[s.subscribers[uid]].queue + [e]
    ensures forall i :: 0 <= i < |s.channels| ==> r.channels[i].closed == s.channels[i].closed
    ensures forall i :: 0 <= i < |s.channels| && i !in s.subscribers.Values ==> r.channels[i] == s.channels[i]
    ensures Valid(r)
  {
    Streamer(s.subscribers,
      seq(|s.channels|, i requires 0 <= i < |s.channels| =>
        if i in s.subscribers.Values then Send(s.channels[i], e) else s.channels[i]))
  }

  /** The ids of the channels owned by the uids in `uids`. */
  ghost function OwnedBy(s: Streamer, uids: set<string>): set<ChanId>
    requires uids <= s.subscribers.Keys
  {
    set u | u in uids :: s.subscribers[u]
  }

  /** `Publish` as the source runs it: one send per map entry, visiting the
      entries in an order the model leaves unspecified (Go map order). The
      outcome is the reference broadcast whatever the order. */
  method PublishInMapOrder(s: Streamer, e: Event) returns (r: Streamer)
    requires Valid(s)
    ensures r == Publish(s, e)
  {
    var pending := s.subscribers.Keys;
    var channels := s.channels;
    ghost var sent: set<ChanId> := {};
    while pending != {}
      invariant pending <= s.subscribers.Keys
      invariant sent == OwnedBy(s, s.subscribers.Keys - pending)
      invariant |channels| == |s.channels|
      invariant forall i :: 0 <= i < |channels| ==> channels[i] == (if i in sent then Send(s.channels[i], e) else s.channels[i])
      decreases pending
    {
      var uid :| uid in pending;
      var id := s.subscribers[uid];
      assert id !in sent;
      channels := channels[id := Send(channels[id], e)];
      sent := sent + {id};
      pending := pending - {uid};
      assert sent == OwnedBy(s, s.subscribers.Keys - pending) by {
        assert s.subscribers.Keys - pending == (s.subscribers.Keys - (pending + {uid})) + {uid};
      }
    }
    assert sent == s.subscribers.Values by {
      assert s.subscribers.Keys - pending == s.subscribers.Keys;
    }
    r := Streamer(s.subscribers, channels);
  }

  // ---------------------------------------------------------------------
  // Runs of calls

  /** One public call on the streamer. */
  datatype Op = SubscribeOp(uid: string) | UnsubscribeOp(uid: string) | PublishOp(event: Event)

  /** The effect of one call. */
  function Step(s: Streamer, op: Op): (r: Streamer)
    requires Valid(s)
    ensures Valid(r)
    ensures |s.channels| <= |r.channels|
  {
    match op
    case SubscribeOp(uid) => Subscribe(s, uid).streamer
    case UnsubscribeOp(uid) => Unsubscribe(s, uid)
    case PublishOp(e) => Publish(s, e)
  }

  /** The effect of a sequence of calls; every state along the way is valid. */
  function Run(s: Streamer, ops: seq<Op>): (r: Streamer)
    requires Valid(s)
    ensures Valid(r)
    ensures |s.channels| <= |r.channels|
    decreases |ops|
  {
    if |ops| == 0 then s else Run(Step(s, ops[0]), ops[1..])
  }

  /** A closed channel never receives anything again and never reopens,
      whatever calls follow. */
  lemma {:induction false} ClosedChannelsStayClosed(s: Streamer, ops: seq<Op>, id: ChanId)
    requires Valid(s)
    requires id < |s.channels| && s.channels[id].closed
    ensures id < |Run(s, ops).channels| && Run(s, ops).channels[id] == s.channels[id]
    decreases |ops|
  {
    if |ops| > 0 {
      var next := Step(s, ops[0]);
      assert next.channels[id] == s.channels[id] by {
        assert id !in s.subscribers.Values;
      }
      ClosedChannelsStayClosed(next, ops[1..], id);
    }
  }

  /** Every channel's queue only grows: what was delivered stays delivered,
      in order, whatever calls follow. */
  lemma {:induction false} QueuesOnlyGrow(s: Streamer, ops: seq<Op>, id: ChanId)
    requires Valid(s)
    requires id < |s.channels|
    ensures id < |Run(s, ops).channels|
    ensures s.channels[id].queue <= Run(s, ops).channels[id].queue
    decreases |ops|
  {
    if |ops| > 0 {
      var next := Step(s, ops[0]);
      assert s.channels[id].queue <= next.channels[id].queue by {
        match ops[0]
        case SubscribeOp(uid) =>
        case UnsubscribeOp(uid) =>
        case PublishOp(e) =>
          if id in s.subscribers.Values {
            var u :| u in s.subscribers && s.subscribers[u] == id;
          }
      }
      QueuesOnlyGrow(next, ops[1..], id);
    }
  }

  /** Broadcasts `events` one after another. */
  function PublishAll(s: Streamer, events: seq<Event>): (r: Streamer)
    requires Valid(s)
    ensures Valid(r)
    ensures r.subscribers == s.subscribers
    ensures |r.channels| == |s.channels|
    decreases |events|
  {
    if |events| == 0 then s else PublishAll(Publish(s, events[0]), events[1..])
  }

  /** One broadcast appends one copy to an owned channel, which stays open. */
  lemma PublishAppendsOne(s: Streamer, e: Event, uid: string)
    requires Valid(s) && uid in s.subscribers
    ensures Publish(s, e).channels[s.subscribers[uid]] == Channel(s.channels[s.subscribers[uid]].queue + [e], false)
  {
    var id := s.subscribers[uid];
    var p := Publish(s, e);
    assert p.channels[id].queue == s.channels[id].queue + [e];
    assert p.channels[id].closed == s.channels[id].closed;
  }

  /** A subscribed uid's channel receives every broadcast event, once each, in order. */
  lemma {:induction false} PublishAllAppends(s: Streamer, events: seq<Event>, uid: string)
    requires Valid(s) && uid in s.subscribers
    ensures PublishAll(s, events).channels[s.subscribers[uid]]
            == Channel(s.channels[s.subscribers[uid]].queue + events, false)
    decreases |events|
  {
    if |events| > 0 {
      var q := s.channels[s.subscribers[uid]].queue;
      var p := Publish(s, events[0]);
      PublishAppendsOne(s, events[0], uid);
      PublishAllAppends(p, events[1..], uid);
      assert q + [events[0]] + events[1..] == q + events;
    }
  }

  /** A closed channel receives nothing from any number of broadcasts. */
  lemma {:induction false} PublishAllSkipsClosed(s: Streamer, events: seq<Event>, id: ChanId)
    requires Valid(s) && id < |s.channels| && s.channels[id].closed
    ensures PublishAll(s, events).channels[id] == s.channels[id]
    decreases |events|
  {
    if |events| > 0 {
      assert id !in s.subscribers.Values;
      PublishAllSkipsClosed(Publish(s, events[0]), events[1..], id);
    }
  }

  /** A second subscription under the same uid is refused and the first one
      stays intact: a later broadcast still reaches the original channel. */
  lemma DuplicateSubscribeKeepsOriginal(s: Streamer, uid: string, e: Event)
    requires Valid(s) && uid !in s.subscribers
    ensures var first := Subscribe(s, uid);
            && first.outcome.Success?
            && Subscribe(first.streamer, uid) == Subscription(first.streamer, Failure(AlreadySubscribed(uid)))
            && Publish(first.streamer, e).channels[first.outcome.value].queue == [e]
  {
  }

  /** After unsubscribing, a broadcast leaves the old channel closed and
      untouched, and the same uid may subscribe again, to a new channel. */
  lemma UnsubscribeThenPublish(s: Streamer, uid: string, e: Event)
    requires Valid(s) && uid in s.subscribers
    ensures var s1 := Unsubscribe(s, uid);
            var old_id := s.subscribers[uid];
            && Publish(s1, e).channels[old_id] == Channel(s.channels[old_id].queue, true)
            && Subscribe(s1, uid).outcome.Success?
            && Subscribe(s1, uid).outcome.value != old_id
  {
    var s1 := Unsubscribe(s, uid);
    var old_id := s.subscribers[uid];
    assert old_id !in s1.subscribers.Values;
  }
}
