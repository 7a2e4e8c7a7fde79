/**
 The logging subscriber (logger.go, `Logger`): only the text of a log line
 and the logger's identity. The timestamp prefix and the output sink are
 not modelled; the uid, derived from the wall clock in the source, is a
 parameter.
 */
module Logging {
  import opened Wrappers
  import opened Events

  /** A logger; its only state is its uid. */
  datatype Logger = Logger(uid: string)

  /** A logger with the given uid (the source formats `logger-<nanoseconds>`). */
  function NewLogger(uid: string): (l: Logger)
    ensures Uid(l) == uid
  {
    Logger(uid)
  }

  /** The uid fixed at construction: every logger is the one built from its uid. */
  function Uid(l: Logger): (u: string)
    ensures Logger(u) == l
  {
    l.uid
  }

  /** Whether the event carries a payload, as the log line reports it. */
  function PayloadStatus(e: Event): (status: string)
    ensures status == "empty" <==> e.payload.None?
    ensures status == "full" <==> e.payload.Some?
  {
    if e.payload.Some? then "full" else "empty"
  }

  // ---------------------------------------------------------------------
  // Reading a body back

  /** The fields a log body shows. */
  datatype LogFields = LogFields(publisher: string, eventType: EventType, meta: string, hasPayload: bool)

  /** The fields of `e` as its log body shows them. */
  function FieldsOf(e: Event): LogFields {
    LogFields(e.publisher, e.eventType, e.meta, e.payload.Some?)
  }

  /** The prefix of `s` before the first `stop`, if `stop` occurs. */
  function TakeUntil(s: string, stop: char): (r: Option<string>)
    ensures r.Some? ==> |r.value| < |s| && s[..|r.value|] == r.value && s[|r.value|] == stop && stop !in r.value
    ensures r.None? ==> stop !in s
    decreases |s|
  {
    if |s| == 0 then None
    else if s[0] == stop then Some([])
    else match TakeUntil(s[1..], stop)
      case None => None
      case Some(p) => Some([s[0]] + p)
  }

  /** `TakeUntil` stops at the first `stop`. */
  lemma {:induction false} TakeUntilPrefix(p: string, stop: char, rest: string)
    requires stop !in p
    ensures TakeUntil(p + [stop] + rest, stop) == Some(p)
    decreases |p|
  {
    if |p| > 0 {
      assert (p + [stop] + rest)[1..] == p[1..] + [stop] + rest;
      TakeUntilPrefix(p[1..], stop, rest);
      assert [p[0]] + p[1..] == p;
    }
  }

  /** The payload flag read back from the end of a body. */
  function ParseHasPayload(body: string): Option<bool> {
    if |body| >= 5 && body[|body| - 5..] == "empty" then Some(false)
    else if |body| >= 4 && body[|body| - 4..] == "full" then Some(true)
    else None
  }

  /** Meta and payload flag read back from the text after `, m: `. */
  function ParseTail(tail: string): Option<(string, bool)> {
    if |tail| >= 12 && tail[|tail| - 12..] == " | pl: empty" then Some((tail[..|tail| - 12], false))
    else if |tail| >= 11 && tail[|tail| - 11..] == " | pl: full" then Some((tail[..|tail| - 11], true))
    else None
  }

  /** All four fields read back from a body: the publisher up to the first
      `]`, the type between `*` and the next `*`, the meta up to the fixed
      suffix, and the payload flag from that suffix. */
  function ParseBody(body: string): Option<LogFields> {
    if |body| == 0 || body[0] != '[' then None
    else match TakeUntil(body[1..], ']')
      case None => None
      case Some(p) => ParseAfterPublisher(p, body[|p| + 2..])
  }

  /** Reads ` *<type>*` and what follows, the publisher being known. */
  function ParseAfterPublisher(publisher: string, rest: string): Option<LogFields> {
    if |rest| < 2 || rest[..2] != " *" then None
    else match TakeUntil(rest[2..], '*')
      case None => None
      case Some(t) => ParseAfterType(publisher, t, rest[|t| + 3..])
  }

  /** Reads `, m: <meta> | pl: <status>`, publisher and type being known. */
  function ParseAfterType(publisher: string, eventType: EventType, rest: string): Option<LogFields> {
    if |rest| < 5 || rest[..5] != ", m: " then None
    else match ParseTail(rest[5..])
      case None => None
      case Some(mp) => Some(LogFields(publisher, eventType, mp.0, mp.1))
  }

  /** The text `FormatBody` writes for `e`, laid out field by field. */
  ghost predicate IsBodyOf(body: string, e: Event) {
    body == "[" + e.publisher + "] *" + e.eventType + "*, m: " + e.meta + " | pl: " + PayloadStatus(e)
  }

  /** The fixed suffix gives back the meta before it and the payload flag. */
  lemma TailReadsBack(e: Event)
    ensures ParseTail(e.meta + " | pl: " + PayloadStatus(e)) == Some((e.meta, e.payload.Some?))
  {
    var tail := e.meta + " | pl: " + PayloadStatus(e);
    if e.payload.Some? {
      assert tail[|tail| - 1] == 'l';
      assert tail[|tail| - 11..] == " | pl: full";
      assert tail[..|tail| - 11] == e.meta;
    } else {
      assert tail[|tail| - 12..] == " | pl: empty";
      assert tail[..|tail| - 12] == e.meta;
    }
  }

  /** The end of a body gives back the payload flag. */
  lemma PayloadReadsBack(e: Event, body: string)
    requires IsBodyOf(body, e)
    ensures ParseHasPayload(body) == Some(e.payload.Some?)
  {
    if e.payload.Some? {
      assert body[|body| - 4..] == "full";
      assert body[|body| - 5..] == " full";
    } else {
      assert body[|body| - 5..] == "empty";
    }
  }

  /** The first `]` ends the publisher. */
  lemma PublisherReadsBack(publisher: string, rest: string)
    requires ']' !in publisher
    ensures ParseBody("[" + publisher + "]" + rest) == ParseAfterPublisher(publisher, rest)
  {
    var body := "[" + publisher + "]" + rest;
    assert body[1..] == publisher + [']'] + rest;
    TakeUntilPrefix(publisher, ']', rest);
    assert body[|publisher| + 2..] == rest;
  }

  /** The first `*` after ` *` ends the type. */
  lemma TypeReadsBack(publisher: string, eventType: EventType, rest: string)
    requires '*' !in eventType
    ensures ParseAfterPublisher(publisher, " *" + eventType + "*" + rest) == ParseAfterType(publisher, eventType, rest)
  {
    var r := " *" + eventType + "*" + rest;
    assert r[..2] == " *";
    assert r[2..] == eventType + ['*'] + rest;
    TakeUntilPrefix(eventType, '*', rest);
    assert r[|eventType| + 3..] == rest;
  }

  /** The rest gives back the meta and the payload flag. */
  lemma MetaReadsBack(e: Event)
    ensures ParseAfterType(e.publisher, e.eventType, ", m: " + e.meta + " | pl: " + PayloadStatus(e)) == Some(FieldsOf(e))
  {
    var tail := e.meta + " | pl: " + PayloadStatus(e);
    var r := ", m: " + tail;
    assert r == ", m: " + e.meta + " | pl: " + PayloadStatus(e);
    assert r[..5] == ", m: " && r[5..] == tail;
    TailReadsBack(e);
  }

  /** A body gives back all four fields when its delimiters are unambiguous. */
  lemma FieldsReadBack(e: Event, body: string)
    requires IsBodyOf(body, e)
    requires ']' !in e.publisher && '*' !in e.eventType
    ensures ParseBody(body) == Some(FieldsOf(e))
  {
    var afterType := ", m: " + e.meta + " | pl: " + PayloadStatus(e);
    var afterPublisher := " *" + e.eventType + "*" + afterType;
    assert body == "[" + e.publisher + "]" + afterPublisher;
    PublisherReadsBack(e.publisher, afterPublisher);
    TypeReadsBack(e.publisher, e.eventType, afterType);
    MetaReadsBack(e);
  }

  /** The body of the log line written for `e`. The payload flag can always
      be read back from it, and all four fields can when the publisher holds
      no `]` and the type no `*`. */
  function FormatBody(e: Event): (body: string)
    ensures ParseHasPayload(body) == Some(e.payload.Some?)
    ensures ']' !in e.publisher && '*' !in e.eventType ==> ParseBody(body) == Some(FieldsOf(e))
  {
    var body := "[" + e.publisher + "] *" + e.eventType + "*, m: " + e.meta + " | pl: " + PayloadStatus(e);
    PayloadReadsBack(e, body);
    if ']' !in e.publisher && '*' !in e.eventType then
      FieldsReadBack(e, body);
      body
    else
      body
  }

  /** Handles one event: the logger keeps its state, and the line written
      shows the event's payload flag and, when they are delimited
      unambiguously, its publisher, type and meta. */
  function Process(l: Logger, e: Event): (r: (Logger, string))
    ensures r.0 == l
    ensures ParseHasPayload(r.1) == Some(e.payload.Some?)
    ensures ']' !in e.publisher && '*' !in e.eventType ==> ParseBody(r.1) == Some(FieldsOf(e))
  {
    (l, FormatBody(e))
  }

  /** The uid survives any number of processed events, and each line
      written shows its event's payload flag. */
  function ProcessAll(l: Logger, events: seq<Event>): (r: (Logger, seq<string>))
    ensures Uid(r.0) == Uid(l)
    ensures |r.1| == |events|
    ensures forall i :: 0 <= i < |events| ==> ParseHasPayload(r.1[i]) == Some(events[i].payload.Some?)
    ensures forall i :: 0 <= i < |events| && ']' !in events[i].publisher && '*' !in events[i].eventType ==>
              ParseBody(r.1[i]) == Some(FieldsOf(events[i]))
    decreases |events|
  {
    if |events| == 0 then (l, [])
    else
      var (l1, line) := Process(l, events[0]);
      var (l2, rest) := ProcessAll(l1, events[1..]);
      (l2, [line] + rest)
  }
}
