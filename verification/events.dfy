/**
 Events and the process-wide registry of event types (events.go).

 A Go panic in `NewEvent` or `RegisterEventType` is modelled as a `Failure`
 result; the registry, a global guarded by a read/write lock in the source,
 is an explicit immutable value threaded through the calls.
 */
module Events {
  import opened Wrappers

  /** An event type tag (Go: `type EventType string`). */
  type EventType = string

  /** The payload is an opaque value the bus never inspects. */
  datatype Payload = Payload(handle: nat)

  /** An event; `payload == None` stands for a nil `interface{}`. */
  datatype Event = Event(publisher: string, eventType: EventType, meta: string, payload: Option<Payload>)

  /** The three predefined event types. */
  const Error: EventType := "Error"
  const Info: EventType := "Info"
  const Shutdown: EventType := "Shutdown"

  /** Why `NewEvent` refuses its arguments (the two panics of the source). */
  datatype EventError = EmptyPublisher | EmptyType

  /** The texts of the two panics of `NewEvent`. */
  function EventMessage(err: EventError): (msg: string)
    ensures msg == "event must have a non-empty publisher" <==> err == EmptyPublisher
    ensures msg == "event must have a non-empty type" <==> err == EmptyType
  {
    match err
    case EmptyPublisher => "event must have a non-empty publisher"
    case EmptyType => "event must have a non-empty type"
  }

  /** An event that `NewEvent` would accept. */
  predicate WellFormed(e: Event) {
    e.publisher != "" && e.eventType != ""
  }

  /** Builds an event, refusing an empty publisher first and an empty type second.
      The type is not required to be registered. */
  function NewEvent(publisher: string, eventType: EventType, meta: string, payload: Option<Payload>): (r: Result<Event, EventError>)
    ensures r.Success? <==> publisher != "" && eventType != ""
    ensures publisher == "" ==> r == Failure(EmptyPublisher)
    ensures publisher != "" && eventType == "" ==> r == Failure(EmptyType)
    ensures r.Success? ==> WellFormed(r.value)
    ensures r.Success? ==> r.value.publisher == publisher && r.value.eventType == eventType
                           && r.value.meta == meta && r.value.payload == payload
  {
    if publisher == "" then Failure(EmptyPublisher)
    else if eventType == "" then Failure(EmptyType)
    else Success(Event(publisher, eventType, meta, payload))
  }

  /** Every well-formed event is rebuilt exactly by `NewEvent` from its own
      fields, and only well-formed events are. */
  lemma NewEventRoundTrip(e: Event)
    ensures WellFormed(e) <==> NewEvent(e.publisher, e.eventType, e.meta, e.payload) == Success(e)
  {
  }

  /** An informational event without payload; the publisher is NOT checked. */
  function InfoEvent(publisher: string, message: string): (r: Event)
    ensures r.publisher == publisher && r.eventType == Info && r.meta == message && r.payload.None?
  {
    Event(publisher, Info, message, None)
  }

  /** An error event without payload; the publisher is NOT checked. */
  function ErrorEvent(publisher: string, message: string): (r: Event)
    ensures r.publisher == publisher && r.eventType == Error && r.meta == message && r.payload.None?
  {
    Event(publisher, Error, message, None)
  }

  /** The helpers agree with `NewEvent` whenever `NewEvent` accepts the
      arguments, and build an event `NewEvent` would refuse when the publisher
      is empty. */
  lemma HelpersAgreeWithNewEvent(publisher: string, message: string)
    ensures publisher != "" ==> NewEvent(publisher, Info, message, None) == Success(InfoEvent(publisher, message))
    ensures publisher != "" ==> NewEvent(publisher, Error, message, None) == Success(ErrorEvent(publisher, message))
    ensures publisher == "" ==> !WellFormed(InfoEvent(publisher, message)) && !WellFormed(ErrorEvent(publisher, message))
  {
  }

  // ---------------------------------------------------------------------
  // Event type registry

  /** The set of registered event types. */
  datatype TypeRegistry = TypeRegistry(types: set<EventType>)

  /** Why `RegisterEventType` refuses a tag (the panic of the source). */
  datatype RegistryError = DuplicateRegistration(eventType: EventType)

  /** The text of the panic raised on a duplicate registration. */
  function RegistryMessage(err: RegistryError): (msg: string)
    ensures |msg| >= |"duplicate event type registration: "|
    ensures msg[..|"duplicate event type registration: "|] == "duplicate event type registration: "
    ensures msg[|"duplicate event type registration: "|..] == err.eventType
  {
    "duplicate event type registration: " + err.eventType
  }

  /** The registry at process start. */
  function InitialRegistry(): TypeRegistry {
    TypeRegistry({Error, Info, Shutdown})
  }


  /** Adds a tag; a tag that is already present is refused before any insert. */
  function Register(reg: TypeRegistry, t: EventType): (r: Result<TypeRegistry, RegistryError>)
    ensures r.Failure? <==> t in reg.types
    ensures r.Failure? ==> r.error == DuplicateRegistration(t)
    ensures r.Success? ==> r.value.types - reg.types == {t} && reg.types <= r.value.types
  {
    if t in reg.types then Failure(DuplicateRegistration(t))
    else Success(TypeRegistry(reg.types + {t}))
  }

  /** Membership test; it reads the registry and never changes it. A tag is
      reported registered exactly when registering it would be refused. */
  function IsRegistered(reg: TypeRegistry, t: EventType): (b: bool)
    ensures b <==> Register(reg, t).Failure?
  {
    t in reg.types
  }

  /** The initial registry holds exactly Error, Info and Shutdown. */
  lemma InitialRegistryContents(t: EventType)
    ensures IsRegistered(InitialRegistry(), t) <==> t == Error || t == Info || t == Shutdown
    ensures !IsRegistered(InitialRegistry(), "UnregisteredEvent")
    ensures !IsRegistered(InitialRegistry(), "CustomEvent")
  {
  }

  /** After a successful registration the tag is reported registered, every
      other tag keeps its answer, and registering it again fails. */
  lemma RegisterThenRegistered(reg: TypeRegistry, t: EventType, other: EventType)
    requires !IsRegistered(reg, t)
    ensures Register(reg, t).Success?
    ensures IsRegistered(Register(reg, t).value, t)
    ensures other != t ==> (IsRegistered(Register(reg, t).value, other) <==> IsRegistered(reg, other))
    ensures Register(Register(reg, t).value, t) == Failure(DuplicateRegistration(t))
  {
  }

  /** A sequence of `RegisterEventType` calls; the first panic ends the run. */
  function RegisterAll(reg: TypeRegistry, tags: seq<EventType>): Result<TypeRegistry, RegistryError>
    decreases |tags|
  {
    if |tags| == 0 then Success(reg)
    else match Register(reg, tags[0])
      case Failure(err) => Failure(err)
      case Success(next) => RegisterAll(next, tags[1..])
  }

  /** No tag occurs twice in `tags`. */
  predicate Distinct(tags: seq<EventType>) {
    forall i, j :: 0 <= i < j < |tags| ==> tags[i] != tags[j]
  }

  /** A run of registrations succeeds exactly when its tags are fresh and
      pairwise distinct, and then the registry has grown by exactly those tags. */
  lemma {:induction false} RegisterAllSucceedsIff(reg: TypeRegistry, tags: seq<EventType>)
    ensures RegisterAll(reg, tags).Success? <==> Distinct(tags) && (forall i :: 0 <= i < |tags| ==> tags[i] !in reg.types)
    ensures RegisterAll(reg, tags).Success? ==> RegisterAll(reg, tags).value.types == reg.types + set t | t in tags
    decreases |tags|
  {
    if |tags| > 0 {
      var t := tags[0];
      if t in reg.types {
      } else {
        var next := TypeRegistry(reg.types + {t});
        RegisterAllSucceedsIff(next, tags[1..]);
        assert (set x | x in tags) == {t} + set x | x in tags[1..] by {
          assert tags == [t] + tags[1..];
        }
        if Distinct(tags) && (forall i :: 0 <= i < |tags| ==> tags[i] !in reg.types) {
          assert forall i :: 0 <= i < |tags[1..]| ==> tags[1..][i] !in next.types by {
            forall i | 0 <= i < |tags[1..]|
              ensures tags[1..][i] !in next.types
            {
              assert tags[1..][i] == tags[i + 1];
            }
          }
        }
        if RegisterAll(reg, tags).Success? {
          forall i, j | 0 <= i < j < |tags|
            ensures tags[i] != tags[j]
          {
            if i > 0 {
              assert tags[i] == tags[1..][i - 1] && tags[j] == tags[1..][j - 1];
            } else {
              assert tags[j] == tags[1..][j - 1];
            }
          }
          forall i | 0 <= i < |tags|
            ensures tags[i] !in reg.types
          {
            if i > 0 {
              assert tags[i] == tags[1..][i - 1];
            }
          }
        }
      }
    }
  }

  /** The registry only grows: whatever a run of registrations returns keeps
      every tag registered before it. */
  lemma {:induction false} RegistryOnlyGrows(reg: TypeRegistry, tags: seq<EventType>, t: EventType)
    requires IsRegistered(reg, t)
    ensures RegisterAll(reg, tags).Success? ==> IsRegistered(RegisterAll(reg, tags).value, t)
    decreases |tags|
  {
    if |tags| > 0 && tags[0] !in reg.types {
      RegistryOnlyGrows(TypeRegistry(reg.types + {tags[0]}), tags[1..], t);
    }
  }
}
