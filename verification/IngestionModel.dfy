/**
 The ingestion actor: it verifies a forwarded message, applies and saves its event, and records
 what was accepted. It handles one command at a time.
 */
module IngestionModel {
  import opened Basics
  import opened SessionTypes
  import M = ReducerModel
  import I = ReducerInvariant
  import S = StoreModel
  import W = ReplayWindow
  import E = EvidenceModel

  datatype Counters = Counters(
    accepted: u64, duplicates: u64,
    authentication: u64, replay: u64, expired: u64, malformed: u64, transport: u64)

  datatype Actor = Actor(
    queue: seq<W.Entry>,
    limits: W.Limits,
    shared: S.Shared,
    verification: M.State,
    codex: E.Diagnostics,
    counters: Counters)

  datatype Purpose = ForEvent | ForVerification

  /** A message with its event, and what of the event concerns Codex. */
  datatype Submission = Submission(message: W.Message, event: Event, purpose: Purpose, isCodex: bool, source: string) {
    /** A message that passes all checks carries a valid event. */
    predicate Valid() {
      message.beforeTime.None? && message.afterTime.None? ==> event.Valid()
    }

    function Delivery(): E.Delivery {
      E.Delivery(event.id, event.kind, event.occurredAt, isCodex, source)
    }
  }

  /** What the surroundings contribute: the clocks, a new card's allocation, and whether a save fails. */
  datatype Surroundings = Surroundings(now: u64, at: u64, token: nat, startedAt: u64, fails: bool)

  datatype Disposition = Accepted | Duplicate

  datatype IngestionError = Protocol(error: W.ProtocolError) | InvalidEvent | Persistence

  datatype Category = Authentication | Replay | Expired | MalformedMessage | Transport

  function CategoryOf(error: W.ProtocolError): Category {
    match error
    case InvalidMac => Authentication
    case WrongInstance => Authentication
    case ReplayedNonce => Replay
    case Expired => Category.Expired
    case _ => MalformedMessage
  }

  function Rejected(c: Counters, category: Category): Counters {
    match category
    case Authentication => c.(authentication := SaturatingAdd(c.authentication, 1))
    case Replay => c.(replay := SaturatingAdd(c.replay, 1))
    case Expired => c.(expired := SaturatingAdd(c.expired, 1))
    case MalformedMessage => c.(malformed := SaturatingAdd(c.malformed, 1))
    case Transport => c.(transport := SaturatingAdd(c.transport, 1))
  }

  function Reduced(c: Counters, outcome: M.Outcome): Counters {
    if outcome.Duplicate? then c.(duplicates := SaturatingAdd(c.duplicates, 1))
    else c.(accepted := SaturatingAdd(c.accepted, 1))
  }

  function DispositionOf(outcome: M.Outcome): Disposition {
    if outcome.Duplicate? then Duplicate else Accepted
  }

  /** Apply and save an event, and record it unless that failed. */
  ghost function ReduceEvent(a: Actor, event: Event, delivery: E.Delivery, authenticated: bool, s: Surroundings)
    : (Actor, Result<M.Outcome, IngestionError>)
    requires event.Valid() && I.Inv(a.shared.reducer)
  {
    var (shared, saved) := S.Perform(a.shared, S.Deliver(event, s.at, s.token, s.startedAt, s.fails));
    if saved.Err? then (a.(shared := shared), Err(Persistence))
    else
      var outcome := M.ReduceAt(a.shared.reducer, event, s.at, s.token).outcome;
      (a.(shared := shared,
          codex := E.RecordAccepted(a.codex, delivery, authenticated),
          counters := Reduced(a.counters, outcome)),
       Ok(outcome))
  }

  ghost function Ingest(a: Actor, m: Submission, s: Surroundings): (Actor, Result<Disposition, IngestionError>)
    requires m.Valid() && a.limits.Valid() && I.Inv(a.shared.reducer)
  {
    var (queue, failure) := W.Verify(a.queue, m.message, s.now, a.limits);
    var verified := a.(queue := queue);
    if failure.Some? then
      (verified.(counters := Rejected(a.counters, CategoryOf(failure.value))), Err(Protocol(failure.value)))
    else
      match m.purpose
      case ForEvent =>
        var (reduced, outcome) := ReduceEvent(verified, m.event, m.Delivery(), true, s);
        (reduced, if outcome.Err? then Err(outcome.error) else Ok(DispositionOf(outcome.value)))
      case ForVerification =>
        var step := M.ReduceAt(a.verification, m.event, m.event.occurredAt, s.token);
        (verified.(verification := step.state), Ok(DispositionOf(step.outcome)))
  }

  /** An event read back from the spool carries no authentication. */
  ghost function IngestSpooled(a: Actor, event: Event, delivery: E.Delivery, s: Surroundings)
    : (Actor, Result<M.Outcome, IngestionError>)
    requires I.Inv(a.shared.reducer)
  {
    if !event.Valid() then (a.(counters := Rejected(a.counters, MalformedMessage)), Err(InvalidEvent))
    else ReduceEvent(a, event, delivery, false, s)
  }
}
