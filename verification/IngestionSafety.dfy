/** What one command to the ingestion actor changes, and what an acknowledgement is worth. */
module IngestionSafety {
  import opened Basics
  import opened SessionTypes
  import M = ReducerModel
  import I = ReducerInvariant
  import S = StoreModel
  import F = StoreSafety
  import P = PersistenceModel
  import O = DeliveryOnce
  import W = ReplayWindow
  import E = EvidenceModel
  import V = EvidenceSafety
  import R = SaveRefusals
  import opened IngestionModel

  ghost predicate Safe(a: Actor) {
    && F.Safe(a.shared)
    && I.Inv(a.verification)
    && a.limits.Valid()
  }

  lemma ReduceKeepsSafe(a: Actor, event: Event, delivery: E.Delivery, authenticated: bool, s: Surroundings)
    requires Safe(a) && event.Valid()
    ensures Safe(ReduceEvent(a, event, delivery, authenticated, s).0)
    ensures ReduceEvent(a, event, delivery, authenticated, s).1.Err? ==>
      ReduceEvent(a, event, delivery, authenticated, s).0 == a
  {
    F.PerformIsSafe(a.shared, S.Deliver(event, s.at, s.token, s.startedAt, s.fails));
  }

  /** Memory and disk stay consistent whatever is submitted, authenticated or from the spool. */
  lemma IngestKeepsSafe(a: Actor, m: Submission, s: Surroundings)
    requires Safe(a) && m.Valid()
    ensures Safe(Ingest(a, m, s).0)
  {
    var (queue, failure) := W.Verify(a.queue, m.message, s.now, a.limits);
    if failure.None? {
      match m.purpose
      case ForEvent => ReduceKeepsSafe(a.(queue := queue), m.event, m.Delivery(), true, s);
      case ForVerification => I.DeliverKeepsInv(a.verification, m.event, m.event.occurredAt, s.token);
    }
  }

  lemma IngestSpooledKeepsSafe(a: Actor, event: Event, delivery: E.Delivery, s: Surroundings)
    requires Safe(a)
    ensures Safe(IngestSpooled(a, event, delivery, s).0)
  {
    if event.Valid() {
      ReduceKeepsSafe(a, event, delivery, false, s);
    }
  }

  /** Everything but the memory of accepted messages. */
  function Lasting(a: Actor): (S.Shared, M.State, E.Diagnostics) {
    (a.shared, a.verification, a.codex)
  }

  /**
   What a submission can change. Rejected by the protocol: nothing but one rejection count and
   forgotten old messages. For verification only: nothing but the verification's own reducer. Not
   saved: nothing but the memory of accepted messages.
   */
  lemma IngestChangesOnly(a: Actor, m: Submission, s: Surroundings)
    requires Safe(a) && m.Valid()
    ensures var (after, result) := Ingest(a, m, s);
            && after.limits == a.limits
            && (result.Err? ==> Lasting(after) == Lasting(a))
            && (result.Err? && result.error.Protocol? ==>
                  && after.counters == Rejected(a.counters, CategoryOf(result.error.error))
                  && (forall entry :: entry in after.queue ==> entry in a.queue))
            && (result.Err? && !result.error.Protocol? ==> result.error == Persistence && after.counters == a.counters)
            && (result.Ok? && m.purpose.ForVerification? ==>
                  after.shared == a.shared && after.codex == a.codex && after.counters == a.counters)
            && (result.Ok? && m.purpose.ForEvent? ==> after.verification == a.verification)
            && (!(result.Err? && result.error.Protocol?) ==>
                  W.Accepts(a.queue, m.message, s.now, a.limits) && W.Entry(m.message.nonce, s.now) in after.queue)
  {
    var (queue, failure) := W.Verify(a.queue, m.message, s.now, a.limits);
    if failure.None? {
      if m.purpose.ForEvent? {
        ReduceKeepsSafe(a.(queue := queue), m.event, m.Delivery(), true, s);
      }
    } else {
      var cut := W.PruneIsSuffix(a.queue, s.now, a.limits);
    }
  }

  /**
   An event acknowledged as accepted is on disk, unless it was stale; then memory changed by no more
   than the window of recent deliveries, and the disk not at all.
   */
  lemma AcknowledgedIsSaved(a: Actor, m: Submission, s: Surroundings)
    requires Safe(a) && m.Valid() && m.purpose.ForEvent? && Ingest(a, m, s).1 == Ok(Accepted)
    ensures m.event.Valid() && ReducedWell(a.shared, m.event, s, Ingest(a, m, s).0.shared)
  {
    ReduceIsSaved(a.shared, m.event, s);
  }

  ghost predicate ReducedWell(before: S.Shared, event: Event, s: Surroundings, after: S.Shared)
    requires event.Valid()
  {
    if M.ReduceAt(before.reducer, event, s.at, s.token).outcome.Applied?
    then I.Inv(after.reducer) && after.row.saved == Some(P.Persist(after.reducer))
    else after.row == before.row
         && after.reducer == before.reducer.(recentIds := after.reducer.recentIds, recentSet := after.reducer.recentSet)
  }

  lemma ReduceIsSaved(before: S.Shared, event: Event, s: Surroundings)
    requires F.Safe(before) && event.Valid()
    ensures var (after, saved) := S.Perform(before, S.Deliver(event, s.at, s.token, s.startedAt, s.fails));
            saved.Ok? ==> ReducedWell(before, event, s, after)
  {
    F.PerformIsSafe(before, S.Deliver(event, s.at, s.token, s.startedAt, s.fails));
    O.RefusedLeavesNoTrace(before.reducer, event, s.at, s.token);
  }

  /**
   A message whose event could not be saved counts as accepted all the same: sent again it is refused
   as a replay within the window and, if the clock has never run back, only then. Its event is not
   lost by that, as handing it over once more, under a new nonce or from the spool, acts on memory and
   disk as if the first had never come.
   */
  lemma UnsavedMessageIsSpent(a: Actor, m: Submission, s: Surroundings, again: Surroundings)
    requires Safe(a) && m.Valid() && Ingest(a, m, s).1 == Err(Persistence)
    ensures var after := Ingest(a, m, s).0;
            && (W.Check(m.message, again.now, a.limits).None? && SaturatingSub(again.now, s.now) <= a.limits.window ==>
                  Ingest(after, m, again).1 == Err(Protocol(W.ReplayedNonce)))
            && (W.Check(m.message, again.now, a.limits).None? && W.Chronological(a.queue, s.now) ==>
                  (Ingest(after, m, again).1 == Err(Protocol(W.ReplayedNonce))
                   <==> SaturatingSub(again.now, s.now) <= a.limits.window))
            && (m.event.Valid() ==>
                  IngestSpooled(after, m.event, m.Delivery(), again).0.shared
                  == IngestSpooled(a, m.event, m.Delivery(), again).0.shared)
  {
    IngestChangesOnly(a, m, s);
    IngestKeepsSafe(a, m, s);
    if W.Check(m.message, again.now, a.limits).None? {
      W.RefusedExactly(a.queue, m.message, s.now, again.now, a.limits);
    }
  }

  /** What the receiver knows of plugins is changed by saved authenticated events only. */
  lemma EvidenceNeedsAuthentication(a: Actor, m: Submission, event: Event, delivery: E.Delivery, s: Surroundings)
    requires Safe(a) && m.Valid()
    ensures var after := Ingest(a, m, s).0;
            after.codex.evidence != a.codex.evidence || after.codex.plugin != a.codex.plugin ==>
              && m.purpose.ForEvent? && Ingest(a, m, s).1.Ok?
              && V.Logged(V.Deliver(m.Delivery(), true)) != []
    ensures var after := IngestSpooled(a, event, delivery, s).0;
            after.codex.evidence == a.codex.evidence && after.codex.plugin == a.codex.plugin
  {
    IngestChangesOnly(a, m, s);
    V.SpooledMakesNoEvidence(a.codex, delivery);
  }

  // ---- What is answered and counted ----

  /** The event was delivered lately and nothing since has opened or ended its session the other way. */
  predicate WasDelivered(reducer: M.State, event: Event) {
    && event.Key() in reducer.recentSet
    && (event.kind == SessionStarted ==> event.Owner() in reducer.sessions && !reducer.sessions[event.Owner()].ended)
    && (event.kind == SessionEnded ==> event.Owner() in reducer.sessions && reducer.sessions[event.Owner()].ended)
  }

  /** The reducer a submission is for. */
  function Target(a: Actor, m: Submission): M.State {
    match m.purpose
    case ForEvent => a.shared.reducer
    case ForVerification => a.verification
  }

  /**
   Under a clock that has not run back a submission is acknowledged exactly if its message passes the
   checks, is dated within the window and not a replay, and, when it is for the event, the event is
   out of date or known, or can be saved; otherwise the store is the reason.
   */
  lemma AcknowledgedExactly(a: Actor, m: Submission, s: Surroundings)
    requires Safe(a) && m.Valid() && W.Chronological(a.queue, s.now)
    ensures var accepted := W.PassesTheOtherChecks(m.message) && W.InDate(m.message, s.now, a.limits)
                            && !W.IsKnown(a.queue, m.message.nonce, s.now, a.limits);
            var command := S.Deliver(m.event, s.at, s.token, s.startedAt, s.fails);
            && (Ingest(a, m, s).1.Err? && Ingest(a, m, s).1.error.Protocol? <==> !accepted)
            && (accepted ==>
                  && m.event.Valid()
                  && (Ingest(a, m, s).1 == Err(Persistence) <==>
                        m.purpose == ForEvent
                        && R.Answer(a.shared.reducer, command, R.Spoils(a.shared.reducer, command)).Err?))
  {
    W.AcceptedExactly(a.queue, m.message, s.now, a.limits);
    if m.event.Valid() {
      R.AnswersExactly(a.shared, S.Deliver(m.event, s.at, s.token, s.startedAt, s.fails));
    }
  }

  /**
   A submission that is acknowledged is told to be a duplicate exactly if its event was delivered lately
   to the reducer it is for, and then changes nothing of that reducer, nor of the disk.
   */
  lemma DuplicateExactly(a: Actor, m: Submission, s: Surroundings)
    requires Safe(a) && m.Valid() && Ingest(a, m, s).1.Ok?
    ensures var (after, result) := Ingest(a, m, s);
            && (result == Ok(Duplicate) <==> WasDelivered(Target(a, m), m.event))
            && (result == Ok(Duplicate) ==>
                  after.shared == a.shared && after.verification == a.verification)
  {
    if m.purpose == ForEvent {
      O.RefusedLeavesNoTrace(a.shared.reducer, m.event, s.at, s.token);
    } else {
      O.RefusedLeavesNoTrace(a.verification, m.event, m.event.occurredAt, s.token);
    }
  }

  function OneMore(counter: u64): u64 {
    if counter < U64_MAX then counter + 1 else U64_MAX
  }

  /** The counters after a refusal for this reason. */
  function Refused(c: Counters, error: W.ProtocolError): Counters {
    if error == W.InvalidMac || error == W.WrongInstance then c.(authentication := OneMore(c.authentication))
    else if error == W.ReplayedNonce then c.(replay := OneMore(c.replay))
    else if error == W.Expired then c.(expired := OneMore(c.expired))
    else c.(malformed := OneMore(c.malformed))
  }

  /**
   Every submission moves at most one counter by one: an event acknowledged counts as accepted or as a
   duplicate; a refusal counts by its reason; what is only verified, or not saved, counts as nothing.
   */
  lemma CountedExactly(a: Actor, m: Submission, s: Surroundings)
    requires Safe(a) && m.Valid()
    ensures var (after, result) := Ingest(a, m, s);
            var c := a.counters;
            after.counters == match result
              case Ok(disposition) =>
                if m.purpose == ForVerification then c
                else if disposition == Duplicate then c.(duplicates := OneMore(c.duplicates))
                else c.(accepted := OneMore(c.accepted))
              case Err(Protocol(error)) => Refused(c, error)
              case Err(_) => c
  {
    IngestChangesOnly(a, m, s);
    var failure := W.Verify(a.queue, m.message, s.now, a.limits).1;
    if failure.Some? {
      RefusedIs(a.counters, failure.value);
    }
  }

  lemma RefusedIs(c: Counters, error: W.ProtocolError)
    ensures Rejected(c, CategoryOf(error)) == Refused(c, error)
  {
  }

  /** An event from the spool counts as accepted or as a duplicate, an invalid one as malformed. */
  lemma SpooledCountedExactly(a: Actor, event: Event, delivery: E.Delivery, s: Surroundings)
    requires Safe(a)
    ensures var (after, result) := IngestSpooled(a, event, delivery, s);
            var c := a.counters;
            && (!event.Valid() <==> result == Err(InvalidEvent))
            && (!event.Valid() ==> after == a.(counters := c.(malformed := OneMore(c.malformed))))
            && (result.Ok? ==>
                  after.counters == if WasDelivered(a.shared.reducer, event)
                                    then c.(duplicates := OneMore(c.duplicates))
                                    else c.(accepted := OneMore(c.accepted)))
            && (result == Err(Persistence) ==> after == a)
  {
  }
}
