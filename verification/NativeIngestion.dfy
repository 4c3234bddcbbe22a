/** The ingestion actor over the objects it owns. */
module NativeIngestion {
  import opened Basics
  import opened SessionTypes
  import M = ReducerModel
  import E = EvidenceModel
  import opened IngestionModel
  import opened ForwardingVerifier
  import opened CodexAdapter
  import opened SessionReducer
  import App = AppState

  class NativeIngestionActor {
    const state: App.AppState
    const verifier: ForwardingVerifier
    const verificationReducer: SessionReducer
    const codexAdapter: CodexAdapterDiagnostics
    var counters: Counters

    ghost predicate Valid()
      reads this, state, state.reducer, verifier, verificationReducer, codexAdapter
    {
      && state.Valid() && verifier.Valid() && verificationReducer.Valid()
      && E.StrictlySorted(codexAdapter.discoveredSurfaces)
      && state.reducer != verificationReducer
    }

    ghost function Contents(): Actor
      reads this, state, state.reducer, verifier, verificationReducer, codexAdapter
    {
      Actor(verifier.acceptedNonces, verifier.limits, state.World(), verificationReducer.Abs(),
            codexAdapter.Contents(), counters)
    }

    constructor (
      state: App.AppState, verifier: ForwardingVerifier, verificationReducer: SessionReducer,
      codexAdapter: CodexAdapterDiagnostics)
      requires state.Valid() && verifier.Valid() && verificationReducer.Valid()
      requires E.StrictlySorted(codexAdapter.discoveredSurfaces) && state.reducer != verificationReducer
      ensures Valid()
      ensures Contents() == Actor(verifier.acceptedNonces, verifier.limits, state.World(), verificationReducer.Abs(),
                                  codexAdapter.Contents(), Counters(0, 0, 0, 0, 0, 0, 0))
    {
      this.state, this.verifier, this.verificationReducer, this.codexAdapter :=
        state, verifier, verificationReducer, codexAdapter;
      counters := Counters(0, 0, 0, 0, 0, 0, 0);
    }

    method Ingest(m: Submission, s: Surroundings) returns (result: Result<Disposition, IngestionError>)
      requires Valid() && m.Valid()
      modifies this, state, state.reducer, verifier, verificationReducer, codexAdapter
      ensures Valid() && fresh({state.reducer} - {old(state.reducer)})
      ensures (Contents(), result) == IngestionModel.Ingest(old(Contents()), m, s)
    {
      var failure := verifier.VerifyPayload(m.message, s.now);
      if failure.Some? {
        RecordRejection(CategoryOf(failure.value));
        return Err(Protocol(failure.value));
      }
      match m.purpose
      case ForEvent =>
        var reduced := ReduceEvent(m.event, m.Delivery(), true, s);
        if reduced.Err? {
          return Err(reduced.error);
        }
        result := Ok(DispositionOf(reduced.value));
      case ForVerification =>
        var outcome := verificationReducer.ReduceAt(m.event, m.event.occurredAt, s.token);
        result := Ok(DispositionOf(outcome));
    }

    method IngestSpooled(event: Event, delivery: E.Delivery, s: Surroundings)
      returns (result: Result<M.Outcome, IngestionError>)
      requires Valid()
      modifies this, state, state.reducer, codexAdapter
      ensures Valid() && fresh({state.reducer} - {old(state.reducer)})
      ensures (Contents(), result) == IngestionModel.IngestSpooled(old(Contents()), event, delivery, s)
    {
      if !event.Valid() {
        RecordRejection(MalformedMessage);
        return Err(InvalidEvent);
      }
      result := ReduceEvent(event, delivery, false, s);
    }

    method ReduceEvent(event: Event, delivery: E.Delivery, authenticated: bool, s: Surroundings)
      returns (result: Result<M.Outcome, IngestionError>)
      requires Valid() && event.Valid()
      modifies this, state, state.reducer, codexAdapter
      ensures Valid() && fresh({state.reducer} - {old(state.reducer)})
      ensures (Contents(), result) == IngestionModel.ReduceEvent(old(Contents()), event, delivery, authenticated, s)
    {
      var outcome := state.ApplySessionEventPersisted(event, s.at, s.token, s.startedAt, s.fails);
      if outcome.Err? {
        return Err(Persistence);
      }
      codexAdapter.RecordAcceptedEventInner(delivery, authenticated);
      if outcome.value.Duplicate? {
        counters := counters.(duplicates := SaturatingAdd(counters.duplicates, 1));
      } else {
        counters := counters.(accepted := SaturatingAdd(counters.accepted, 1));
      }
      result := Ok(outcome.value);
    }

    method RecordRejection(category: Category)
      modifies this`counters
      ensures counters == Rejected(old(counters), category)
    {
      counters := Rejected(counters, category);
    }
  }
}
