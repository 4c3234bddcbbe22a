/** A message accepted twice, and an accepted message whose event is not saved. */
module ForwardingSurprises {
  import opened Basics
  import opened SessionTypes
  import opened ReplayWindow
  import M = ReducerModel
  import I = ReducerInvariant
  import T = RetiredTurns
  import S = StoreModel
  import F = StoreSafety
  import E = EvidenceModel
  import opened IngestionModel
  import opened IngestionSafety

  const LIMITS := Limits(60_000, 4_096)

  // ---- A message dated ahead ----

  /** Dated one millisecond after the clock of its receiver. */
  const AHEAD := Message("n", 1, None, None)

  lemma AheadIsAccepted()
    ensures Verify([], AHEAD, 0, LIMITS) == ([Entry("n", 0)], None)
  {
    assert [Entry("n", 0)] == [] + [Entry("n", 0)];
  }

  /** The same message is accepted at once and again a millisecond after the window, in an empty receiver. */
  lemma AcceptedAgain()
    ensures Acceptances([], [Call(AHEAD, 0), Call(AHEAD, 60_001)], LIMITS) == 2
  {
    AheadIsAccepted();
    var queue := [Entry("n", 0)];
    var calls := [Call(AHEAD, 0), Call(AHEAD, 60_001)];
    assert queue[1..] == [] && Prune(queue, 60_001, LIMITS) == [];
    assert Accepts(queue, AHEAD, 60_001, LIMITS);
    var rest := [Call(AHEAD, 60_001)];
    assert calls[1..] == rest && rest[1..] == [];
    assert Acceptances(Verify(queue, AHEAD, 60_001, LIMITS).0, [], LIMITS) == 0;
    assert Acceptances(queue, rest, LIMITS) == 1;
  }

  // ---- An event that is not saved ----

  const MESSAGE := Message("n", 0, None, None)
  const EVENT := Event(1, 0, TurnStarted, 0, Some(1), 0, None, None)
  const SUBMISSION := Submission(MESSAGE, EVENT, ForEvent, false, "")
  const FAILING := Surroundings(0, 0, 1, 0, true)

  const PLUGIN := E.Plugin(None, None, None, None, E.NoHooks, E.NotApplicable, E.UnknownCompatibility, None)

  /** An actor that has seen nothing. */
  function Fresh(): Actor {
    Actor([], LIMITS, S.Shared(M.INITIAL, S.EMPTY_ROW), M.INITIAL, E.Discovered([], PLUGIN),
          Counters(0, 0, 0, 0, 0, 0, 0))
  }

  lemma FreshIsSafe()
    ensures Safe(Fresh()) && Fresh().limits == LIMITS && Fresh().queue == []
  {
    F.StartIsSafe();
  }

  lemma SaveFails()
    requires I.Inv(M.INITIAL)
    ensures S.Perform(S.Shared(M.INITIAL, S.EMPTY_ROW), S.Deliver(EVENT, 0, 1, 0, true)).1.Err?
  {
    T.AppliedExactly(M.INITIAL, EVENT, 0, 1);
  }

  /** The store fails on the first event of all; sent again right away the message is refused as a replay. */
  lemma UnsavedThenRefused()
    ensures SUBMISSION.Valid() && Safe(Fresh())
    ensures var (after, result) := Ingest(Fresh(), SUBMISSION, FAILING);
            && result == Err(Persistence)
            && Ingest(after, SUBMISSION, FAILING.(fails := false)).1 == Err(Protocol(ReplayedNonce))
  {
    FreshIsSafe();
    SaveFails();
    assert Verify([], MESSAGE, 0, LIMITS).1 == None;
    assert Ingest(Fresh(), SUBMISSION, FAILING).1 == Err(Persistence);
    UnsavedMessageIsSpent(Fresh(), SUBMISSION, FAILING, FAILING.(fails := false));
  }
}
