/** Operations on the reducer that are saved before they are kept, under a store that may fail. */
module StoreModel {
  import opened Basics
  import opened SessionTypes
  import opened ReducerModel
  import opened ReducerInvariant
  import opened PersistenceModel

  const I64_MAX: nat := 0x7FFF_FFFF_FFFF_FFFF

  /** The application row of the database: the saved revision, and the saved document if any. */
  datatype Row = Row(revision: u64, saved: Option<PersistedState>)

  const EMPTY_ROW := Row(0, None)

  datatype SaveError = Invalid(error: RestoreError) | StoreFailed | RevisionTooLarge | Rejected

  /** Validation comes first; `fails` stands for any failure of opening, encoding or updating. */
  function Save(row: Row, state: PersistedState, fails: bool): Result<Row, SaveError> {
    var checked := Restore(state, 0);
    if checked.Err? then Err(Invalid(checked.error))
    else if fails then Err(StoreFailed)
    else if state.revision > I64_MAX then Err(RevisionTooLarge)
    else if row.revision < state.revision
            || (row.revision == state.revision && (row.saved.None? || row.saved == Some(state)))
    then Ok(Row(state.revision, Some(state)))
    else Err(Rejected)
  }

  datatype Command =
    | Deliver(event: Event, at: u64, token: nat, startedAt: u64, fails: bool)
    | Dismiss(id: NotificationId, now: u64, fails: bool)
    | Title(original: Notification, title: string, fails: bool)
    | Tick(now: u64)
  {
    predicate Valid() { Deliver? ==> event.Valid() }

    predicate Fails() { !Tick? && fails }
  }

  /** What the reducer would become, and whether that has to be saved. */
  function Attempt(s: State, c: Command): (State, bool)
    requires c.Valid()
  {
    match c
    case Deliver(event, at, token, _, _) =>
      var step := ReduceAt(s, event, at, token);
      (step.state, step.outcome.Applied?)
    case Dismiss(id, now, _) =>
      var step := Acknowledge(s, id, now);
      (step.state, step.outcome.Applied?)
    case Title(original, title, _) => UpdateTitle(s, original, title)
    case Tick(now) => (Advance(s, now).state, false)
  }

  /** The reminder starts over once the save is through. */
  function Finish(s: State, c: Command): State {
    if c.Deliver? && c.event.kind.StartsActivity() then RestartActivityReminder(s, c.startedAt) else s
  }

  datatype Shared = Shared(reducer: State, row: Row)

  /** On failure the reducer is put back; on success memory and disk move together. */
  ghost function Perform(w: Shared, c: Command): (Shared, Result<bool, SaveError>)
    requires c.Valid() && Inv(w.reducer)
  {
    var (attempted, save) := Attempt(w.reducer, c);
    AttemptKeepsInv(w.reducer, c);
    if !save then (w.(reducer := attempted), Ok(false))
    else
      var saved := Save(w.row, Persist(attempted), c.Fails());
      if saved.Err? then (w, Err(saved.error))
      else (Shared(Finish(attempted, c), saved.value), Ok(true))
  }

  lemma AttemptKeepsInv(s: State, c: Command)
    requires Inv(s) && c.Valid()
    ensures Inv(Attempt(s, c).0)
  {
    match c
    case Deliver(event, at, token, _, _) => OpKeepsInv(s, Op.Deliver(event, at, token));
    case Dismiss(id, now, _) => OpKeepsInv(s, Op.Dismiss(id, now));
    case Title(original, title, _) => OpKeepsInv(s, Op.Title(original, title));
    case Tick(now) => OpKeepsInv(s, Op.Tick(now));
  }
}
