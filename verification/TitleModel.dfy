/**
 Resolving card titles in the background. Scheduling, completion, reconfiguration and shutdown
 interleave with each other and with every change of the reducer; a step is what happens under
 one holding of the locks involved.
 */
module TitleModel {
  import opened Basics
  import opened SessionTypes
  import opened ReducerModel
  import R = ReducerInvariant

  const MAX_PENDING_TITLES: nat := 256

  // Tokens and configurations are fresh identities; the model numbers them in order of creation.
  type Token = nat
  type Config = nat

  type Pending = map<NotificationId, Token>

  // ---- The dispatch table ----

  /** Drop the entries whose card was not unread in the snapshot. */
  function Prune(pending: Pending, unread: set<NotificationId>): Pending {
    map id | id in pending && id in unread :: pending[id]
  }

  function UnreadIds(cards: seq<Notification>): set<NotificationId> {
    set card | card in cards && card.state.Unread? :: card.id
  }

  predicate Wanted(card: Notification, only: Option<EventKey>, providers: set<ProviderId>) {
    && card.state.Unread?
    && (only.Some? ==> only.value == EventKey(card.provider, card.event))
    && card.provider in providers
  }

  datatype Admission = Admission(pending: Pending, spawned: map<Token, Notification>, next: Token)

  function AdmitOne(a: Admission, card: Notification, only: Option<EventKey>, providers: set<ProviderId>): Admission {
    if !Wanted(card, only, providers) || card.id in a.pending || |a.pending| >= MAX_PENDING_TITLES then a
    else Admission(a.pending[card.id := a.next], a.spawned[a.next := card], a.next + 1)
  }

  /** Enter the wanted cards one by one while there is room, each with a fresh token. */
  function Admit(a: Admission, cards: seq<Notification>, only: Option<EventKey>, providers: set<ProviderId>): Admission
    decreases |cards|
  {
    if cards == [] then a
    else
      Admit(AdmitOne(a, cards[0], only, providers), cards[1..], only, providers)
  }

  // ---- The whole ----

  /** Where a worker stands: resolving, holding the runtime, also holding the table, or done but for its entry. */
  datatype Stage = Resolving | Holding(answer: Option<string>) | Writing(title: string) | Finishing

  datatype Worker = Worker(card: Notification, config: Config, stage: Stage)

  /** A scheduling call between reading the cards and taking the table; it holds the runtime. */
  datatype Call = Call(cards: seq<Notification>, only: Option<EventKey>)

  datatype Shutdown = Running | Closing | Drained

  datatype World = World(
    reducer: State,
    closed: bool,
    pending: Pending,
    supervisor: Option<Config>,
    calls: map<nat, Call>,
    workers: map<Token, Worker>,
    shutdown: Shutdown,
    lifecycle: bool,
    nextToken: Token,
    nextConfig: Config,
    nextCall: nat,
    nextIncarnation: nat)

  datatype Step =
    | Reduce(op: R.Op)
    | BeginSchedule(cards: seq<Notification>, only: Option<EventKey>)
    | RunSchedule(call: nat, providers: set<ProviderId>)
    | Resolve(token: Token, title: Option<string>)
    | TakeTable(token: Token)
    | Write(token: Token, fails: bool)
    | Finish(token: Token)
    | Abort(token: Token)
    | Reconfigure(valid: bool)
    | BeginShutdown
    | DrainShutdown
    | EndShutdown

  /** Some worker holds the table while it writes. */
  predicate TableHeld(w: World) {
    exists token :: token in w.workers && w.workers[token].stage.Writing?
  }

  predicate RuntimeHeld(w: World) {
    || w.calls != map[]
    || exists token :: token in w.workers && (w.workers[token].stage.Writing? || w.workers[token].stage.Holding?)
  }

  /** The cards read by a scheduling call are those of the reducer. */
  ghost predicate IsSnapshot(w: World, cards: seq<Notification>) {
    forall i :: 0 <= i < |cards| ==>
      cards[i].id in w.reducer.notifications && w.reducer.notifications[cards[i].id] == cards[i]
  }

  ghost predicate Enabled(w: World, step: Step) {
    match step
    case Reduce(op) =>
      // New cards are new allocations; titles are written by workers only.
      op.Valid() && !op.Title? && (op.Deliver? ==> op.token == w.nextIncarnation)
    case BeginSchedule(cards, _) => w.supervisor.Some? && IsSnapshot(w, cards)
    case RunSchedule(call, _) => call in w.calls && !TableHeld(w)
    case Resolve(token, _) => token in w.workers && w.workers[token].stage.Resolving?
    case TakeTable(token) => token in w.workers && w.workers[token].stage.Holding? && !TableHeld(w)
    case Write(token, _) => token in w.workers && w.workers[token].stage.Writing?
    case Finish(token) => token in w.workers && w.workers[token].stage.Finishing? && !TableHeld(w)
    case Abort(token) => token in w.workers
    case Reconfigure(_) => !w.lifecycle && !RuntimeHeld(w) && !TableHeld(w)
    case BeginShutdown => !w.lifecycle && !TableHeld(w)
    case DrainShutdown => w.lifecycle && w.shutdown.Closing? && !TableHeld(w)
    case EndShutdown => w.lifecycle && w.shutdown.Drained?
  }

  function Gone(w: World, token: Token): World {
    w.(workers := w.workers - {token})
  }

  function Moved(w: World, token: Token, stage: Stage): World
    requires token in w.workers
  {
    w.(workers := w.workers[token := w.workers[token].(stage := stage)])
  }

  function RunScheduleStep(w: World, call: nat, providers: set<ProviderId>): World
    requires call in w.calls
  {
    var c := w.calls[call];
    var done := w.(calls := w.calls - {call});
    if w.closed || w.supervisor.None? then done
    else
      var admission := Admit(Admission(Prune(w.pending, UnreadIds(c.cards)), map[], w.nextToken),
                             c.cards, c.only, providers);
      done.(
        pending := admission.pending,
        workers := w.workers + map token | token in admission.spawned ::
                     Worker(admission.spawned[token], w.supervisor.value, Resolving),
        nextToken := admission.next)
  }

  /** The title goes in if the card still is what the worker saw and, with a store, the save succeeds. */
  function WriteStep(w: World, token: Token, fails: bool): World
    requires token in w.workers && w.workers[token].stage.Writing?
  {
    var worker := w.workers[token];
    var (updated, changed) := UpdateTitle(w.reducer, worker.card, worker.stage.title);
    Moved(w.(reducer := if changed && !fails then updated else w.reducer), token, Finishing)
  }

  /** A result under an older configuration is dropped; otherwise the worker goes on holding the runtime. */
  function ResolveStep(w: World, token: Token, title: Option<string>): World
    requires token in w.workers
  {
    if w.supervisor == Some(w.workers[token].config) then Moved(w, token, Holding(title)) else Gone(w, token)
  }

  /** Only the worker whose token is the pending one goes on; without a title it just leaves the table. */
  function TakeTableStep(w: World, token: Token): World
    requires token in w.workers && w.workers[token].stage.Holding?
  {
    var worker := w.workers[token];
    if worker.card.id !in w.pending || w.pending[worker.card.id] != token then Gone(w, token)
    else if worker.stage.answer.None? then Gone(w, token).(pending := w.pending - {worker.card.id})
    else Moved(w, token, Writing(worker.stage.answer.value))
  }

  /** Take the entry out, unless it meanwhile belongs to another worker. */
  function Release(pending: Pending, id: NotificationId, token: Token): Pending {
    if id in pending && pending[id] == token then pending - {id} else pending
  }

  function FinishStep(w: World, token: Token): World
    requires token in w.workers
  {
    Gone(w, token).(pending := Release(w.pending, w.workers[token].card.id, token))
  }

  function ReconfigureStep(w: World, valid: bool): World {
    w.(closed := false,
       pending := map[],
       shutdown := Running,
       supervisor := if valid then Some(w.nextConfig) else None,
       nextConfig := w.nextConfig + 1)
  }

  function After(w: World, step: Step): World
    requires match step
             case Reduce(op) => op.Valid()
             case RunSchedule(call, _) => call in w.calls
             case Resolve(token, _) => token in w.workers
             case TakeTable(token) => token in w.workers && w.workers[token].stage.Holding?
             case Write(token, _) => token in w.workers && w.workers[token].stage.Writing?
             case Finish(token) => token in w.workers
             case _ => true
  {
    match step
    case Reduce(op) =>
      w.(reducer := R.Do(w.reducer, op),
         nextIncarnation := if op.Deliver? then w.nextIncarnation + 1 else w.nextIncarnation)
    case BeginSchedule(cards, only) =>
      w.(calls := w.calls[w.nextCall := Call(cards, only)], nextCall := w.nextCall + 1)
    case RunSchedule(call, providers) => RunScheduleStep(w, call, providers)
    case Resolve(token, title) => ResolveStep(w, token, title)
    case TakeTable(token) => TakeTableStep(w, token)
    case Write(token, fails) => WriteStep(w, token, fails)
    case Finish(token) => FinishStep(w, token)
    case Abort(token) => Gone(w, token)
    case Reconfigure(valid) => ReconfigureStep(w, valid)
    case BeginShutdown => w.(closed := true, shutdown := Closing, lifecycle := true)
    case DrainShutdown => w.(pending := map[], shutdown := Drained)
    case EndShutdown => w.(lifecycle := false)
  }

  const IDLE := World(INITIAL, false, map[], None, map[], map[], Running, false, 0, 0, 0, 1)

  ghost predicate AllEnabled(w: World, steps: seq<Step>)
    decreases |steps|
  {
    steps == [] || (Enabled(w, steps[0]) && AllEnabled(After(w, steps[0]), steps[1..]))
  }

  ghost function Run(w: World, steps: seq<Step>): World
    requires AllEnabled(w, steps)
    decreases |steps|
  {
    if steps == [] then w else Run(After(w, steps[0]), steps[1..])
  }
}
