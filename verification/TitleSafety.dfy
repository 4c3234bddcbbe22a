/** What every interleaving of the title protocol keeps. */
module TitleSafety {
  import opened Basics
  import opened SessionTypes
  import opened ReducerModel
  import R = ReducerInvariant
  import A = AttentionCards
  import O = DeliveryOnce
  import opened TitleModel

  /** The same allocation of a card; only title and state ever change. */
  predicate SameCard(a: Notification, b: Notification) {
    a == b.(title := a.title, state := a.state)
  }

  // ---- Invariant ----

  ghost predicate TokensOk(w: World) {
    && (forall id :: id in w.pending ==> w.pending[id] < w.nextToken)
    && (forall token :: token in w.workers ==> token < w.nextToken)
  }

  /** An entry and its worker speak of the same card and belong to the current configuration. */
  ghost predicate EntriesOk(w: World) {
    forall id, token :: id in w.pending && token in w.workers && w.pending[id] == token ==>
      w.workers[token].card.id == id && w.supervisor == Some(w.workers[token].config)
  }

  ghost predicate LocksOk(w: World) {
    && (forall token :: token in w.workers && w.workers[token].stage.Writing? ==>
          w.workers[token].card.id in w.pending && w.pending[w.workers[token].card.id] == token)
    && (forall token :: token in w.workers && w.workers[token].stage.Holding? ==>
          w.supervisor == Some(w.workers[token].config))
    && (w.calls != map[] ==> w.supervisor.Some?)
  }

  ghost predicate ConfigsOk(w: World) {
    && (w.supervisor.Some? ==> w.supervisor.value < w.nextConfig)
    && (forall token :: token in w.workers ==> w.workers[token].config < w.nextConfig)
  }

  ghost predicate ShutdownOk(w: World) {
    && (!w.shutdown.Running? ==> w.closed)
    && (w.shutdown.Drained? ==> w.pending == map[])
  }

  /** Whatever card still carries the allocation seen earlier is that card. */
  ghost predicate Tracks(s: State, seen: Notification) {
    forall id :: id in s.notifications && s.notifications[id].incarnation == seen.incarnation ==>
      SameCard(s.notifications[id], seen)
  }

  ghost predicate CardsTracked(w: World) {
    && (forall id :: id in w.reducer.notifications ==>
          w.reducer.notifications[id].incarnation < w.nextIncarnation
          && Tracks(w.reducer, w.reducer.notifications[id]))
    && (forall call, i :: call in w.calls && 0 <= i < |w.calls[call].cards| ==>
          w.calls[call].cards[i].incarnation < w.nextIncarnation && Tracks(w.reducer, w.calls[call].cards[i]))
    && (forall token :: token in w.workers ==>
          w.workers[token].card.incarnation < w.nextIncarnation && Tracks(w.reducer, w.workers[token].card))
  }

  ghost predicate Books(w: World) {
    && |w.pending| <= MAX_PENDING_TITLES
    && TokensOk(w) && EntriesOk(w) && LocksOk(w) && ConfigsOk(w) && ShutdownOk(w)
  }

  ghost predicate Inv(w: World) {
    R.CardsOk(w.reducer.notifications) && Books(w) && CardsTracked(w)
  }

  lemma IdleIsInv()
    ensures Inv(IDLE)
  {
  }

  // ---- The reducer's changes ----

  /** The card is one of before but for its state, or the one new allocation. */
  predicate KeptOrNew(before: map<NotificationId, Notification>, card: Notification, id: NotificationId, op: R.Op) {
    || (id in before && card == before[id].(state := card.state))
    || (op.Deliver? && card.incarnation == op.token && card.title.None? && card.id == op.event.CardId())
  }

  lemma SettledCardIs(s: State, event: Event, transition: Transition, at: u64, token: nat, id: NotificationId)
    requires id in R.SettledCards(s, event, transition, token)
    ensures KeptOrNew(s.notifications, R.SettledCards(s, event, transition, token)[id], id, R.Deliver(event, at, token))
  {
    var resolved :=
      if transition.resolveAttention then ResolveAttention(s.notifications, event.Owner(), event.turn)
      else s.notifications;
    if transition.notification.Some? {
      A.InsertedCard(resolved, event, transition.notification.value, token, id);
    }
  }

  lemma DeliverKeepsCards(s: State, event: Event, at: u64, token: nat, id: NotificationId)
    requires event.Valid() && id in ReduceAt(s, event, at, token).state.notifications
    ensures KeptOrNew(s.notifications, ReduceAt(s, event, at, token).state.notifications[id], id,
                      R.Deliver(event, at, token))
  {
    if ReduceAt(s, event, at, token).outcome.Applied? {
      var remembered := RememberEvent(s, event.Key());
      var (applied, transition) := ApplyEvent(remembered, event);
      A.ApplyEnds(remembered, event);
      R.SettleShape(applied, event, transition, at, token);
      SettledCardIs(applied, event, transition, at, token, id);
    } else {
      O.RefusedLeavesNoTrace(s, event, at, token);
    }
  }

  /** Apart from titles, an operation keeps, resolves or dismisses cards, or adds one new allocation. */
  lemma OpKeepsCards(s: State, op: R.Op, id: NotificationId)
    requires op.Valid() && !op.Title? && id in R.Do(s, op).notifications
    ensures KeptOrNew(s.notifications, R.Do(s, op).notifications[id], id, op)
  {
    match op
    case Deliver(event, at, token) => DeliverKeepsCards(s, event, at, token, id);
    case Dismiss(_, _) =>
    case Tick(_) =>
    case Remind(_) =>
  }

  lemma OpKeepsCardsOk(s: State, op: R.Op)
    requires op.Valid() && R.CardsOk(s.notifications)
    ensures R.CardsOk(R.Do(s, op).notifications)
  {
    match op
    case Deliver(event, at, token) =>
      O.RefusedLeavesNoTrace(s, event, at, token);
      if ReduceAt(s, event, at, token).outcome.Applied? {
        var (applied, transition) := ApplyEvent(RememberEvent(s, event.Key()), event);
        R.SettleShape(applied, event, transition, at, token);
        var resolved :=
          if transition.resolveAttention then ResolveAttention(applied.notifications, event.Owner(), event.turn)
          else applied.notifications;
        A.ApplyEnds(RememberEvent(s, event.Key()), event);
        R.ResolveKeepsCards(applied.notifications, event.Owner(), event.turn);
        if transition.notification.Some? {
          R.InsertKeepsCards(resolved, event, transition.notification.value, token);
        }
      }
    case _ =>
  }

  lemma OpTracks(s: State, op: R.Op, seen: Notification, unused: nat)
    requires op.Valid() && !op.Title? && (op.Deliver? ==> op.token == unused)
    requires seen.incarnation < unused && Tracks(s, seen)
    ensures Tracks(R.Do(s, op), seen)
  {
    var after := R.Do(s, op);
    forall id | id in after.notifications && after.notifications[id].incarnation == seen.incarnation
      ensures SameCard(after.notifications[id], seen)
    {
      OpKeepsCards(s, op, id);
    }
  }

  lemma OpTracksOwn(s: State, op: R.Op, unused: nat, id: NotificationId)
    requires op.Valid() && !op.Title? && (op.Deliver? ==> op.token == unused) && R.CardsOk(s.notifications)
    requires forall other :: other in s.notifications ==>
      s.notifications[other].incarnation < unused && Tracks(s, s.notifications[other])
    requires id in R.Do(s, op).notifications
    ensures var after := R.Do(s, op);
            && after.notifications[id].incarnation <= unused
            && (after.notifications[id].incarnation == unused ==> op.Deliver?)
            && Tracks(after, after.notifications[id])
  {
    var after := R.Do(s, op);
    OpKeepsCards(s, op, id);
    OpKeepsCardsOk(s, op);
    var card := after.notifications[id];
    forall other | other in after.notifications && after.notifications[other].incarnation == card.incarnation
      ensures SameCard(after.notifications[other], card)
    {
      OpKeepsCards(s, op, other);
    }
  }

  lemma ReduceKeepsBooks(w: World, reducer: State, unused: nat)
    requires Books(w)
    ensures Books(w.(reducer := reducer, nextIncarnation := unused))
  {
  }

  lemma ReduceKeepsInv(w: World, op: R.Op)
    requires Inv(w) && Enabled(w, Reduce(op))
    ensures Inv(After(w, Reduce(op)))
  {
    var after := After(w, Reduce(op));
    OpKeepsCardsOk(w.reducer, op);
    ReduceKeepsBooks(w, after.reducer, after.nextIncarnation);
    forall id | id in after.reducer.notifications
      ensures after.reducer.notifications[id].incarnation < after.nextIncarnation
      ensures Tracks(after.reducer, after.reducer.notifications[id])
    {
      OpTracksOwn(w.reducer, op, w.nextIncarnation, id);
    }
    forall call, i | call in w.calls && 0 <= i < |w.calls[call].cards|
      ensures Tracks(after.reducer, w.calls[call].cards[i])
    {
      OpTracks(w.reducer, op, w.calls[call].cards[i], w.nextIncarnation);
    }
    forall token | token in w.workers
      ensures Tracks(after.reducer, w.workers[token].card)
    {
      OpTracks(w.reducer, op, w.workers[token].card, w.nextIncarnation);
    }
  }

  // ---- Scheduling ----

  ghost predicate AdmissionOk(start: Pending, first: Token, cards: seq<Notification>, a: Admission) {
    && |a.pending| <= MAX_PENDING_TITLES
    && first <= a.next
    && (forall id :: id in start ==> id in a.pending && a.pending[id] == start[id])
    && (forall id :: id in a.pending && id !in start ==>
          first <= a.pending[id] < a.next && a.pending[id] in a.spawned && a.spawned[a.pending[id]].id == id)
    && (forall token :: token in a.spawned ==>
          && first <= token < a.next
          && a.spawned[token] in cards
          && a.spawned[token].id in a.pending && a.pending[a.spawned[token].id] == token
          && a.spawned[token].id !in start)
  }

  lemma AdmitOneIsOk(
    start: Pending, first: Token, all: seq<Notification>, a: Admission,
    card: Notification, only: Option<EventKey>, providers: set<ProviderId>)
    requires AdmissionOk(start, first, all, a) && card in all
    ensures AdmissionOk(start, first, all, AdmitOne(a, card, only, providers))
  {
  }

  lemma {:induction false} AdmitIsOk(
    start: Pending, first: Token, all: seq<Notification>, a: Admission,
    cards: seq<Notification>, only: Option<EventKey>, providers: set<ProviderId>)
    requires AdmissionOk(start, first, all, a) && forall card :: card in cards ==> card in all
    ensures AdmissionOk(start, first, all, Admit(a, cards, only, providers))
    decreases |cards|
  {
    if cards != [] {
      AdmitOneIsOk(start, first, all, a, cards[0], only, providers);
      AdmitIsOk(start, first, all, AdmitOne(a, cards[0], only, providers), cards[1..], only, providers);
    }
  }

  lemma PruneShrinks(pending: Pending, unread: set<NotificationId>)
    ensures |Prune(pending, unread)| <= |pending|
  {
    SubsetSize(Prune(pending, unread).Keys, pending.Keys);
  }

  lemma ScheduledIsOk(w: World, call: nat, providers: set<ProviderId>) returns (a: Admission)
    requires Books(w) && call in w.calls && !w.closed && w.supervisor.Some?
    ensures AdmissionOk(Prune(w.pending, UnreadIds(w.calls[call].cards)), w.nextToken, w.calls[call].cards, a)
    ensures var after := RunScheduleStep(w, call, providers);
            && after.pending == a.pending && after.nextToken == a.next
            && after.workers == w.workers + map token | token in a.spawned ::
                                              Worker(a.spawned[token], w.supervisor.value, Resolving)
  {
    var c := w.calls[call];
    var start := Prune(w.pending, UnreadIds(c.cards));
    PruneShrinks(w.pending, UnreadIds(c.cards));
    AdmitIsOk(start, w.nextToken, c.cards, Admission(start, map[], w.nextToken), c.cards, c.only, providers);
    a := Admit(Admission(start, map[], w.nextToken), c.cards, c.only, providers);
  }

  /** Some call or worker already refers to the card. */
  ghost predicate SeenBefore(w: World, card: Notification) {
    || (exists call, i :: call in w.calls && 0 <= i < |w.calls[call].cards| && w.calls[call].cards[i] == card)
    || (exists token :: token in w.workers && w.workers[token].card == card)
  }

  lemma SeenIsTracked(w: World, after: World)
    requires CardsTracked(w) && after.reducer == w.reducer && after.nextIncarnation == w.nextIncarnation
    requires forall call :: call in after.calls ==> call in w.calls && after.calls[call] == w.calls[call]
    requires forall token :: token in after.workers ==> SeenBefore(w, after.workers[token].card)
    ensures CardsTracked(after)
  {
    forall token | token in after.workers
      ensures after.workers[token].card.incarnation < w.nextIncarnation
      ensures Tracks(w.reducer, after.workers[token].card)
    {
      assert SeenBefore(w, after.workers[token].card);
    }
  }

  lemma ScheduleKeepsTokens(w: World, call: nat, providers: set<ProviderId>)
    requires Books(w) && call in w.calls && !w.closed && w.supervisor.Some?
    ensures TokensOk(RunScheduleStep(w, call, providers))
  {
    var a := ScheduledIsOk(w, call, providers);
    assert forall id :: id in a.pending ==>
        if a.pending[id] < w.nextToken then id in w.pending && w.pending[id] == a.pending[id]
        else a.pending[id] in a.spawned && a.spawned[a.pending[id]].id == id;
  }

  lemma ScheduleKeepsEntries(w: World, call: nat, providers: set<ProviderId>)
    requires Books(w) && call in w.calls && !w.closed && w.supervisor.Some?
    ensures EntriesOk(RunScheduleStep(w, call, providers))
  {
    var a := ScheduledIsOk(w, call, providers);
    var after := RunScheduleStep(w, call, providers);
    forall id, token | id in after.pending && token in after.workers && after.pending[id] == token
      ensures after.workers[token].card.id == id && after.supervisor == Some(after.workers[token].config)
    {
      if token < w.nextToken {
        assert token !in a.spawned;
        assert id in w.pending && w.pending[id] == token && after.workers[token] == w.workers[token];
      } else {
        assert token in a.spawned && a.spawned[token].id == id;
      }
    }
  }

  lemma ScheduleKeepsLocks(w: World, call: nat, providers: set<ProviderId>)
    requires Books(w) && call in w.calls && !w.closed && w.supervisor.Some? && !TableHeld(w)
    ensures var after := RunScheduleStep(w, call, providers);
            LocksOk(after) && ConfigsOk(after) && |after.pending| <= MAX_PENDING_TITLES
  {
    var a := ScheduledIsOk(w, call, providers);
    var after := RunScheduleStep(w, call, providers);
    forall token | token in after.workers
      ensures !after.workers[token].stage.Writing?
      ensures after.workers[token].stage.Holding? ==> token in w.workers && after.workers[token] == w.workers[token]
    {
      assert token !in w.workers ==> after.workers[token].stage == Resolving;
    }
  }

  lemma ScheduleKeepsCards(w: World, call: nat, providers: set<ProviderId>)
    requires Inv(w) && call in w.calls && !w.closed && w.supervisor.Some?
    ensures CardsTracked(RunScheduleStep(w, call, providers))
  {
    var after := RunScheduleStep(w, call, providers);
    var a := ScheduledIsOk(w, call, providers);
    forall token | token in after.workers
      ensures SeenBefore(w, after.workers[token].card)
    {
      if token in a.spawned {
        var i :| 0 <= i < |w.calls[call].cards| && w.calls[call].cards[i] == a.spawned[token];
      } else {
        assert after.workers[token] == w.workers[token];
      }
    }
    SeenIsTracked(w, after);
  }

  lemma RunScheduleKeepsInv(w: World, call: nat, providers: set<ProviderId>)
    requires Inv(w) && Enabled(w, RunSchedule(call, providers))
    ensures Inv(After(w, RunSchedule(call, providers)))
  {
    if !w.closed && w.supervisor.Some? {
      ScheduleKeepsTokens(w, call, providers);
      ScheduleKeepsEntries(w, call, providers);
      ScheduleKeepsLocks(w, call, providers);
      ScheduleKeepsCards(w, call, providers);
    }
  }

  // ---- Workers, reconfiguration, shutdown ----

  lemma BeginScheduleKeepsInv(w: World, cards: seq<Notification>, only: Option<EventKey>)
    requires Inv(w) && Enabled(w, BeginSchedule(cards, only))
    ensures Inv(After(w, BeginSchedule(cards, only)))
  {
    forall i | 0 <= i < |cards|
      ensures cards[i].incarnation < w.nextIncarnation && Tracks(w.reducer, cards[i])
    {
      assert w.reducer.notifications[cards[i].id] == cards[i];
    }
  }

  lemma UpdateTracks(s: State, original: Notification, title: string, seen: Notification)
    requires Tracks(s, seen)
    ensures Tracks(UpdateTitle(s, original, title).0, seen)
  {
  }

  lemma UpdateTracksOwn(s: State, original: Notification, title: string, id: NotificationId, unused: nat)
    requires id in s.notifications && s.notifications[id].incarnation < unused && Tracks(s, s.notifications[id])
    ensures var after := UpdateTitle(s, original, title).0;
            && id in after.notifications && after.notifications[id].incarnation < unused
            && Tracks(after, after.notifications[id])
  {
    var after := UpdateTitle(s, original, title).0;
    UpdateTracks(s, original, title, s.notifications[id]);
    assert SameCard(after.notifications[id], s.notifications[id]);
    forall other | other in after.notifications
                   && after.notifications[other].incarnation == after.notifications[id].incarnation
      ensures SameCard(after.notifications[other], after.notifications[id])
    {
      assert SameCard(after.notifications[other], s.notifications[id]);
    }
  }

  lemma WriteKeepsCards(w: World, token: Token, fails: bool)
    requires Inv(w) && Enabled(w, Write(token, fails))
    ensures CardsTracked(WriteStep(w, token, fails))
  {
    var worker := w.workers[token];
    var after := WriteStep(w, token, fails);
    forall id | id in after.reducer.notifications
      ensures after.reducer.notifications[id].incarnation < w.nextIncarnation
      ensures Tracks(after.reducer, after.reducer.notifications[id])
    {
      UpdateTracksOwn(w.reducer, worker.card, worker.stage.title, id, w.nextIncarnation);
    }
    forall call, i | call in w.calls && 0 <= i < |w.calls[call].cards|
      ensures Tracks(after.reducer, w.calls[call].cards[i])
    {
      UpdateTracks(w.reducer, worker.card, worker.stage.title, w.calls[call].cards[i]);
    }
    forall other | other in w.workers
      ensures Tracks(after.reducer, w.workers[other].card)
    {
      UpdateTracks(w.reducer, worker.card, worker.stage.title, w.workers[other].card);
    }
  }

  lemma MoveKeepsBooks(w: World, token: Token, stage: Stage)
    requires Books(w) && token in w.workers
    requires stage.Holding? ==> w.supervisor == Some(w.workers[token].config)
    requires stage.Writing? ==>
      w.workers[token].card.id in w.pending && w.pending[w.workers[token].card.id] == token
    ensures Books(Moved(w, token, stage))
  {
    var after := Moved(w, token, stage);
    assert forall other :: other in after.workers && other != token ==> after.workers[other] == w.workers[other];
    assert after.workers[token].card == w.workers[token].card && after.workers[token].config == w.workers[token].config;
  }

  lemma LeaveKeepsBooks(w: World, token: Token, pending: Pending)
    requires Books(w) && token in w.workers
    requires pending == w.pending
             || (pending == w.pending - {w.workers[token].card.id} && (w.workers[token].card.id in w.pending ==>
                   w.pending[w.workers[token].card.id] == token))
    ensures Books(Gone(w, token).(pending := pending))
  {
    SubsetSize(pending.Keys, w.pending.Keys);
  }

  lemma WriteKeepsBooks(w: World, token: Token, fails: bool)
    requires Books(w) && token in w.workers && w.workers[token].stage.Writing?
    ensures Books(WriteStep(w, token, fails))
  {
    var after := WriteStep(w, token, fails);
    ReduceKeepsBooks(w, after.reducer, w.nextIncarnation);
    MoveKeepsBooks(w.(reducer := after.reducer), token, Finishing);
  }

  lemma WriteKeepsCardsOk(w: World, token: Token, fails: bool)
    requires R.CardsOk(w.reducer.notifications) && token in w.workers && w.workers[token].stage.Writing?
    ensures R.CardsOk(WriteStep(w, token, fails).reducer.notifications)
  {
    var after := WriteStep(w, token, fails);
    assert forall id :: id in after.reducer.notifications ==> id in w.reducer.notifications;
  }

  lemma WriteKeepsInv(w: World, token: Token, fails: bool)
    requires Inv(w) && Enabled(w, Write(token, fails))
    ensures Inv(WriteStep(w, token, fails))
  {
    WriteKeepsBooks(w, token, fails);
    WriteKeepsCards(w, token, fails);
    WriteKeepsCardsOk(w, token, fails);
  }

  lemma WorkerKeepsCards(w: World, after: World)
    requires CardsTracked(w)
    requires after.reducer == w.reducer && after.calls == w.calls && after.nextIncarnation == w.nextIncarnation
    requires forall token :: token in after.workers ==>
      token in w.workers && after.workers[token].card == w.workers[token].card
    ensures CardsTracked(after)
  {
    forall token | token in after.workers
      ensures SeenBefore(w, after.workers[token].card)
    {
      assert after.workers[token].card == w.workers[token].card;
    }
    SeenIsTracked(w, after);
  }

  lemma ResolveKeepsInv(w: World, token: Token, title: Option<string>)
    requires Inv(w) && token in w.workers
    ensures Inv(ResolveStep(w, token, title))
  {
    WorkerKeepsCards(w, ResolveStep(w, token, title));
    if w.supervisor == Some(w.workers[token].config) {
      MoveKeepsBooks(w, token, Holding(title));
    } else {
      LeaveKeepsBooks(w, token, w.pending);
    }
  }

  lemma TakeTableKeepsBooks(w: World, token: Token)
    requires Books(w) && token in w.workers && w.workers[token].stage.Holding?
    ensures Books(TakeTableStep(w, token))
  {
    var worker := w.workers[token];
    if worker.card.id !in w.pending || w.pending[worker.card.id] != token {
      LeaveKeepsBooks(w, token, w.pending);
    } else if worker.stage.answer.None? {
      LeaveKeepsBooks(w, token, w.pending - {worker.card.id});
    } else {
      MoveKeepsBooks(w, token, Writing(worker.stage.answer.value));
    }
  }

  lemma TakeTableKeepsCards(w: World, token: Token)
    requires CardsTracked(w) && token in w.workers && w.workers[token].stage.Holding?
    ensures CardsTracked(TakeTableStep(w, token)) && TakeTableStep(w, token).reducer == w.reducer
  {
    WorkerKeepsCards(w, TakeTableStep(w, token));
  }

  lemma TakeTableKeepsInv(w: World, token: Token)
    requires Inv(w) && token in w.workers && w.workers[token].stage.Holding?
    ensures Inv(TakeTableStep(w, token))
  {
    TakeTableKeepsCards(w, token);
    TakeTableKeepsBooks(w, token);
  }

  lemma FinishKeepsInv(w: World, token: Token)
    requires Inv(w) && token in w.workers
    ensures Inv(FinishStep(w, token)) && Inv(Gone(w, token))
  {
    WorkerKeepsCards(w, FinishStep(w, token));
    WorkerKeepsCards(w, Gone(w, token));
    var id := w.workers[token].card.id;
    LeaveKeepsBooks(w, token, w.pending);
    if id in w.pending && w.pending[id] == token {
      LeaveKeepsBooks(w, token, w.pending - {id});
    }
  }

  lemma ReconfigureKeepsBooks(w: World, valid: bool)
    requires Books(w) && !RuntimeHeld(w)
    ensures Books(ReconfigureStep(w, valid))
  {
  }

  lemma DrainKeepsBooks(w: World)
    requires Books(w) && !TableHeld(w) && w.closed
    ensures Books(w.(pending := map[], shutdown := Drained))
  {
  }

  lemma ClosingKeepsBooks(w: World)
    requires Books(w)
    ensures Books(w.(closed := true, shutdown := Closing, lifecycle := true))
    ensures Books(w.(lifecycle := false))
  {
  }

  lemma LifecycleKeepsInv(w: World, step: TitleModel.Step)
    requires Inv(w) && Enabled(w, step)
    requires step.Reconfigure? || step.BeginShutdown? || step.DrainShutdown? || step.EndShutdown?
    ensures Inv(After(w, step))
  {
    WorkerKeepsCards(w, After(w, step));
    match step
    case Reconfigure(valid) => ReconfigureKeepsBooks(w, valid);
    case DrainShutdown => DrainKeepsBooks(w);
    case _ => ClosingKeepsBooks(w);
  }

  lemma StepKeepsInv(w: World, step: TitleModel.Step)
    requires Inv(w) && Enabled(w, step)
    ensures Inv(After(w, step))
  {
    match step
    case Reduce(op) => ReduceKeepsInv(w, op);
    case BeginSchedule(cards, only) => BeginScheduleKeepsInv(w, cards, only);
    case RunSchedule(call, providers) => RunScheduleKeepsInv(w, call, providers);
    case Write(token, fails) => WriteKeepsInv(w, token, fails);
    case Resolve(token, title) => ResolveKeepsInv(w, token, title);
    case TakeTable(token) => TakeTableKeepsInv(w, token);
    case Finish(token) => FinishKeepsInv(w, token);
    case Abort(token) => FinishKeepsInv(w, token);
    case _ => LifecycleKeepsInv(w, step);
  }

  /** Every interleaving keeps the bound on pending titles and the bookkeeping of tokens. */
  lemma {:induction false} RunKeepsInv(w: World, steps: seq<TitleModel.Step>)
    requires Inv(w) && AllEnabled(w, steps)
    ensures Inv(Run(w, steps)) && |Run(w, steps).pending| <= MAX_PENDING_TITLES
    decreases |steps|
  {
    if steps != [] {
      StepKeepsInv(w, steps[0]);
      RunKeepsInv(After(w, steps[0]), steps[1..]);
    }
  }

  // ---- Who may write a title ----

  /** The step changes the title of a card that stays allocated. */
  ghost predicate ChangesTitle(w: World, step: TitleModel.Step, id: NotificationId)
    requires Enabled(w, step)
  {
    var before, after := w.reducer.notifications, After(w, step).reducer.notifications;
    && id in before && id in after
    && before[id].incarnation == after[id].incarnation
    && before[id].title != after[id].title
  }

  /**
   A title changes only when a worker writes whose token is the pending one for that card, under
   the current configuration, onto the still unread allocation the worker was spawned for.
   */
  lemma OnlyTheWorkerWrites(w: World, step: TitleModel.Step, id: NotificationId)
    requires Inv(w) && Enabled(w, step) && ChangesTitle(w, step, id)
    ensures step.Write?
    ensures var worker := w.workers[step.token];
            && id in w.pending && w.pending[id] == step.token
            && worker.card.id == id
            && w.supervisor == Some(worker.config)
            && w.reducer.notifications[id].state.Unread?
            && w.reducer.notifications[id].incarnation == worker.card.incarnation
            && SameCard(w.reducer.notifications[id], worker.card)
            && After(w, step).reducer.notifications[id].title == Some(worker.stage.title)
            && IsTitle(worker.stage.title)
  {
    if step.Reduce? {
      OpKeepsCards(w.reducer, step.op, id);
    }
  }

  // ---- At most one write per token ----

  predicate Spent(w: World, token: Token) {
    token < w.nextToken && (token in w.workers ==> w.workers[token].stage.Finishing?)
  }

  lemma StepKeepsSpent(w: World, step: TitleModel.Step, token: Token)
    requires Books(w) && Enabled(w, step) && Spent(w, token)
    ensures Spent(After(w, step), token)
  {
    if step.RunSchedule? && !w.closed && w.supervisor.Some? {
      var a := ScheduledIsOk(w, step.call, step.providers);
    }
  }

  /** A worker that has written never writes again. */
  lemma {:induction false} WritesOnce(w: World, token: Token, fails: bool, steps: seq<TitleModel.Step>, again: bool)
    requires Inv(w) && Enabled(w, Write(token, fails)) && AllEnabled(After(w, Write(token, fails)), steps)
    ensures !Enabled(Run(After(w, Write(token, fails)), steps), Write(token, again))
  {
    StepKeepsInv(w, Write(token, fails));
    SpentStays(After(w, Write(token, fails)), steps, token);
  }

  lemma {:induction false} SpentStays(w: World, steps: seq<TitleModel.Step>, token: Token)
    requires Inv(w) && AllEnabled(w, steps) && Spent(w, token)
    ensures Spent(Run(w, steps), token)
    decreases |steps|
  {
    if steps != [] {
      StepKeepsInv(w, steps[0]);
      StepKeepsSpent(w, steps[0], token);
      SpentStays(After(w, steps[0]), steps[1..], token);
    }
  }

  // ---- After a shutdown ----

  predicate Quiet(w: World) {
    w.closed && w.pending == map[]
  }

  lemma QuietStays(w: World, step: TitleModel.Step)
    requires Books(w) && Enabled(w, step) && Quiet(w) && !step.Reconfigure?
    ensures Quiet(After(w, step)) && !step.Write?
  {
  }

  /**
   Once a shutdown has drained, nothing is pending and no title is written until the actions are
   configured again, whatever workers and scheduling calls were still on their way.
   */
  lemma {:induction false} QuietAfterShutdown(w: World, steps: seq<TitleModel.Step>)
    requires Inv(w) && (w.shutdown.Drained? || Quiet(w)) && AllEnabled(w, steps)
    requires forall step :: step in steps ==> !step.Reconfigure?
    ensures Quiet(Run(w, steps))
    ensures forall step :: step in steps ==> !step.Write?
    decreases |steps|
  {
    if steps != [] {
      StepKeepsInv(w, steps[0]);
      QuietStays(w, steps[0]);
      QuietAfterShutdown(After(w, steps[0]), steps[1..]);
      assert steps == [steps[0]] + steps[1..];
    }
  }

  // ---- After a reconfiguration ----

  ghost predicate Outdated(w: World, token: Token) {
    && token < w.nextToken
    && (forall id :: id in w.pending ==> w.pending[id] != token)
    && (token in w.workers ==> !w.workers[token].stage.Writing?)
  }

  lemma ScheduleKeepsOutdated(w: World, call: nat, providers: set<ProviderId>, token: Token)
    requires Books(w) && call in w.calls && Outdated(w, token)
    ensures Outdated(RunScheduleStep(w, call, providers), token)
  {
    if !w.closed && w.supervisor.Some? {
      var a := ScheduledIsOk(w, call, providers);
    }
  }

  lemma ResolveKeepsOutdated(w: World, other: Token, title: Option<string>, token: Token)
    requires other in w.workers && Outdated(w, token)
    ensures Outdated(ResolveStep(w, other, title), token)
  {
  }

  lemma TakeTableKeepsOutdated(w: World, other: Token, token: Token)
    requires other in w.workers && Outdated(w, token) && w.workers[other].stage.Holding?
    ensures Outdated(TakeTableStep(w, other), token)
  {
  }

  lemma LeaveKeepsOutdated(w: World, other: Token, token: Token)
    requires other in w.workers && Outdated(w, token)
    ensures Outdated(FinishStep(w, other), token) && Outdated(Gone(w, other), token)
    ensures w.workers[other].stage.Writing? ==> forall fails :: Outdated(WriteStep(w, other, fails), token)
  {
  }

  lemma StepKeepsOutdated(w: World, step: TitleModel.Step, token: Token)
    requires Books(w) && Enabled(w, step) && Outdated(w, token)
    ensures Outdated(After(w, step), token)
  {
    match step
    case RunSchedule(call, providers) => ScheduleKeepsOutdated(w, call, providers, token);
    case Resolve(other, title) => ResolveKeepsOutdated(w, other, title, token);
    case TakeTable(other) => TakeTableKeepsOutdated(w, other, token);
    case Write(other, _) => LeaveKeepsOutdated(w, other, token);
    case Finish(other) => LeaveKeepsOutdated(w, other, token);
    case Abort(other) => LeaveKeepsOutdated(w, other, token);
    case _ =>
  }

  lemma {:induction false} OutdatedStays(w: World, steps: seq<TitleModel.Step>, token: Token)
    requires Inv(w) && AllEnabled(w, steps) && Outdated(w, token)
    ensures Outdated(Run(w, steps), token)
    decreases |steps|
  {
    if steps != [] {
      StepKeepsInv(w, steps[0]);
      StepKeepsOutdated(w, steps[0], token);
      OutdatedStays(After(w, steps[0]), steps[1..], token);
    }
  }

  /** No worker spawned before a reconfiguration ever writes after it. */
  lemma ReconfigureRetiresWorkers(w: World, valid: bool, steps: seq<TitleModel.Step>, token: Token, fails: bool)
    requires Inv(w) && Enabled(w, Reconfigure(valid)) && token < w.nextToken
    requires AllEnabled(After(w, Reconfigure(valid)), steps)
    ensures !Enabled(Run(After(w, Reconfigure(valid)), steps), Write(token, fails))
  {
    StepKeepsInv(w, Reconfigure(valid));
    OutdatedStays(After(w, Reconfigure(valid)), steps, token);
  }
}
