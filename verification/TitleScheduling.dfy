/** Which titles a scheduling call makes pending, which it drops, and what a title changes. */
module TitleScheduling {
  import opened Basics
  import opened SessionTypes
  import opened ReducerModel
  import opened TitleModel

  // ---- What is asked for ----

  /** The card is unread, of the event asked for if one is, and its provider has a title action. */
  predicate IsAskedFor(card: Notification, only: Option<EventKey>, providers: set<ProviderId>) {
    && card.state == Unread && card.provider in providers
    && (only == None || only == Some(EventKey(card.provider, card.event)))
  }

  /** The cards asked for that are not pending yet, in the order they are listed. */
  function Missing(pending: Pending, cards: seq<Notification>, only: Option<EventKey>, providers: set<ProviderId>)
    : seq<Notification>
  {
    if cards == [] then []
    else
      (if IsAskedFor(cards[0], only, providers) && cards[0].id !in pending then [cards[0]] else [])
      + Missing(pending, cards[1..], only, providers)
  }

  predicate DistinctIds(cards: seq<Notification>) {
    forall i, j :: 0 <= i < j < |cards| ==> cards[i].id != cards[j].id
  }

  function Ids(cards: seq<Notification>): set<NotificationId> {
    set card | card in cards :: card.id
  }

  lemma {:induction false} MissingAre(
    pending: Pending, cards: seq<Notification>, only: Option<EventKey>, providers: set<ProviderId>)
    ensures forall card :: card in Missing(pending, cards, only, providers)
                           <==> card in cards && IsAskedFor(card, only, providers) && card.id !in pending
  {
    if cards != [] {
      assert cards == [cards[0]] + cards[1..];
      MissingAre(pending, cards[1..], only, providers);
    }
  }

  /** A card entered does not come again in the list. */
  lemma {:induction false} MissingBut(
    pending: Pending, id: NotificationId, token: Token,
    cards: seq<Notification>, only: Option<EventKey>, providers: set<ProviderId>)
    requires forall card :: card in cards ==> card.id != id
    ensures Missing(pending[id := token], cards, only, providers) == Missing(pending, cards, only, providers)
  {
    if cards != [] {
      assert cards[0] in cards;
      assert cards == [cards[0]] + cards[1..];
      MissingBut(pending, id, token, cards[1..], only, providers);
    }
  }

  // ---- What is entered ----

  /** As many of them as there is room for beside those pending. */
  function AsFit(pending: nat, missing: seq<Notification>): seq<Notification> {
    if pending + |missing| <= 256 then missing else if pending <= 256 then missing[..256 - pending] else []
  }

  lemma OneMoreFits(pending: nat, card: Notification, rest: seq<Notification>)
    ensures pending < 256 ==> AsFit(pending, [card] + rest) == [card] + AsFit(pending + 1, rest)
    ensures pending >= 256 ==> AsFit(pending, [card] + rest) == [] == AsFit(pending, rest)
  {
  }

  /** The cards are pending under the next tokens, beside what was pending before. */
  ghost predicate IsPending(before: Pending, next: Token, entered: seq<Notification>, after: Pending) {
    && after.Keys == before.Keys + Ids(entered)
    && (forall id :: id in before ==> after[id] == before[id])
    && (forall i :: 0 <= i < |entered| ==> entered[i].id in after && after[entered[i].id] == next + i)
  }

  /** Each card has a worker under its token, beside those of smaller tokens. */
  ghost predicate IsSpawned(
    before: map<Token, Notification>, next: Token, entered: seq<Notification>, after: map<Token, Notification>)
  {
    && (forall token :: token in before && token < next ==> token in after && after[token] == before[token])
    && (forall token :: next <= token < next + |entered| ==> token in after && after[token] == entered[token - next])
  }

  /** These cards are entered with the next tokens, and a worker for each. */
  ghost predicate Enters(a: Admission, entered: seq<Notification>, after: Admission) {
    && after.next == a.next + |entered|
    && IsPending(a.pending, a.next, entered, after.pending)
    && IsSpawned(a.spawned, a.next, entered, after.spawned)
  }

  lemma OneMorePending(before: Pending, next: Token, card: Notification, rest: seq<Notification>, after: Pending)
    requires card.id !in before && IsPending(before[card.id := next], next + 1, rest, after)
    ensures IsPending(before, next, [card] + rest, after)
  {
    var entered := [card] + rest;
    assert Ids(entered) == {card.id} + Ids(rest);
    forall i | 0 <= i < |entered|
      ensures entered[i].id in after && after[entered[i].id] == next + i
    {
      if i > 0 {
        assert entered[i] == rest[i - 1];
      }
    }
  }

  lemma OneMoreSpawned(
    before: map<Token, Notification>, next: Token, card: Notification, rest: seq<Notification>,
    after: map<Token, Notification>)
    requires IsSpawned(before[next := card], next + 1, rest, after)
    ensures IsSpawned(before, next, [card] + rest, after)
  {
    var entered := [card] + rest;
    assert next in before[next := card];
    forall token | next <= token < next + |entered|
      ensures token in after && after[token] == entered[token - next]
    {
      if token > next {
        assert entered[token - next] == rest[token - (next + 1)];
      }
    }
  }

  function EnterAll(a: Admission, entered: seq<Notification>): Admission
    decreases |entered|
  {
    if entered == [] then a
    else
      var card := entered[0];
      EnterAll(Admission(a.pending[card.id := a.next], a.spawned[a.next := card], a.next + 1), entered[1..])
  }

  lemma {:induction false} EnterAllEnters(a: Admission, entered: seq<Notification>)
    requires DistinctIds(entered) && forall card :: card in entered ==> card.id !in a.pending
    ensures Enters(a, entered, EnterAll(a, entered))
    decreases |entered|
  {
    if entered == [] {
      assert Ids([]) == {};
    } else {
      var card, rest := entered[0], entered[1..];
      RestDiffers(entered);
      var more := Admission(a.pending[card.id := a.next], a.spawned[a.next := card], a.next + 1);
      EnterAllEnters(more, rest);
      EnterOne(a, card, rest, EnterAll(more, rest));
      SplitFirst(entered);
    }
  }

  lemma {:induction false} AdmitEnters(
    a: Admission, cards: seq<Notification>, only: Option<EventKey>, providers: set<ProviderId>)
    requires DistinctIds(cards)
    ensures Admit(a, cards, only, providers)
            == EnterAll(a, AsFit(|a.pending|, Missing(a.pending, cards, only, providers)))
    decreases |cards|
  {
    if cards != [] {
      RestDiffers(cards);
      AdmitEnters(AdmitOne(a, cards[0], only, providers), cards[1..], only, providers);
      AdmitFirst(a, cards, only, providers);
    }
  }

  lemma AdmitFirst(a: Admission, cards: seq<Notification>, only: Option<EventKey>, providers: set<ProviderId>)
    requires cards != [] && forall card :: card in cards[1..] ==> card.id != cards[0].id
    requires var next := AdmitOne(a, cards[0], only, providers);
             Admit(next, cards[1..], only, providers)
             == EnterAll(next, AsFit(|next.pending|, Missing(next.pending, cards[1..], only, providers)))
    ensures Admit(a, cards, only, providers)
            == EnterAll(a, AsFit(|a.pending|, Missing(a.pending, cards, only, providers)))
  {
    MissingFirst(a.pending, a.next, cards, only, providers);
    if AdmitOne(a, cards[0], only, providers) != a {
      EnterAllFirst(a, cards[0], AsFit(|a.pending| + 1, Missing(a.pending, cards[1..], only, providers)));
    }
  }

  lemma EnterAllFirst(a: Admission, card: Notification, rest: seq<Notification>)
    ensures EnterAll(a, [card] + rest)
            == EnterAll(Admission(a.pending[card.id := a.next], a.spawned[a.next := card], a.next + 1), rest)
  {
    FirstAndRest(card, rest);
  }

  lemma FirstAndRest(card: Notification, rest: seq<Notification>)
    ensures [card] + rest != [] && ([card] + rest)[0] == card && ([card] + rest)[1..] == rest
  {
  }

  lemma SplitFirst(cards: seq<Notification>)
    requires cards != []
    ensures [cards[0]] + cards[1..] == cards
  {
  }

  lemma {:induction false} MissingDiffer(
    pending: Pending, cards: seq<Notification>, only: Option<EventKey>, providers: set<ProviderId>)
    requires DistinctIds(cards)
    ensures DistinctIds(Missing(pending, cards, only, providers))
  {
    if cards != [] {
      RestDiffers(cards);
      MissingDiffer(pending, cards[1..], only, providers);
      MissingAre(pending, cards[1..], only, providers);
    }
  }

  /**
   Cards listed once each enter in the order they are listed, as long as there is room: exactly the
   first of those that are asked for and not pending yet. What was pending stays under its token.
   */
  lemma AdmitExactly(a: Admission, cards: seq<Notification>, only: Option<EventKey>, providers: set<ProviderId>)
    requires DistinctIds(cards)
    ensures var missing := Missing(a.pending, cards, only, providers);
            Enters(a, AsFit(|a.pending|, missing), Admit(a, cards, only, providers))
  {
    AdmitEnters(a, cards, only, providers);
    MissingDiffer(a.pending, cards, only, providers);
    MissingAre(a.pending, cards, only, providers);
    EnterAllEnters(a, AsFit(|a.pending|, Missing(a.pending, cards, only, providers)));
  }

  lemma RestDiffers(cards: seq<Notification>)
    requires cards != [] && DistinctIds(cards)
    ensures DistinctIds(cards[1..]) && forall card :: card in cards[1..] ==> card.id != cards[0].id
  {
  }

  lemma MissingFirst(
    pending: Pending, token: Token,
    cards: seq<Notification>, only: Option<EventKey>, providers: set<ProviderId>)
    requires cards != [] && forall card :: card in cards[1..] ==> card.id != cards[0].id
    ensures var card, rest := cards[0], Missing(pending, cards[1..], only, providers);
            if !IsAskedFor(card, only, providers) || card.id in pending
            then AsFit(|pending|, Missing(pending, cards, only, providers)) == AsFit(|pending|, rest)
            else
              && Missing(pending[card.id := token], cards[1..], only, providers) == rest
              && AsFit(|pending|, Missing(pending, cards, only, providers))
                 == (if |pending| < 256 then [card] + AsFit(|pending| + 1, rest) else AsFit(|pending|, rest))
  {
    MissingBut(pending, cards[0].id, token, cards[1..], only, providers);
    OneMoreFits(|pending|, cards[0], Missing(pending, cards[1..], only, providers));
  }

  lemma EnterOne(a: Admission, card: Notification, rest: seq<Notification>, after: Admission)
    requires card.id !in a.pending
    requires Enters(Admission(a.pending[card.id := a.next], a.spawned[a.next := card], a.next + 1), rest, after)
    ensures Enters(a, [card] + rest, after)
  {
    OneMorePending(a.pending, a.next, card, rest, after.pending);
    OneMoreSpawned(a.spawned, a.next, card, rest, after.spawned);
  }

  /**
   A scheduling call keeps exactly the entries of unread cards, and enters exactly the first missing
   ones as long as there is room; so with room for all, every card asked for is pending afterwards.
   */
  lemma ScheduledExactly(w: World, call: nat, providers: set<ProviderId>) returns (entered: seq<Notification>)
    requires call in w.calls && !w.closed && w.supervisor.Some? && DistinctIds(w.calls[call].cards)
    ensures var c, after := w.calls[call], RunScheduleStep(w, call, providers);
            var kept := StillUnread(w.pending, c.cards);
            var missing := Missing(kept, c.cards, c.only, providers);
            && entered == AsFit(|kept|, missing)
            && IsPending(kept, w.nextToken, entered, after.pending) && HaveWorkers(w, entered, after)
            && (|kept| + |missing| <= 256 ==>
                  forall card :: card in c.cards && IsAskedFor(card, c.only, providers) ==> card.id in after.pending)
  {
    var c := w.calls[call];
    var kept := Prune(w.pending, UnreadIds(c.cards));
    var missing := Missing(kept, c.cards, c.only, providers);
    PruneKeepsUnread(w.pending, c.cards);
    AdmitExactly(Admission(kept, map[], w.nextToken), c.cards, c.only, providers);
    entered := AsFit(|kept|, missing);
    SpawnedHaveWorkers(w, call, providers, entered);
    if |kept| + |missing| <= 256 {
      assert entered == missing;
      AllMissingAreEntered(kept, c.cards, c.only, providers, RunScheduleStep(w, call, providers).pending, w.nextToken);
    }
  }

  predicate ReadAsUnread(cards: seq<Notification>, id: NotificationId) {
    exists i :: 0 <= i < |cards| && cards[i].id == id && cards[i].state == Unread
  }

  /** The entries whose card was read as unread. */
  function StillUnread(pending: Pending, cards: seq<Notification>): Pending {
    map id | id in pending && ReadAsUnread(cards, id) :: pending[id]
  }

  lemma PruneKeepsUnread(pending: Pending, cards: seq<Notification>)
    ensures Prune(pending, UnreadIds(cards)) == StillUnread(pending, cards)
  {
    forall id
      ensures id in UnreadIds(cards) <==> ReadAsUnread(cards, id)
    {
    }
  }

  lemma AllMissingAreEntered(
    kept: Pending, cards: seq<Notification>, only: Option<EventKey>, providers: set<ProviderId>,
    after: Pending, next: Token)
    requires IsPending(kept, next, Missing(kept, cards, only, providers), after)
    ensures forall card :: card in cards && IsAskedFor(card, only, providers) ==> card.id in after
  {
    MissingAre(kept, cards, only, providers);
  }

  function Admitted(w: World, call: nat, providers: set<ProviderId>): Admission
    requires call in w.calls
  {
    var c := w.calls[call];
    Admit(Admission(Prune(w.pending, UnreadIds(c.cards)), map[], w.nextToken), c.cards, c.only, providers)
  }

  lemma SpawnedHaveWorkers(w: World, call: nat, providers: set<ProviderId>, entered: seq<Notification>)
    requires call in w.calls && !w.closed && w.supervisor.Some?
    requires IsSpawned(map[], w.nextToken, entered, Admitted(w, call, providers).spawned)
    ensures HaveWorkers(w, entered, RunScheduleStep(w, call, providers))
  {
  }

  /** Each of the cards has a worker of the current configuration under its token. */
  ghost predicate HaveWorkers(w: World, entered: seq<Notification>, after: World)
    requires w.supervisor.Some?
  {
    forall token :: w.nextToken <= token < w.nextToken + |entered| ==>
      && token in after.workers
      && after.workers[token] == Worker(entered[token - w.nextToken], w.supervisor.value, Resolving)
  }

  // ---- What a title changes ----

  /**
   A title that is written is on that card, which is unread and the very allocation it was made for, and
   nothing else changes but the revision; the same title is not written twice.
   */
  lemma TitleIsWritten(s: State, original: Notification, title: string)
    requires UpdateTitle(s, original, title).1
    ensures var after := UpdateTitle(s, original, title).0;
            && original.id in s.notifications
            && s.notifications[original.id].state == Unread
            && s.notifications[original.id].incarnation == original.incarnation
            && 0 < |title| <= 256
            && after == s.(notifications := after.notifications, revision := after.revision)
            && after.notifications
               == s.notifications[original.id := s.notifications[original.id].(title := Some(title))]
            && !UpdateTitle(after, original, title).1
  {
  }

  /** A title is written while the card stands as it was read, if it is another, printable one of at most 256. */
  lemma FreshTitleIsWritten(s: State, id: NotificationId, title: string)
    requires id in s.notifications && s.notifications[id].id == id && s.notifications[id].state == Unread
    ensures UpdateTitle(s, s.notifications[id], title).1
            <==> (&& s.notifications[id].title != Some(title) && 0 < |title| <= 256
                  && forall c :: c in title ==> !(c < ' ' || (c as int >= 127 && c as int < 160)))
  {
    assert forall i :: 0 <= i < |title| ==> title[i] in title;
  }

  // ---- A worker that is let finish ----

  /** The worker's entry is pending, its configuration is the current one, and its card stands as it was read. */
  predicate Stands(w: World, token: Token)
    requires token in w.workers
  {
    var worker := w.workers[token];
    && worker.card.id in w.pending && w.pending[worker.card.id] == token
    && w.supervisor == Some(worker.config)
    && worker.card.id in w.reducer.notifications && w.reducer.notifications[worker.card.id] == worker.card
    && worker.card.state == Unread
  }

  /**
   A worker that nobody disturbs writes the title it resolved onto its card, if the title is a new one of
   at most 256 printable characters, and leaves the table.
   */
  lemma UndisturbedWorkerWrites(w: World, token: Token, title: string)
    requires token in w.workers && w.workers[token].stage.Resolving? && Stands(w, token) && !TableHeld(w)
    requires 0 < |title| <= 256 && forall c :: c in title ==> !(c < ' ' || (c as int >= 127 && c as int < 160))
    requires w.workers[token].card.title != Some(title)
    ensures var steps := [Resolve(token, Some(title)), TakeTable(token), Write(token, false), Finish(token)];
            && AllEnabled(w, steps)
            && var id := w.workers[token].card.id;
               var after := Run(w, steps);
               && id in after.reducer.notifications && after.reducer.notifications[id].title == Some(title)
               && id !in after.pending && token !in after.workers
  {
    var worker := w.workers[token];
    FreshTitleIsWritten(w.reducer, worker.card.id, title);
    var a := Moved(w, token, Holding(Some(title)));
    var b := Moved(a, token, Writing(title));
    var c := After(b, Write(token, false));
    assert After(w, Resolve(token, Some(title))) == a;
    assert !TableHeld(a);
    assert After(a, TakeTable(token)) == b;
    assert Enabled(b, Write(token, false));
    assert !TableHeld(c);
    assert Enabled(c, Finish(token));
    FourSteps(w, Resolve(token, Some(title)), TakeTable(token), Write(token, false), Finish(token));
  }

  /** A worker that resolved no title, or whose save fails, leaves the table too and changes nothing else. */
  lemma SilentWorkerLeaves(w: World, token: Token, title: string)
    requires token in w.workers && w.workers[token].stage.Resolving? && Stands(w, token) && !TableHeld(w)
    ensures var steps := [Resolve(token, None), TakeTable(token)];
            && AllEnabled(w, steps)
            && Run(w, steps) == w.(pending := w.pending - {w.workers[token].card.id}, workers := w.workers - {token})
    ensures var steps := [Resolve(token, Some(title)), TakeTable(token), Write(token, true), Finish(token)];
            && AllEnabled(w, steps)
            && Run(w, steps) == w.(pending := w.pending - {w.workers[token].card.id}, workers := w.workers - {token})
  {
    SilentSteps(w, token);
    FailingSteps(w, token, title);
  }

  lemma SilentSteps(w: World, token: Token)
    requires token in w.workers && w.workers[token].stage.Resolving? && Stands(w, token) && !TableHeld(w)
    ensures var steps := [Resolve(token, None), TakeTable(token)];
            && AllEnabled(w, steps)
            && Run(w, steps) == w.(pending := w.pending - {w.workers[token].card.id}, workers := w.workers - {token})
  {
    var a := Moved(w, token, Holding(None));
    assert After(w, Resolve(token, None)) == a;
    assert !TableHeld(a);
    var left := After(a, TakeTable(token));
    assert left.workers == w.workers - {token};
    OneStep(a, TakeTable(token), []);
    assert [TakeTable(token)] + [] == [TakeTable(token)];
    OneStep(w, Resolve(token, None), [TakeTable(token)]);
    assert [Resolve(token, None)] + [TakeTable(token)] == [Resolve(token, None), TakeTable(token)];
  }

  lemma FailingSteps(w: World, token: Token, title: string)
    requires token in w.workers && w.workers[token].stage.Resolving? && Stands(w, token) && !TableHeld(w)
    ensures var steps := [Resolve(token, Some(title)), TakeTable(token), Write(token, true), Finish(token)];
            && AllEnabled(w, steps)
            && Run(w, steps) == w.(pending := w.pending - {w.workers[token].card.id}, workers := w.workers - {token})
  {
    var a := Moved(w, token, Holding(Some(title)));
    var b := Moved(a, token, Writing(title));
    var c := After(b, Write(token, true));
    assert After(w, Resolve(token, Some(title))) == a;
    assert !TableHeld(a);
    assert After(a, TakeTable(token)) == b;
    assert Enabled(b, Write(token, true));
    assert c == Moved(b, token, Finishing);
    assert !TableHeld(c);
    assert After(c, Finish(token)).workers == w.workers - {token};
    FourSteps(w, Resolve(token, Some(title)), TakeTable(token), Write(token, true), Finish(token));
  }

  lemma OneStep(w: World, step: TitleModel.Step, rest: seq<TitleModel.Step>)
    requires Enabled(w, step) && AllEnabled(After(w, step), rest)
    ensures AllEnabled(w, [step] + rest) && Run(w, [step] + rest) == Run(After(w, step), rest)
  {
    assert ([step] + rest)[1..] == rest;
  }

  lemma FourSteps(
    w: World, first: TitleModel.Step, second: TitleModel.Step, third: TitleModel.Step, last: TitleModel.Step)
    requires Enabled(w, first) && Enabled(After(w, first), second)
    requires Enabled(After(After(w, first), second), third)
    requires Enabled(After(After(After(w, first), second), third), last)
    ensures AllEnabled(w, [first, second, third, last])
    ensures Run(w, [first, second, third, last]) == After(After(After(After(w, first), second), third), last)
  {
    var a := After(w, first);
    var b := After(a, second);
    var c := After(b, third);
    OneStep(c, last, []);
    assert [last] + [] == [last];
    OneStep(b, third, [last]);
    OneStep(a, second, [third] + [last]);
    OneStep(w, first, [second] + ([third] + [last]));
    assert [first] + ([second] + ([third] + [last])) == [first, second, third, last];
  }
}
