/** The application's shared reducer and its saved row; a failed save puts the old reducer back. */
module AppState {
  import opened Basics
  import opened SessionTypes
  import opened ReducerModel
  import opened SessionReducer
  import S = StoreModel

  class AppState {
    var reducer: SessionReducer
    var row: S.Row

    ghost predicate Valid()
      reads this, reducer
    {
      reducer.Valid()
    }

    ghost function World(): S.Shared
      reads this, reducer
    {
      S.Shared(reducer.Abs(), row)
    }

    constructor Start(minimumDwell: u64)
      ensures Valid() && fresh(reducer)
      ensures World() == S.Shared(INITIAL.(minimumDwell := minimumDwell), S.EMPTY_ROW)
    {
      reducer := new SessionReducer.WithMinimumDwell(minimumDwell);
      row := S.EMPTY_ROW;
    }

    method ApplySessionEventPersisted(event: Event, at: u64, token: nat, startedAt: u64, fails: bool)
      returns (result: Result<Outcome, S.SaveError>)
      requires Valid() && event.Valid()
      modifies this, reducer
      ensures Valid() && fresh({reducer} - {old(reducer)})
      ensures var (world, saved) := S.Perform(old(World()), S.Deliver(event, at, token, startedAt, fails));
              && World() == world
              && result == if saved.Err? then Err(saved.error)
                           else Ok(ReduceAt(old(World()).reducer, event, at, token).outcome)
    {
      var previous := new SessionReducer.Copy(reducer);
      var outcome := reducer.ReduceAt(event, at, token);
      if outcome.Applied? {
        var persistent := reducer.PersistentState();
        var saved := S.Save(row, persistent, fails);
        if saved.Err? {
          reducer := previous;
          return Err(saved.error);
        }
        row := saved.value;
        if event.kind.StartsActivity() {
          reducer.RestartActivityReminder(startedAt);
        }
      }
      result := Ok(outcome);
    }

    method AcknowledgeNotificationPersisted(id: NotificationId, now: u64, fails: bool)
      returns (result: Result<Outcome, S.SaveError>)
      requires Valid()
      modifies this, reducer
      ensures Valid() && fresh({reducer} - {old(reducer)})
      ensures var (world, saved) := S.Perform(old(World()), S.Dismiss(id, now, fails));
              && World() == world
              && result == if saved.Err? then Err(saved.error)
                           else Ok(Acknowledge(old(World()).reducer, id, now).outcome)
    {
      var previous := new SessionReducer.Copy(reducer);
      var outcome := reducer.AcknowledgeNotification(id, now);
      if outcome.Applied? {
        var persistent := reducer.PersistentState();
        var saved := S.Save(row, persistent, fails);
        if saved.Err? {
          reducer := previous;
          return Err(saved.error);
        }
        row := saved.value;
      }
      result := Ok(outcome);
    }

    method SaveNotificationTitle(original: Notification, title: string, fails: bool)
      returns (result: Result<bool, S.SaveError>)
      requires Valid()
      modifies this, reducer
      ensures Valid() && fresh({reducer} - {old(reducer)})
      ensures (World(), result) == S.Perform(old(World()), S.Title(original, title, fails))
    {
      var previous := new SessionReducer.Copy(reducer);
      var updated := reducer.UpdateNotificationTitle(original, title);
      if !updated {
        return Ok(false);
      }
      var persistent := reducer.PersistentState();
      var saved := S.Save(row, persistent, fails);
      if saved.Err? {
        reducer := previous;
        return Err(saved.error);
      }
      row := saved.value;
      result := Ok(true);
    }

    method AdvancePresentation(now: u64) returns (outcome: Outcome)
      requires Valid()
      modifies reducer
      ensures Valid() && reducer == old(reducer) && row == old(row)
      ensures World() == S.Perform(old(World()), S.Tick(now)).0
    {
      outcome := reducer.AdvancePresentation(now);
    }
  }
}
