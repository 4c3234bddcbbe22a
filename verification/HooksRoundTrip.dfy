/** Uninstalling undoes installing, and never leaves anything of ours behind that it calls complete. */
module HooksRoundTrip {
  import opened Basics
  import opened JsonTree
  import opened HooksModel

  // ---- Unmarked documents ----

  lemma UnmarkedHandler(handler: Json)
    requires !HasMarker(handler)
    ensures !IsLiliHandler(handler)
  {
  }

  lemma {:induction false} UnmarkedHandlers(handlers: seq<Json>)
    requires forall handler :: handler in handlers ==> !IsLiliHandler(handler)
    ensures Others(handlers) == handlers && Ours(handlers) == 0
  {
    if handlers != [] {
      UnmarkedHandlers(handlers[1..]);
    }
  }

  lemma UnmarkedGroup(group: Json)
    requires !HasMarker(group)
    ensures StripGroup(group) == group && RemovedFrom([group]) == 0
  {
    if Handlers(group).Some? {
      var handlers := Handlers(group).value;
      assert !HasMarker(group.fields["hooks"]);
      forall handler | handler in handlers
        ensures !IsLiliHandler(handler)
      {
        UnmarkedHandler(handler);
      }
      UnmarkedHandlers(handlers);
      assert group.fields["hooks" := Arr(handlers)] == group.fields;
    }
  }

  /** The groups that do not have an empty list of handlers. */
  function NonEmptyGroups(groups: seq<Json>): seq<Json> {
    if groups == [] then []
    else (if IsEmptyGroup(groups[0]) then [] else [groups[0]]) + NonEmptyGroups(groups[1..])
  }

  lemma {:induction false} UnmarkedGroups(groups: seq<Json>)
    requires forall group :: group in groups ==> !HasMarker(group)
    ensures StripGroups(groups) == NonEmptyGroups(groups) && RemovedFrom(groups) == 0
  {
    if groups != [] {
      UnmarkedGroup(groups[0]);
      UnmarkedGroups(groups[1..]);
    }
  }

  lemma UnmarkedItems(v: Json)
    requires v.Arr? && !HasMarker(v)
    ensures forall item :: item in v.items ==> !HasMarker(item)
  {
    forall item | item in v.items
      ensures !HasMarker(item)
    {
      var i :| 0 <= i < |v.items| && v.items[i] == item;
    }
  }

  // ---- The planned group ----

  lemma CommandsAreMarked(binary: string)
    ensures Marked(PosixCommand(binary)) && Marked(WindowsCommand(binary))
  {
    ContainsPart("'" + Replace(binary, '\'', "'\"'\"'") + "' --integration-id ", MARKER, " --json-stdin");
    ContainsPart("\"" + Replace(binary, '"', "\\\"") + "\" --integration-id ", MARKER, " --json-stdin");
  }

  lemma PlannedHandlerIs(binary: string)
    ensures IsLiliHandler(PlannedHandler(binary))
    ensures StringAt(PlannedHandler(binary), "command") == Some(PosixCommand(binary))
    ensures PlannedHandler(binary).fields.Keys == {"type", "command", "commandWindows", "timeout", "statusMessage"}
  {
    CommandsAreMarked(binary);
  }

  lemma PlannedGroupIs(binary: string)
    ensures Handlers(PlannedGroup(binary)) == Some([PlannedHandler(binary)])
    ensures IsEmptyGroup(StripGroup(PlannedGroup(binary))) && RemovedFrom([PlannedGroup(binary)]) == 1
    ensures GroupIsRemovable(PlannedGroup(binary))
  {
    PlannedHandlerIs(binary);
    var group, handlers := PlannedGroup(binary), [PlannedHandler(binary)];
    assert handlers[1..] == [];
    assert Others(handlers[1..]) == [] && Ours(handlers[1..]) == 0;
    assert handlers[0] == PlannedHandler(binary) && Others(handlers) == [] + [];
    assert Ours(handlers) == 1;
    assert [group][1..] == [];
    assert group.fields.Keys == {"hooks"};
  }

  lemma {:induction false} StripAppended(groups: seq<Json>, binary: string)
    ensures StripGroups(groups + [PlannedGroup(binary)]) == StripGroups(groups)
    ensures RemovedFrom(groups + [PlannedGroup(binary)]) == RemovedFrom(groups) + 1
  {
    PlannedGroupIs(binary);
    var all := groups + [PlannedGroup(binary)];
    if groups == [] {
      assert all == [PlannedGroup(binary)] && all[1..] == [];
    } else {
      assert all[1..] == groups[1..] + [PlannedGroup(binary)];
      StripAppended(groups[1..], binary);
    }
  }

  // ---- What an installation has done ----

  /** Our group comes last in each of the events; nothing else changed. */
  ghost predicate Installed(before: Hooks, after: Hooks, events: set<string>, binary: string) {
    && after.Keys == before.Keys + events
    && (forall event :: event in events ==>
          && (event in before ==> before[event].Arr?)
          && after[event] == Arr(Groups(before, event) + [PlannedGroup(binary)]))
    && (forall event :: event in before && event !in events ==> after[event] == before[event])
  }

  ghost predicate HasRoom(hooks: Hooks, additions: seq<string>) {
    forall event :: event in additions && event in hooks ==> hooks[event].Arr?
  }

  lemma {:induction false} AddHooksInstalls(hooks: Hooks, additions: seq<string>, binary: string)
    requires Distinct(additions)
    ensures var result := AddHooks(hooks, additions, binary);
            && (result.Ok? <==> HasRoom(hooks, additions))
            && (result.Ok? ==> Installed(hooks, result.value, Elements(additions), binary))
    decreases |additions|
  {
    if additions != [] {
      var event, rest := additions[0], additions[1..];
      assert additions == [event] + rest && event !in rest;
      var added := AddHook(hooks, event, binary);
      if added.Ok? {
        AddHooksInstalls(added.value, rest, binary);
        assert HasRoom(hooks, additions) <==> HasRoom(added.value, rest);
        if HasRoom(hooks, additions) {
          InstalledMore(hooks, added.value, AddHooks(added.value, rest, binary).value, event, Elements(rest), binary);
          assert Elements(additions) == {event} + Elements(rest);
        }
      } else {
        assert event in additions;
      }
    }
  }

  lemma InstalledMore(before: Hooks, added: Hooks, after: Hooks, event: string, events: set<string>, binary: string)
    requires event in before ==> before[event].Arr?
    requires added == before[event := Arr(Groups(before, event) + [PlannedGroup(binary)])]
    requires event !in events && Installed(added, after, events, binary)
    ensures Installed(before, after, {event} + events, binary)
  {
    forall other | other in events
      ensures Groups(added, other) == Groups(before, other)
    {
    }
  }

  ghost predicate Clean(hooks: Hooks) {
    !HasMarker(Obj(hooks))
  }

  lemma CleanEvents(hooks: Hooks, event: string)
    requires Clean(hooks) && event in hooks
    ensures !Marked(event) && !HasMarker(hooks[event])
    ensures forall group :: group in Groups(hooks, event) ==> !HasMarker(group)
  {
    if hooks[event].Arr? {
      UnmarkedItems(hooks[event]);
    }
  }

  /** The hooks without the groups that were already empty and the events without a group. */
  function Pruned(hooks: Hooks): Hooks {
    map event | event in hooks && (hooks[event].Arr? ==> NonEmptyGroups(hooks[event].items) != [])
      :: if hooks[event].Arr? then Arr(NonEmptyGroups(hooks[event].items)) else hooks[event]
  }

  lemma StripEventUndoes(before: Hooks, after: Hooks, events: set<string>, binary: string, event: string)
    requires Clean(before) && Installed(before, after, events, binary) && event in after
    ensures StripEvent(after[event]) ==
            if event in before && !before[event].Arr? then before[event] else Arr(NonEmptyGroups(Groups(before, event)))
    ensures RemovedFrom(Groups(after, event)) == if event in events then 1 else 0
  {
    if event in before {
      CleanEvents(before, event);
    }
    UnmarkedGroups(Groups(before, event));
    StripAppended(Groups(before, event), binary);
  }

  lemma StripUndoes(before: Hooks, after: Hooks, events: set<string>, binary: string)
    requires Clean(before) && Installed(before, after, events, binary)
    ensures StripHooks(after) == Pruned(before)
  {
    forall event | event in after
      ensures event in StripHooks(after) <==> event in Pruned(before)
      ensures event in StripHooks(after) ==> StripHooks(after)[event] == Pruned(before)[event]
    {
      StripEventUndoes(before, after, events, binary, event);
    }
    assert StripHooks(after).Keys <= after.Keys && Pruned(before).Keys <= before.Keys;
  }

  lemma {:induction false} RemovesOneEach(
    before: Hooks, after: Hooks, events: set<string>, binary: string, left: set<string>)
    requires Clean(before) && Installed(before, after, events, binary) && left <= after.Keys
    ensures Removed(after, left) == |left * events|
  {
    if left == {} {
      assert left * events == {};
    } else {
      var event := AnyOf(left);
      StripEventUndoes(before, after, events, binary, event);
      RemovesOneEach(before, after, events, binary, left - {event});
      IntersectLess(left, events, event);
    }
  }

  lemma IntersectLess(left: set<string>, events: set<string>, event: string)
    requires event in left
    ensures |left * events| == |(left - {event}) * events| + if event in events then 1 else 0
  {
    if event in events {
      assert left * events == (left - {event}) * events + {event};
    } else {
      assert left * events == (left - {event}) * events;
    }
  }

  lemma InstalledIsRemovable(before: Hooks, after: Hooks, events: set<string>, binary: string)
    requires Clean(before) && Installed(before, after, events, binary)
    requires forall event :: event in events ==> !Marked(event)
    ensures LayoutIsRemovable(after)
  {
    PlannedGroupIs(binary);
    forall event | event in after
      ensures !Marked(event)
      ensures HasMarker(after[event]) ==>
        after[event].Arr? && forall group :: group in after[event].items ==> GroupIsRemovable(group)
    {
      if event in before {
        CleanEvents(before, event);
      }
    }
  }

  ghost predicate RecordsInstallation(p: HooksProvenance, original: Option<Json>, after: Json, binary: string) {
    && p.binary == binary && p.created == original.None? && p.after == after
    && HooksOf(after).Some?
    && forall command :: command in p.commands <==> IsManagedCommand(HooksOf(after).value, command)
  }

  lemma OnlyPlannedAreOurs(
    before: Hooks, after: Hooks, events: set<string>, binary: string, event: string, group: Json, handler: Json)
    requires Clean(before) && Installed(before, after, events, binary)
    requires event in after && group in Groups(after, event)
    requires Handlers(group).Some? && handler in Handlers(group).value && IsLiliHandler(handler)
    ensures event in events && group == PlannedGroup(binary) && handler == PlannedHandler(binary)
  {
    PlannedGroupIs(binary);
    if event in before {
      CleanEvents(before, event);
    }
    if group in Groups(before, event) {
      UnmarkedGroup(group);
      assert !HasMarker(group.fields["hooks"]);
      UnmarkedItems(group.fields["hooks"]);
      UnmarkedHandler(handler);
      assert false;
    }
  }

  lemma PlannedIsManaged(before: Hooks, after: Hooks, events: set<string>, binary: string, event: string)
    requires Installed(before, after, events, binary) && event in events
    ensures IsManagedCommand(after, PosixCommand(binary))
  {
    PlannedGroupIs(binary);
    PlannedHandlerIs(binary);
    CommandsAreMarked(binary);
    var i := |Groups(before, event)|;
    assert Groups(after, event)[i] == PlannedGroup(binary);
    assert StringAt(Handlers(Groups(after, event)[i]).value[0], "command") == Some(PosixCommand(binary));
  }

  lemma InstalledIsRecorded(
    before: Hooks, after: Hooks, events: set<string>, binary: string, p: HooksProvenance)
    requires Clean(before) && Installed(before, after, events, binary)
    requires p.binary == binary && forall command :: command in p.commands <==> IsManagedCommand(after, command)
    ensures AllRecorded(after, p)
  {
    forall event, group, handler |
      event in after && group in Groups(after, event) && Handlers(group).Some? && handler in Handlers(group).value
      && IsLiliHandler(handler)
      ensures IsRecorded(handler, p)
    {
      OnlyPlannedAreOurs(before, after, events, binary, event, group, handler);
      PlannedHandlerIs(binary);
      PlannedIsManaged(before, after, events, binary, event);
    }
  }

  // ---- Documents ----

  /** No document, or one whose hooks object, if it has one, holds lists where hooks are to be added. */
  ghost predicate IsExtensible(original: Option<Json>, additions: seq<string>) {
    original.Some? ==>
      && original.value.Obj?
      && ("hooks" in original.value.fields ==>
            HooksOf(original.value).Some? && HasRoom(HooksOf(original.value).value, additions))
  }

  function HooksIn(original: Option<Json>): Hooks {
    if original.Some? && HooksOf(original.value).Some? then HooksOf(original.value).value else map[]
  }

  lemma SurfacesAre()
    ensures Distinct(SURFACES) && |Elements(SURFACES)| == 5
    ensures forall event :: event in SURFACES ==> !Marked(event)
  {
    assert Elements(SURFACES) == {SURFACES[0], SURFACES[1], SURFACES[2], SURFACES[3], SURFACES[4]};
    forall event | event in SURFACES
      ensures !Marked(event)
    {
      forall i | 0 <= i <= |event| - |MARKER|
        ensures !OccursAt(event, MARKER, i)
      {
        assert MARKER[0] == 'l' && MARKER[4] == '-';
      }
    }
  }

  lemma CleanServesNothing(document: Json, event: string)
    requires HooksOf(document).Some? ==> Clean(HooksOf(document).value)
    ensures !Serves(document, event)
  {
    if HooksOf(document).Some? && event in HooksOf(document).value {
      var groups := Groups(HooksOf(document).value, event);
      CleanEvents(HooksOf(document).value, event);
      forall i, j | 0 <= i < |groups| && Handlers(groups[i]).Some? && 0 <= j < |Handlers(groups[i]).value|
        ensures !IsLiliHandler(Handlers(groups[i]).value[j])
      {
        assert !HasMarker(groups[i]);
        assert !HasMarker(groups[i].fields["hooks"]);
        UnmarkedItems(groups[i].fields["hooks"]);
        UnmarkedHandler(Handlers(groups[i]).value[j]);
      }
    }
  }

  lemma {:induction false} AllAreAdded(document: Option<Json>, events: seq<string>)
    requires Clean(HooksIn(document))
    ensures Additions(document, events) == events
  {
    if events != [] {
      if document.Some? {
        CleanServesNothing(document.value, events[0]);
      }
      AllAreAdded(document, events[1..]);
    }
  }

  lemma RenderIntoExactly(document: Json, additions: seq<string>, binary: string)
    requires Distinct(additions)
    ensures var result := RenderInto(document, additions, binary);
            && (result.Ok? <==> IsExtensible(Some(document), additions))
            && (result.Ok? ==>
                  && HooksOf(result.value).Some?
                  && Installed(HooksIn(Some(document)), HooksOf(result.value).value, Elements(additions), binary)
                  && result.value == Obj(document.fields["hooks" := result.value.fields["hooks"]]))
  {
    AddHooksInstalls(HooksIn(Some(document)), additions, binary);
  }

  lemma RenderSucceeds(original: Option<Json>, additions: seq<string>, binary: string)
    requires Distinct(additions)
    ensures RenderHooks(original, additions, binary).Ok? <==> IsExtensible(original, additions)
  {
    RenderIntoExactly(if original.Some? then original.value else EmptyDocument(), additions, binary);
  }

  lemma RenderExtends(original: Option<Json>, additions: seq<string>, binary: string, after: Json)
    requires Distinct(additions) && RenderHooks(original, additions, binary) == Ok(after)
    ensures HooksOf(after).Some?
    ensures original.Some? ==> original.value.Obj? && after.Obj?
  {
    RenderIntoExactly(if original.Some? then original.value else EmptyDocument(), additions, binary);
  }

  /** On a document without a marker an installation succeeds exactly if the document can be extended. */
  lemma RenderExactly(original: Option<Json>, binary: string)
    requires Clean(HooksIn(original))
    ensures var result := RenderHooks(original, Additions(original, SURFACES), binary);
            && (result.Ok? <==> IsExtensible(original, SURFACES))
            && (result.Ok? ==>
                  && HooksOf(result.value).Some?
                  && Installed(HooksIn(original), HooksOf(result.value).value, Elements(SURFACES), binary)
                  && (original.Some? ==>
                        result.value == Obj(original.value.fields["hooks" := result.value.fields["hooks"]])))
  {
    AllAreAdded(original, SURFACES);
    SurfacesAre();
    RenderIntoExactly(if original.Some? then original.value else EmptyDocument(), SURFACES, binary);
  }

  /**
   Uninstalling what an installation wrote into an unmarked document gives the document back with
   only the groups and events pruned that were empty before, a missing hooks object having become
   an empty one; a created document is removed. Five handlers go, and no conflict is met.
   */
  lemma UninstallUndoesInstall(original: Option<Json>, binary: string, after: Json, p: HooksProvenance)
    requires Clean(HooksIn(original))
    requires RenderHooks(original, Additions(original, SURFACES), binary) == Ok(after)
    requires RecordsInstallation(p, original, after, binary)
    ensures PlanHooksUninstall(p, Some(after)) ==
            HooksPlan(if original.None? then Remove
                      else Write(Obj(after.fields["hooks" := Obj(Pruned(HooksIn(original)))])),
                      5, true, false)
    ensures original.Some? ==>
      original.value.Obj? && after.Obj? && after.fields - {"hooks"} == original.value.fields - {"hooks"}
  {
    AllAreAdded(original, SURFACES);
    SurfacesAre();
    UninstallUndoes(original, SURFACES, binary, after, p);
  }

  lemma UninstallUndoes(
    original: Option<Json>, additions: seq<string>, binary: string, after: Json, p: HooksProvenance)
    requires Clean(HooksIn(original))
    requires Distinct(additions) && additions != [] && forall event :: event in additions ==> !Marked(event)
    requires RenderHooks(original, additions, binary) == Ok(after)
    requires RecordsInstallation(p, original, after, binary)
    ensures PlanHooksUninstall(p, Some(after)) ==
            HooksPlan(if original.None? then Remove
                      else Write(Obj(after.fields["hooks" := Obj(Pruned(HooksIn(original)))])),
                      |Elements(additions)|, true, false)
    ensures original.Some? ==>
      original.value.Obj? && after.Obj? && after.fields - {"hooks"} == original.value.fields - {"hooks"}
  {
    var document := if original.Some? then original.value else EmptyDocument();
    RenderIntoExactly(document, additions, binary);
    assert HooksIn(Some(document)) == HooksIn(original);
    assert additions[0] in Elements(additions);
    InstalledPlan(HooksIn(original), Elements(additions), after, binary, p);
    if original.Some? {
      assert after.fields - {"hooks"} == original.value.fields - {"hooks"};
    }
  }

  /** The plan for a document whose hooks are an unmarked document's with ours installed. */
  lemma InstalledPlan(before: Hooks, events: set<string>, document: Json, binary: string, p: HooksProvenance)
    requires Clean(before) && events != {} && forall event :: event in events ==> !Marked(event)
    requires HooksOf(document).Some? && Installed(before, HooksOf(document).value, events, binary)
    requires p.binary == binary && p.after == document
    requires forall command :: command in p.commands <==> IsManagedCommand(HooksOf(document).value, command)
    ensures PlanHooksUninstall(p, Some(document)) ==
            HooksPlan(if p.created then Remove else Write(Obj(document.fields["hooks" := Obj(Pruned(before))])),
                      |events|, true, false)
  {
    InstalledPasses(before, HooksOf(document).value, events, binary, p);
    PlanRemoves(p, document);
  }

  lemma InstalledPasses(before: Hooks, after: Hooks, events: set<string>, binary: string, p: HooksProvenance)
    requires Clean(before) && events != {} && forall event :: event in events ==> !Marked(event)
    requires Installed(before, after, events, binary) && p.binary == binary
    requires forall command :: command in p.commands <==> IsManagedCommand(after, command)
    ensures LayoutIsRemovable(after) && AllRecorded(after, p) && StripHooks(after) == Pruned(before)
    ensures Removed(after, after.Keys) == |events| > 0
  {
    InstalledIsRemovable(before, after, events, binary);
    InstalledIsRecorded(before, after, events, binary, p);
    StripUndoes(before, after, events, binary);
    RemovesOneEach(before, after, events, binary, after.Keys);
    assert after.Keys * events == events;
  }

  lemma PlanRemoves(p: HooksProvenance, document: Json)
    requires HooksOf(document).Some?
    requires var hooks := HooksOf(document).value;
             LayoutIsRemovable(hooks) && AllRecorded(hooks, p) && Removed(hooks, hooks.Keys) != 0
    ensures var hooks := HooksOf(document).value;
            PlanHooksUninstall(p, Some(document)) ==
            HooksPlan(if p.created && document == p.after then Remove
                      else Write(Obj(document.fields["hooks" := Obj(StripHooks(hooks))])),
                      Removed(hooks, hooks.Keys), true, false)
  {
  }

  /** The count does not depend on the order in which the events are visited. */
  lemma {:induction false} RemovedInAnyOrder(hooks: Hooks, events: set<string>, event: string)
    requires events <= hooks.Keys && event in events
    ensures Removed(hooks, events) == RemovedFrom(Groups(hooks, event)) + Removed(hooks, events - {event})
  {
    var first := AnyOf(events);
    if first != event {
      RemovedInAnyOrder(hooks, events - {first}, event);
      RemovedInAnyOrder(hooks, events - {event}, first);
      assert events - {first} - {event} == events - {event} - {first};
    }
  }

  // ---- When the document comes back exactly ----

  /** No event without groups and no group without handlers. */
  ghost predicate Tidy(hooks: Hooks) {
    forall event :: event in hooks && hooks[event].Arr? ==>
      hooks[event].items != [] && forall group :: group in hooks[event].items ==> !IsEmptyGroup(group)
  }

  lemma {:induction false} NonEmptyGroupsAre(groups: seq<Json>)
    ensures |NonEmptyGroups(groups)| <= |groups|
    ensures NonEmptyGroups(groups) == groups <==> forall group :: group in groups ==> !IsEmptyGroup(group)
  {
    if groups != [] {
      NonEmptyGroupsAre(groups[1..]);
      assert groups == [groups[0]] + groups[1..];
    }
  }

  /** Pruning changes nothing exactly if there was nothing empty. */
  lemma PrunedExactly(hooks: Hooks)
    ensures Pruned(hooks) == hooks <==> Tidy(hooks)
  {
    forall event | event in hooks && hooks[event].Arr?
      ensures NonEmptyGroups(hooks[event].items) == hooks[event].items
              <==> forall group :: group in hooks[event].items ==> !IsEmptyGroup(group)
    {
      NonEmptyGroupsAre(hooks[event].items);
    }
    if Pruned(hooks) == hooks {
      forall event | event in hooks && hooks[event].Arr?
        ensures hooks[event].items != [] && forall group :: group in hooks[event].items ==> !IsEmptyGroup(group)
      {
        assert event in Pruned(hooks) && Pruned(hooks)[event] == Arr(NonEmptyGroups(hooks[event].items));
      }
    }
  }

  // ---- Any document ----

  lemma {:induction false} OthersAre(handlers: seq<Json>)
    ensures forall handler :: handler in Others(handlers) <==> handler in handlers && !IsLiliHandler(handler)
    ensures Ours(handlers) == 0 <==> forall handler :: handler in handlers ==> !IsLiliHandler(handler)
    ensures |Others(handlers)| + Ours(handlers) == |handlers|
  {
    if handlers != [] {
      OthersAre(handlers[1..]);
      assert handlers == [handlers[0]] + handlers[1..];
    }
  }

  lemma UnmarkedArray(items: seq<Json>)
    requires forall item :: item in items ==> !HasMarker(item)
    ensures !HasMarker(Arr(items))
  {
  }

  lemma StripGroupUnmarks(group: Json)
    requires GroupIsRemovable(group)
    ensures !HasMarker(StripGroup(group))
    ensures RemovedFrom([group]) == 0 ==> !HasMarker(group)
  {
    if HasMarker(group) {
      if Handlers(group).Some? {
        var handlers := Handlers(group).value;
        OthersAre(handlers);
        UnmarkedArray(Others(handlers));
        if Ours(handlers) == 0 {
          UnmarkedArray(handlers);
        }
        assert [group][1..] == [];
      }
    } else {
      UnmarkedGroup(group);
    }
  }

  lemma {:induction false} StripGroupsUnmark(groups: seq<Json>)
    requires forall group :: group in groups ==> GroupIsRemovable(group)
    ensures forall group :: group in StripGroups(groups) ==> !HasMarker(group)
    ensures RemovedFrom(groups) == 0 ==> forall group :: group in groups ==> !HasMarker(group)
  {
    if groups != [] {
      StripGroupUnmarks(groups[0]);
      assert [groups[0]][1..] == [];
      assert RemovedFrom(groups) == RemovedFrom([groups[0]]) + RemovedFrom(groups[1..]);
      StripGroupsUnmark(groups[1..]);
      assert groups == [groups[0]] + groups[1..];
    }
  }

  lemma StripEventUnmarks(groups: Json)
    requires HasMarker(groups) ==> groups.Arr? && forall group :: group in groups.items ==> GroupIsRemovable(group)
    ensures !HasMarker(StripEvent(groups))
    ensures (groups.Arr? ==> RemovedFrom(groups.items) == 0) ==> !HasMarker(groups)
  {
    if groups.Arr? {
      if !HasMarker(groups) {
        UnmarkedItems(groups);
      }
      StripGroupsUnmark(groups.items);
      UnmarkedArray(StripGroups(groups.items));
      if RemovedFrom(groups.items) == 0 {
        UnmarkedArray(groups.items);
      }
    }
  }

  lemma {:induction false} NothingRemoved(hooks: Hooks, events: set<string>)
    requires events <= hooks.Keys && Removed(hooks, events) == 0
    ensures forall event :: event in events ==> RemovedFrom(Groups(hooks, event)) == 0
  {
    if events != {} {
      NothingRemoved(hooks, events - {AnyOf(events)});
    }
  }

  /** What the file holds after the plan is carried out. */
  function Outcome(mutation: Mutation, contents: Option<Json>): Option<Json> {
    match mutation
    case Unchanged => contents
    case Write(document) => Some(document)
    case Remove => None
  }

  /**
   Whatever the user made of the document since: a plan called complete leaves no marker among the
   hooks, an incomplete one leaves the document as it is and reports a conflict.
   */
  lemma CompleteLeavesNoMarker(p: HooksProvenance, contents: Option<Json>)
    ensures var plan := PlanHooksUninstall(p, contents);
            && (plan.complete ==> Clean(HooksIn(Outcome(plan.mutation, contents))))
            && (plan.complete <==> !plan.conflict)
            && (!plan.complete ==> plan.mutation == Unchanged && plan.removed == 0)
  {
    if contents.Some? && HooksOf(contents.value).Some? {
      var hooks := HooksOf(contents.value).value;
      if LayoutIsRemovable(hooks) {
        StripHooksUnmarks(hooks);
      }
    }
  }

  lemma StripHooksUnmarks(hooks: Hooks)
    requires LayoutIsRemovable(hooks)
    ensures Clean(StripHooks(hooks))
    ensures Removed(hooks, hooks.Keys) == 0 ==> Clean(hooks)
  {
    forall event | event in hooks
      ensures !HasMarker(StripEvent(hooks[event]))
      ensures RemovedFrom(Groups(hooks, event)) == 0 ==> !HasMarker(hooks[event])
    {
      StripEventUnmarks(hooks[event]);
    }
    if Removed(hooks, hooks.Keys) == 0 {
      NothingRemoved(hooks, hooks.Keys);
    }
  }

  // ---- Serving ----

  lemma PlannedServes(before: Hooks, document: Json, events: set<string>, binary: string, event: string)
    requires HooksOf(document).Some? && Installed(before, HooksOf(document).value, events, binary) && event in events
    ensures Serves(document, event)
  {
    PlannedGroupIs(binary);
    PlannedHandlerIs(binary);
    CommandsAreMarked(binary);
    var groups := Groups(HooksOf(document).value, event);
    var i := |Groups(before, event)|;
    assert groups[i] == PlannedGroup(binary);
    assert StringAt(Handlers(groups[i]).value[0], "command") == Some(PosixCommand(binary));
  }

  lemma StillServes(original: Json, document: Json, events: set<string>, binary: string, event: string)
    requires HooksOf(document).Some? && Installed(HooksIn(Some(original)), HooksOf(document).value, events, binary)
    requires Serves(original, event) && event !in events
    ensures Serves(document, event)
  {
    assert Groups(HooksOf(document).value, event) == Groups(HooksIn(Some(original)), event);
  }

  lemma {:induction false} AdditionsAre(document: Option<Json>, events: seq<string>)
    ensures forall event :: event in Additions(document, events) <==>
      event in events && !(document.Some? && Serves(document.value, event))
    ensures Distinct(events) ==> Distinct(Additions(document, events))
    ensures Additions(document, events) == [] <==>
      forall event :: event in events ==> document.Some? && Serves(document.value, event)
  {
    if events != [] {
      AdditionsAre(document, events[1..]);
      assert events == [events[0]] + events[1..];
      var additions := Additions(document, events);
      assert additions != [] ==> additions[0] in additions;
      if Distinct(events) {
        assert forall j :: 0 <= j < |events[1..]| ==> events[1..][j] == events[j + 1];
        assert events[0] !in events[1..] && Distinct(events[1..]);
      }
    }
  }

  /** After an installation every event is served, whoever served it before. */
  lemma AllAreServed(original: Option<Json>, events: seq<string>, binary: string, after: Json)
    requires Distinct(events) && RenderHooks(original, Additions(original, events), binary) == Ok(after)
    ensures Additions(Some(after), events) == []
  {
    var additions := Additions(original, events);
    AdditionsAre(original, events);
    AdditionsAre(Some(after), events);
    var document := if original.Some? then original.value else EmptyDocument();
    RenderIntoExactly(document, additions, binary);
    forall event | event in events
      ensures Serves(after, event)
    {
      if event in additions {
        PlannedServes(HooksIn(Some(document)), after, Elements(additions), binary, event);
      } else {
        StillServes(document, after, Elements(additions), binary, event);
      }
    }
  }

  // ---- Another hook binary ----

  /** A quote is always written behind a backslash. */
  lemma EscapedStart(s: string)
    ensures var escaped := Replace(s, '"', "\\\""); escaped != [] ==> escaped[0] != '"'
  {
  }

  lemma {:induction false} EscapingIsInjective(s: string, t: string)
    ensures Replace(s, '"', "\\\"") == Replace(t, '"', "\\\"") <==> s == t
  {
    var a, b := Replace(s, '"', "\\\""), Replace(t, '"', "\\\"");
    if s != [] && t != [] && a == b {
      var x, y := Replace(s[1..], '"', "\\\""), Replace(t[1..], '"', "\\\"");
      EscapedStart(s[1..]);
      EscapedStart(t[1..]);
      EscapedParts(s[0], x);
      EscapedParts(t[0], y);
      assert s[0] == t[0];
      assert x == y;
      EscapingIsInjective(s[1..], t[1..]);
      assert s == [s[0]] + s[1..] && t == [t[0]] + t[1..];
    }
  }

  lemma EscapedParts(c: char, rest: string)
    ensures var s := (if c == '"' then "\\\"" else [c]) + rest;
            && s != [] && (c == '"' ==> |s| >= 2 && s[0] == '\\' && s[1] == '"' && s[2..] == rest)
            && (c != '"' ==> s[0] == c && s[1..] == rest)
  {
  }

  lemma WindowsCommandsDiffer(binary: string, binary': string)
    ensures WindowsCommand(binary) == WindowsCommand(binary') <==> binary == binary'
  {
    var a, b := Replace(binary, '"', "\\\""), Replace(binary', '"', "\\\"");
    var end := "\" --integration-id " + MARKER + " --json-stdin";
    assert WindowsCommand(binary) == "\"" + a + end && WindowsCommand(binary') == "\"" + b + end;
    if WindowsCommand(binary) == WindowsCommand(binary') {
      assert ("\"" + a + end)[1..|a| + 1] == a && ("\"" + b + end)[1..|b| + 1] == b;
      EscapingIsInjective(binary, binary');
    }
  }

  /** A record of another binary does not recognise the installed handlers. */
  lemma ForeignHandlerIsRefused(
    before: Hooks, after: Hooks, events: set<string>, binary: string, p: HooksProvenance, event: string)
    requires Installed(before, after, events, binary) && event in events && p.binary != binary
    ensures !AllRecorded(after, p)
  {
    PlannedGroupIs(binary);
    PlannedHandlerIs(binary);
    WindowsCommandsDiffer(binary, p.binary);
    var groups := Groups(after, event);
    assert groups[|groups| - 1] == PlannedGroup(binary);
    var group, handler := PlannedGroup(binary), PlannedHandler(binary);
    assert group in groups && handler in Handlers(group).value;
    assert StringAt(handler, "commandWindows") == Some(WindowsCommand(binary));
    assert !IsRecorded(handler, p);
  }

  /** The commands of ours in the document. */
  ghost function ManagedCommands(document: Json): set<string> {
    if HooksOf(document).None? then {}
    else
      var hooks := HooksOf(document).value;
      set event, group, handler |
        event in hooks && group in Groups(hooks, event) && Handlers(group).Some? && handler in Handlers(group).value
        && StringAt(handler, "command").Some? && Marked(StringAt(handler, "command").value)
        :: StringAt(handler, "command").value
  }

  lemma ManagedAre(document: Json)
    ensures forall command :: command in ManagedCommands(document) <==>
      (HooksOf(document).Some? && IsManagedCommand(HooksOf(document).value, command))
  {
    if HooksOf(document).Some? {
      var hooks := HooksOf(document).value;
      forall command
        ensures command in ManagedCommands(document) <==> IsManagedCommand(hooks, command)
      {
        if command in ManagedCommands(document) {
          var event, group, handler :|
            event in hooks && group in Groups(hooks, event) && Handlers(group).Some? && handler in Handlers(group).value
            && StringAt(handler, "command") == Some(command) && Marked(command);
          var i :| 0 <= i < |Groups(hooks, event)| && Groups(hooks, event)[i] == group;
          var j :| 0 <= j < |Handlers(group).value| && Handlers(group).value[j] == handler;
          assert StringAt(Handlers(Groups(hooks, event)[i]).value[j], "command") == Some(command);
        }
        if IsManagedCommand(hooks, command) {
          var event, i, j :|
            event in hooks && 0 <= i < |Groups(hooks, event)|
            && Handlers(Groups(hooks, event)[i]).Some? && 0 <= j < |Handlers(Groups(hooks, event)[i]).value|
            && StringAt(Handlers(Groups(hooks, event)[i]).value[j], "command") == Some(command);
          assert Groups(hooks, event)[i] in Groups(hooks, event);
          assert Handlers(Groups(hooks, event)[i]).value[j] in Handlers(Groups(hooks, event)[i]).value;
        }
      }
    }
  }
}
