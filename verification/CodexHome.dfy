/** A Codex home whose files an installation and an uninstallation change in place. */
module CodexHome {
  import opened Basics
  import opened JsonTree
  import opened HooksModel
  import opened IntegrationModel
  import H = HooksRoundTrip
  import I = IntegrationRoundTrip

  class CodexHome {
    var config: File<Config>
    var hooks: File<Json>
    var provenance: Option<Provenance>

    function Contents(): Home
      reads this
    {
      Home(config, hooks, provenance)
    }

    constructor (home: Home)
      ensures Contents() == home
    {
      config, hooks, provenance := home.config, home.hooks, home.provenance;
    }

    // ---- Installing ----

    /** Add our hook to every event of the plan. */
    static method RenderHooks(original: Option<Json>, additions: seq<string>, binary: string)
      returns (result: Result<Json, HooksError>)
      ensures result == HooksModel.RenderHooks(original, additions, binary)
    {
      var document := if original.Some? then original.value else EmptyDocument();
      if !document.Obj? || ("hooks" in document.fields && !document.fields["hooks"].Obj?) {
        return Err(HooksError.InvalidConfiguration);
      }
      var rendered: Hooks := if "hooks" in document.fields then document.fields["hooks"].fields else map[];
      ghost var start := rendered;
      assert additions[0..] == additions;
      for i := 0 to |additions|
        invariant AddHooks(rendered, additions[i..], binary) == AddHooks(start, additions, binary)
      {
        var event := additions[i];
        assert additions[i..][0] == event && additions[i..][1..] == additions[i + 1..];
        ghost var was := rendered;
        if event !in rendered {
          rendered := rendered[event := Arr([])];
        }
        if !rendered[event].Arr? {
          return Err(HooksError.InvalidConfiguration);
        }
        var groups := rendered[event].items;
        rendered := rendered[event := Arr(groups + [PlannedGroup(binary)])];
        assert groups == Groups(was, event);
        assert rendered == was[event := Arr(Groups(was, event) + [PlannedGroup(binary)])];
        assert AddHook(was, event, binary) == Ok(rendered);
      }
      result := Ok(Obj(document.fields["hooks" := Obj(rendered)]));
    }

    /** The commands of ours found in the document, each once. */
    static method ManagedHookCommands(document: Json) returns (commands: set<string>)
      ensures forall command :: command in commands <==>
        (HooksOf(document).Some? && IsManagedCommand(HooksOf(document).value, command))
    {
      commands := {};
      if HooksOf(document).None? {
        return;
      }
      var hooks := HooksOf(document).value;
      var events := hooks.Keys;
      while events != {}
        invariant events <= hooks.Keys
        invariant forall command :: command in commands <==>
          exists event :: event in hooks && event !in events && IsManagedIn(Groups(hooks, event), command)
        decreases |events|
      {
        var event :| event in events;
        events := events - {event};
        var found := ManagedInGroups(Groups(hooks, event));
        commands := commands + found;
      }
      forall command
        ensures command in commands <==> IsManagedCommand(hooks, command)
      {
        assert IsManagedCommand(hooks, command) <==>
          exists event :: event in hooks && IsManagedIn(Groups(hooks, event), command);
      }
    }

    static ghost predicate IsManagedIn(groups: seq<Json>, command: string) {
      exists i :: 0 <= i < |groups| && IsManagedBy(groups[i], command)
    }

    static ghost predicate IsManagedBy(group: Json, command: string) {
      Marked(command) && Handlers(group).Some?
      && exists j :: 0 <= j < |Handlers(group).value| && StringAt(Handlers(group).value[j], "command") == Some(command)
    }

    static method ManagedInGroups(groups: seq<Json>) returns (commands: set<string>)
      ensures forall command :: command in commands <==> IsManagedIn(groups, command)
    {
      commands := {};
      for i := 0 to |groups|
        invariant forall command :: command in commands <==>
          exists k :: 0 <= k < i && IsManagedBy(groups[k], command)
      {
        var found := ManagedInGroup(groups[i]);
        commands := commands + found;
      }
    }

    static method ManagedInGroup(group: Json) returns (commands: set<string>)
      ensures forall command :: command in commands <==> IsManagedBy(group, command)
    {
      commands := {};
      if Handlers(group).None? {
        return;
      }
      var handlers := Handlers(group).value;
      for j := 0 to |handlers|
        invariant forall command :: command in commands <==>
          Marked(command) && exists k :: 0 <= k < j && StringAt(handlers[k], "command") == Some(command)
      {
        var command := StringAt(handlers[j], "command");
        if command.Some? && Marked(command.value) {
          commands := commands + {command.value};
        }
      }
    }

    /** Write, verify, record; whatever fails after the checks, all three files are put back. */
    method Install(binary: string, mode: Mode, fault: Option<Fault>) returns (result: Result<bool, InstallError>)
      modifies this
      ensures result.Err? ==> Contents() == old(Contents())
      ensures result.Ok? ==> Installs(old(Contents()), binary, mode, Contents())
      ensures var plan := BuildPlan(old(Contents()), binary, mode);
              result.Ok? ==> result.value == (plan.writesConfig || plan.additions != [])
      ensures fault.None? ==> (result.Ok? <==> I.Installable(old(Contents()), binary, mode))
    {
      var plan := BuildPlan(Contents(), binary, mode);
      if plan.status != Ready || plan.previous == Some([]) {
        return Err(InvalidPlan);
      }
      var renderedConfig :=
        if plan.writesConfig then Some(ConfigOf(Contents())["notify" := Argv(plan.notify)]) else None;
      var renderedHooks: Option<Json> := None;
      if plan.additions != [] {
        var rendered := RenderHooks(ToOption(hooks), plan.additions, binary);
        if rendered.Err? {
          return Err(InvalidHooks);
        }
        renderedHooks := Some(rendered.value);
      }
      var originalConfig, originalHooks, originalProvenance := config, hooks, provenance;
      var failure := Apply(mode, plan, binary, renderedConfig, renderedHooks, fault);
      if failure.Some? {
        config, hooks, provenance := originalConfig, originalHooks, originalProvenance;
        return Err(failure.value);
      }
      result := Ok(renderedConfig.Some? || renderedHooks.Some?);
    }

    /** The documents a ready plan writes. */
    static ghost predicate Renders(
      home: Home, plan: Plan, binary: string, renderedConfig: Option<Config>, renderedHooks: Option<Json>)
    {
      && renderedConfig == (if plan.writesConfig then Some(ConfigOf(home)["notify" := Argv(plan.notify)]) else None)
      && (renderedHooks.None? <==> plan.additions == [])
      && (renderedHooks.Some? ==>
            HooksModel.RenderHooks(ToOption(home.hooks), plan.additions, binary) == Ok(renderedHooks.value))
    }

    method Apply(
      mode: Mode, plan: Plan, binary: string, renderedConfig: Option<Config>, renderedHooks: Option<Json>,
      fault: Option<Fault>)
      returns (failure: Option<InstallError>)
      requires plan == BuildPlan(Contents(), binary, mode) && plan.status == Ready && plan.previous != Some([])
      requires Renders(Contents(), plan, binary, renderedConfig, renderedHooks)
      modifies this
      ensures failure.None? ==> Installs(old(Contents()), binary, mode, Contents())
      ensures fault.None? ==> (failure.None? <==> renderedHooks.Some? || old(hooks).Parsed?)
    {
      var before := Contents();
      if renderedConfig.Some? {
        if fault == Some(WritingConfig) {
          return Some(Interrupted(WritingConfig));
        }
        config := Parsed(renderedConfig.value);
      }
      if renderedHooks.Some? {
        if fault == Some(WritingHooks) {
          return Some(Interrupted(WritingHooks));
        }
        hooks := Parsed(renderedHooks.value);
      }
      if !hooks.Parsed? {
        return Some(InvalidPlan);
      }
      Verified(before, mode, plan, binary, renderedConfig, renderedHooks, Contents());
      if Notify(ConfigOf(Contents())) != LiliNotify || Additions(ToOption(hooks), SURFACES) != []
         || fault == Some(Verifying)
      {
        return Some(Interrupted(Verifying));
      }
      if fault == Some(WritingProvenance) {
        return Some(Interrupted(WritingProvenance));
      }
      var commands := ManagedHookCommands(hooks.document);
      var previous := provenance;
      provenance := Some(Provenance(
        binary, plan.notify, plan.previous, commands,
        if !plan.writesConfig && previous.Some? then previous.value.config
        else FileProvenance(before.config == Missing, config.document),
        if plan.additions == [] && previous.Some? then previous.value.hooks
        else FileProvenance(before.hooks == Missing, hooks.document)));
      failure := None;
    }

    /** What has been written always passes the inspection that follows. */
    static lemma Verified(
      before: Home, mode: Mode, plan: Plan, binary: string, renderedConfig: Option<Config>, renderedHooks: Option<Json>,
      after: Home)
      requires plan == BuildPlan(before, binary, mode) && plan.status == Ready
      requires Renders(before, plan, binary, renderedConfig, renderedHooks)
      requires after.config == if renderedConfig.Some? then Parsed(renderedConfig.value) else before.config
      requires after.hooks == if renderedHooks.Some? then Parsed(renderedHooks.value) else before.hooks
      requires after.hooks.Parsed?
      ensures after.config.Parsed?
      ensures Notify(ConfigOf(after)) == LiliNotify && Additions(ToOption(after.hooks), SURFACES) == []
    {
      I.OurNotifyIsMarked(binary, plan.previous);
      H.SurfacesAre();
      if renderedHooks.Some? {
        H.AllAreServed(ToOption(before.hooks), SURFACES, binary, renderedHooks.value);
      }
    }

    // ---- Uninstalling ----

    method Uninstall() returns (result: Result<Uninstalled, UninstallError>)
      modifies this
      ensures (Contents(), result) == IntegrationModel.Uninstall(old(Contents()))
    {
      if provenance.None? {
        return Err(NotInstalled);
      }
      var p := provenance.value;
      if !ValidProvenance(p) {
        return Err(InvalidProvenance);
      }
      if config.Malformed? || hooks.Malformed? {
        return Err(UninstallError.InvalidConfiguration);
      }
      var configPlan := PlanConfigUninstall(p, ToOption(config));
      var hooksPlan := PlanHooksUninstall(HooksRecord(p), ToOption(hooks));
      var complete := configPlan.complete && hooksPlan.complete;
      config := Applied(configPlan.mutation, config);
      hooks := AppliedHooks(hooksPlan.mutation, hooks);
      if complete {
        provenance := None;
      }
      result := Ok(Uninstalled(complete, configPlan.restored, hooksPlan.removed,
                               configPlan.conflict || hooksPlan.conflict));
    }

    static method PlanConfigUninstall(p: Provenance, contents: Option<Config>) returns (plan: ConfigPlan)
      ensures plan == IntegrationModel.PlanConfigUninstall(p, contents)
    {
      if contents.None? {
        return ConfigPlan(KeepConfig, false, true, false);
      }
      var document := contents.value;
      var current := NotifyArgv(document);
      if current != Some(p.notify) {
        return ConfigPlan(KeepConfig, false, !(current.Some? && ArgvMarked(current.value)), true);
      }
      if p.config.created && p.previous.None? && document == p.config.after {
        return ConfigPlan(RemoveConfig, false, true, false);
      }
      var restored := p.previous.Some?;
      if restored {
        document := document["notify" := Argv(p.previous.value)];
      } else {
        document := document - {"notify"};
      }
      plan := ConfigPlan(WriteConfig(document), restored, true, false);
    }

    static method PlanHooksUninstall(p: HooksProvenance, contents: Option<Json>) returns (plan: HooksPlan)
      ensures plan == HooksModel.PlanHooksUninstall(p, contents)
    {
      if contents.None? {
        return HooksPlan(Unchanged, 0, true, false);
      }
      var document := contents.value;
      if HooksOf(document).None? {
        var complete := !HasMarker(document);
        return HooksPlan(Unchanged, 0, complete, !complete);
      }
      var original := HooksOf(document).value;
      if !LayoutIsRemovable(original) || !AllRecorded(original, p) {
        return HooksPlan(Unchanged, 0, false, true);
      }
      var stripped, removed := StripEvents(original);
      if removed == 0 {
        return HooksPlan(Unchanged, 0, true, false);
      }
      if p.created && document == p.after {
        return HooksPlan(Remove, removed, true, false);
      }
      plan := HooksPlan(Write(Obj(document.fields["hooks" := Obj(stripped)])), removed, true, false);
    }

    static method StripEvents(original: Hooks) returns (stripped: Hooks, removed: nat)
      ensures stripped == StripHooks(original) && removed == Removed(original, original.Keys)
    {
      stripped, removed := original, 0;
      var events := original.Keys;
      while events != {}
        invariant events <= original.Keys && stripped.Keys == original.Keys
        invariant forall event :: event in original ==>
          stripped[event] == if event in events then original[event] else StripEvent(original[event])
        invariant removed + Removed(original, events) == Removed(original, original.Keys)
        decreases |events|
      {
        var event :| event in events;
        H.RemovedInAnyOrder(original, events, event);
        events := events - {event};
        if stripped[event].Arr? {
          var groups, gone := StripAll(stripped[event].items);
          stripped := stripped[event := Arr(groups)];
          removed := removed + gone;
        }
      }
      stripped := map event | event in stripped && stripped[event] != Arr([]) :: stripped[event];
    }

    /** Take our handlers out of every group, then drop the groups without handlers. */
    static method StripAll(original: seq<Json>) returns (groups: seq<Json>, removed: nat)
      ensures groups == StripGroups(original) && removed == RemovedFrom(original)
    {
      groups, removed := [], 0;
      assert original[0..] == original;
      for i := 0 to |original|
        invariant groups + StripGroups(original[i..]) == StripGroups(original)
        invariant removed + RemovedFrom(original[i..]) == RemovedFrom(original)
      {
        assert original[i..][0] == original[i] && original[i..][1..] == original[i + 1..];
        var group, gone := StripOne(original[i]);
        removed := removed + gone;
        if !IsEmptyGroup(group) {
          groups := groups + [group];
        }
      }
    }

    static method StripOne(original: Json) returns (group: Json, removed: nat)
      ensures group == StripGroup(original) && removed == OursIn(original)
    {
      group, removed := original, 0;
      if Handlers(original).Some? {
        var handlers := Handlers(original).value;
        var others := Retain(handlers);
        removed := |handlers| - |others|;
        group := Obj(original.fields["hooks" := Arr(others)]);
      }
    }

    static method Retain(handlers: seq<Json>) returns (others: seq<Json>)
      ensures others == Others(handlers) && |others| + Ours(handlers) == |handlers|
    {
      others := [];
      assert handlers[0..] == handlers;
      for i := 0 to |handlers|
        invariant others + Others(handlers[i..]) == Others(handlers)
      {
        assert handlers[i..][0] == handlers[i] && handlers[i..][1..] == handlers[i + 1..];
        if !IsLiliHandler(handlers[i]) {
          others := others + [handlers[i]];
        }
      }
      H.OthersAre(handlers);
    }
  }
}
