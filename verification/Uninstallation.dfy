/** Uninstalling from any home, whatever was made of it since: when it is refused, complete, and what it leaves. */
module Uninstallation {
  import opened Basics
  import opened JsonTree
  import opened HooksModel
  import opened IntegrationModel
  import opened IntegrationRoundTrip
  import H = HooksRoundTrip

  // ---- The notify setting ----

  /** The setting is a list with our marker, but not the one recorded. */
  predicate IsAnotherOfOurs(p: Provenance, config: Config) {
    Notify(config) == LiliNotify && NotifyArgv(config) != Some(p.notify)
  }

  /**
   A setting that is not the one recorded stays as it is and is a conflict; the plan is incomplete exactly
   if such a setting still has our marker. The recorded one gives way to the command recorded before it,
   or is taken out; and the file goes exactly if the installation created it, recorded no such command,
   and it is as it was left. No other setting changes.
   */
  lemma ConfigPlanExactly(p: Provenance, config: Config)
    ensures var plan := PlanConfigUninstall(p, Some(config));
            && (plan.conflict <==> NotifyArgv(config) != Some(p.notify))
            && (plan.complete <==> !IsAnotherOfOurs(p, config))
            && (plan.restored <==> !plan.conflict && p.previous.Some?)
            && Applied(plan.mutation, Parsed(config)) ==
               if plan.conflict then Parsed(config)
               else if p.config == FileProvenance(true, config) && p.previous == None then Missing
               else Parsed(match p.previous
                           case None => config - {"notify"}
                           case Some(previous) => config["notify" := Argv(previous)])
  {
  }

  // ---- When uninstalling is refused ----

  /** A record of an installation of ours: its command and its hooks carry our marker. */
  predicate IsOurs(p: Provenance) {
    && (exists arg :: arg in p.notify && ArgMarked(arg))
    && p.commands != {} && forall command :: command in p.commands ==> Contains(command, "lili-session-v1")
  }

  /** Uninstalling is refused exactly without a record, with one that is not ours, or if a file cannot be parsed. */
  lemma RefusedExactly(home: Home)
    ensures var result := Uninstall(home).1;
            && (result == Err(NotInstalled) <==> home.provenance == None)
            && (result == Err(InvalidProvenance) <==> home.provenance.Some? && !IsOurs(home.provenance.value))
            && (result == Err(UninstallError.InvalidConfiguration) <==>
                  && home.provenance.Some? && IsOurs(home.provenance.value)
                  && (home.config == Malformed || home.hooks == Malformed))
            && (result.Err? ==> Uninstall(home).0 == home)
  {
    if home.provenance.Some? {
      var p := home.provenance.value;
      assert ArgvMarked(p.notify) ==> p.notify != [];
    }
  }

  // ---- What is left ----

  lemma ConfigIsUnmarked(p: Provenance, file: File<Config>)
    requires !file.Malformed? && PlanConfigUninstall(p, ToOption(file)).complete
    requires p.previous.Some? ==> !ArgvMarked(p.previous.value)
    ensures var after := Applied(PlanConfigUninstall(p, ToOption(file)).mutation, file);
            after.Parsed? ==> Notify(after.document) != LiliNotify
  {
  }

  /**
   Uninstalling that is complete leaves nothing of ours in the home, whatever was made of it since the
   installation, and forgets the record; if it is incomplete the record stays for another try. That
   supposes that the command recorded as someone else's is.
   */
  lemma CompleteLeavesNothing(home: Home)
    requires Uninstall(home).1.Ok?
    requires home.provenance.value.previous.Some? ==> !ArgvMarked(home.provenance.value.previous.value)
    ensures home.provenance.Some?
    ensures var (end, result) := Uninstall(home);
            && (result.value.complete ==> Unmarked(end) && end.provenance == None)
            && (!result.value.complete ==> end.provenance == home.provenance)
  {
    var p := home.provenance.value;
    if Uninstall(home).1.value.complete {
      H.CompleteLeavesNoMarker(HooksRecord(p), ToOption(home.hooks));
      ConfigIsUnmarked(p, home.config);
      var mutation := PlanHooksUninstall(HooksRecord(p), ToOption(home.hooks)).mutation;
      assert ToOption(AppliedHooks(mutation, home.hooks)) == H.Outcome(mutation, ToOption(home.hooks));
    }
  }

  /** Uninstalling is complete exactly if no other notify command of ours stands and the hooks plan is complete. */
  lemma CompleteExactly(home: Home)
    requires Uninstall(home).1.Ok?
    ensures home.provenance.Some?
    ensures var p := home.provenance.value;
            var hooks := PlanHooksUninstall(HooksRecord(p), ToOption(home.hooks));
            var result := Uninstall(home).1.value;
            && (result.complete <==>
                  hooks.complete && !(home.config.Parsed? && IsAnotherOfOurs(p, home.config.document)))
            && (result.conflict <==>
                  || (home.config.Parsed? && NotifyArgv(home.config.document) != Some(p.notify))
                  || !hooks.complete)
  {
    H.CompleteLeavesNoMarker(HooksRecord(home.provenance.value), ToOption(home.hooks));
  }

  // ---- Reading our own setting ----

  /** A setting of ours is read as passing on to a command exactly if it has the very form that we write. */
  lemma CoexistOriginalExactly(config: Config, kept: seq<Arg>)
    requires Notify(config) == LiliNotify
    ensures CoexistOriginal(config, Coexist) == Some(kept)
            <==> exists first :: config["notify"] == Argv(
                   [first, Text("--integration-id"), Text("lili-session-v1"),
                    Text("--coexist-notify-json"), NotifyJson(kept)])
  {
    var argv := config["notify"].argv;
    if CoexistOriginal(config, Coexist) == Some(kept) {
      assert argv == [argv[0], Text("--integration-id"), Text("lili-session-v1"),
                      Text("--coexist-notify-json"), NotifyJson(kept)];
    }
  }

  // ---- Hooks that were changed, and hooks of others ----

  /** A handler of ours as an installation from this binary writes it, or with one second to answer. */
  predicate IsAsWritten(handler: Json, commands: set<string>, binary: string) {
    && handler.Obj?
    && var fields := handler.fields;
       && fields.Keys == {"type", "command", "commandWindows", "timeout", "statusMessage"}
       && fields["type"] == Str("command") && fields["statusMessage"] == Str("Notify Lili")
       && (exists command :: command in commands && fields["command"] == Str(command))
       && fields["commandWindows"] == Str(WindowsCommand(binary))
       && (fields["timeout"] == Num(1) || fields["timeout"] == Num(2))
  }

  lemma RecordedExactly(handler: Json, p: HooksProvenance)
    ensures IsRecorded(handler, p) <==> IsAsWritten(handler, p.commands, p.binary)
  {
    if IsRecorded(handler, p) {
      assert handler.fields["command"] == Str(StringAt(handler, "command").value);
    }
  }

  /** The plan is complete only if every handler of ours is as it was written. */
  lemma ChangedHandlerStays(p: HooksProvenance, document: Json, event: string, group: Json, handler: Json)
    requires HooksOf(document).Some? && event in HooksOf(document).value
    requires group in Groups(HooksOf(document).value, event)
    requires Handlers(group).Some? && handler in Handlers(group).value
    requires IsLiliHandler(handler) && !IsAsWritten(handler, p.commands, p.binary)
    ensures PlanHooksUninstall(p, Some(document)) == HooksPlan(Unchanged, 0, false, true)
  {
    RecordedExactly(handler, p);
  }

  /** All handlers of the groups, in order. */
  function AllHandlers(groups: seq<Json>): seq<Json> {
    if groups == [] then []
    else (if Handlers(groups[0]).Some? then Handlers(groups[0]).value else []) + AllHandlers(groups[1..])
  }

  lemma {:induction false} OthersJoin(a: seq<Json>, b: seq<Json>)
    ensures Others(a + b) == Others(a) + Others(b)
  {
    if a == [] {
      assert [] + b == b;
    } else {
      assert (a + b)[1..] == a[1..] + b;
      OthersJoin(a[1..], b);
    }
  }

  lemma {:induction false} OthersAre(handlers: seq<Json>)
    ensures forall handler ::
      multiset(Others(handlers))[handler] == if IsLiliHandler(handler) then 0 else multiset(handlers)[handler]
  {
    if handlers != [] {
      OthersAre(handlers[1..]);
      assert handlers == [handlers[0]] + handlers[1..];
    }
  }

  lemma {:induction false} StrippedGroupsKeepOthers(groups: seq<Json>)
    ensures AllHandlers(StripGroups(groups)) == Others(AllHandlers(groups))
  {
    if groups != [] {
      var handlers := if Handlers(groups[0]).Some? then Handlers(groups[0]).value else [];
      StrippedGroupsKeepOthers(groups[1..]);
      OthersJoin(handlers, AllHandlers(groups[1..]));
      StrippedGroup(groups[0]);
      FirstHandlers(StripGroup(groups[0]), StripGroups(groups[1..]));
      var rest := AllHandlers(StripGroups(groups[1..]));
      assert [] + rest == rest;
      if IsEmptyGroup(StripGroup(groups[0])) {
        assert StripGroups(groups) == [] + StripGroups(groups[1..]) == StripGroups(groups[1..]);
        assert Others(handlers) == [];
      } else {
        assert StripGroups(groups) == [StripGroup(groups[0])] + StripGroups(groups[1..]);
      }
    }
  }

  lemma FirstHandlers(group: Json, rest: seq<Json>)
    ensures AllHandlers([group] + rest)
            == (if Handlers(group).Some? then Handlers(group).value else []) + AllHandlers(rest)
  {
    assert ([group] + rest)[1..] == rest;
  }

  lemma StrippedGroup(group: Json)
    ensures Handlers(StripGroup(group))
            == if Handlers(group).Some? then Some(Others(Handlers(group).value)) else None
    ensures Handlers(group).Some? ==> StripGroup(group).fields - {"hooks"} == group.fields - {"hooks"}
  {
  }

  /**
   Taking our handlers out leaves those of others for every event as they were, in their order and as
   often, and forgets an event only if its list is left without a group.
   */
  lemma HandlersOfOthersStay(hooks: Hooks, event: string)
    requires event in hooks && hooks[event].Arr?
    ensures AllHandlers(Groups(StripHooks(hooks), event)) == Others(AllHandlers(Groups(hooks, event)))
    ensures forall handler ::
      multiset(AllHandlers(Groups(StripHooks(hooks), event)))[handler]
      == if IsLiliHandler(handler) then 0 else multiset(AllHandlers(Groups(hooks, event)))[handler]
    ensures event in StripHooks(hooks) <==> StripGroups(hooks[event].items) != []
  {
    StrippedGroupsKeepOthers(hooks[event].items);
    OthersAre(AllHandlers(hooks[event].items));
  }
}
