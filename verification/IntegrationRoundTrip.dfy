/** Installing and uninstalling as inverse transformations of a Codex home. */
module IntegrationRoundTrip {
  import opened Basics
  import opened JsonTree
  import opened HooksModel
  import opened IntegrationModel
  import H = HooksRoundTrip

  /** Nothing of ours is in the home. */
  ghost predicate Unmarked(home: Home) {
    && Notify(ConfigOf(home)) != LiliNotify
    && H.Clean(H.HooksIn(ToOption(home.hooks)))
  }

  // ---- Our notify command ----

  lemma MarkerIsMarked()
    ensures Marked(MARKER)
  {
    ContainsPart("", MARKER, "");
    assert "" + MARKER + "" == MARKER;
  }

  lemma OurNotifyIsMarked(binary: string, previous: Option<seq<Arg>>)
    ensures ArgvMarked(OurNotify(binary, previous)) && OurNotify(binary, previous) != []
  {
    MarkerIsMarked();
    assert OurNotify(binary, previous)[2] == Text(MARKER);
    assert Text(MARKER) in OurNotify(binary, previous) && ArgMarked(Text(MARKER));
  }

  lemma OurNotifyTellsPrevious(binary: string, previous: Option<seq<Arg>>)
    ensures previous.Some? ==>
      |OurNotify(binary, previous)| == 5 && OurNotify(binary, previous)[4] == NotifyJson(previous.value)
      && OurNotify(binary, previous)[3] == Text("--coexist-notify-json")
    ensures previous.None? ==> |OurNotify(binary, previous)| == 4
    ensures OurNotify(binary, previous)[1] == Text("--integration-id") && OurNotify(binary, previous)[2] == Text(MARKER)
  {
  }

  // ---- The two halves ----

  lemma UnmarkedPlan(home: Home, binary: string, mode: Mode)
    requires Unmarked(home)
    ensures var plan := BuildPlan(home, binary, mode);
            && plan.writesConfig
            && plan.additions == SURFACES
            && plan.previous == (if mode == Coexist && Notify(ConfigOf(home)) == OtherNotify
                                 then NotifyArgv(ConfigOf(home)) else None)
  {
    var plan := BuildPlan(home, binary, mode);
    OurNotifyIsMarked(binary, plan.previous);
    H.AllAreAdded(ToOption(home.hooks), SURFACES);
  }

  /** The notify setting comes back as it was, and a created configuration goes. */
  lemma ConfigComesBack(before: Home, binary: string, mode: Mode, after: Home)
    requires Unmarked(before) && Installs(before, binary, mode, after)
    ensures var plan := PlanConfigUninstall(after.provenance.value, ToOption(after.config));
            && plan.complete && !plan.conflict
            && plan.restored == (Notify(ConfigOf(before)) == OtherNotify)
            && Applied(plan.mutation, after.config) == before.config
  {
    UnmarkedPlan(before, binary, mode);
    NotifyAllows(before, binary, mode);
    WrittenConfigComesBack(before.config, ConfigOf(before), after.provenance.value,
                           ConfigOf(before)["notify" := Argv(BuildPlan(before, binary, mode).notify)]);
  }

  lemma WrittenConfigComesBack(file: File<Config>, config: Config, p: Provenance, written: Config)
    requires written == config["notify" := Argv(p.notify)]
    requires if file.Parsed? then file.document == config else file.Missing? && config == map[]
    requires p.config == FileProvenance(file == Missing, written)
    requires p.previous == NotifyArgv(config) && (p.previous.None? ==> "notify" !in config)
    ensures var plan := PlanConfigUninstall(p, Some(written));
            && plan.complete && !plan.conflict && plan.restored == p.previous.Some?
            && Applied(plan.mutation, Parsed(written)) == file
  {
    assert written["notify"] == Argv(p.notify);
    if p.previous.Some? {
      assert written["notify" := config["notify"]] == config;
    } else {
      assert written - {"notify"} == config;
    }
  }

  lemma HooksComeBack(before: Home, binary: string, mode: Mode, after: Home)
    requires Unmarked(before) && Installs(before, binary, mode, after)
    ensures var plan := PlanHooksUninstall(HooksRecord(after.provenance.value), ToOption(after.hooks));
            && plan.complete && !plan.conflict && plan.removed == 5
            && AppliedHooks(plan.mutation, after.hooks) == TidiedHooks(before.hooks)
  {
    UnmarkedPlan(before, binary, mode);
    H.SurfacesAre();
    RenderedComesBack(before.hooks, BuildPlan(before, binary, mode).additions, binary, after.hooks.document,
                      HooksRecord(after.provenance.value));
  }

  lemma RenderedComesBack(file: File<Json>, additions: seq<string>, binary: string, after: Json, p: HooksProvenance)
    requires !file.Malformed? && H.Clean(H.HooksIn(ToOption(file)))
    requires Distinct(additions) && additions != [] && forall event :: event in additions ==> !Marked(event)
    requires RenderHooks(ToOption(file), additions, binary) == Ok(after)
    requires p.binary == binary && p.created == (file == Missing) && p.after == after
    requires forall command :: command in p.commands <==>
      (HooksOf(after).Some? && IsManagedCommand(HooksOf(after).value, command))
    ensures var plan := PlanHooksUninstall(p, Some(after));
            && plan.complete && !plan.conflict && plan.removed == |Elements(additions)|
            && AppliedHooks(plan.mutation, Parsed(after)) == TidiedHooks(file)
  {
    var original := ToOption(file);
    H.RenderExtends(original, additions, binary, after);
    assert H.RecordsInstallation(p, original, after, binary);
    H.UninstallUndoes(original, additions, binary, after, p);
    if original.Some? {
      SameOutside(original.value.fields, after.fields, "hooks", Obj(H.Pruned(H.HooksIn(original))));
    }
  }

  lemma SameOutside(a: map<string, Json>, b: map<string, Json>, key: string, v: Json)
    requires a - {key} == b - {key}
    ensures a[key := v] == b[key := v]
  {
    forall other | other != key
      ensures other in a <==> other in b
      ensures other in a ==> a[other] == b[other]
    {
      assert other in a <==> other in a - {key};
      assert other in b <==> other in b - {key};
      assert other in a ==> (a - {key})[other] == (b - {key})[other];
    }
  }

  /** The document with already empty groups and events pruned, the hooks object being there. */
  function TidiedHooks(file: File<Json>): File<Json> {
    match file
    case Parsed(document) =>
      if document.Obj? then Parsed(Obj(document.fields["hooks" := Obj(H.Pruned(H.HooksIn(Some(document))))])) else file
    case _ => file
  }

  lemma RecordIsValid(before: Home, binary: string, mode: Mode, after: Home)
    requires Unmarked(before) && Installs(before, binary, mode, after)
    ensures ValidProvenance(after.provenance.value)
  {
    UnmarkedPlan(before, binary, mode);
    OurNotifyIsMarked(binary, BuildPlan(before, binary, mode).previous);
    H.RenderExactly(ToOption(before.hooks), binary);
    var hooks := HooksOf(after.hooks.document).value;
    assert SURFACES[0] in Elements(SURFACES);
    H.PlannedIsManaged(H.HooksIn(ToOption(before.hooks)), hooks, Elements(SURFACES), binary, SURFACES[0]);
    assert PosixCommand(binary) in after.provenance.value.commands;
  }

  /**
   Uninstalling right after installing into a home without anything of ours is complete, meets no
   conflict, removes the five handlers and gives the home back: the configuration exactly, including
   an earlier notify command; the hooks document with only what was empty pruned; created files gone.
   */
  lemma UninstallUndoesInstall(before: Home, binary: string, mode: Mode, after: Home)
    requires Unmarked(before) && Installs(before, binary, mode, after)
    ensures Uninstall(after) ==
            (Home(before.config, TidiedHooks(before.hooks), None),
             Ok(Uninstalled(true, Notify(ConfigOf(before)) == OtherNotify, 5, false)))
  {
    ConfigComesBack(before, binary, mode, after);
    HooksComeBack(before, binary, mode, after);
    RecordIsValid(before, binary, mode, after);
  }

  /** The hooks document comes back exactly if it had a hooks object with nothing empty in it. */
  lemma HooksComeBackExactly(file: File<Json>)
    requires file.Parsed? ==> H.IsExtensible(Some(file.document), SURFACES)
    ensures TidiedHooks(file) == file
            <==> (file.Parsed? ==> HooksOf(file.document).Some? && H.Tidy(HooksOf(file.document).value))
  {
    if file.Parsed? {
      var hooks := H.HooksIn(Some(file.document));
      H.PrunedExactly(hooks);
      if HooksOf(file.document).Some? {
        assert file.document.fields["hooks" := Obj(hooks)] == file.document.fields;
      }
    }
  }

  // ---- When an installation is possible ----

  ghost predicate Installable(home: Home, binary: string, mode: Mode) {
    var plan := BuildPlan(home, binary, mode);
    && plan.status == Ready && plan.previous != Some([])
    && if plan.additions == [] then home.hooks.Parsed?
       else RenderHooks(ToOption(home.hooks), plan.additions, binary).Ok?
  }

  lemma NotifyAllows(home: Home, binary: string, mode: Mode)
    requires Unmarked(home)
    ensures var plan := BuildPlan(home, binary, mode);
            plan.status == Ready && plan.previous != Some([])
            <==> (&& !home.config.Malformed? && !home.hooks.Malformed?
                  && (Notify(ConfigOf(home)) == NoNotify
                      || (Notify(ConfigOf(home)) == OtherNotify && mode == Coexist
                          && NotifyArgv(ConfigOf(home)) != Some([]))))
  {
  }

  /**
   A home without anything of ours can be installed into exactly if both files can be parsed, the
   hooks document can be extended, and a notify command of someone else, if there is one, is to be
   kept beside ours and is not empty.
   */
  lemma InstallableExactly(home: Home, binary: string, mode: Mode)
    requires Unmarked(home)
    ensures Installable(home, binary, mode) <==>
            && !home.config.Malformed? && !home.hooks.Malformed?
            && H.IsExtensible(ToOption(home.hooks), SURFACES)
            && (Notify(ConfigOf(home)) == NoNotify
                || (Notify(ConfigOf(home)) == OtherNotify && mode == Coexist && NotifyArgv(ConfigOf(home)) != Some([])))
  {
    UnmarkedPlan(home, binary, mode);
    H.SurfacesAre();
    NotifyAllows(home, binary, mode);
    var additions := BuildPlan(home, binary, mode).additions;
    H.RenderSucceeds(ToOption(home.hooks), additions, binary);
    assert additions != [];
  }

  // ---- Installing again ----

  lemma NotifyAfterInstall(before: Home, binary: string, mode: Mode, after: Home)
    requires Installs(before, binary, mode, after)
    ensures NotifyArgv(ConfigOf(after)) == Some(BuildPlan(before, binary, mode).notify)
    ensures Notify(ConfigOf(after)) == LiliNotify
  {
    OurNotifyIsMarked(binary, BuildPlan(before, binary, mode).previous);
  }

  /** A coexisting installation finds the command it has to pass on to in its own notify setting. */
  lemma CoexistenceIsRemembered(before: Home, binary: string, mode: Mode, after: Home)
    requires Installs(before, binary, mode, after)
    ensures CoexistOriginal(ConfigOf(after), Coexist) == BuildPlan(before, binary, mode).previous
    ensures CoexistOriginal(ConfigOf(after), Exclusive) == None
  {
    NotifyAfterInstall(before, binary, mode, after);
    OurNotifyTellsPrevious(binary, BuildPlan(before, binary, mode).previous);
  }

  lemma ServedAfterInstall(before: Home, binary: string, mode: Mode, after: Home)
    requires Installs(before, binary, mode, after)
    ensures Additions(ToOption(after.hooks), SURFACES) == []
  {
    H.SurfacesAre();
    if BuildPlan(before, binary, mode).additions != [] {
      H.AllAreServed(ToOption(before.hooks), SURFACES, binary, after.hooks.document);
    }
  }

  /**
   Installing again in the same mode changes nothing, not even the record of what was created, exactly
   if the hook binary is the same.
   */
  lemma InstallIsIdempotent(
    before: Home, binary: string, mode: Mode, after: Home, binary': string, again: Home)
    requires Unmarked(before) && Installs(before, binary, mode, after) && Installs(after, binary', mode, again)
    ensures again == after <==> binary' == binary
  {
    if binary' == binary {
      NotifyAfterInstall(before, binary, mode, after);
      CoexistenceIsRemembered(before, binary, mode, after);
      ServedAfterInstall(before, binary, mode, after);
      var plan, next := BuildPlan(before, binary, mode), BuildPlan(after, binary, mode);
      UnmarkedPlan(before, binary, mode);
      assert next.previous == plan.previous && next.notify == plan.notify && !next.writesConfig;
      assert again.config == after.config && again.hooks == after.hooks;
      assert after.provenance.value.commands == again.provenance.value.commands;
    }
  }

  lemma FirstInstallIs(before: Home, binary: string, mode: Mode, after: Home)
    requires Unmarked(before) && Installs(before, binary, mode, after)
    ensures after.config == Parsed(ConfigOf(before)["notify" := Argv(BuildPlan(before, binary, mode).notify)])
    ensures after.hooks.Parsed? && after.provenance.Some? && after.provenance.value.binary == binary
    ensures forall command :: command in after.provenance.value.commands <==>
      (HooksOf(after.hooks.document).Some? && IsManagedCommand(HooksOf(after.hooks.document).value, command))
  {
    UnmarkedPlan(before, binary, mode);
  }

  /**
   Where no notify command of someone else stood, both modes write the same setting, so that even
   an installation in the other mode changes nothing, exactly if the hook binary is the same.
   */
  lemma OtherModeIsIdempotent(
    before: Home, binary: string, first: Mode, after: Home, binary': string, second: Mode, again: Home)
    requires Unmarked(before) && Notify(ConfigOf(before)) != OtherNotify
    requires Installs(before, binary, first, after) && Installs(after, binary', second, again)
    ensures again == after <==> binary' == binary
  {
    if binary' == binary {
      NotifyAfterInstall(before, binary, first, after);
      CoexistenceIsRemembered(before, binary, first, after);
      ServedAfterInstall(before, binary, first, after);
      UnmarkedPlan(before, binary, first);
      NotifyAllows(before, binary, first);
      FirstInstallIs(before, binary, first, after);
      var plan, next := BuildPlan(before, binary, first), BuildPlan(after, binary, second);
      assert plan.previous == None && next.previous == None && next.notify == plan.notify && !next.writesConfig;
      assert again.config == after.config && again.hooks == after.hooks;
      assert after.provenance.value.commands == again.provenance.value.commands;
    }
  }

  // ---- Installations exist ----

  /** What an installation without a fault leaves of a home it is possible in. */
  ghost function InstalledHome(home: Home, binary: string, mode: Mode): Home
    requires Installable(home, binary, mode)
  {
    var plan := BuildPlan(home, binary, mode);
    var config := if plan.writesConfig then ConfigOf(home)["notify" := Argv(plan.notify)] else ConfigOf(home);
    var hooks :=
      if plan.additions == [] then home.hooks.document
      else RenderHooks(ToOption(home.hooks), plan.additions, binary).value;
    Home(Parsed(config), Parsed(hooks),
         Some(Provenance(
           binary, plan.notify, plan.previous, H.ManagedCommands(hooks),
           if !plan.writesConfig && home.provenance.Some? then home.provenance.value.config
           else FileProvenance(home.config == Missing, config),
           if plan.additions == [] && home.provenance.Some? then home.provenance.value.hooks
           else FileProvenance(home.hooks == Missing, hooks))))
  }

  lemma InstalledHomeIs(home: Home, binary: string, mode: Mode)
    requires Installable(home, binary, mode)
    ensures Installs(home, binary, mode, InstalledHome(home, binary, mode))
  {
    var plan := BuildPlan(home, binary, mode);
    var after := InstalledHome(home, binary, mode);
    H.ManagedAre(after.hooks.document);
    if plan.additions == [] {
      assert after.hooks == home.hooks;
    }
  }
}
