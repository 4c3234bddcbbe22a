/** What coverage is reported missing over whole runs, and how deliveries judge the discovered package. */
module EvidenceCoverage {
  import opened Basics
  import opened SessionTypes
  import opened Encodings
  import opened PluginSources
  import opened EvidenceModel
  import opened EvidenceSafety

  // ---- Surfaces ----

  /** The surface of each hook by its documented name. */
  predicate IsNameOf(name: string, surface: Surface) {
    match surface
    case Notify => false
    case SessionStart => name == "SessionStart"
    case UserPromptSubmit => name == "UserPromptSubmit"
    case PermissionRequest => name == "PermissionRequest"
    case Stop => name == "Stop"
    case SessionEnd => name == "SessionEnd"
  }

  lemma {:induction false} SplitOnceNone(s: string, c: char)
    requires c !in s
    ensures SplitOnce(s, c) == None
  {
    if s != [] {
      assert s == [s[0]] + s[1..];
      SplitOnceNone(s[1..], c);
    }
  }

  /** The source of a hook counts for the surface its name says, whatever follows the name. */
  lemma HookCountsForItsName(name: string, rest: string, surface: Surface)
    requires ':' !in name
    ensures SurfaceOf("hook:" + name) == Some(surface) <==> IsNameOf(name, surface)
    ensures SurfaceOf("hook:" + (name + ":" + rest)) == Some(surface) <==> IsNameOf(name, surface)
  {
    SecondPartIs(name);
    SecondPartIs(name + ":" + rest);
    SplitOnceNone(name, ':');
    SplitOnceFinds(name, ':', rest);
    assert name + [':'] + rest == name + ":" + rest;
  }

  lemma SecondPartIs(s: string)
    ensures SurfaceOf("hook:" + s)
            == var name := match SplitOnce(s, ':') case None => s case Some(parts) => parts.0;
               HookSurface(name)
  {
    var source := "hook:" + s;
    StripAdded("hook:", s);
    HookStartsAs(source);
    assert "hook" + [':'] + s == source;
    SplitOnceFinds("hook", ':', s);
  }

  // ---- Coverage ----

  /** The surface shows this part of the lifecycle; failures and resolutions are shown by none. */
  predicate Shows(surface: Surface, coverage: Coverage) {
    match coverage
    case MissingStart => surface == SessionStart
    case MissingActive => surface == UserPromptSubmit
    case MissingAttention => surface == PermissionRequest
    case MissingCompletion => surface == Notify || surface == Stop
    case MissingEnd => surface == SessionEnd
    case MissingFailure => false
    case MissingResolution => false
  }

  /** None of the surfaces shows this part of the lifecycle. */
  predicate IsUnseen(seen: set<Surface>, coverage: Coverage) {
    forall surface :: surface in seen ==> !Shows(surface, coverage)
  }

  lemma InSum<T>(a: seq<T>, b: seq<T>, c: seq<T>, d: seq<T>, e: seq<T>, f: seq<T>, x: T)
    ensures x in a + b + c + d + e + f <==> x in a || x in b || x in c || x in d || x in e || x in f
  {
  }

  lemma MissingExactly(seen: set<Surface>, coverage: Coverage)
    ensures coverage in Missing(seen) <==> IsUnseen(seen, coverage)
  {
    UnseenIs(seen, coverage);
    InSum(When(SessionStart !in seen, MissingStart), When(UserPromptSubmit !in seen, MissingActive),
          When(PermissionRequest !in seen, MissingAttention), When(Notify !in seen && Stop !in seen, MissingCompletion),
          When(SessionEnd !in seen, MissingEnd), [MissingFailure, MissingResolution], coverage);
  }

  lemma UnseenIs(seen: set<Surface>, coverage: Coverage)
    ensures IsUnseen(seen, coverage) <==>
            match coverage
            case MissingStart => SessionStart !in seen
            case MissingActive => UserPromptSubmit !in seen
            case MissingAttention => PermissionRequest !in seen
            case MissingCompletion => Notify !in seen && Stop !in seen
            case MissingEnd => SessionEnd !in seen
            case MissingFailure => true
            case MissingResolution => true
  {
    assert SessionStart in seen ==> Shows(SessionStart, MissingStart);
    assert UserPromptSubmit in seen ==> Shows(UserPromptSubmit, MissingActive);
    assert PermissionRequest in seen ==> Shows(PermissionRequest, MissingAttention);
    assert Notify in seen ==> Shows(Notify, MissingCompletion);
    assert Stop in seen ==> Shows(Stop, MissingCompletion);
    assert SessionEnd in seen ==> Shows(SessionEnd, MissingEnd);
  }

  /** The surfaces an input speaks of: those an inspection found, or the one a Codex event came by. */
  function SeenIn(input: Input): set<Surface> {
    match input
    case Deliver(delivery, _) =>
      if delivery.isCodex && SurfaceOf(delivery.source).Some? then {SurfaceOf(delivery.source).value} else {}
    case Refresh(surfaces, _) => Elements(surfaces)
  }

  function SeenInAll(inputs: seq<Input>): set<Surface> {
    if inputs == [] then {} else SeenInAll(inputs[..|inputs| - 1]) + SeenIn(inputs[|inputs| - 1])
  }

  lemma InsertSees(surfaces: seq<Surface>, surface: Surface)
    ensures Elements(Insert(surfaces, surface)) == Elements(surfaces) + {surface}
  {
    forall other
      ensures other in Insert(surfaces, surface) <==> other in surfaces || other == surface
    {
      InsertHas(surfaces, surface, other);
    }
  }

  lemma DeliverySees(d: Diagnostics, delivery: Delivery, authenticated: bool)
    requires StrictlySorted(d.surfaces)
    ensures var after := RecordAccepted(d, delivery, authenticated);
            && StrictlySorted(after.surfaces)
            && Elements(after.surfaces) == Elements(d.surfaces) + SeenIn(Deliver(delivery, authenticated))
  {
    if delivery.isCodex && SurfaceOf(delivery.source).Some? {
      InsertSorts(d.surfaces, SurfaceOf(delivery.source).value);
      InsertSees(d.surfaces, SurfaceOf(delivery.source).value);
    }
  }

  lemma StepSees(d: Diagnostics, input: Input)
    requires StrictlySorted(d.surfaces)
    ensures StrictlySorted(After(d, input).surfaces)
    ensures Elements(After(d, input).surfaces) == Elements(d.surfaces) + SeenIn(input)
  {
    match input
    case Deliver(delivery, authenticated) => DeliverySees(d, delivery, authenticated);
    case Refresh(surfaces, _) =>
      InsertAllSorts([], surfaces);
      InsertAllSorts(InsertAll([], surfaces), d.surfaces);
  }

  lemma {:induction false} RunSees(surfaces: seq<Surface>, plugin: Plugin, inputs: seq<Input>)
    ensures StrictlySorted(Run(Discovered(surfaces, plugin), inputs).surfaces)
    ensures Elements(Run(Discovered(surfaces, plugin), inputs).surfaces) == Elements(surfaces) + SeenInAll(inputs)
  {
    if inputs == [] {
      InsertAllSorts([], surfaces);
    } else {
      RunSees(surfaces, plugin, inputs[..|inputs| - 1]);
      StepSees(Run(Discovered(surfaces, plugin), inputs[..|inputs| - 1]), inputs[|inputs| - 1]);
    }
  }

  /**
   After any run a part of the lifecycle is reported missing exactly if neither an inspection nor a
   Codex event ever spoke of a surface that shows it.
   */
  lemma RunReportsExactly(surfaces: seq<Surface>, plugin: Plugin, inputs: seq<Input>)
    requires Refresh(surfaces, plugin).Valid() && forall input :: input in inputs ==> input.Valid()
    ensures var d := Run(Discovered(surfaces, plugin), inputs);
            forall coverage :: coverage in d.missing <==>
              IsUnseen(Elements(surfaces), coverage) && IsUnseen(SeenInAll(inputs), coverage)
  {
    RunKeepsInv(surfaces, plugin, inputs);
    RunSees(surfaces, plugin, inputs);
    forall coverage
      ensures coverage in Missing(Elements(surfaces) + SeenInAll(inputs))
              <==> IsUnseen(Elements(surfaces), coverage) && IsUnseen(SeenInAll(inputs), coverage)
    {
      MissingExactly(Elements(surfaces) + SeenInAll(inputs), coverage);
    }
  }

  // ---- The discovered package ----

  /** The package delivered by is another version than the one found. */
  predicate Mismatches(plugin: Plugin, accepted: Accepted) {
    plugin.version.Some? && accepted.version.Some? && plugin.version.value != accepted.version.value
  }

  /**
   A delivery leaves what is known of other plugins alone. Of the discovered one it tells a mismatch
   exactly if it is of another version than the one found; otherwise a supported version counts as
   supported and another judgement stays. Legacy hooks beside it count as an overlap.
   */
  lemma DeliveryJudges(d: Diagnostics, delivery: Delivery, authenticated: bool)
    ensures var logged := Logged(Deliver(delivery, authenticated));
            var before, after := d.plugin, RecordAccepted(d, delivery, authenticated).plugin;
            if logged == [] || logged[0].plugin != before.id then after == before
            else
              && after.compatibility
                 == (if Mismatches(before, logged[0]) then PackageMismatch
                     else if IsSupportedVersion(logged[0].version.value) then Supported
                     else before.compatibility)
              && (after.hooks == Overlap <==> before.hooks == Legacy || before.hooks == Overlap)
              && (after.hooks != Overlap ==> after.hooks == PluginHooks)
              && after.last == Some(logged[0])
              && after == before.(compatibility := after.compatibility, hooks := after.hooks,
                                  trust := TrustedAtLastDelivery, last := after.last)
  {
  }

  /** A refresh never finds a mismatch by itself: what it trusts is a delivery of the very package found. */
  lemma RefreshFindsNoMismatch(d: Diagnostics, history: seq<Accepted>, surfaces: seq<Surface>, plugin: Plugin)
    requires Inv(d, history) && Refresh(surfaces, plugin).Valid()
    ensures var after := RefreshDiscovery(d, Discovered(surfaces, plugin)).plugin;
            && (after.compatibility == PackageMismatch ==> plugin.compatibility == PackageMismatch)
            && (after.compatibility != plugin.compatibility ==>
                  after.compatibility == Supported && after.trust == TrustedAtLastDelivery)
            && after.id == plugin.id && after.version == plugin.version
            && after.installed == plugin.installed && after.enabled == plugin.enabled
            && (after.last.Some? ==> after.last.value.version == plugin.version)
  {
    RefreshKeepsEvidence(d, history);
    FindIs(Refreshed(d), plugin);
  }
}
