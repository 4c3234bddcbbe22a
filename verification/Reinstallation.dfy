/**
 Installing again and again into one home, in any modes and from any hook binaries, and what
 uninstalling then makes of it.
 */
module Reinstallation {
  import opened Basics
  import opened JsonTree
  import opened HooksModel
  import opened IntegrationModel
  import opened IntegrationRoundTrip
  import H = HooksRoundTrip

  datatype Request = Request(binary: string, mode: Mode)

  function AllButLast(requests: seq<Request>): seq<Request>
    requires requests != []
  {
    requests[..|requests| - 1]
  }

  function Last(requests: seq<Request>): Request
    requires requests != []
  {
    requests[|requests| - 1]
  }

  /** The requests, carried out one after the other without a fault, lead from one home to the other. */
  ghost predicate InstallsAll(before: Home, requests: seq<Request>, after: Home)
    decreases |requests|, 1
  {
    if requests == [] then after == before else exists home :: InstallsLast(before, requests, home, after)
  }

  ghost predicate InstallsLast(before: Home, requests: seq<Request>, home: Home, after: Home)
    requires requests != []
    decreases |requests|, 0
  {
    && InstallsAll(before, AllButLast(requests), home)
    && Installs(home, Last(requests).binary, Last(requests).mode, after)
  }

  lemma SplitLast(requests: seq<Request>)
    requires requests != []
    ensures AllButLast(requests) + [Last(requests)] == requests
  {
  }

  // ---- What the requests come to ----

  predicate AllFrom(binary: string, requests: seq<Request>) {
    forall request :: request in requests ==> request.binary == binary
  }

  predicate AllCoexist(requests: seq<Request>) {
    forall request :: request in requests ==> request.mode == Coexist
  }

  /** The command of someone else that is still passed on to. */
  function Kept(before: Home, requests: seq<Request>): Option<seq<Arg>> {
    if Notify(ConfigOf(before)) == OtherNotify && AllCoexist(requests) then NotifyArgv(ConfigOf(before)) else None
  }

  /** The configuration is as created by the first installation. */
  predicate AsCreated(before: Home, requests: seq<Request>) {
    before.config == Missing && requests != [] && AllFrom(requests[0].binary, requests)
  }

  /** What is known of a home: who installed the hooks, who came last, what is passed on to, and the record. */
  datatype Standing = Standing(first: string, last: string, kept: Option<seq<Arg>>, created: bool)

  function StandingOf(before: Home, requests: seq<Request>): Standing
    requires requests != []
  {
    Standing(requests[0].binary, Last(requests).binary, Kept(before, requests), AsCreated(before, requests))
  }

  ghost predicate Stands(before: Home, st: Standing, home: Home) {
    && home.config.Parsed? && home.hooks.Parsed? && home.provenance.Some?
    && RenderHooks(ToOption(before.hooks), SURFACES, st.first) == Ok(home.hooks.document)
    && var p := home.provenance.value;
       && home.config.document == ConfigOf(before)["notify" := Argv(p.notify)]
       && p.binary == st.last && p.notify == OurNotify(st.last, st.kept) && p.previous == st.kept
       && (forall command :: command in p.commands <==>
             (HooksOf(home.hooks.document).Some? && IsManagedCommand(HooksOf(home.hooks.document).value, command)))
       && p.hooks == FileProvenance(before.hooks == Missing, home.hooks.document)
       && p.config.created == st.created
       && (st.created ==> p.config.after == home.config.document)
  }

  /** One more installation, told by what the ones before it came to. */
  function StandingAfter(st: Standing, request: Request): Standing {
    var kept := if request.mode == Exclusive then None else st.kept;
    Standing(st.first, request.binary, kept, st.created && request.binary == st.last && kept == st.kept)
  }

  lemma FirstReaches(before: Home, request: Request, after: Home)
    requires Unmarked(before) && Installs(before, request.binary, request.mode, after)
    ensures Stands(before, StandingOf(before, [request]), after)
  {
    UnmarkedPlan(before, request.binary, request.mode);
    NotifyAllows(before, request.binary, request.mode);
    FirstInstallIs(before, request.binary, request.mode, after);
    H.SurfacesAre();
  }

  lemma OurNotifiesDiffer(binary: string, previous: Option<seq<Arg>>, binary': string, previous': Option<seq<Arg>>)
    ensures OurNotify(binary, previous) == OurNotify(binary', previous') <==> binary == binary' && previous == previous'
  {
    OurNotifyTellsPrevious(binary, previous);
    OurNotifyTellsPrevious(binary', previous');
    assert OurNotify(binary, previous)[0] == Text(binary) && OurNotify(binary', previous')[0] == Text(binary');
  }

  lemma AppendedRequest(before: Home, requests: seq<Request>, request: Request)
    requires requests != []
    ensures StandingOf(before, requests + [request]) == StandingAfter(StandingOf(before, requests), request)
  {
    var all := requests + [request];
    assert AllButLast(all) == requests && Last(all) == request && all[0] == requests[0];
    assert forall r :: r in all <==> r in requests || r == request;
    assert Last(requests) in requests;
    assert requests[0] in requests;
  }

  /** A further plan: our hooks are all there, and the setting is written if binary or command change. */
  lemma NextPlan(before: Home, st: Standing, home: Home, request: Request)
    requires Unmarked(before) && Stands(before, st, home)
    ensures var plan := BuildPlan(home, request.binary, request.mode);
            && plan.additions == []
            && plan.previous == StandingAfter(st, request).kept
            && plan.notify == OurNotify(request.binary, plan.previous)
            && (plan.writesConfig <==> request.binary != st.last || plan.previous != st.kept)
  {
    HooksAreServed(before, st, home);
    PassedOnTo(ConfigOf(home), st.last, st.kept, request.mode);
    OurNotifiesDiffer(st.last, st.kept, request.binary, StandingAfter(st, request).kept);
  }

  /** Our own notify command tells what it passes on to. */
  lemma PassedOnTo(config: Config, binary: string, kept: Option<seq<Arg>>, mode: Mode)
    requires NotifyArgv(config) == Some(OurNotify(binary, kept))
    ensures CoexistOriginal(config, mode) == if mode == Exclusive then None else kept
  {
    OurNotifyIsMarked(binary, kept);
    OurNotifyTellsPrevious(binary, kept);
  }

  lemma HooksAreServed(before: Home, st: Standing, home: Home)
    requires Unmarked(before) && Stands(before, st, home)
    ensures Additions(ToOption(home.hooks), SURFACES) == []
  {
    H.SurfacesAre();
    H.AllAreAdded(ToOption(before.hooks), SURFACES);
    H.AllAreServed(ToOption(before.hooks), SURFACES, st.first, home.hooks.document);
  }

  /** What one more installation changes, when the hooks are there. */
  lemma NextInstall(home: Home, request: Request, next: Home)
    requires home.config.Parsed? && home.hooks.Parsed? && home.provenance.Some?
    requires Installs(home, request.binary, request.mode, next)
    requires BuildPlan(home, request.binary, request.mode).additions == []
    ensures next.hooks == home.hooks && next.config.Parsed? && next.provenance.Some?
    ensures var plan := BuildPlan(home, request.binary, request.mode);
            var p, q := home.provenance.value, next.provenance.value;
            && q.binary == request.binary && q.notify == plan.notify && q.previous == plan.previous
            && q.hooks == p.hooks
            && next.config.document == (if plan.writesConfig then home.config.document["notify" := Argv(plan.notify)]
                                        else home.config.document)
            && (if plan.writesConfig then !q.config.created else q.config == p.config)
            && (forall command :: command in q.commands <==>
                  (HooksOf(home.hooks.document).Some? && IsManagedCommand(HooksOf(home.hooks.document).value, command)))
  {
  }

  lemma NextStands(before: Home, st: Standing, home: Home, request: Request, next: Home)
    requires Unmarked(before) && Stands(before, st, home)
    requires Installs(home, request.binary, request.mode, next)
    ensures Stands(before, StandingAfter(st, request), next)
  {
    NextPlan(before, st, home, request);
    NextInstall(home, request, next);
    StandsWith(before, st, home, request, next, BuildPlan(home, request.binary, request.mode).writesConfig);
  }

  lemma StandsWith(before: Home, st: Standing, home: Home, request: Request, next: Home, writes: bool)
    requires Stands(before, st, home)
    requires next.hooks == home.hooks && next.config.Parsed? && next.provenance.Some?
    requires writes <==> request.binary != st.last || StandingAfter(st, request).kept != st.kept
    requires var p, q, after := home.provenance.value, next.provenance.value, StandingAfter(st, request);
             && q.binary == request.binary && q.notify == OurNotify(request.binary, after.kept)
             && q.previous == after.kept && q.hooks == p.hooks
             && next.config.document == (if writes then home.config.document["notify" := Argv(q.notify)]
                                         else home.config.document)
             && (if writes then !q.config.created else q.config == p.config)
             && (forall command :: command in q.commands <==>
                   (&& HooksOf(home.hooks.document).Some?
                    && IsManagedCommand(HooksOf(home.hooks.document).value, command)))
    ensures Stands(before, StandingAfter(st, request), next)
  {
    var config, p, q := ConfigOf(before), home.provenance.value, next.provenance.value;
    assert config["notify" := Argv(p.notify)]["notify" := Argv(q.notify)] == config["notify" := Argv(q.notify)];
  }

  lemma LastInstall(before: Home, requests: seq<Request>, after: Home) returns (home: Home)
    requires requests != [] && InstallsAll(before, requests, after)
    ensures InstallsAll(before, AllButLast(requests), home)
    ensures Installs(home, Last(requests).binary, Last(requests).mode, after)
    ensures AllButLast(requests) == [] ==> home == before
  {
    home :| InstallsLast(before, requests, home, after);
  }

  /** Whatever the requests, the home has come to what they come to. */
  lemma {:induction false} RequestsReach(before: Home, requests: seq<Request>, after: Home)
    requires Unmarked(before) && requests != [] && InstallsAll(before, requests, after)
    ensures Stands(before, StandingOf(before, requests), after)
    decreases |requests|
  {
    var home := LastInstall(before, requests, after);
    if AllButLast(requests) != [] {
      RequestsReach(before, AllButLast(requests), home);
    }
    SplitLast(requests);
    OneMoreReaches(before, AllButLast(requests), home, Last(requests), after);
  }

  lemma OneMoreReaches(before: Home, rest: seq<Request>, home: Home, last: Request, after: Home)
    requires Unmarked(before) && Installs(home, last.binary, last.mode, after)
    requires if rest == [] then home == before else Stands(before, StandingOf(before, rest), home)
    ensures Stands(before, StandingOf(before, rest + [last]), after)
  {
    if rest == [] {
      assert rest + [last] == [last];
      FirstReaches(before, last, after);
    } else {
      NextStands(before, StandingOf(before, rest), home, last, after);
      AppendedRequest(before, rest, last);
    }
  }

  // ---- Uninstalling ----

  lemma ConfigComesBackFrom(before: Home, st: Standing, home: Home)
    requires Unmarked(before) && Stands(before, st, home)
    requires !before.config.Malformed? && Notify(ConfigOf(before)) != InvalidNotify
    requires st.kept == None || st.kept == NotifyArgv(ConfigOf(before))
    requires st.created ==> before.config == Missing
    ensures var plan := PlanConfigUninstall(home.provenance.value, ToOption(home.config));
            && plan.complete && !plan.conflict
            && (Applied(plan.mutation, home.config) == before.config
                <==> ((before.config == Missing ==> st.created)
                      && (Notify(ConfigOf(before)) == OtherNotify ==> st.kept.Some?)))
  {
    WrittenComesBack(before.config, ConfigOf(before), home.provenance.value, home.config.document);
  }

  lemma WrittenComesBack(file: File<Config>, config: Config, p: Provenance, written: Config)
    requires written == config["notify" := Argv(p.notify)] && (p.config.created ==> p.config.after == written)
    requires if file.Parsed? then file.document == config else file.Missing? && config == map[]
    requires p.previous == None || p.previous == NotifyArgv(config)
    requires p.config.created ==> file == Missing
    ensures var plan := PlanConfigUninstall(p, Some(written));
            && plan.complete && !plan.conflict
            && (Applied(plan.mutation, Parsed(written)) == file
                <==> ((file == Missing ==> p.config.created) && ("notify" in config ==> p.previous.Some?)))
  {
    assert written["notify"] == Argv(p.notify);
    if p.previous.Some? {
      assert written["notify" := config["notify"]] == config;
    } else {
      assert written - {"notify"} == config - {"notify"};
      if "notify" !in config {
        assert config - {"notify"} == config;
      }
    }
  }

  lemma HooksComeBackFrom(before: Home, st: Standing, home: Home)
    requires Unmarked(before) && Stands(before, st, home) && !before.hooks.Malformed?
    ensures var plan := PlanHooksUninstall(HooksRecord(home.provenance.value), ToOption(home.hooks));
            && (plan.complete <==> st.last == st.first)
            && plan.conflict == !plan.complete && plan.removed == (if plan.complete then 5 else 0)
            && AppliedHooks(plan.mutation, home.hooks)
               == (if plan.complete then TidiedHooks(before.hooks) else home.hooks)
  {
    var p := HooksRecord(home.provenance.value);
    if p.binary == st.first {
      H.SurfacesAre();
      RenderedComesBack(before.hooks, SURFACES, p.binary, home.hooks.document, p);
    } else {
      ForeignHooksStay(before, st.first, home.hooks.document, p);
    }
  }

  /** None of the handlers of another binary is recognised: they are refused as changed. */
  lemma ForeignHooksStay(before: Home, binary: string, document: Json, p: HooksProvenance)
    requires Unmarked(before) && RenderHooks(ToOption(before.hooks), SURFACES, binary) == Ok(document)
    requires p.binary != binary
    ensures PlanHooksUninstall(p, Some(document)) == HooksPlan(Unchanged, 0, false, true)
  {
    H.AllAreAdded(ToOption(before.hooks), SURFACES);
    H.RenderExactly(ToOption(before.hooks), binary);
    var hooks := HooksOf(document).value;
    assert SURFACES[0] in Elements(SURFACES);
    H.ForeignHandlerIsRefused(H.HooksIn(ToOption(before.hooks)), hooks, Elements(SURFACES), binary, p, SURFACES[0]);
  }

  lemma RecordIsValidFrom(before: Home, st: Standing, home: Home)
    requires Unmarked(before) && Stands(before, st, home)
    ensures ValidProvenance(home.provenance.value)
  {
    var p, binary := home.provenance.value, st.first;
    OurNotifyIsMarked(p.binary, p.previous);
    H.AllAreAdded(ToOption(before.hooks), SURFACES);
    H.RenderExactly(ToOption(before.hooks), binary);
    var hooks := HooksOf(home.hooks.document).value;
    assert SURFACES[0] in Elements(SURFACES);
    H.PlannedIsManaged(H.HooksIn(ToOption(before.hooks)), hooks, Elements(SURFACES), binary, SURFACES[0]);
    assert PosixCommand(binary) in p.commands;
  }

  /** An installation was possible, so that the home could be read and its notify setting be kept or absent. */
  lemma {:induction false} FirstWasPossible(before: Home, requests: seq<Request>, after: Home)
    requires requests != [] && InstallsAll(before, requests, after)
    ensures !before.config.Malformed? && !before.hooks.Malformed? && Notify(ConfigOf(before)) != InvalidNotify
    ensures Notify(ConfigOf(before)) == OtherNotify ==> NotifyArgv(ConfigOf(before)) != Some([])
    decreases |requests|
  {
    var home := LastInstall(before, requests, after);
    if AllButLast(requests) != [] {
      FirstWasPossible(before, AllButLast(requests), home);
    }
  }

  /**
   However often a home without anything of ours was installed into, uninstalling then is complete and
   meets no conflict exactly if the last installation was from the hook binary of the first; if not, it
   removes no handler at all. It gives the configuration back exactly if a notify command of someone
   else was kept beside ours each time, and, where there was no configuration, if all installations
   were from one hook binary.
   */
  lemma InstalledRepeatedlyComesBackExactly(before: Home, requests: seq<Request>, after: Home)
    requires Unmarked(before) && requests != [] && InstallsAll(before, requests, after)
    ensures Uninstall(after).1.Ok?
    ensures var (end, result) := Uninstall(after);
            && (result.value.complete <==> Last(requests).binary == requests[0].binary)
            && result.value.conflict == !result.value.complete
            && result.value.removed == (if result.value.complete then 5 else 0)
            && end.hooks == (if result.value.complete then TidiedHooks(before.hooks) else after.hooks)
            && (end.config == before.config
                <==> ((before.config == Missing ==> AllFrom(requests[0].binary, requests))
                      && (Notify(ConfigOf(before)) == OtherNotify ==> AllCoexist(requests))))
  {
    RequestsReach(before, requests, after);
    FirstWasPossible(before, requests, after);
    UninstallFrom(before, StandingOf(before, requests), after);
  }

  lemma UninstallFrom(before: Home, st: Standing, home: Home)
    requires Unmarked(before) && Stands(before, st, home)
    requires !before.config.Malformed? && !before.hooks.Malformed? && Notify(ConfigOf(before)) != InvalidNotify
    requires st.kept == None || st.kept == NotifyArgv(ConfigOf(before))
    requires st.created ==> before.config == Missing
    ensures var (end, result) := Uninstall(home);
            && result.Ok?
            && (result.value.complete <==> st.last == st.first)
            && result.value.conflict == !result.value.complete
            && result.value.removed == (if result.value.complete then 5 else 0)
            && end.hooks == (if result.value.complete then TidiedHooks(before.hooks) else home.hooks)
            && (end.config == before.config
                <==> ((before.config == Missing ==> st.created)
                      && (Notify(ConfigOf(before)) == OtherNotify ==> st.kept.Some?)))
  {
    ConfigComesBackFrom(before, st, home);
    HooksComeBackFrom(before, st, home);
    RecordIsValidFrom(before, st, home);
    UninstallIs(home);
  }

  lemma UninstallIs(home: Home)
    requires home.config.Parsed? && home.hooks.Parsed?
    requires home.provenance.Some? && ValidProvenance(home.provenance.value)
    ensures var p := home.provenance.value;
            var config, hooks :=
              PlanConfigUninstall(p, ToOption(home.config)), PlanHooksUninstall(HooksRecord(p), ToOption(home.hooks));
            var complete := config.complete && hooks.complete;
            Uninstall(home) ==
            (Home(Applied(config.mutation, home.config), AppliedHooks(hooks.mutation, home.hooks),
                  if complete then None else home.provenance),
             Ok(Uninstalled(complete, config.restored, hooks.removed, config.conflict || hooks.conflict)))
  {
  }

  // ---- Two installations ----

  lemma OneMoreInstall(before: Home, requests: seq<Request>, home: Home, request: Request, after: Home)
    requires InstallsAll(before, requests, home) && Installs(home, request.binary, request.mode, after)
    ensures InstallsAll(before, requests + [request], after)
  {
    assert AllButLast(requests + [request]) == requests;
    assert InstallsLast(before, requests + [request], home, after);
  }

  lemma TwoInstalls(before: Home, first: Request, after: Home, second: Request, again: Home)
    requires Installs(before, first.binary, first.mode, after)
    requires Installs(after, second.binary, second.mode, again)
    ensures InstallsAll(before, [first, second], again)
  {
    OneMoreInstall(before, [], before, first, after);
    assert [] + [first] == [first];
    OneMoreInstall(before, [first], after, second, again);
    assert [first] + [second] == [first, second];
  }

  /**
   After two installations in any modes and from any hook binaries uninstalling is complete exactly if
   the binaries are the same, and otherwise removes no handler. It gives the configuration back exactly
   unless the second installation was exclusive over the notify command of someone else, or there was no
   configuration and the binaries differ.
   */
  lemma TwiceInstalledComesBackExactly(
    before: Home, binary: string, first: Mode, after: Home, binary': string, second: Mode, again: Home)
    requires Unmarked(before)
    requires Installs(before, binary, first, after) && Installs(after, binary', second, again)
    ensures Uninstall(again).1.Ok?
    ensures var (end, result) := Uninstall(again);
            && (result.value.complete <==> binary' == binary)
            && result.value.conflict == !result.value.complete
            && result.value.removed == (if result.value.complete then 5 else 0)
            && end.hooks == (if result.value.complete then TidiedHooks(before.hooks) else after.hooks)
            && (end.config == before.config
                <==> (&& !(Notify(ConfigOf(before)) == OtherNotify && second == Exclusive)
                      && (binary' == binary || before.config.Parsed?)))
  {
    var requests := [Request(binary, first), Request(binary', second)];
    TwoInstalls(before, requests[0], after, requests[1], again);
    InstalledRepeatedlyComesBackExactly(before, requests, again);
    FirstWasPossible(before, requests, again);
    FirstReaches(before, requests[0], after);
    NextPlan(before, StandingOf(before, [requests[0]]), after, requests[1]);
    assert again.hooks == after.hooks;
  }

  /** An exclusive installation over a coexisting one forgets the original command for good. */
  lemma ExclusiveForgetsOriginal(
    before: Home, binary: string, first: Mode, after: Home, binary': string, again: Home)
    requires Unmarked(before) && Notify(ConfigOf(before)) == OtherNotify
    requires Installs(before, binary, first, after) && Installs(after, binary', Exclusive, again)
    ensures again.provenance.value.previous == None
    ensures Uninstall(again).0.config == Parsed(ConfigOf(before) - {"notify"})
  {
    var st := StandingOf(before, [Request(binary, first)]);
    FirstReaches(before, Request(binary, first), after);
    NextStands(before, st, after, Request(binary', Exclusive), again);
    var end := StandingAfter(st, Request(binary', Exclusive));
    RecordIsValidFrom(before, end, again);
    UninstallIs(again);
    assert ConfigOf(again) - {"notify"} == ConfigOf(before) - {"notify"};
  }

  /** After installations without a fault a further one is possible in either mode and from any binary. */
  lemma FurtherIsPossible(before: Home, requests: seq<Request>, after: Home, request: Request)
    requires Unmarked(before) && requests != [] && InstallsAll(before, requests, after)
    ensures Installable(after, request.binary, request.mode)
  {
    RequestsReach(before, requests, after);
    FirstWasPossible(before, requests, after);
    var st := StandingOf(before, requests);
    NextPlan(before, st, after, request);
    OurNotifyIsMarked(st.last, st.kept);
  }
}
