/** What every run of deliveries and refreshes keeps of the evidence. */
module EvidenceSafety {
  import opened Basics
  import opened SessionTypes
  import opened PluginSources
  import opened EvidenceModel

  // ---- Surfaces ----

  lemma TailIsSorted(surfaces: seq<Surface>)
    requires StrictlySorted(surfaces) && surfaces != []
    ensures StrictlySorted(surfaces[1..])
    ensures forall surface :: surface in surfaces[1..] ==> surfaces[0].Rank() < surface.Rank()
  {
  }

  lemma ConsIsSorted(first: Surface, rest: seq<Surface>)
    requires StrictlySorted(rest) && (rest != [] ==> first.Rank() < rest[0].Rank())
    ensures StrictlySorted([first] + rest)
  {
  }

  lemma {:induction false} InsertHas(surfaces: seq<Surface>, surface: Surface, other: Surface)
    ensures other in Insert(surfaces, surface) <==> other in surfaces || other == surface
  {
    if surfaces != [] {
      InsertHas(surfaces[1..], surface, other);
      assert surfaces == [surfaces[0]] + surfaces[1..];
    }
  }

  lemma {:induction false} InsertSorts(surfaces: seq<Surface>, surface: Surface)
    requires StrictlySorted(surfaces)
    ensures StrictlySorted(Insert(surfaces, surface))
    ensures Insert(surfaces, surface) != [] && Insert(surfaces, surface)[0] in surfaces + [surface]
  {
    if surfaces == [] {
    } else if surfaces[0] == surface {
    } else if surface.Rank() < surfaces[0].Rank() {
      ConsIsSorted(surface, surfaces);
    } else {
      RanksDiffer(surfaces[0], surface);
      TailIsSorted(surfaces);
      InsertSorts(surfaces[1..], surface);
      ConsIsSorted(surfaces[0], Insert(surfaces[1..], surface));
    }
  }

  lemma RanksDiffer(a: Surface, b: Surface)
    ensures a.Rank() == b.Rank() <==> a == b
  {
  }

  lemma {:induction false} InsertAllSorts(surfaces: seq<Surface>, more: seq<Surface>)
    requires StrictlySorted(surfaces)
    ensures StrictlySorted(InsertAll(surfaces, more))
    ensures Elements(InsertAll(surfaces, more)) == Elements(surfaces) + Elements(more)
    decreases |more|
  {
    if more != [] {
      InsertSorts(surfaces, more[0]);
      forall other
        ensures other in Insert(surfaces, more[0]) <==> other in surfaces || other == more[0]
      {
        InsertHas(surfaces, more[0], other);
      }
      InsertAllSorts(Insert(surfaces, more[0]), more[1..]);
      assert more == [more[0]] + more[1..];
    }
  }

  // ---- The bounded memory is the unbounded one, cut ----

  predicate OneEach(evidence: seq<Accepted>) {
    forall i, j :: 0 <= i < j < |evidence| ==> evidence[i].plugin != evidence[j].plugin
  }

  /** The last delivery of every plugin, in order of arrival. */
  function LastOfEach(history: seq<Accepted>): seq<Accepted> {
    if history == [] then []
    else
      var last := history[|history| - 1];
      Without(LastOfEach(history[..|history| - 1]), last.plugin) + [last]
  }

  function RememberAll(history: seq<Accepted>): seq<Accepted> {
    if history == [] then [] else Remember(RememberAll(history[..|history| - 1]), history[|history| - 1])
  }

  lemma {:induction false} WithoutIs(evidence: seq<Accepted>, plugin: Option<string>)
    requires OneEach(evidence)
    ensures OneEach(Without(evidence, plugin))
    ensures forall accepted :: accepted in Without(evidence, plugin) <==>
      accepted in evidence && accepted.plugin != plugin
    ensures |Without(evidence, plugin)| == if exists accepted :: accepted in evidence && accepted.plugin == plugin
                                           then |evidence| - 1 else |evidence|
  {
    if evidence != [] {
      var rest := evidence[1..];
      assert evidence == [evidence[0]] + rest;
      forall i | 0 <= i < |rest|
        ensures rest[i].plugin != evidence[0].plugin
      {
        assert rest[i] == evidence[i + 1];
      }
      WithoutIs(rest, plugin);
      if evidence[0].plugin != plugin {
        var left := Without(rest, plugin);
        forall i | 0 <= i < |left|
          ensures left[i].plugin != evidence[0].plugin
        {
          assert left[i] in left;
        }
      }
    }
  }

  lemma {:induction false} WithoutSplits(a: seq<Accepted>, b: seq<Accepted>, plugin: Option<string>)
    requires OneEach(a + b)
    ensures Without(a + b, plugin) ==
            if exists accepted :: accepted in a && accepted.plugin == plugin then Without(a, plugin) + b
            else a + Without(b, plugin)
  {
    if a == [] {
      assert a + b == b;
    } else {
      var rest := a[1..];
      assert (a + b)[1..] == rest + b && a == [a[0]] + rest;
      forall i, j | 0 <= i < j < |rest + b|
        ensures (rest + b)[i].plugin != (rest + b)[j].plugin
      {
        assert (rest + b)[i] == (a + b)[i + 1] && (rest + b)[j] == (a + b)[j + 1];
      }
      WithoutSplits(rest, b, plugin);
      if a[0].plugin == plugin {
        assert a[0] in a;
      }
    }
  }

  lemma {:induction false} LastOfEachIs(history: seq<Accepted>)
    ensures OneEach(LastOfEach(history))
    ensures forall accepted :: accepted in LastOfEach(history) ==> accepted in history
  {
    if history != [] {
      var rest, last := history[..|history| - 1], history[|history| - 1];
      LastOfEachIs(rest);
      WithoutIs(LastOfEach(rest), last.plugin);
      var kept := Without(LastOfEach(rest), last.plugin);
      forall i | 0 <= i < |kept|
        ensures kept[i].plugin != last.plugin
      {
        assert kept[i] in kept;
      }
    }
  }

  lemma CutThenRemember(all: seq<Accepted>, accepted: Accepted)
    requires OneEach(all) && accepted.plugin.Some?
    ensures Remember(Newest(all, MAX_EVIDENCE), accepted)
            == Newest(Without(all, accepted.plugin) + [accepted], MAX_EVIDENCE)
  {
    var kept := Newest(all, MAX_EVIDENCE);
    var gone := all[..|all| - |kept|];
    assert all == gone + kept;
    RememberAfterCut(gone, kept, accepted);
  }

  lemma RememberAfterCut(gone: seq<Accepted>, kept: seq<Accepted>, accepted: Accepted)
    requires OneEach(gone + kept) && |kept| <= MAX_EVIDENCE && (gone != [] ==> |kept| == MAX_EVIDENCE)
    ensures Latest(Without(kept, accepted.plugin) + [accepted])
            == Newest(Without(gone + kept, accepted.plugin) + [accepted], MAX_EVIDENCE)
  {
    WithoutSplits(gone, kept, accepted.plugin);
    TailIsOneEach(gone, kept);
    WithoutIs(kept, accepted.plugin);
    var newest := Without(kept, accepted.plugin) + [accepted];
    if gone == [] {
      assert gone + kept == kept;
    } else if exists earlier :: earlier in gone && earlier.plugin == accepted.plugin {
      GoneIsNotKept(gone, kept, accepted.plugin);
      WithoutNothing(kept, accepted.plugin);
      var before := Without(gone, accepted.plugin);
      assert before + kept + [accepted] == before + newest;
      NewestOfTail(before, newest, MAX_EVIDENCE);
    } else {
      assert gone + Without(kept, accepted.plugin) + [accepted] == gone + newest;
      NewestOfTail(gone, newest, MAX_EVIDENCE);
    }
  }

  lemma TailIsOneEach(a: seq<Accepted>, b: seq<Accepted>)
    requires OneEach(a + b)
    ensures OneEach(b)
  {
    forall i, j | 0 <= i < j < |b|
      ensures b[i].plugin != b[j].plugin
    {
      assert b[i] == (a + b)[|a| + i] && b[j] == (a + b)[|a| + j];
    }
  }

  lemma GoneIsNotKept(gone: seq<Accepted>, kept: seq<Accepted>, plugin: Option<string>)
    requires OneEach(gone + kept) && exists earlier :: earlier in gone && earlier.plugin == plugin
    ensures forall other :: other in kept ==> other.plugin != plugin
  {
    var i :| 0 <= i < |gone| && gone[i].plugin == plugin;
    forall other | other in kept
      ensures other.plugin != plugin
    {
      var j :| 0 <= j < |kept| && kept[j] == other;
      assert (gone + kept)[i] == gone[i] && (gone + kept)[|gone| + j] == other;
    }
  }

  lemma NewestOfTail(a: seq<Accepted>, b: seq<Accepted>, n: nat)
    requires |b| >= n
    ensures Newest(a + b, n) == Newest(b, n)
  {
  }

  lemma {:induction false} WithoutNothing(evidence: seq<Accepted>, plugin: Option<string>)
    requires forall accepted :: accepted in evidence ==> accepted.plugin != plugin
    ensures Without(evidence, plugin) == evidence
  {
    if evidence != [] {
      WithoutNothing(evidence[1..], plugin);
      assert evidence == [evidence[0]] + evidence[1..];
    }
  }

  /** Remembering delivery after delivery keeps exactly the sixteen plugins heard of last, each by its last delivery. */
  lemma {:induction false} MemoryIsCutHistory(history: seq<Accepted>)
    requires forall accepted :: accepted in history ==> accepted.plugin.Some?
    ensures RememberAll(history) == Newest(LastOfEach(history), MAX_EVIDENCE)
  {
    if history != [] {
      var rest, last := history[..|history| - 1], history[|history| - 1];
      assert last in history;
      MemoryIsCutHistory(rest);
      LastOfEachIs(rest);
      CutThenRemember(LastOfEach(rest), last);
    }
  }

  // ---- Runs ----

  datatype Input = Deliver(delivery: Delivery, authenticated: bool) | Refresh(surfaces: seq<Surface>, plugin: Plugin) {
    /** An inspection knows of no delivery. */
    predicate Valid() {
      Refresh? ==> plugin.last.None? && plugin.trust != TrustedAtLastDelivery
    }
  }

  function After(d: Diagnostics, input: Input): Diagnostics {
    match input
    case Deliver(delivery, authenticated) => RecordAccepted(d, delivery, authenticated)
    case Refresh(surfaces, plugin) => RefreshDiscovery(d, Discovered(surfaces, plugin))
  }

  /** The authenticated plugin delivery in the input, if it is one. */
  function Logged(input: Input): seq<Accepted> {
    match input
    case Deliver(delivery, authenticated) =>
      if delivery.isCodex && authenticated && SurfaceOf(delivery.source).Some? && SourceParts(delivery.source).Some?
      then [AcceptedOf(delivery, SurfaceOf(delivery.source).value, true)] else []
    case Refresh(_, _) => []
  }

  function Run(d: Diagnostics, inputs: seq<Input>): Diagnostics {
    if inputs == [] then d else After(Run(d, inputs[..|inputs| - 1]), inputs[|inputs| - 1])
  }

  function Log(inputs: seq<Input>): seq<Accepted> {
    if inputs == [] then [] else Log(inputs[..|inputs| - 1]) + Logged(inputs[|inputs| - 1])
  }

  function LatestOf(history: seq<Accepted>, plugin: Option<string>): Option<Accepted> {
    if history == [] then None
    else if history[|history| - 1].plugin == plugin then Some(history[|history| - 1])
    else LatestOf(history[..|history| - 1], plugin)
  }

  ghost predicate SurfacesOk(d: Diagnostics) {
    StrictlySorted(d.surfaces) && d.missing == Missing(Elements(d.surfaces))
  }

  ghost predicate EvidenceOk(evidence: seq<Accepted>, history: seq<Accepted>) {
    && |evidence| <= MAX_EVIDENCE
    && OneEach(evidence)
    && forall accepted :: accepted in evidence ==>
         accepted.plugin.Some? && LatestOf(history, accepted.plugin) == Some(accepted)
  }

  ghost predicate PluginOk(plugin: Plugin, history: seq<Accepted>) {
    && (plugin.trust == TrustedAtLastDelivery <==> plugin.last.Some?)
    && (plugin.last.Some? ==>
          plugin.id.Some? && plugin.last.value.plugin == plugin.id && LatestOf(history, plugin.id) == plugin.last)
  }

  ghost predicate Inv(d: Diagnostics, history: seq<Accepted>) {
    SurfacesOk(d) && EvidenceOk(d.evidence, history) && PluginOk(d.plugin, history)
  }

  lemma RememberOne(evidence: seq<Accepted>, accepted: Accepted)
    requires |evidence| <= MAX_EVIDENCE && OneEach(evidence) && accepted.plugin.Some?
    ensures var after := Remember(evidence, accepted);
            && |after| <= MAX_EVIDENCE && OneEach(after)
            && accepted in after
            && forall other :: other in after ==>
                 other == accepted || (other in evidence && other.plugin != accepted.plugin)
  {
    WithoutIs(evidence, accepted.plugin);
    var kept := Without(evidence, accepted.plugin);
    forall i | 0 <= i < |kept|
      ensures kept[i].plugin != accepted.plugin
    {
      assert kept[i] in kept;
    }
    var all := kept + [accepted];
    assert OneEach(all) && all[|all| - 1] == accepted;
    assert Latest(all)[|Latest(all)| - 1] == accepted;
  }

  lemma LatestAfter(history: seq<Accepted>, accepted: Accepted, plugin: Option<string>)
    ensures LatestOf(history + [accepted], plugin)
            == if accepted.plugin == plugin then Some(accepted) else LatestOf(history, plugin)
  {
    assert (history + [accepted])[..|history|] == history;
  }

  lemma DeliverKeepsInv(d: Diagnostics, history: seq<Accepted>, delivery: Delivery, authenticated: bool)
    requires Inv(d, history)
    ensures Inv(RecordAccepted(d, delivery, authenticated), history + Logged(Deliver(delivery, authenticated)))
  {
    assert history + [] == history;
    var surface := SurfaceOf(delivery.source);
    if delivery.isCodex && surface.Some? {
      InsertSorts(d.surfaces, surface.value);
      var accepted := AcceptedOf(delivery, surface.value, authenticated);
      if accepted.version.Some? {
        RememberOne(d.evidence, accepted);
        forall plugin
          ensures LatestOf(history + [accepted], plugin)
                  == if accepted.plugin == plugin then Some(accepted) else LatestOf(history, plugin)
        {
          LatestAfter(history, accepted, plugin);
        }
      }
    }
  }

  lemma {:induction false} FindIs(evidence: seq<Accepted>, plugin: Plugin)
    ensures var found := FindEvidence(evidence, plugin);
            && (found.Some? ==>
                  found.value in evidence && found.value.plugin == plugin.id && found.value.version == plugin.version)
            && (found.None? ==>
                  forall accepted :: accepted in evidence ==>
                    !(accepted.plugin == plugin.id && accepted.version == plugin.version))
  {
    if evidence != [] {
      FindIs(evidence[..|evidence| - 1], plugin);
      assert evidence == evidence[..|evidence| - 1] + [evidence[|evidence| - 1]];
    }
  }

  function Refreshed(d: Diagnostics): seq<Accepted> {
    if d.plugin.last.Some? then Remember(d.evidence, d.plugin.last.value) else d.evidence
  }

  lemma RefreshKeepsEvidence(d: Diagnostics, history: seq<Accepted>)
    requires Inv(d, history)
    ensures EvidenceOk(Refreshed(d), history)
  {
    if d.plugin.last.Some? {
      RememberOne(d.evidence, d.plugin.last.value);
    }
  }

  lemma RefreshKeepsInv(d: Diagnostics, history: seq<Accepted>, surfaces: seq<Surface>, plugin: Plugin)
    requires Inv(d, history) && Refresh(surfaces, plugin).Valid()
    ensures Inv(RefreshDiscovery(d, Discovered(surfaces, plugin)), history)
  {
    RefreshKeepsEvidence(d, history);
    FindIs(Refreshed(d), plugin);
    InsertAllSorts([], surfaces);
    InsertAllSorts(InsertAll([], surfaces), d.surfaces);
  }

  /**
   Every run keeps the surfaces strictly sorted and the coverage a function of them, at most sixteen
   pieces of evidence of different plugins, each the latest authenticated delivery of its plugin,
   and trust exactly with a recorded delivery, the latest of the discovered plugin.
   */
  lemma {:induction false} RunKeepsInv(surfaces: seq<Surface>, plugin: Plugin, inputs: seq<Input>)
    requires Refresh(surfaces, plugin).Valid() && forall input :: input in inputs ==> input.Valid()
    ensures Inv(Run(Discovered(surfaces, plugin), inputs), Log(inputs))
  {
    if inputs == [] {
      DiscoveredIsInv(surfaces, plugin);
    } else {
      var rest, last := inputs[..|inputs| - 1], inputs[|inputs| - 1];
      assert last in inputs;
      RunKeepsInv(surfaces, plugin, rest);
      StepKeepsInv(Run(Discovered(surfaces, plugin), rest), Log(rest), last);
    }
  }

  lemma DiscoveredIsInv(surfaces: seq<Surface>, plugin: Plugin)
    requires Refresh(surfaces, plugin).Valid()
    ensures Inv(Discovered(surfaces, plugin), [])
  {
    InsertAllSorts([], surfaces);
  }

  lemma StepKeepsInv(d: Diagnostics, history: seq<Accepted>, input: Input)
    requires Inv(d, history) && input.Valid()
    ensures Inv(After(d, input), history + Logged(input))
  {
    match input
    case Deliver(delivery, authenticated) => DeliverKeepsInv(d, history, delivery, authenticated);
    case Refresh(surfaces, plugin) =>
      RefreshKeepsInv(d, history, surfaces, plugin);
      assert history + [] == history;
  }

  /** Between refreshes the evidence is the cut history of the authenticated deliveries. */
  lemma {:induction false} DeliveriesAreRemembered(surfaces: seq<Surface>, plugin: Plugin, inputs: seq<Input>)
    requires forall input :: input in inputs ==> input.Deliver?
    ensures Run(Discovered(surfaces, plugin), inputs).evidence == RememberAll(Log(inputs))
    ensures forall accepted :: accepted in Log(inputs) ==> accepted.plugin.Some?
    ensures Run(Discovered(surfaces, plugin), inputs).evidence == Newest(LastOfEach(Log(inputs)), MAX_EVIDENCE)
  {
    if inputs != [] {
      var rest, last := inputs[..|inputs| - 1], inputs[|inputs| - 1];
      assert last in inputs;
      DeliveriesAreRemembered(surfaces, plugin, rest);
      DeliveryIsRemembered(Run(Discovered(surfaces, plugin), rest), last.delivery, last.authenticated);
      RememberedNext(Log(rest), Logged(last));
    }
    MemoryIsCutHistory(Log(inputs));
  }

  lemma DeliveryIsRemembered(d: Diagnostics, delivery: Delivery, authenticated: bool)
    ensures var logged := Logged(Deliver(delivery, authenticated));
            && |logged| <= 1
            && RecordAccepted(d, delivery, authenticated).evidence
               == (if logged == [] then d.evidence else Remember(d.evidence, logged[0]))
            && (logged != [] ==> logged[0].plugin.Some?)
  {
  }

  lemma RememberedNext(history: seq<Accepted>, logged: seq<Accepted>)
    requires |logged| <= 1
    ensures RememberAll(history + logged)
            == if logged == [] then RememberAll(history) else Remember(RememberAll(history), logged[0])
  {
    if logged == [] {
      assert history + logged == history;
    } else {
      assert (history + logged)[..|history|] == history;
    }
  }

  /** A delivery taken from the spool changes neither the evidence nor what is known of the plugin. */
  lemma SpooledMakesNoEvidence(d: Diagnostics, delivery: Delivery)
    ensures var after := RecordAccepted(d, delivery, false);
            && after.evidence == d.evidence && after.plugin == d.plugin
            && (after != d ==> after.last.Some? && after.last.value.plugin == None && after.last.value.version == None)
  {
  }

  /** A delivery makes the plugin trusted exactly if it is an authenticated one of the discovered plugin. */
  lemma DeliveryTrustsExactly(d: Diagnostics, delivery: Delivery, authenticated: bool)
    ensures var logged := Logged(Deliver(delivery, authenticated));
            RecordAccepted(d, delivery, authenticated).plugin.trust == TrustedAtLastDelivery
            <==> (d.plugin.trust == TrustedAtLastDelivery || (logged != [] && logged[0].plugin == d.plugin.id))
  {
  }

  /** A refresh trusts the plugin exactly if it runs and the evidence has a delivery of that very package. */
  lemma RefreshTrustsExactly(d: Diagnostics, history: seq<Accepted>, surfaces: seq<Surface>, plugin: Plugin)
    requires Inv(d, history) && Refresh(surfaces, plugin).Valid()
    ensures RefreshDiscovery(d, Discovered(surfaces, plugin)).plugin.trust == TrustedAtLastDelivery
            <==> (&& plugin.installed == Some(true) && plugin.enabled == Some(true) && plugin.version.Some?
                  && exists accepted :: accepted in Refreshed(d)
                                        && accepted.plugin == plugin.id && accepted.version == plugin.version)
  {
    RefreshKeepsEvidence(d, history);
    FindIs(Refreshed(d), plugin);
  }
}
