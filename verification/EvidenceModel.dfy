/** What the receiver knows about Codex: seen surfaces, and authenticated deliveries of plugins. */
module EvidenceModel {
  import opened Basics
  import opened SessionTypes
  import opened PluginSources

  const MAX_EVIDENCE: nat := 16

  // ---- Surfaces and coverage ----

  predicate StrictlySorted(surfaces: seq<Surface>) {
    forall i, j :: 0 <= i < j < |surfaces| ==> surfaces[i].Rank() < surfaces[j].Rank()
  }

  /** Insert at its place unless it is there. */
  function Insert(surfaces: seq<Surface>, surface: Surface): seq<Surface> {
    if surfaces == [] then [surface]
    else if surfaces[0] == surface then surfaces
    else if surface.Rank() < surfaces[0].Rank() then [surface] + surfaces
    else [surfaces[0]] + Insert(surfaces[1..], surface)
  }

  function InsertAll(surfaces: seq<Surface>, more: seq<Surface>): seq<Surface>
    decreases |more|
  {
    if more == [] then surfaces else InsertAll(Insert(surfaces, more[0]), more[1..])
  }

  datatype Coverage = MissingStart | MissingActive | MissingAttention | MissingCompletion | MissingEnd
                    | MissingFailure | MissingResolution

  function When(missing: bool, coverage: Coverage): seq<Coverage> {
    if missing then [coverage] else []
  }

  function Missing(seen: set<Surface>): seq<Coverage> {
    When(SessionStart !in seen, MissingStart)
    + When(UserPromptSubmit !in seen, MissingActive)
    + When(PermissionRequest !in seen, MissingAttention)
    + When(Notify !in seen && Stop !in seen, MissingCompletion)
    + When(SessionEnd !in seen, MissingEnd)
    + [MissingFailure, MissingResolution]
  }

  // ---- Evidence ----

  datatype Accepted = Accepted(
    event: EventId,
    kind: EventKind,
    occurredAt: u64,
    surface: Surface,
    plugin: Option<string>,
    home: Option<string>,
    version: Option<string>)

  function Without(evidence: seq<Accepted>, plugin: Option<string>): seq<Accepted> {
    if evidence == [] then []
    else if evidence[0].plugin == plugin then evidence[1..]
    else [evidence[0]] + Without(evidence[1..], plugin)
  }

  function Latest(s: seq<Accepted>): seq<Accepted> {
    if |s| > MAX_EVIDENCE then s[1..] else s
  }

  /** The newest delivery of a plugin replaces its older one; the longest unheard of is forgotten. */
  function Remember(evidence: seq<Accepted>, accepted: Accepted): seq<Accepted> {
    if accepted.plugin.None? then evidence else Latest(Without(evidence, accepted.plugin) + [accepted])
  }

  // ---- The discovered plugin ----

  datatype HookSource = NoHooks | Legacy | PluginHooks | Overlap | UnknownHooks

  datatype Trust = NotApplicable | UnknownTrust | TrustedAtLastDelivery

  datatype Compatibility = Supported | Unsupported | PackageMismatch | UnknownCompatibility

  datatype Plugin = Plugin(
    id: Option<string>,
    installed: Option<bool>,
    enabled: Option<bool>,
    version: Option<string>,
    hooks: HookSource,
    trust: Trust,
    compatibility: Compatibility,
    last: Option<Accepted>)

  function RecordPluginEvent(plugin: Plugin, accepted: Accepted): Plugin {
    if plugin.id != accepted.plugin then plugin
    else
      plugin.(
        compatibility :=
          if plugin.version.Some? && accepted.version.Some? && plugin.version != accepted.version then PackageMismatch
          else if accepted.version.Some? && IsSupportedVersion(accepted.version.value) then Supported
          else plugin.compatibility,
        hooks := if plugin.hooks.Legacy? || plugin.hooks.Overlap? then Overlap else PluginHooks,
        trust := TrustedAtLastDelivery,
        last := Some(accepted))
  }

  datatype Diagnostics = Diagnostics(
    surfaces: seq<Surface>,
    missing: seq<Coverage>,
    last: Option<Accepted>,
    evidence: seq<Accepted>,
    plugin: Plugin)

  /** What an inspection found; it knows of no delivery yet. */
  function Discovered(surfaces: seq<Surface>, plugin: Plugin): Diagnostics {
    var sorted := InsertAll([], surfaces);
    Diagnostics(sorted, Missing(set s | s in sorted), None, [], plugin)
  }

  // ---- Deliveries ----

  datatype Delivery = Delivery(event: EventId, kind: EventKind, occurredAt: u64, isCodex: bool, source: string)

  function AcceptedOf(delivery: Delivery, surface: Surface, authenticated: bool): Accepted {
    var parts := if authenticated then SourceParts(delivery.source) else None;
    Accepted(delivery.event, delivery.kind, delivery.occurredAt, surface,
             if parts.Some? then Some(parts.value.plugin) else None,
             if parts.Some? then parts.value.home else None,
             if parts.Some? then Some(parts.value.version) else None)
  }

  function RecordAccepted(d: Diagnostics, delivery: Delivery, authenticated: bool): Diagnostics {
    var surface := SurfaceOf(delivery.source);
    if !delivery.isCodex || surface.None? then d
    else
      var surfaces := Insert(d.surfaces, surface.value);
      var accepted := AcceptedOf(delivery, surface.value, authenticated);
      var seen := d.(surfaces := surfaces, missing := Missing(set s | s in surfaces), last := Some(accepted));
      if accepted.version.None? then seen
      else seen.(evidence := Remember(d.evidence, accepted), plugin := RecordPluginEvent(d.plugin, accepted))
  }

  /** The newest evidence of exactly the discovered package. */
  function FindEvidence(evidence: seq<Accepted>, plugin: Plugin): Option<Accepted> {
    if evidence == [] then None
    else
      var accepted := evidence[|evidence| - 1];
      if accepted.plugin == plugin.id && accepted.version == plugin.version then Some(accepted)
      else FindEvidence(evidence[..|evidence| - 1], plugin)
  }

  function RefreshDiscovery(d: Diagnostics, discovered: Diagnostics): Diagnostics {
    var surfaces := InsertAll(discovered.surfaces, d.surfaces);
    var evidence := if d.plugin.last.Some? then Remember(d.evidence, d.plugin.last.value) else d.evidence;
    var found := FindEvidence(evidence, discovered.plugin);
    var usable := found.Some? && discovered.plugin.installed == Some(true) && discovered.plugin.enabled == Some(true)
                  && found.value.plugin.Some? && found.value.version.Some?;
    Diagnostics(surfaces, Missing(set s | s in surfaces), d.last, evidence,
                if usable then RecordPluginEvent(discovered.plugin, found.value) else discovered.plugin)
  }
}
