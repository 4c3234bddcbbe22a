/** The receiver's record of Codex, updated in place by deliveries and inspections. */
module CodexAdapter {
  import opened Basics
  import opened SessionTypes
  import opened PluginSources
  import opened EvidenceModel
  import E = EvidenceSafety

  class CodexAdapterDiagnostics {
    var discoveredSurfaces: seq<Surface>
    var missingLifecycleCoverage: seq<Coverage>
    var lastAcceptedEvent: Option<Accepted>
    var authenticatedPluginEvents: seq<Accepted>
    var plugin: Plugin

    function Contents(): Diagnostics
      reads this
    {
      Diagnostics(discoveredSurfaces, missingLifecycleCoverage, lastAcceptedEvent, authenticatedPluginEvents, plugin)
    }

    constructor WithDiscovery(surfaces: seq<Surface>, plugin: Plugin)
      ensures Contents() == Discovered(surfaces, plugin)
    {
      discoveredSurfaces := InsertAll([], surfaces);
      missingLifecycleCoverage := Missing(set s | s in InsertAll([], surfaces));
      lastAcceptedEvent := None;
      authenticatedPluginEvents := [];
      this.plugin := plugin;
    }

    /** Where a surface is, or belongs, in a sorted list. */
    static method Place(surfaces: seq<Surface>, surface: Surface) returns (at: nat, found: bool)
      requires StrictlySorted(surfaces)
      ensures at <= |surfaces|
      ensures forall i :: 0 <= i < at ==> surfaces[i].Rank() < surface.Rank()
      ensures found ==> at < |surfaces| && surfaces[at] == surface
      ensures !found ==> forall i :: at <= i < |surfaces| ==> surface.Rank() < surfaces[i].Rank()
    {
      var low, high := 0, |surfaces|;
      while low < high
        invariant 0 <= low <= high <= |surfaces|
        invariant forall i :: 0 <= i < low ==> surfaces[i].Rank() < surface.Rank()
        invariant forall i :: high <= i < |surfaces| ==> surface.Rank() < surfaces[i].Rank()
      {
        var middle := (low + high) / 2;
        if surfaces[middle] == surface {
          return middle, true;
        }
        E.RanksDiffer(surfaces[middle], surface);
        if surfaces[middle].Rank() < surface.Rank() {
          low := middle + 1;
        } else {
          high := middle;
        }
      }
      at, found := low, false;
    }

    static lemma {:induction false} PlacedIsInserted(surfaces: seq<Surface>, surface: Surface, at: nat)
      requires at <= |surfaces|
      requires forall i :: 0 <= i < at ==> surfaces[i].Rank() < surface.Rank()
      requires at < |surfaces| ==> surface.Rank() <= surfaces[at].Rank()
      ensures Insert(surfaces, surface) ==
              if at < |surfaces| && surfaces[at] == surface then surfaces
              else surfaces[..at] + [surface] + surfaces[at..]
    {
      if at < |surfaces| {
        E.RanksDiffer(surfaces[at], surface);
      }
      if at > 0 {
        var rest := surfaces[1..];
        assert forall i :: 0 <= i < at - 1 ==> rest[i] == surfaces[i + 1];
        assert at < |surfaces| ==> rest[at - 1] == surfaces[at];
        PlacedIsInserted(rest, surface, at - 1);
        assert [surfaces[0]] + rest == surfaces;
        Reassemble(surfaces, surface, at);
      } else {
        assert surfaces[..0] + [surface] + surfaces[0..] == [surface] + surfaces;
      }
    }

    static lemma Reassemble(surfaces: seq<Surface>, surface: Surface, at: nat)
      requires 0 < at <= |surfaces|
      ensures [surfaces[0]] + (surfaces[1..][..at - 1] + [surface] + surfaces[1..][at - 1..])
              == surfaces[..at] + [surface] + surfaces[at..]
    {
      assert surfaces[1..][at - 1..] == surfaces[at..];
      assert [surfaces[0]] + surfaces[1..][..at - 1] == surfaces[..at];
    }

    static method WithSurface(surfaces: seq<Surface>, surface: Surface) returns (result: seq<Surface>)
      requires StrictlySorted(surfaces)
      ensures result == Insert(surfaces, surface)
    {
      var at, found := Place(surfaces, surface);
      PlacedIsInserted(surfaces, surface, at);
      result := if found then surfaces else surfaces[..at] + [surface] + surfaces[at..];
    }

    method RecordAcceptedEventInner(delivery: Delivery, trustPluginAttribution: bool)
      requires StrictlySorted(discoveredSurfaces)
      modifies this
      ensures Contents() == RecordAccepted(old(Contents()), delivery, trustPluginAttribution)
      ensures StrictlySorted(discoveredSurfaces)
    {
      if !delivery.isCodex {
        return;
      }
      var surface := SurfaceOf(delivery.source);
      if surface.None? {
        return;
      }
      AddSurface(surface.value);
      missingLifecycleCoverage := Missing(set s | s in discoveredSurfaces);
      var accepted := AcceptedOf(delivery, surface.value, trustPluginAttribution);
      if accepted.version.Some? {
        RememberAuthenticatedPluginEvent(accepted);
        RecordPluginEvent(accepted);
      }
      lastAcceptedEvent := Some(accepted);
    }

    method RememberAuthenticatedPluginEvent(accepted: Accepted)
      modifies this`authenticatedPluginEvents
      ensures authenticatedPluginEvents == Remember(old(authenticatedPluginEvents), accepted)
    {
      if accepted.plugin.None? {
        return;
      }
      var events := authenticatedPluginEvents;
      var index := 0;
      while index < |events| && events[index].plugin != accepted.plugin
        invariant 0 <= index <= |events|
        invariant Without(events, accepted.plugin) == events[..index] + Without(events[index..], accepted.plugin)
      {
        assert events[index..][1..] == events[index + 1..];
        assert events[..index + 1] == events[..index] + [events[index]];
        index := index + 1;
      }
      if index < |events| {
        assert events[index..][1..] == events[index + 1..];
        events := events[..index] + events[index + 1..];
      }
      events := events + [accepted];
      if |events| > MAX_EVIDENCE {
        events := events[1..];
      }
      authenticatedPluginEvents := events;
    }

    method RecordPluginEvent(accepted: Accepted)
      modifies this`plugin
      ensures plugin == EvidenceModel.RecordPluginEvent(old(plugin), accepted)
    {
      if plugin.id != accepted.plugin {
        return;
      }
      if plugin.version.Some? && accepted.version.Some? && plugin.version.value != accepted.version.value {
        plugin := plugin.(compatibility := PackageMismatch);
      } else if accepted.version.Some? && IsSupportedVersion(accepted.version.value) {
        plugin := plugin.(compatibility := Supported);
      }
      plugin := plugin.(hooks := if plugin.hooks.Legacy? || plugin.hooks.Overlap? then Overlap else PluginHooks);
      plugin := plugin.(trust := TrustedAtLastDelivery, last := Some(accepted));
    }

    /** Take over a new inspection, keeping what was seen and what was delivered. */
    method RefreshDiscovery(found: CodexAdapterDiagnostics)
      requires found != this && StrictlySorted(found.discoveredSurfaces)
      modifies this, found
      ensures Contents() == EvidenceModel.RefreshDiscovery(old(Contents()), old(found.Contents()))
      ensures StrictlySorted(discoveredSurfaces)
    {
      found.AddSurfaces(discoveredSurfaces);
      found.missingLifecycleCoverage := Missing(set s | s in found.discoveredSurfaces);
      found.lastAcceptedEvent := lastAcceptedEvent;
      found.authenticatedPluginEvents := authenticatedPluginEvents;
      if plugin.last.Some? {
        found.RememberAuthenticatedPluginEvent(plugin.last.value);
      }
      var evidence := found.EvidenceOfPackage();
      if evidence.Some? && found.plugin.installed == Some(true) && found.plugin.enabled == Some(true)
         && evidence.value.plugin.Some? && evidence.value.version.Some?
      {
        found.RecordPluginEvent(evidence.value);
      }
      discoveredSurfaces := found.discoveredSurfaces;
      missingLifecycleCoverage := found.missingLifecycleCoverage;
      lastAcceptedEvent := found.lastAcceptedEvent;
      authenticatedPluginEvents := found.authenticatedPluginEvents;
      plugin := found.plugin;
    }

    method AddSurface(surface: Surface)
      requires StrictlySorted(discoveredSurfaces)
      modifies this`discoveredSurfaces
      ensures discoveredSurfaces == Insert(old(discoveredSurfaces), surface) && StrictlySorted(discoveredSurfaces)
    {
      E.InsertSorts(discoveredSurfaces, surface);
      discoveredSurfaces := WithSurface(discoveredSurfaces, surface);
    }

    method AddSurfaces(surfaces: seq<Surface>)
      requires StrictlySorted(discoveredSurfaces)
      modifies this`discoveredSurfaces
      ensures discoveredSurfaces == InsertAll(old(discoveredSurfaces), surfaces) && StrictlySorted(discoveredSurfaces)
    {
      assert surfaces[0..] == surfaces;
      for i := 0 to |surfaces|
        invariant StrictlySorted(discoveredSurfaces)
        invariant InsertAll(discoveredSurfaces, surfaces[i..]) == InsertAll(old(discoveredSurfaces), surfaces)
      {
        assert surfaces[i..][0] == surfaces[i] && surfaces[i..][1..] == surfaces[i + 1..];
        AddSurface(surfaces[i]);
      }
    }

    /** The newest evidence of exactly the package found. */
    method EvidenceOfPackage() returns (evidence: Option<Accepted>)
      ensures evidence == FindEvidence(authenticatedPluginEvents, plugin)
    {
      var i := |authenticatedPluginEvents|;
      assert authenticatedPluginEvents[..i] == authenticatedPluginEvents;
      while i > 0
        invariant 0 <= i <= |authenticatedPluginEvents|
        invariant FindEvidence(authenticatedPluginEvents[..i], plugin)
                  == FindEvidence(authenticatedPluginEvents, plugin)
      {
        i := i - 1;
        assert authenticatedPluginEvents[..i + 1][..i] == authenticatedPluginEvents[..i];
        var accepted := authenticatedPluginEvents[i];
        if accepted.plugin == plugin.id && accepted.version == plugin.version {
          return Some(accepted);
        }
      }
      evidence := None;
    }
  }
}
