/** How a plugin writes itself into the source of an event, and how the receiver reads it back. */
module PluginSources {
  import opened Basics
  import opened Encodings

  const PLUGIN_PREFIX := "plugin:"
  const DESKTOP_VERSION := "0.1.0"
  const MAX_SOURCE_CHARS := 256

  // ---- Text ----

  predicate StartsWith(s: string, prefix: string) {
    |prefix| <= |s| && s[..|prefix|] == prefix
  }

  function StripPrefix(s: string, prefix: string): Option<string> {
    if StartsWith(s, prefix) then Some(s[|prefix|..]) else None
  }

  /** The parts before and after the first `c`. */
  function SplitOnce(s: string, c: char): Option<(string, string)> {
    if s == [] then None
    else if s[0] == c then Some(([], s[1..]))
    else match SplitOnce(s[1..], c)
      case None => None
      case Some(parts) => Some(([s[0]] + parts.0, parts.1))
  }

  lemma {:induction false} SplitOnceFinds(before: string, c: char, behind: string)
    requires c !in before
    ensures SplitOnce(before + [c] + behind, c) == Some((before, behind))
  {
    var s := before + [c] + behind;
    if before == [] {
      assert s == [c] + behind;
    } else {
      assert s[1..] == before[1..] + [c] + behind;
      assert s[0] == before[0] && before == [before[0]] + before[1..];
      SplitOnceFinds(before[1..], c, behind);
    }
  }

  // ---- Versions and identities ----

  predicate IsDigit(c: char) {
    '0' <= c <= '9'
  }

  /** An unsigned 64-bit number, possibly with a plus sign. */
  predicate ParsesAsNumber(s: string) {
    var digits := if s != [] && s[0] == '+' then s[1..] else s;
    digits != [] && (forall i :: 0 <= i < |digits| ==> IsDigit(digits[i])) && DecimalValue(Ascii(digits)) <= U64_MAX
  }

  predicate IsReleaseComponent(s: string) {
    s != [] && !(|s| > 1 && s[0] == '0') && ParsesAsNumber(s)
  }

  predicate IsReleaseVersion(s: string) {
    match SplitOnce(s, '.')
    case None => false
    case Some(major) =>
      match SplitOnce(major.1, '.')
      case None => false
      case Some(minor) =>
        IsReleaseComponent(major.0) && IsReleaseComponent(minor.0) && IsReleaseComponent(minor.1) && '.' !in minor.1
  }

  predicate IsSupportedVersion(s: string) {
    IsReleaseVersion(s) && StartsWith(s, "0.1.")
  }

  predicate IsPluginChar(c: char) {
    'a' <= c <= 'z' || 'A' <= c <= 'Z' || IsDigit(c) || c in "-_.@"
  }

  predicate IsPluginId(s: string) {
    && 0 < |s| <= 128
    && (forall c :: c in s ==> IsPluginChar(c))
    && multiset(s)['@'] == 1
  }

  predicate IsHexDigit(c: char) {
    IsDigit(c) || 'a' <= c <= 'f' || 'A' <= c <= 'F'
  }

  predicate IsHomeIdentity(s: string) {
    |s| == 43 && StartsWith(s, "codex-home-") && forall c :: c in s[11..] ==> IsHexDigit(c)
  }

  // ---- Sources ----

  datatype Parts = Parts(plugin: string, version: string, home: Option<string>, nested: string)

  /** The plugin part of a source, if it is well formed. */
  function SourceParts(source: string): Option<Parts> {
    match StripPrefix(source, PLUGIN_PREFIX)
    case None => None
    case Some(rest) =>
      match SplitOnce(rest, ':')
      case None => None
      case Some(plugin) =>
        match SplitOnce(plugin.1, ':')
        case None => None
        case Some(version) => CheckedParts(plugin.0, version.0, version.1)
  }

  function CheckedParts(plugin: string, version: string, tail: string): Option<Parts> {
    var (home, nested) := HomeAndNested(tail);
    if !IsPluginId(plugin) || !IsReleaseVersion(version) || (home.Some? && !IsHomeIdentity(home.value))
       || !StartsWith(nested, "hook:")
    then None
    else Some(Parts(plugin, version, home, nested))
  }

  function HomeAndNested(tail: string): (Option<string>, string) {
    match StripPrefix(tail, "home:")
    case None => (None, tail)
    case Some(rest) =>
      match SplitOnce(rest, ':')
      case None => (None, tail)
      case Some(parts) => (Some(parts.0), parts.1)
  }

  /** The source of a hook event as the plugin rewrites it; `None` leaves the event alone. */
  function MarkedSource(isCodex: bool, source: string, plugin: string, home: Option<string>): Option<string> {
    if !isCodex || !StartsWith(source, "hook:") then None
    else if !IsPluginId(plugin) || (home.Some? && !IsHomeIdentity(home.value)) then None
    else
      var marked := Rewritten(source, plugin, home);
      if |marked| > MAX_SOURCE_CHARS then None else Some(marked)
  }

  function Rewritten(source: string, plugin: string, home: Option<string>): string {
    PLUGIN_PREFIX + (plugin + ":" + (DESKTOP_VERSION + ":" + Tail(source, home)))
  }

  function Tail(source: string, home: Option<string>): string {
    match home
    case None => source
    case Some(identity) => "home:" + (identity + ":" + source)
  }

  lemma DigitParses(s: string)
    requires |s| == 1 && IsDigit(s[0])
    ensures ParsesAsNumber(s)
  {
    var n := s[0] as int - '0' as int;
    DecimalRoundTrip(n);
    assert Ascii(s) == Decimal(n);
  }

  lemma DesktopVersionIsRelease()
    ensures IsReleaseVersion(DESKTOP_VERSION) && IsSupportedVersion(DESKTOP_VERSION) && ':' !in DESKTOP_VERSION
  {
    SplitOnceFinds("0", '.', "1.0");
    SplitOnceFinds("1", '.', "0");
    assert "0" + ['.'] + "1.0" == DESKTOP_VERSION;
    assert "1" + ['.'] + "0" == "1.0";
    DigitParses("0");
    DigitParses("1");
  }

  lemma StripAdded(prefix: string, rest: string)
    ensures StripPrefix(prefix + rest, prefix) == Some(rest)
  {
    assert (prefix + rest)[..|prefix|] == prefix && (prefix + rest)[|prefix|..] == rest;
  }

  lemma PrefixChar(s: string, prefix: string, k: nat)
    requires k < |prefix|
    ensures StartsWith(s, prefix) ==> s[k] == prefix[k]
  {
    if StartsWith(s, prefix) {
      assert s[..|prefix|][k] == s[k];
    }
  }

  /** The source of a hook is none of the others. */
  lemma HookStartsAs(s: string)
    requires StartsWith(s, "hook:")
    ensures !StartsWith(s, "home:") && !StartsWith(s, PLUGIN_PREFIX) && !StartsWith(s, "notify:") && s != "notify"
  {
    PrefixChar(s, "hook:", 0);
    PrefixChar(s, "hook:", 2);
    PrefixChar(s, "home:", 2);
    PrefixChar(s, PLUGIN_PREFIX, 0);
    PrefixChar(s, "notify:", 0);
  }

  lemma TailRoundTrip(source: string, home: Option<string>)
    requires StartsWith(source, "hook:") && (home.Some? ==> IsHomeIdentity(home.value))
    ensures HomeAndNested(Tail(source, home)) == (home, source)
  {
    match home
    case None =>
      HookStartsAs(source);
    case Some(identity) =>
      StripAdded("home:", identity + ":" + source);
      forall c | c in identity
        ensures c != ':'
      {
        assert identity == identity[..11] + identity[11..];
        assert identity[..11] == "codex-home-";
      }
      SplitOnceFinds(identity, ':', source);
  }

  /** Reading what the plugin wrote gives back the plugin, its version, the home and the old source. */
  lemma MarkRoundTrip(isCodex: bool, source: string, plugin: string, home: Option<string>)
    requires MarkedSource(isCodex, source, plugin, home).Some?
    ensures SourceParts(MarkedSource(isCodex, source, plugin, home).value)
            == Some(Parts(plugin, DESKTOP_VERSION, home, source))
  {
    DesktopVersionIsRelease();
    var tail := Tail(source, home);
    StripAdded(PLUGIN_PREFIX, plugin + ":" + (DESKTOP_VERSION + ":" + tail));
    assert ':' !in plugin;
    SplitOnceFinds(plugin, ':', DESKTOP_VERSION + ":" + tail);
    SplitOnceFinds(DESKTOP_VERSION, ':', tail);
    TailRoundTrip(source, home);
  }

  // ---- Surfaces ----

  datatype Surface = Notify | SessionStart | UserPromptSubmit | PermissionRequest | Stop | SessionEnd {
    function Rank(): nat {
      match this
      case Notify => 0
      case SessionStart => 1
      case UserPromptSubmit => 2
      case PermissionRequest => 3
      case Stop => 4
      case SessionEnd => 5
    }
  }

  /** What stands between the first and the second colon. */
  function SecondPart(s: string): Option<string> {
    match SplitOnce(s, ':')
    case None => None
    case Some(parts) =>
      match SplitOnce(parts.1, ':')
      case None => Some(parts.1)
      case Some(more) => Some(more.0)
  }

  function HookSurface(name: string): Option<Surface> {
    if name == "SessionStart" then Some(SessionStart)
    else if name == "UserPromptSubmit" then Some(UserPromptSubmit)
    else if name == "PermissionRequest" then Some(PermissionRequest)
    else if name == "Stop" then Some(Stop)
    else if name == "SessionEnd" then Some(SessionEnd)
    else None
  }

  function SurfaceOf(source: string): Option<Surface> {
    if source == "notify" || StartsWith(source, "notify:") then Some(Notify)
    else
      var parts := SourceParts(source);
      match SecondPart(if parts.Some? then parts.value.nested else source)
      case None => None
      case Some(name) => HookSurface(name)
  }

  /** A plugin's mark does not change the surface an event counts for. */
  lemma MarkKeepsSurface(isCodex: bool, source: string, plugin: string, home: Option<string>)
    requires MarkedSource(isCodex, source, plugin, home).Some?
    ensures SurfaceOf(MarkedSource(isCodex, source, plugin, home).value) == SurfaceOf(source)
  {
    MarkRoundTrip(isCodex, source, plugin, home);
    HookStartsAs(source);
    var marked := MarkedSource(isCodex, source, plugin, home).value;
    PrefixChar(marked, PLUGIN_PREFIX, 0);
    PrefixChar(marked, "notify:", 0);
    assert SourceParts(source).None?;
  }
}
