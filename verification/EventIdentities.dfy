/** The strings hashed into event identities, and exactly when two events share one. */
module EventIdentities {
  import opened Basics
  import opened SessionTypes
  import opened Encodings

  // ---- Identities of events that bring none ----

  function KindName(kind: EventKind): string {
    match kind
    case SessionStarted => "session_started"
    case TurnStarted => "turn_started"
    case AttentionRequired => "attention_required"
    case AttentionResolved => "attention_resolved"
    case TurnCompleted => "turn_completed"
    case TurnFailed => "turn_failed"
    case SessionEnded => "session_ended"
  }

  function KindBytes(kind: EventKind): Bytes {
    Ascii(KindName(kind))
  }

  /** The names differ in length, or else in their thirteenth letter. */
  lemma KindShows(kind: EventKind)
    ensures match kind
            case SessionStarted => |KindBytes(kind)| == 15
            case TurnStarted => |KindBytes(kind)| == 12
            case AttentionRequired => |KindBytes(kind)| == 18 && KindBytes(kind)[12] == 'q' as int
            case AttentionResolved => |KindBytes(kind)| == 18 && KindBytes(kind)[12] == 's' as int
            case TurnCompleted => |KindBytes(kind)| == 14
            case TurnFailed => |KindBytes(kind)| == 11
            case SessionEnded => |KindBytes(kind)| == 13
  {
  }

  lemma KindsDiffer(a: EventKind, b: EventKind)
    ensures |KindBytes(a)| < 256
    ensures KindBytes(a) == KindBytes(b) <==> a == b
  {
    KindShows(a);
    KindShows(b);
  }

  datatype Origin = Origin(
    provider: Bytes, kind: EventKind, session: Bytes, turn: Option<Bytes>, occurredAt: u64, source: Bytes)
  {
    /** Identities are never empty. */
    predicate Valid() {
      && Fits(provider) && Fits(session) && Fits(source)
      && (turn.Some? ==> turn.value != [] && Fits(turn.value))
    }
  }

  function FallbackFields(o: Origin): seq<Bytes> {
    [o.provider, KindBytes(o.kind), o.session, if o.turn.Some? then o.turn.value else [],
     Decimal(o.occurredAt), o.source]
  }

  function FallbackBytes(o: Origin): Bytes {
    Fields(FallbackFields(o))
  }

  /** A decimal has fewer digits than its value has units. */
  lemma {:induction false} DecimalIsShort(n: nat)
    ensures |Decimal(n)| <= n + 1
  {
    if n >= 10 {
      DecimalIsShort(n / 10);
    }
  }

  lemma FallbackFits(o: Origin)
    requires o.Valid()
    ensures forall field :: field in FallbackFields(o) ==> Fits(field)
  {
    DecimalFits(o.occurredAt);
    KindsDiffer(o.kind, o.kind);
  }

  lemma DecimalFits(n: u64)
    ensures Fits(Decimal(n))
  {
    if n < U64_MAX {
      DecimalIsShort(n);
    } else {
      DecimalIsShort(n / 10);
    }
  }

  /** Two events get the same fallback string only if they agree in everything that identifies them. */
  lemma FallbackDetermines(a: Origin, b: Origin)
    requires a.Valid() && b.Valid()
    ensures FallbackBytes(a) == FallbackBytes(b) <==> a == b
  {
    if FallbackBytes(a) == FallbackBytes(b) {
      FallbackFits(a);
      FallbackFits(b);
      FieldsDetermine(FallbackFields(a), FallbackFields(b), [], []);
      FallbackFieldsDetermine(a, b);
    }
  }

  lemma FallbackFieldsDetermine(a: Origin, b: Origin)
    requires a.Valid() && b.Valid() && FallbackFields(a) == FallbackFields(b)
    ensures a == b
  {
    var f, g := FallbackFields(a), FallbackFields(b);
    assert f[0] == g[0] && f[1] == g[1] && f[2] == g[2] && f[3] == g[3] && f[4] == g[4] && f[5] == g[5];
    KindsDiffer(a.kind, b.kind);
    DecimalRoundTrip(a.occurredAt);
    DecimalRoundTrip(b.occurredAt);
  }

  // ---- Completed turns reported by notify ----

  function NotifyBytes(thread: Bytes, turn: Bytes): Bytes {
    Fields([Ascii("agent-turn-complete"), thread, turn])
  }

  lemma NotifyDetermines(thread: Bytes, turn: Bytes, thread': Bytes, turn': Bytes)
    requires Fits(thread) && Fits(turn) && Fits(thread') && Fits(turn')
    ensures NotifyBytes(thread, turn) == NotifyBytes(thread', turn') <==> thread == thread' && turn == turn'
  {
    if NotifyBytes(thread, turn) == NotifyBytes(thread', turn') {
      var f, g := [Ascii("agent-turn-complete"), thread, turn], [Ascii("agent-turn-complete"), thread', turn'];
      FieldsDetermine(f, g, [], []);
      assert f[1] == g[1] && f[2] == g[2];
    }
  }

  // ---- Hooks ----

  datatype Hook = SessionStart | UserPromptSubmit | PermissionRequest | Stop | SessionEnd | OtherHook {
    function Name(): string {
      match this
      case SessionStart => "SessionStart"
      case UserPromptSubmit => "UserPromptSubmit"
      case PermissionRequest => "PermissionRequest"
      case Stop => "Stop"
      case SessionEnd => "SessionEnd"
      case OtherHook => ""
    }
  }

  predicate FieldFits(field: Option<Bytes>) {
    field.Some? ==> Fits(field.value)
  }

  /** What a hook hands over; `source` is the trimmed start source, `toolInput` its serialized form. */
  datatype HookInput = HookInput(
    session: Option<Bytes>,
    turn: Option<Bytes>,
    source: Option<Bytes>,
    toolUse: Option<Bytes>,
    toolName: Option<Bytes>,
    toolInput: Option<Bytes>)
  {
    predicate Valid() {
      FieldFits(session) && FieldFits(turn) && FieldFits(source)
      && FieldFits(toolUse) && FieldFits(toolName) && FieldFits(toolInput)
    }
  }

  function HookBytes(hook: Hook): Bytes {
    Ascii(hook.Name())
  }

  const NATIVE_PERMISSION: Bytes := Ascii("codex-native-permission-v1") + [0]

  function OptionalField(field: Option<Bytes>): Bytes {
    if field.Some? then [1] + Field(field.value) else [0]
  }

  predicate IsNative(hook: Hook, input: HookInput) {
    hook == PermissionRequest && input.toolUse.None?
  }

  function ToolUse(input: HookInput): Bytes {
    if input.toolUse.Some? then Field(input.toolUse.value) else []
  }

  /** The part of the string that depends on the kind of hook. */
  function Tail(hook: Hook, input: HookInput): Option<Bytes> {
    match hook
    case SessionStart => Some(OptionalField(input.source))
    case UserPromptSubmit => if input.turn.Some? then Some(Field(input.turn.value)) else None
    case Stop => if input.turn.Some? then Some(Field(input.turn.value)) else None
    case PermissionRequest =>
      if input.turn.None? || input.toolInput.None? then None
      else Some(Field(input.turn.value)
                + (ToolUse(input) + (OptionalField(input.toolName) + Field(input.toolInput.value))))
    case SessionEnd => Some([])
    case OtherHook => None
  }

  function LifecycleBytes(hook: Hook, input: HookInput): Option<Bytes> {
    if input.session.None? || Tail(hook, input).None? then None
    else Some((if IsNative(hook, input) then NATIVE_PERMISSION else [])
              + (Field(HookBytes(hook)) + (Field(input.session.value) + Tail(hook, input).value)))
  }

  /** The deliveries are of the same lifecycle event. */
  predicate SameIdentity(hook: Hook, a: HookInput, b: HookInput) {
    && a.session == b.session
    && match hook
       case SessionStart => a.source == b.source
       case UserPromptSubmit => a.turn == b.turn
       case Stop => a.turn == b.turn
       case PermissionRequest =>
         a.turn == b.turn && a.toolUse == b.toolUse && a.toolName == b.toolName && a.toolInput == b.toolInput
       case SessionEnd => true
       case OtherHook => false
  }

  lemma HookShows(hook: Hook)
    ensures |HookBytes(hook)| == match hook
                                 case SessionStart => 12
                                 case UserPromptSubmit => 16
                                 case PermissionRequest => 17
                                 case Stop => 4
                                 case SessionEnd => 10
                                 case OtherHook => 0
  {
  }

  lemma HooksDiffer(a: Hook, b: Hook)
    ensures |HookBytes(a)| < 256
    ensures HookBytes(a) == HookBytes(b) <==> a == b
  {
    HookShows(a);
    HookShows(b);
  }

  lemma {:induction false} BigEndianOfZero(width: nat)
    requires width > 0
    ensures BigEndian(0, width)[0] == 0
  {
    if width > 1 {
      BigEndianOfZero(width - 1);
      assert BigEndian(0, width) == BigEndian(0, width - 1) + [0];
    } else {
      assert BigEndian(0, 1) == [] + [0];
    }
  }

  lemma SmallFieldStartsWithZero(field: Bytes)
    requires |field| < 256
    ensures Field(field)[0] == 0
  {
    BigEndianOfZero(7);
    assert BigEndian(|field|, 8) == BigEndian(0, 7) + [|field|];
  }

  /** Native permission hooks never share a string with the others. */
  lemma NativeShows(hook: Hook, input: HookInput)
    requires LifecycleBytes(hook, input).Some?
    ensures LifecycleBytes(hook, input).value != []
    ensures LifecycleBytes(hook, input).value[0] == if IsNative(hook, input) then 99 else 0
  {
    HooksDiffer(hook, hook);
    SmallFieldStartsWithZero(HookBytes(hook));
  }

  lemma OptionalDetermines(f: Option<Bytes>, g: Option<Bytes>, x: Bytes, y: Bytes)
    requires f.Some? ==> Fits(f.value)
    requires g.Some? ==> Fits(g.value)
    requires OptionalField(f) + x == OptionalField(g) + y
    ensures f == g && x == y
  {
    OptionalParts(f, x);
    OptionalParts(g, y);
    if f.Some? {
      FieldDetermines(f.value, g.value, x, y);
    }
  }

  lemma OptionalParts(f: Option<Bytes>, x: Bytes)
    ensures var s := OptionalField(f) + x;
            s != [] && s[0] == (if f.Some? then 1 else 0) && s[1..] == if f.Some? then Field(f.value) + x else x
  {
    if f.Some? {
      assert OptionalField(f) + x == [1] + (Field(f.value) + x);
    } else {
      assert OptionalField(f) + x == [0] + x;
    }
  }

  lemma FieldDetermines(f: Bytes, g: Bytes, x: Bytes, y: Bytes)
    requires Fits(f) && Fits(g) && Field(f) + x == Field(g) + y
    ensures f == g && x == y
  {
    FieldRoundTrip(f, x);
    FieldRoundTrip(g, y);
  }

  lemma TailDetermines(hook: Hook, a: HookInput, b: HookInput)
    requires a.Valid() && b.Valid() && Tail(hook, a).Some? && Tail(hook, b) == Tail(hook, a)
    requires IsNative(hook, a) == IsNative(hook, b) && a.session == b.session
    ensures SameIdentity(hook, a, b)
  {
    match hook
    case SessionStart => OptionalDetermines(a.source, b.source, [], []);
    case UserPromptSubmit => TurnDetermines(a, b);
    case Stop => TurnDetermines(a, b);
    case PermissionRequest => PermissionDetermines(a, b);
    case SessionEnd =>
  }

  lemma TurnDetermines(a: HookInput, b: HookInput)
    requires a.Valid() && b.Valid() && a.turn.Some? && b.turn.Some? && Field(a.turn.value) == Field(b.turn.value)
    ensures a.turn == b.turn
  {
    assert Field(a.turn.value) + [] == Field(b.turn.value) + [];
    FieldDetermines(a.turn.value, b.turn.value, [], []);
  }

  lemma PermissionDetermines(a: HookInput, b: HookInput)
    requires a.Valid() && b.Valid() && a.toolUse.Some? == b.toolUse.Some?
    requires Tail(PermissionRequest, a).Some? && Tail(PermissionRequest, a) == Tail(PermissionRequest, b)
    ensures a.turn == b.turn && a.toolUse == b.toolUse && a.toolName == b.toolName && a.toolInput == b.toolInput
  {
    var a2 := OptionalField(a.toolName) + Field(a.toolInput.value);
    var b2 := OptionalField(b.toolName) + Field(b.toolInput.value);
    var a1, b1 := ToolUse(a) + a2, ToolUse(b) + b2;
    FieldDetermines(a.turn.value, b.turn.value, a1, b1);
    if a.toolUse.Some? {
      FieldDetermines(a.toolUse.value, b.toolUse.value, a2, b2);
    } else {
      assert a1 == a2 && b1 == b2;
    }
    OptionalDetermines(a.toolName, b.toolName, Field(a.toolInput.value), Field(b.toolInput.value));
    assert Field(a.toolInput.value) + [] == Field(b.toolInput.value) + [];
    FieldDetermines(a.toolInput.value, b.toolInput.value, [], []);
  }

  /**
   Two hook deliveries get the same string exactly if they are of the same hook and agree in every
   field that identifies its event; a native and a legacy permission request never do.
   */
  lemma LifecycleDetermines(hook: Hook, a: HookInput, hook': Hook, b: HookInput)
    requires a.Valid() && b.Valid() && LifecycleBytes(hook, a).Some? && LifecycleBytes(hook', b).Some?
    ensures LifecycleBytes(hook, a) == LifecycleBytes(hook', b) <==> hook == hook' && SameIdentity(hook, a, b)
  {
    NativeShows(hook, a);
    NativeShows(hook', b);
    if LifecycleBytes(hook, a) == LifecycleBytes(hook', b) {
      assert IsNative(hook, a) == IsNative(hook', b);
      var x, y := Field(a.session.value) + Tail(hook, a).value, Field(b.session.value) + Tail(hook', b).value;
      SamePrefix(if IsNative(hook, a) then NATIVE_PERMISSION else [],
                 Field(HookBytes(hook)) + x, Field(HookBytes(hook')) + y);
      HooksDiffer(hook, hook');
      HooksDiffer(hook', hook);
      FieldDetermines(HookBytes(hook), HookBytes(hook'), x, y);
      FieldDetermines(a.session.value, b.session.value, Tail(hook, a).value, Tail(hook', b).value);
      TailDetermines(hook, a, b);
    }
  }

  lemma SamePrefix(prefix: Bytes, x: Bytes, y: Bytes)
    requires prefix + x == prefix + y
    ensures x == y
  {
    assert (prefix + x)[|prefix|..] == x && (prefix + y)[|prefix|..] == y;
  }
}
