/** Where a saved window reappears on the displays there are, in exact arithmetic. */
module WindowPlacement {
  import opened Basics

  const MAX_LOGICAL_COORDINATE: int := 1_000_000
  const MIN_SCALE: nat := 250
  const MAX_SCALE: nat := 8_000
  const MAX_DISPLAY_ID_CHARS: nat := 256

  /** The work area of a display in pixels; `scale` is pixels per thousand logical units. */
  datatype Display = Display(id: string, x: int, y: int, width: nat, height: nat, scale: nat, primary: bool) {
    predicate Valid() {
      IsDisplayId(id) && width > 0 && height > 0 && MIN_SCALE <= scale <= MAX_SCALE
    }
  }

  predicate IsDisplayId(id: string) {
    id != [] && |id| <= MAX_DISPLAY_ID_CHARS
    && forall i :: 0 <= i < |id| ==> !(id[i] as int < 0x20 || 0x7F <= id[i] as int <= 0x9F)
  }

  datatype Placement = Placement(display: string, x: int, y: int, scale: nat) {
    predicate Valid() {
      && IsDisplayId(display)
      && -MAX_LOGICAL_COORDINATE <= x <= MAX_LOGICAL_COORDINATE
      && -MAX_LOGICAL_COORDINATE <= y <= MAX_LOGICAL_COORDINATE
      && MIN_SCALE <= scale <= MAX_SCALE
    }
  }

  datatype Resolved = Resolved(placement: Placement, x: int, y: int)

  // ---- Rounding ----

  /** The integer nearest to `n / d`, halves away from zero. */
  function Round(n: int, d: int): int
    requires d > 0
  {
    if n >= 0 then (2 * n + d) / (2 * d) else -((-2 * n + d) / (2 * d))
  }

  lemma QuotientBounds(n: int, d: int)
    requires d > 0
    ensures d * (n / d) <= n < d * (n / d) + d
  {
  }

  lemma RoundIsNear(n: int, d: int)
    requires d > 0
    ensures 2 * n - d <= 2 * d * Round(n, d) <= 2 * n + d
    ensures n >= 0 ==> 2 * n - d < 2 * d * Round(n, d)
    ensures n < 0 ==> 2 * d * Round(n, d) < 2 * n + d
  {
    if n >= 0 {
      QuotientBounds(2 * n + d, 2 * d);
    } else {
      QuotientBounds(-2 * n + d, 2 * d);
    }
  }

  lemma RoundIsUnique(n: int, d: int, r: int)
    requires d > 0 && 2 * n - d < 2 * d * r < 2 * n + d
    ensures Round(n, d) == r
  {
    RoundIsNear(n, d);
    Within(d, Round(n, d), r);
  }

  lemma TimesGap(d: int, a: int, b: int)
    requires d > 0
    ensures a > b ==> 2 * d * a >= 2 * d * b + 2 * d
  {
    if a > b {
      TimesMonotone(1, a - b, 2 * d);
      assert 2 * d * (a - b) == 2 * d * a - 2 * d * b;
    }
  }

  /** Multiples of `2d` that lie less than `2d` apart are equal. */
  lemma Within(d: int, a: int, b: int)
    requires d > 0 && -2 * d < 2 * d * a - 2 * d * b < 2 * d
    ensures a == b
  {
    TimesGap(d, a, b);
    TimesGap(d, b, a);
  }

  lemma RoundIsMonotone(n: int, m: int, d: int)
    requires d > 0 && n <= m
    ensures Round(n, d) <= Round(m, d)
  {
    if n < m {
      RoundIsNear(n, d);
      RoundIsNear(m, d);
      TimesGap(d, Round(n, d), Round(m, d));
    }
  }

  // ---- One axis ----

  function Min(a: int, b: int): int {
    if a < b then a else b
  }

  function Clamp(v: int, low: int, high: int): int {
    if v < low then low else if v > high then high else v
  }

  /** A display's origin, extent and scale, and a window's extent, along one axis. */
  datatype Axis = Axis(origin: int, extent: nat, scale: nat, window: nat, margin: nat) {
    function Margin(): int { Min(margin, window / 2) }

    function Low(): int { origin - window + Margin() }

    function High(): int { origin + extent - Margin() }

    function Wanted(logical: int): int { origin + Round(logical * scale, 1000) }

    function Physical(logical: int): int {
      Clamp(Wanted(logical), Low(), High())
    }

    function Logical(physical: int): int
      requires scale > 0
    {
      Round((physical - origin) * 1000, scale)
    }
  }

  /** The bounds of the clamp are never the wrong way round. */
  lemma BoundsAreOrdered(a: Axis)
    ensures a.Low() <= a.High()
  {
  }

  lemma AxisIsVisible(a: Axis, logical: int)
    ensures a.Physical(logical) + a.window - a.origin >= a.Margin()
    ensures a.origin + a.extent - a.Physical(logical) >= a.Margin()
  {
    BoundsAreOrdered(a);
  }

  /** Rounding to logical units and back stays on the logical unit, or on the pixel, whichever is coarser. */
  lemma RoundTrip(scale: nat, logical: int, physical: int)
    requires scale > 0 && logical == Round(physical * 1000, scale)
    ensures scale <= 1000 ==> Round(logical * scale, 1000) == physical
    ensures scale > 1000 ==> Round(Round(logical * scale, 1000) * 1000, scale) == logical
  {
    RoundIsNear(physical * 1000, scale);
    assert 2 * scale * logical == 2 * (logical * scale);
    if scale < 1000 {
      RoundIsUnique(logical * scale, 1000, physical);
    } else if scale == 1000 {
      RoundIsUnique(physical * 1000, 1000, physical);
      RoundIsUnique(logical * 1000, 1000, logical);
    } else {
      BackToUnit(scale, logical);
    }
  }

  /** The pixel of a logical unit lies on that unit. */
  lemma BackToUnit(scale: nat, logical: int)
    requires scale > 1000
    ensures Round(Round(logical * scale, 1000) * 1000, scale) == logical
  {
    var product := logical * scale;
    var back := Round(product, 1000);
    RoundIsNear(product, 1000);
    assert 2 * scale * logical == 2 * product;
    RoundIsUnique(back * 1000, scale, logical);
  }

  lemma AxisIsStable(a: Axis, logical: int)
    requires a.scale > 0
    ensures var again := a.Physical(a.Logical(a.Physical(logical)));
            && a.Logical(again) == a.Logical(a.Physical(logical))
            && (a.scale <= 1000 ==> again == a.Physical(logical))
  {
    BoundsAreOrdered(a);
    var physical := a.Physical(logical);
    var first := a.Logical(physical);
    RoundTrip(a.scale, first, physical - a.origin);
    if a.scale > 1000 {
      var wanted := a.origin + Round(first * a.scale, 1000);
      if wanted > a.High() {
        RoundIsMonotone((physical - a.origin) * 1000, (a.High() - a.origin) * 1000, a.scale);
        RoundIsMonotone((a.High() - a.origin) * 1000, (wanted - a.origin) * 1000, a.scale);
      } else if wanted < a.Low() {
        RoundIsMonotone((a.Low() - a.origin) * 1000, (physical - a.origin) * 1000, a.scale);
        RoundIsMonotone((wanted - a.origin) * 1000, (a.Low() - a.origin) * 1000, a.scale);
      }
    }
  }

  /**
   What can be told beforehand of a window that keeps its pixel when its result is resolved again: a
   pixel is no finer than a logical unit, or no edge is in the way, or the edge it is held by is
   reached again from its own logical unit.
   */
  predicate KeepsPixel(a: Axis, logical: int)
    requires a.scale > 0
  {
    var wanted := a.Wanted(logical);
    || a.scale <= 1000
    || a.Low() <= wanted <= a.High()
    || (wanted > a.High() && a.Wanted(a.Logical(a.High())) >= a.High())
    || (wanted < a.Low() && a.Wanted(a.Logical(a.Low())) <= a.Low())
  }

  lemma AxisStaysExactly(a: Axis, logical: int)
    requires a.scale > 0 && a.extent > 0
    ensures a.Physical(a.Logical(a.Physical(logical))) == a.Physical(logical) <==> KeepsPixel(a, logical)
  {
    AxisIsStable(a, logical);
    var wanted := a.Wanted(logical);
    if a.scale > 1000 && a.Low() <= wanted <= a.High() {
      BackToUnit(a.scale, logical);
      assert a.Logical(wanted) == logical;
    }
    EdgesApart(a);
  }

  lemma EdgesApart(a: Axis)
    requires a.extent > 0
    ensures a.Low() < a.High()
  {
  }

  // ---- Resolving ----

  function Find(displays: seq<Display>, id: string): Option<Display> {
    if displays == [] then None else if displays[0].id == id then Some(displays[0]) else Find(displays[1..], id)
  }

  function Primary(displays: seq<Display>): Option<Display> {
    if displays == [] then None else if displays[0].primary then Some(displays[0]) else Primary(displays[1..])
  }

  /** The display the window was on, else the primary one, else the first. */
  function Choose(displays: seq<Display>, id: string): Option<Display> {
    if Find(displays, id).Some? then Find(displays, id)
    else if Primary(displays).Some? then Primary(displays)
    else if displays != [] then Some(displays[0])
    else None
  }

  function AxisX(display: Display, width: nat, margin: nat): Axis {
    Axis(display.x, display.width, display.scale, width, margin)
  }

  function AxisY(display: Display, height: nat, margin: nat): Axis {
    Axis(display.y, display.height, display.scale, height, margin)
  }

  function Resolve(saved: Placement, displays: seq<Display>, width: nat, height: nat, margin: nat): Option<Resolved>
    requires forall display :: display in displays ==> display.Valid()
  {
    ChosenIsThere(displays, saved.display);
    match Choose(displays, saved.display)
    case None => None
    case Some(display) =>
      assert display.Valid();
      var x, y := AxisX(display, width, margin), AxisY(display, height, margin);
      var px, py := x.Physical(saved.x), y.Physical(saved.y);
      var placement := Placement(display.id, x.Logical(px), y.Logical(py), display.scale);
      if placement.Valid() then Some(Resolved(placement, px, py)) else None
  }

  lemma {:induction false} FoundIsThere(displays: seq<Display>, id: string)
    ensures Find(displays, id).Some? ==> Find(displays, id).value in displays && Find(displays, id).value.id == id
    ensures Primary(displays).Some? ==> Primary(displays).value in displays && Primary(displays).value.primary
  {
    if displays != [] {
      FoundIsThere(displays[1..], id);
    }
  }

  lemma ChosenIsThere(displays: seq<Display>, id: string)
    ensures Choose(displays, id).Some? ==> Choose(displays, id).value in displays
    ensures Choose(displays, id).None? <==> displays == []
  {
    FoundIsThere(displays, id);
  }

  predicate DistinctIds(displays: seq<Display>) {
    forall i, j :: 0 <= i < j < |displays| ==> displays[i].id != displays[j].id
  }

  lemma {:induction false} FindFinds(displays: seq<Display>, display: Display)
    requires DistinctIds(displays) && display in displays
    ensures Find(displays, display.id) == Some(display)
  {
    var i :| 0 <= i < |displays| && displays[i] == display;
    if i > 0 {
      assert displays[0].id != display.id;
      assert displays[1..][i - 1] == display;
      FindFinds(displays[1..], display);
    }
  }

  /**
   The display chosen is the one the window was on, if it is there; else a primary one, if there is one;
   else the first. There is none exactly if there are no displays.
   */
  lemma ChosenExactly(displays: seq<Display>, id: string)
    ensures Choose(displays, id).None? <==> displays == []
    ensures Choose(displays, id).Some? ==>
      var chosen := Choose(displays, id).value;
      && chosen in displays
      && ((exists display :: display in displays && display.id == id) ==> chosen.id == id)
      && ((forall display :: display in displays ==> display.id != id) ==>
            if exists display :: display in displays && display.primary then chosen.primary else chosen == displays[0])
  {
    ChosenIsThere(displays, id);
    FoundIsThere(displays, id);
    forall display | display in displays
      ensures display.id == id ==> Find(displays, id).Some?
      ensures display.primary ==> Primary(displays).Some? && Primary(displays).value.primary
    {
      ThereIsFound(displays, id, display);
    }
  }

  lemma {:induction false} ThereIsFound(displays: seq<Display>, id: string, display: Display)
    requires display in displays
    ensures display.id == id ==> Find(displays, id).Some?
    ensures display.primary ==> Primary(displays).Some? && Primary(displays).value.primary
  {
    assert displays == [displays[0]] + displays[1..];
    if display != displays[0] {
      ThereIsFound(displays[1..], id, display);
    }
  }

  // ---- Where a window is restored ----

  /** The pixel is within half a pixel of the logical position. */
  predicate IsAt(scale: nat, logical: int, pixel: int) {
    -1000 <= 2 * (1000 * pixel - logical * scale) <= 1000
  }

  /** The logical position is within half a unit of the pixel. */
  predicate IsNear(scale: nat, logical: int, pixel: int) {
    2 * (1000 * pixel - logical * scale) <= scale && 2 * (logical * scale - 1000 * pixel) <= scale
  }

  /** Along one axis: at the position asked for, or as far that way as the margin that has to show allows. */
  predicate IsPlaced(origin: int, extent: nat, scale: nat, window: nat, margin: nat, logical: int, at: int) {
    var shown := if margin < window / 2 then margin else window / 2;
    var low, high := shown - window, extent - shown;
    if logical * scale < 1000 * low then at == origin + low
    else if logical * scale > 1000 * high then at == origin + high
    else IsAt(scale, logical, at - origin)
  }

  lemma AxisPlaces(a: Axis, logical: int)
    requires a.scale > 0
    ensures IsPlaced(a.origin, a.extent, a.scale, a.window, a.margin, logical, a.Physical(logical))
  {
    BoundsAreOrdered(a);
    RoundIsNear(logical * a.scale, 1000);
  }

  lemma AxisReturns(a: Axis, physical: int)
    requires a.scale > 0
    ensures IsNear(a.scale, a.Logical(physical), physical - a.origin)
  {
    var logical := a.Logical(physical);
    RoundIsNear((physical - a.origin) * 1000, a.scale);
    assert 2 * a.scale * logical == 2 * (logical * a.scale);
  }

  /**
   A window is restored to its logical position on the chosen display, at that display's scale, within
   half a pixel, or as far that way as the margin allows; the placement returned is that of the pixel.
   */
  lemma RestoredWhereItWas(saved: Placement, displays: seq<Display>, width: nat, height: nat, margin: nat)
    requires forall display :: display in displays ==> display.Valid()
    requires Resolve(saved, displays, width, height, margin).Some?
    ensures Choose(displays, saved.display).Some?
    ensures var r := Resolve(saved, displays, width, height, margin).value;
            var display := Choose(displays, saved.display).value;
            && r.placement.display == display.id && r.placement.scale == display.scale
            && IsPlaced(display.x, display.width, display.scale, width, margin, saved.x, r.x)
            && IsPlaced(display.y, display.height, display.scale, height, margin, saved.y, r.y)
            && IsNear(display.scale, r.placement.x, r.x - display.x)
            && IsNear(display.scale, r.placement.y, r.y - display.y)
  {
    ChosenIsThere(displays, saved.display);
    var display := Choose(displays, saved.display).value;
    var x, y := AxisX(display, width, margin), AxisY(display, height, margin);
    AxisPlaces(x, saved.x);
    AxisPlaces(y, saved.y);
    AxisReturns(x, x.Physical(saved.x));
    AxisReturns(y, y.Physical(saved.y));
  }

  /** A restored window shows at least the margin on both axes of the chosen display, half its size allowing. */
  lemma RestoredIsVisible(saved: Placement, displays: seq<Display>, width: nat, height: nat, margin: nat)
    requires forall display :: display in displays ==> display.Valid()
    requires Resolve(saved, displays, width, height, margin).Some?
    ensures var r := Resolve(saved, displays, width, height, margin).value;
            var display := Choose(displays, saved.display).value;
            && r.placement.display == display.id
            && r.x + width - display.x >= Min(margin, width / 2)
            && display.x + display.width - r.x >= Min(margin, width / 2)
            && r.y + height - display.y >= Min(margin, height / 2)
            && display.y + display.height - r.y >= Min(margin, height / 2)
  {
    var display := Choose(displays, saved.display).value;
    AxisIsVisible(AxisX(display, width, margin), saved.x);
    AxisIsVisible(AxisY(display, height, margin), saved.y);
  }

  /**
   Resolving a resolved placement gives the same placement again, at every scale; at most one pixel
   to a logical unit, the window also stays on its pixel.
   */
  lemma ResolvingIsStable(saved: Placement, displays: seq<Display>, width: nat, height: nat, margin: nat)
    requires DistinctIds(displays) && forall display :: display in displays ==> display.Valid()
    requires Resolve(saved, displays, width, height, margin).Some?
    ensures var first := Resolve(saved, displays, width, height, margin).value;
            var again := Resolve(first.placement, displays, width, height, margin);
            && again.Some? && again.value.placement == first.placement
            && (first.placement.scale <= 1000 ==> again.value == first)
  {
    ChosenIsThere(displays, saved.display);
    var display := Choose(displays, saved.display).value;
    FindFinds(displays, display);
    AxisIsStable(AxisX(display, width, margin), saved.x);
    AxisIsStable(AxisY(display, height, margin), saved.y);
  }

  /** A window keeps its pixel exactly if it keeps it along both axes of the chosen display. */
  lemma ResolvingStaysExactly(saved: Placement, displays: seq<Display>, width: nat, height: nat, margin: nat)
    requires DistinctIds(displays) && forall display :: display in displays ==> display.Valid()
    requires Resolve(saved, displays, width, height, margin).Some?
    ensures Choose(displays, saved.display).Some? && Choose(displays, saved.display).value.Valid()
    ensures var display := Choose(displays, saved.display).value;
            var first := Resolve(saved, displays, width, height, margin);
            Resolve(first.value.placement, displays, width, height, margin) == first
            <==> (&& KeepsPixel(AxisX(display, width, margin), saved.x)
                  && KeepsPixel(AxisY(display, height, margin), saved.y))
  {
    ChosenIsThere(displays, saved.display);
    var display := Choose(displays, saved.display).value;
    FindFinds(displays, display);
    ResolvingIsStable(saved, displays, width, height, margin);
    AxisStaysExactly(AxisX(display, width, margin), saved.x);
    AxisStaysExactly(AxisY(display, height, margin), saved.y);
  }

  // The application lets no less of a window show.
  const VISIBLE_MARGIN: nat := 48

  const WIDE := Display("d", 0, 0, 4048, 1000, 3000, true)

  /** A window held by the right edge of a display with three pixels to a unit moves by one pixel. */
  lemma MayMoveToItsUnit()
    ensures WIDE.Valid()
    ensures Resolve(Placement("d", 2000, 0, 3000), [WIDE], 100, 100, VISIBLE_MARGIN)
            == Some(Resolved(Placement("d", 1333, 0, 3000), 4000, 0))
    ensures Resolve(Placement("d", 1333, 0, 3000), [WIDE], 100, 100, VISIBLE_MARGIN)
            == Some(Resolved(Placement("d", 1333, 0, 3000), 3999, 0))
  {
    var x, y := AxisX(WIDE, 100, VISIBLE_MARGIN), AxisY(WIDE, 100, VISIBLE_MARGIN);
    RoundIsUnique(2000 * 3000, 1000, 6000);
    RoundIsUnique(4000 * 1000, 3000, 1333);
    RoundIsUnique(1333 * 3000, 1000, 3999);
    RoundIsUnique(3999 * 1000, 3000, 1333);
    RoundIsUnique(0, 1000, 0);
    RoundIsUnique(0, 3000, 0);
    assert x.Physical(2000) == 4000 && x.Physical(1333) == 3999 && y.Physical(0) == 0;
    assert x.Logical(4000) == 1333 && x.Logical(3999) == 1333 && y.Logical(0) == 0;
    assert Find([WIDE], "d") == Some(WIDE);
  }

  // ---- Widths ----

  predicate FitsI32(v: int) {
    -0x8000_0000 <= v <= 0x7FFF_FFFF
  }

  /**
   With displays and windows of up to 2^29 pixels no physical value leaves the 32-bit range on the
   way, and with smaller ones no logical value does either.
   */
  lemma NothingOverflows(a: Axis, logical: int)
    requires -0x2000_0000 <= a.origin <= 0x2000_0000 && a.extent <= 0x2000_0000 && a.window <= 0x2000_0000
    requires -MAX_LOGICAL_COORDINATE <= logical <= MAX_LOGICAL_COORDINATE && a.scale <= MAX_SCALE
    ensures FitsI32(Round(logical * a.scale, 1000)) && FitsI32(a.origin + Round(logical * a.scale, 1000))
    ensures FitsI32(a.Physical(logical)) && FitsI32(a.Physical(logical) - a.origin)
    ensures a.extent < 0x2000_0000 && a.window < 0x2000_0000 && MIN_SCALE <= a.scale ==>
      FitsI32(a.Logical(a.Physical(logical)))
  {
    var product := logical * a.scale;
    ProductIsBounded(logical, a.scale);
    RoundIsNear(product, 1000);
    BoundsAreOrdered(a);
    if a.extent < 0x2000_0000 && a.window < 0x2000_0000 && MIN_SCALE <= a.scale {
      LogicalIsBounded(a.Physical(logical) - a.origin, a.scale);
    }
  }

  lemma LogicalIsBounded(offset: int, scale: nat)
    requires -0x2000_0000 < offset < 0x2000_0000 && scale >= MIN_SCALE
    ensures FitsI32(Round(offset * 1000, scale))
  {
    RoundIsNear(offset * 1000, scale);
    var r := Round(offset * 1000, scale);
    TimesMonotone(0x8000_0000, r, 2 * scale);
    TimesMonotone(r, -0x8000_0001, 2 * scale);
  }

  lemma ProductIsBounded(logical: int, scale: nat)
    requires -MAX_LOGICAL_COORDINATE <= logical <= MAX_LOGICAL_COORDINATE && scale <= MAX_SCALE
    ensures -8_000_000_000 <= logical * scale <= 8_000_000_000
  {
    if scale > 0 {
      TimesMonotone(logical, MAX_LOGICAL_COORDINATE, scale);
      TimesMonotone(-MAX_LOGICAL_COORDINATE, logical, scale);
    }
  }
}
