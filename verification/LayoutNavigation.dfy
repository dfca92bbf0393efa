/** Moving focus by direction: which pane is found, and that one is found exactly when there is a neighbour. */
module LayoutNavigation {
  import opened Common
  import opened LayoutTree
  import opened LayoutGeometry

  datatype NavDirection = Left | Right | Up | Down

  predicate RangesOverlap(aStart: nat, aLen: nat, bStart: nat, bLen: nat) {
    aStart < bStart + bLen && aStart + aLen > bStart
  }

  function Sat16(n: nat): nat {
    if n > U16_MAX then U16_MAX else n
  }

  function Min(a: nat, b: nat): nat { if a < b then a else b }

  function Max(a: nat, b: nat): nat { if a < b then b else a }

  function RangeOverlapAmount(aStart: nat, aLen: nat, bStart: nat, bLen: nat): nat {
    Minus(Min(Sat16(aStart + aLen), Sat16(bStart + bLen)), Max(aStart, bStart))
  }

  function RangeCenterDistance(aStart: nat, aLen: nat, bStart: nat, bLen: nat): nat {
    var a, b := Sat16(Sat16(aStart * 2) + aLen), Sat16(Sat16(bStart * 2) + bLen);
    if a < b then b - a else a - b
  }

  /** `r` lies beyond the focused pane's edge in this direction and faces it. */
  predicate Beyond(nav: NavDirection, f: Rect, r: Rect) {
    match nav
    case Left => r.x + r.width <= f.x && RangesOverlap(r.y, r.height, f.y, f.height)
    case Right => r.x >= f.x + f.width && RangesOverlap(r.y, r.height, f.y, f.height)
    case Up => r.y + r.height <= f.y && RangesOverlap(r.x, r.width, f.x, f.width)
    case Down => r.y >= f.y + f.height && RangesOverlap(r.x, r.width, f.x, f.width)
  }

  function EdgeDistance(nav: NavDirection, f: Rect, r: Rect): nat {
    match nav
    case Left => Minus(f.x, r.x + r.width)
    case Right => Minus(r.x, f.x + f.width)
    case Up => Minus(f.y, r.y + r.height)
    case Down => Minus(r.y, f.y + f.height)
  }

  /** The sort key: nearer edge first, then more overlap, then nearer centre, then tree order. */
  datatype Key = Key(edge: nat, overlap: nat, center: nat, index: nat)

  function KeyOf(nav: NavDirection, f: Rect, r: Rect, index: nat): Key {
    if nav.Left? || nav.Right? then
      Key(EdgeDistance(nav, f, r), RangeOverlapAmount(r.y, r.height, f.y, f.height),
          RangeCenterDistance(r.y, r.height, f.y, f.height), index)
    else
      Key(EdgeDistance(nav, f, r), RangeOverlapAmount(r.x, r.width, f.x, f.width),
          RangeCenterDistance(r.x, r.width, f.x, f.width), index)
  }

  predicate KeyLess(a: Key, b: Key) {
    a.edge < b.edge || (a.edge == b.edge &&
      (a.overlap > b.overlap || (a.overlap == b.overlap &&
        (a.center < b.center || (a.center == b.center && a.index < b.index)))))
  }

  predicate Candidate(focused: PaneInfo, nav: NavDirection, p: PaneInfo) {
    p.id != focused.id && Beyond(nav, focused.rect, p.rect)
  }

  /** The candidate with the least key among the first `n` panes. */
  function Best(focused: PaneInfo, nav: NavDirection, panes: seq<PaneInfo>, n: nat): (r: Option<nat>)
    requires n <= |panes|
    ensures r.Some? ==> r.value < n && Candidate(focused, nav, panes[r.value])
    ensures r.None? ==> forall i | 0 <= i < n :: !Candidate(focused, nav, panes[i])
    ensures r.Some? ==> forall i | 0 <= i < n && Candidate(focused, nav, panes[i]) && i != r.value ::
      KeyLess(KeyOf(nav, focused.rect, panes[r.value].rect, r.value), KeyOf(nav, focused.rect, panes[i].rect, i))
  {
    if n == 0 then None
    else
      var before := Best(focused, nav, panes, n - 1);
      var last := n - 1;
      if !Candidate(focused, nav, panes[last]) then before
      else if before.None? then Some(last)
      else if KeyLess(KeyOf(nav, focused.rect, panes[last].rect, last),
                      KeyOf(nav, focused.rect, panes[before.value].rect, before.value))
      then Some(last)
      else before
  }

  /** `find_in_direction`. */
  function FindInDirection(focused: PaneInfo, nav: NavDirection, panes: seq<PaneInfo>): Option<nat> {
    var best := Best(focused, nav, panes, |panes|);
    if best.None? then None else Some(panes[best.value].id)
  }

  // --- Completeness in a tiling ---

  predicate TouchesEdge(nav: NavDirection, r: Rect, area: Rect) {
    match nav
    case Left => r.x == area.x
    case Right => r.x + r.width == area.x + area.width
    case Up => r.y == area.y
    case Down => r.y + r.height == area.y + area.height
  }

  /** The two rectangles share the edge in this direction along a stretch of positive length. */
  predicate SharesEdge(nav: NavDirection, f: Rect, r: Rect) {
    match nav
    case Left => r.x + r.width == f.x && RangesOverlap(r.y, r.height, f.y, f.height)
    case Right => r.x == f.x + f.width && RangesOverlap(r.y, r.height, f.y, f.height)
    case Up => r.y + r.height == f.y && RangesOverlap(r.x, r.width, f.x, f.width)
    case Down => r.y == f.y + f.height && RangesOverlap(r.x, r.width, f.x, f.width)
  }

  ghost predicate ProperTiling(panes: seq<PaneInfo>, area: Rect) {
    && Tiles(panes, area)
    && (forall i | 0 <= i < |panes| :: panes[i].rect.width > 0 && panes[i].rect.height > 0)
    && (forall i, j | 0 <= i < j < |panes| :: panes[i].id != panes[j].id)
  }

  lemma {:induction false} InsideArea(panes: seq<PaneInfo>, area: Rect, i: nat)
    requires ProperTiling(panes, area) && i < |panes|
    ensures var r := panes[i].rect;
            && area.x <= r.x && r.x + r.width <= area.x + area.width
            && area.y <= r.y && r.y + r.height <= area.y + area.height
  {
    var r := panes[i].rect;
    CountedWhenCovering(panes, i, r.x, r.y);
    CountedWhenCovering(panes, i, r.x + r.width - 1, r.y + r.height - 1);
    assert Covering(panes, r.x, r.y) == One(Contains(area, r.x, r.y));
    assert Covering(panes, r.x + r.width - 1, r.y + r.height - 1) == One(Contains(area, r.x + r.width - 1, r.y + r.height - 1));
  }

  lemma {:induction false} Disjoint(panes: seq<PaneInfo>, area: Rect, i: nat, j: nat, x: nat, y: nat)
    requires Tiles(panes, area) && i < |panes| && j < |panes| && i != j
    requires Contains(panes[i].rect, x, y)
    ensures !Contains(panes[j].rect, x, y)
  {
    assert Covering(panes, x, y) == One(Contains(area, x, y));
    if i < j {
      NoOverlap(panes, i, j, x, y);
    } else if Contains(panes[j].rect, x, y) {
      NoOverlap(panes, j, i, x, y);
    }
  }

  /** The cell just outside the focused pane's edge, next to its top or left corner. */
  function OutsideX(nav: NavDirection, f: Rect): int {
    match nav
    case Left => f.x - 1
    case Right => f.x + f.width
    case _ => f.x
  }

  function OutsideY(nav: NavDirection, f: Rect): int {
    match nav
    case Up => f.y - 1
    case Down => f.y + f.height
    case _ => f.y
  }

  /** The corner cell of the focused pane next to that cell. */
  function InsideX(nav: NavDirection, f: Rect): nat
    requires f.width > 0
  {
    if nav.Right? then f.x + f.width - 1 else f.x
  }

  function InsideY(nav: NavDirection, f: Rect): nat
    requires f.height > 0
  {
    if nav.Down? then f.y + f.height - 1 else f.y
  }

  /** Away from the area's edge, the pane across the focused pane's edge shares that edge. */
  lemma {:induction false} NeighbourAcross(panes: seq<PaneInfo>, area: Rect, f: nat, nav: NavDirection) returns (q: nat)
    requires ProperTiling(panes, area) && f < |panes|
    requires !TouchesEdge(nav, panes[f].rect, area)
    ensures q < |panes| && Candidate(panes[f], nav, panes[q]) && SharesEdge(nav, panes[f].rect, panes[q].rect)
  {
    var fr := panes[f].rect;
    InsideArea(panes, area, f);
    var x, y := OutsideX(nav, fr), OutsideY(nav, fr);
    assert Contains(area, x, y);
    assert Covering(panes, x, y) == One(Contains(area, x, y));
    q := CoveredBySome(panes, x, y);
    assert q != f;
    var ix, iy := InsideX(nav, fr), InsideY(nav, fr);
    assert Contains(fr, ix, iy);
    Disjoint(panes, area, f, q, ix, iy);
    assert panes[q].id != panes[f].id by {
      if q < f { assert panes[q].id != panes[f].id; } else { assert panes[f].id != panes[q].id; }
    }
  }

  /**
   A pane is found exactly when the focused pane does not touch that side of the area; the pane
   found shares the edge and faces the focused pane, and no other candidate has a smaller key.
   */
  lemma {:induction false} NavigationComplete(panes: seq<PaneInfo>, area: Rect, f: nat, nav: NavDirection)
    requires ProperTiling(panes, area) && f < |panes|
    ensures FindInDirection(panes[f], nav, panes).Some? <==> !TouchesEdge(nav, panes[f].rect, area)
    ensures FindInDirection(panes[f], nav, panes).Some? ==>
              exists i :: 0 <= i < |panes| && panes[i].id == FindInDirection(panes[f], nav, panes).value
                && i != f && SharesEdge(nav, panes[f].rect, panes[i].rect)
                && EdgeDistance(nav, panes[f].rect, panes[i].rect) == 0
  {
    var best := Best(panes[f], nav, panes, |panes|);
    if best.Some? {
      InsideArea(panes, area, best.value);
      InsideArea(panes, area, f);
      assert !TouchesEdge(nav, panes[f].rect, area);
    }
    if !TouchesEdge(nav, panes[f].rect, area) {
      var q := NeighbourAcross(panes, area, f, nav);
      assert Candidate(panes[f], nav, panes[q]);
      assert EdgeDistance(nav, panes[f].rect, panes[q].rect) == 0;
      assert EdgeDistance(nav, panes[f].rect, panes[best.value].rect) == 0;
      assert SharesEdge(nav, panes[f].rect, panes[best.value].rect);
    }
  }

  // --- What the ranking means ---

  /** How many coordinates of the first range are in the second. */
  function CommonCells(aStart: nat, aLen: nat, bStart: nat, bLen: nat): nat
    decreases aLen
  {
    if aLen == 0 then 0
    else CommonCells(aStart, aLen - 1, bStart, bLen) + One(bStart <= aStart + aLen - 1 < bStart + bLen)
  }

  /** The overlap counts the common coordinates. */
  lemma {:induction false} OverlapCountsCells(aStart: nat, aLen: nat, bStart: nat, bLen: nat)
    requires aStart + aLen <= U16_MAX && bStart + bLen <= U16_MAX
    ensures RangeOverlapAmount(aStart, aLen, bStart, bLen) == CommonCells(aStart, aLen, bStart, bLen)
    decreases aLen
  {
    if aLen > 0 {
      OverlapCountsCells(aStart, aLen - 1, bStart, bLen);
    }
  }

  /** The middle of a range. */
  function Middle(start: nat, len: nat): real {
    start as real + len as real / 2.0
  }

  /** The centre distance is twice the distance between the middles, where doubling stays within 16 bits. */
  lemma {:induction false} DistanceBetweenMiddles(aStart: nat, aLen: nat, bStart: nat, bLen: nat)
    requires 2 * aStart + aLen <= U16_MAX && 2 * bStart + bLen <= U16_MAX
    ensures var apart := Middle(aStart, aLen) - Middle(bStart, bLen);
            RangeCenterDistance(aStart, aLen, bStart, bLen) as real == 2.0 * (if apart < 0.0 then -apart else apart)
  {
  }

  /** Along how many cells a pane faces another across their common edge. */
  function Facing(nav: NavDirection, f: Rect, r: Rect): nat {
    if nav.Left? || nav.Right? then CommonCells(r.y, r.height, f.y, f.height)
    else CommonCells(r.x, r.width, f.x, f.width)
  }

  /** How far the middle of a pane is from the other's, along that edge. */
  function OffCentre(nav: NavDirection, f: Rect, r: Rect): real {
    var apart :=
      if nav.Left? || nav.Right? then Middle(r.y, r.height) - Middle(f.y, f.height)
      else Middle(r.x, r.width) - Middle(f.x, f.width);
    if apart < 0.0 then -apart else apart
  }

  /** Twice every coordinate fits in 16 bits. */
  predicate SmallScreen(area: Rect) {
    2 * (area.x + area.width) <= U16_MAX && 2 * (area.y + area.height) <= U16_MAX
  }

  lemma {:induction false} KeyMeans(nav: NavDirection, f: Rect, r: Rect, index: nat, area: Rect)
    requires OnScreen(area)
    requires area.x <= f.x && f.x + f.width <= area.x + area.width && area.y <= f.y && f.y + f.height <= area.y + area.height
    requires area.x <= r.x && r.x + r.width <= area.x + area.width && area.y <= r.y && r.y + r.height <= area.y + area.height
    ensures KeyOf(nav, f, r, index).overlap == Facing(nav, f, r)
    ensures SmallScreen(area) ==> KeyOf(nav, f, r, index).center as real == 2.0 * OffCentre(nav, f, r)
  {
    OverlapCountsCells(r.y, r.height, f.y, f.height);
    OverlapCountsCells(r.x, r.width, f.x, f.width);
    if SmallScreen(area) {
      DistanceBetweenMiddles(r.y, r.height, f.y, f.height);
      DistanceBetweenMiddles(r.x, r.width, f.x, f.width);
    }
    hide RangeOverlapAmount, RangeCenterDistance, CommonCells;
  }

  /**
   Among the panes sharing the edge the one found faces the focused pane along the most cells; of those that face it
   along as many, its middle is the nearest to the focused pane's; and of those as near, it comes first in the tree.
   */
  lemma {:induction false} LongestNeighbourWins(panes: seq<PaneInfo>, area: Rect, f: nat, nav: NavDirection, other: nat)
    returns (i: nat)
    requires ProperTiling(panes, area) && OnScreen(area) && f < |panes| && other < |panes|
    requires Candidate(panes[f], nav, panes[other]) && SharesEdge(nav, panes[f].rect, panes[other].rect)
    ensures i < |panes| && FindInDirection(panes[f], nav, panes) == Some(panes[i].id)
    ensures var fr, found, rival := panes[f].rect, panes[i].rect, panes[other].rect;
            && Facing(nav, fr, found) >= Facing(nav, fr, rival)
            && (SmallScreen(area) && Facing(nav, fr, found) == Facing(nav, fr, rival) ==>
                  && OffCentre(nav, fr, found) <= OffCentre(nav, fr, rival)
                  && (OffCentre(nav, fr, found) == OffCentre(nav, fr, rival) ==> i <= other))
  {
    i := Best(panes[f], nav, panes, |panes|).value;
    InsideArea(panes, area, f);
    InsideArea(panes, area, i);
    InsideArea(panes, area, other);
    KeyMeans(nav, panes[f].rect, panes[i].rect, i, area);
    KeyMeans(nav, panes[f].rect, panes[other].rect, other, area);
    assert EdgeDistance(nav, panes[f].rect, panes[other].rect) == 0;
    hide RangeOverlapAmount, RangeCenterDistance, Facing, OffCentre, ProperTiling;
  }
}
