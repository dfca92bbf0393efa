/**
 What a resize does to what is on screen: it takes the border at the pane's own edge on the requested side, and
 moves it that way.
 */
module LayoutResize {
  import opened Common
  import opened LayoutTree
  import opened LayoutGeometry
  import opened LayoutNavigation
  import opened LayoutState
  import opened LayoutSides

  // --- Ratios ---

  function Gap(a: real, b: real): real {
    if a < b then b - a else a - b
  }

  /** Of the ratios from one to nine tenths the one nearest to v. */
  ghost predicate NearestInRange(v: real, r: real) {
    0.1 <= r <= 0.9 && forall x | 0.1 <= x <= 0.9 :: Gap(r, v) <= Gap(x, v)
  }

  lemma {:induction false} ClampIsNearest(v: real)
    ensures NearestInRange(v, Clamp(v))
  {
  }

  /** The ratio a caller's number stands for: the nearest in range, and one half for a number that is none. */
  ghost predicate StandsFor(given: Ratio, r: real) {
    if given.Finite? then NearestInRange(given.value, r) else r == 0.5
  }

  /** `split_pane` and `insert_pane_near`, on screen. */
  lemma {:induction false} SplitPlacesPane(
    l: Layout, target: nat, d: Direction, given: Ratio, newId: nat, area: Rect)
    returns (i: nat, a: Rect, b: Rect, r: real)
    requires Valid(l) && target in Ids(l.root) && newId !in Ids(l.root) && OnScreen(area)
    ensures StandsFor(given, r)
    ensures var before := Panes(l.root, area, l.focus);
            && i < |before| && before[i].id == target
            && FillInOrder(d, before[i].rect, a, b)
            && NearestShare(LengthOn(d, a), LengthOn(d, before[i].rect), r)
            && Panes(SplitPane(l, target, d, given, newId).root, area, l.focus)
               == before[..i] + [PaneInfo(target, a, target == l.focus), PaneInfo(newId, b, newId == l.focus)] + before[i + 1..]
            && (target != newId ==> InsertNear(l, target, newId, d, given, false) == SplitPane(l, target, d, given, newId))
  {
    r := ValidSplitRatio(given);
    if given.Finite? {
      ClampIsNearest(given.value);
    }
    i, a, b := SplitPlacesHalves(l.root, area, l.focus, target, d, newId, r);
    hide Panes, FillInOrder, NearestShare, SplitAt;
  }

  // --- The borders of a tree and of a tree with one ratio changed ---

  /** The area a subtree is laid out in. */
  function AreaAt(node: Node, area: Rect, path: seq<bool>): Rect
    decreases node
  {
    if path == [] || node.Pane? then area
    else
      var (a, b) := SplitRect(area, node.direction, node.ratio);
      if path[0] then AreaAt(node.second, b, path[1..]) else AreaAt(node.first, a, path[1..])
  }

  /** There is a border for every split, and it is at the split's area. */
  lemma {:induction false} EverySplitHasABorder(node: Node, area: Rect, prefix: seq<bool>, path: seq<bool>)
    returns (s: SplitBorder)
    requires GetRatioAt(node, path).Some?
    ensures s in Splits(node, area, prefix) && s.path == prefix + path && Some(s.ratio) == GetRatioAt(node, path)
    ensures s.area == AreaAt(node, area, path)
    decreases node
  {
    var (a, b) := SplitRect(area, node.direction, node.ratio);
    if path == [] {
      s := Splits(node, area, prefix)[0];
      assert prefix + [] == prefix;
    } else if path[0] {
      s := EverySplitHasABorder(node.second, b, prefix + [true], path[1..]);
      assert prefix + [true] + path[1..] == prefix + path;
    } else {
      s := EverySplitHasABorder(node.first, a, prefix + [false], path[1..]);
      assert prefix + [false] + path[1..] == prefix + path;
    }
    hide SplitRect;
  }

  lemma {:induction false} BorderArea(node: Node, area: Rect, prefix: seq<bool>, s: SplitBorder)
    requires s in Splits(node, area, prefix)
    ensures prefix <= s.path && s.area == AreaAt(node, area, s.path[|prefix|..])
    decreases node
  {
    var (a, b) := SplitRect(area, node.direction, node.ratio);
    BorderPathsAddressSplits(node, area, prefix, s);
    if s in Splits(node.first, a, prefix + [false]) {
      BorderArea(node.first, a, prefix + [false], s);
      assert s.path[|prefix|..][1..] == s.path[|prefix + [false]|..];
    } else if s in Splits(node.second, b, prefix + [true]) {
      BorderArea(node.second, b, prefix + [true], s);
      assert s.path[|prefix|..][1..] == s.path[|prefix + [true]|..];
    }
    hide SplitRect;
  }

  /** A split's own ratio has no part in where its area is, nor in its direction. */
  lemma {:induction false} RatioKeepsArea(node: Node, area: Rect, path: seq<bool>, ratio: real)
    requires GetRatioAt(node, path).Some?
    ensures var after := SetRatioAt(node, path, ratio).0;
            && AreaAt(after, area, path) == AreaAt(node, area, path)
            && Subtree(after, path).Split? && Subtree(node, path).Split?
            && Subtree(after, path).direction == Subtree(node, path).direction
    decreases node
  {
    if path != [] {
      var (a, b) := SplitRect(area, node.direction, node.ratio);
      if path[0] {
        RatioKeepsArea(node.second, b, path[1..], ratio);
      } else {
        RatioKeepsArea(node.first, a, path[1..], ratio);
      }
      hide SplitRect;
    }
  }

  lemma {:induction false} MoreIsLater(len: nat, r: real, r': real, share: nat, share': nat)
    requires r <= r' && NearestShare(share, len, r) && NearestShare(share', len, r')
    ensures share <= share'
  {
    TimesMonotone(len as real, r, r');
  }

  lemma {:induction false} TimesMonotone(x: real, r: real, r': real)
    requires x >= 0.0 && r <= r'
    ensures x * r <= x * r'
  {
    assert x * (r' - r) >= 0.0;
  }

  /** The way a direction points along its axis. */
  predicate Forward(nav: NavDirection) {
    nav.Right? || nav.Down?
  }

  function AxisOf(nav: NavDirection): Direction {
    if nav.Left? || nav.Right? then Horizontal else Vertical
  }

  /**
   A resize moves its border in the requested direction, as far as the ratio's range lets it, and the ratio it sets is
   the old one plus or minus the amount, or the nearest in range.
   */
  lemma {:induction false} ResizeMovesBorder(l: Layout, id: nat, nav: NavDirection, delta: real, area: Rect)
    returns (was: SplitBorder, now: SplitBorder)
    requires Valid(l) && id in Ids(l.root) && OnScreen(area) && ResizeBorder(l.root, id, nav, area).Some?
    ensures was == ResizeBorder(l.root, id, nav, area).value && was in Splits(l.root, area, [])
    ensures now in Splits(ResizePane(l, id, nav, delta, area).0.root, area, [])
    ensures now.path == was.path && now.area == was.area && now.direction == was.direction
    ensures NearestInRange(if Forward(nav) then was.ratio + delta else was.ratio - delta, now.ratio)
    ensures 0.1 <= was.ratio <= 0.9 && delta >= 0.0 ==> if Forward(nav) then was.pos <= now.pos else now.pos <= was.pos
    ensures 0.1 <= was.ratio <= 0.9 && delta <= 0.0 ==> if Forward(nav) then now.pos <= was.pos else was.pos <= now.pos
  {
    hide *;
    was := ResizeBorder(l.root, id, nav, area).value;
    var path, ratio := was.path, Moved(was.ratio, nav, delta);
    var root := ResizePane(l, id, nav, delta, area).0.root;
    ValidRatios(l);
    ResizeSets(l, id, nav, delta, area);
    MovedIsNearest(was.ratio, nav, delta);
    SetRatioEffect(l.root, path, ratio);
    RatioKeepsArea(l.root, area, path, ratio);
    BorderArea(l.root, area, [], was);
    assert was.path[0..] == was.path;
    now := EverySplitHasABorder(root, area, [], path);
    assert [] + path == path;
    BorderPlaced(l.root, area, was);
    BorderPlaced(root, area, now);
    BordersCompare(was, now);
    ShiftedRatio(was.ratio, delta, now.ratio);
  }

  function Moved(ratio: real, nav: NavDirection, delta: real): real {
    Clamp(if nav.Right? || nav.Down? then ratio + delta else ratio - delta)
  }

  lemma {:induction false} MovedIsNearest(ratio: real, nav: NavDirection, delta: real)
    ensures NearestInRange(if Forward(nav) then ratio + delta else ratio - delta, Moved(ratio, nav, delta))
    ensures 0.0 <= Moved(ratio, nav, delta) <= 1.0
  {
    ClampIsNearest(if Forward(nav) then ratio + delta else ratio - delta);
    hide NearestInRange;
  }

  lemma {:induction false} ValidRatios(l: Layout)
    requires Valid(l)
    ensures RatiosWithin(l.root, 0.0, 1.0)
  {
    hide RatiosWithin, Distinct, Ids;
  }

  lemma {:induction false} ResizeSets(l: Layout, id: nat, nav: NavDirection, delta: real, area: Rect)
    requires id in Ids(l.root) && ResizeBorder(l.root, id, nav, area).Some?
    ensures var was := ResizeBorder(l.root, id, nav, area).value;
            && was in Splits(l.root, area, []) && GetRatioAt(l.root, was.path) == Some(was.ratio)
            && ResizePane(l, id, nav, delta, area).0.root == SetRatioAt(l.root, was.path, Moved(was.ratio, nav, delta)).0
  {
    var was := ResizeBorder(l.root, id, nav, area).value;
    BorderPathsAddressSplits(l.root, area, [], was);
    assert was.path[0..] == was.path;
    hide ResizeBorder, Clamp, Splits, SplitRatios;
  }

  /** Of two borders of one split the one with the larger ratio is not before the other. */
  lemma {:induction false} BordersCompare(was: SplitBorder, now: SplitBorder)
    requires was.area == now.area && was.direction == now.direction
    requires StartOn(was.direction, was.area) <= was.pos && StartOn(was.direction, was.area) <= now.pos
    requires NearestShare(was.pos - StartOn(was.direction, was.area), LengthOn(was.direction, was.area), was.ratio)
    requires NearestShare(now.pos - StartOn(was.direction, was.area), LengthOn(was.direction, was.area), now.ratio)
    ensures was.ratio <= now.ratio ==> was.pos <= now.pos
    ensures now.ratio <= was.ratio ==> now.pos <= was.pos
  {
    var len, start := LengthOn(was.direction, was.area), StartOn(was.direction, was.area);
    hide NearestShare;
    if was.ratio <= now.ratio {
      MoreIsLater(len, was.ratio, now.ratio, was.pos - start, now.pos - start);
    }
    if now.ratio <= was.ratio {
      MoreIsLater(len, now.ratio, was.ratio, now.pos - start, was.pos - start);
    }
  }

  lemma {:induction false} ShiftedRatio(r: real, delta: real, r': real)
    ensures NearestInRange(r + delta, r') && 0.1 <= r <= 0.9 ==>
              (delta >= 0.0 ==> r <= r') && (delta <= 0.0 ==> r' <= r)
    ensures NearestInRange(r - delta, r') && 0.1 <= r <= 0.9 ==>
              (delta >= 0.0 ==> r' <= r) && (delta <= 0.0 ==> r <= r')
  {
    if 0.1 <= r <= 0.9 {
      assert NearestInRange(r + delta, r') ==> Gap(r', r + delta) <= Gap(r, r + delta);
      assert NearestInRange(r - delta, r') ==> Gap(r', r - delta) <= Gap(r, r - delta);
    }
  }

  /** A border is in its area, where its ratio puts it, and has the direction of its split. */
  lemma {:induction false} BorderPlaced(node: Node, area: Rect, s: SplitBorder)
    requires RatiosWithin(node, 0.0, 1.0) && OnScreen(area) && s in Splits(node, area, [])
    ensures StartOn(s.direction, s.area) <= s.pos
    ensures NearestShare(s.pos - StartOn(s.direction, s.area), LengthOn(s.direction, s.area), s.ratio)
    ensures Subtree(node, s.path).Split? && Subtree(node, s.path).direction == s.direction
  {
    var pre, firsts, seconds, post := BorderSeparates(node, area, 0, [], s);
    assert s.path[0..] == s.path;
    hide Splits, Panes, NearestShare, Subtree;
  }

  // --- Which border is taken ---

  /** The coordinate of a rectangle's edge on the given side. */
  function EdgeOf(nav: NavDirection, r: Rect): nat {
    if Forward(nav) then EndOn(AxisOf(nav), r) else StartOn(AxisOf(nav), r)
  }

  /** Along the axis across, the one lies within the other. */
  predicate WithinAcross(d: Direction, r: Rect, area: Rect) {
    StartOn(Across(d), area) <= StartOn(Across(d), r) && EndOn(Across(d), r) <= EndOn(Across(d), area)
  }

  /** Away from the side of the area a pane has a border exactly at its edge, along its whole length. */
  lemma {:induction false} EdgeHasBorder(node: Node, area: Rect, focus: nat, prefix: seq<bool>, i: nat, nav: NavDirection)
    returns (s: SplitBorder)
    requires RatiosWithin(node, 0.0, 1.0) && OnScreen(area) && i < CountPanes(node)
    requires EdgeOf(nav, Panes(node, area, focus)[i].rect) != EdgeOf(nav, area)
    ensures s in Splits(node, area, prefix) && s.direction == AxisOf(nav)
    ensures s.pos == EdgeOf(nav, Panes(node, area, focus)[i].rect)
    ensures WithinAcross(AxisOf(nav), Panes(node, area, focus)[i].rect, s.area)
    decreases node
  {
    var Split(d, ratio, first, second) := node;
    var (a, b) := SplitRect(area, d, ratio);
    var f := Panes(node, area, focus)[i].rect;
    HalvesFill(area, d, ratio);
    var own := SplitBorder(if d.Horizontal? then a.x + a.width else a.y + a.height, d, ratio, area, prefix);
    assert own in Splits(node, area, prefix);
    var n := CountPanes(first);
    PanesInside(node, area, focus);
    assert Panes(node, area, focus)[i] in Panes(node, area, focus);
    if i < n {
      assert Panes(first, a, focus)[i].rect == f;
      PanesInside(first, a, focus);
      assert Panes(first, a, focus)[i] in Panes(first, a, focus);
      hide SplitRect, Panes, NearestShare;
      if EdgeOf(nav, f) != EdgeOf(nav, a) {
        s := EdgeHasBorder(first, a, focus, prefix + [false], i, nav);
      } else {
        s := own;
      }
    } else {
      assert Panes(second, b, focus)[i - n].rect == f;
      PanesInside(second, b, focus);
      assert Panes(second, b, focus)[i - n] in Panes(second, b, focus);
      hide SplitRect, Panes, NearestShare;
      if EdgeOf(nav, f) != EdgeOf(nav, b) {
        s := EdgeHasBorder(second, b, focus, prefix + [true], i - n, nav);
      } else {
        s := own;
      }
    }
  }

  lemma {:induction false} FocusedIs(infos: seq<PaneInfo>, i: nat)
    requires i < |infos| && infos[i].isFocused && forall j | 0 <= j < |infos| && j != i :: !infos[j].isFocused
    ensures FocusedRect(infos) == Some(infos[i].rect)
    decreases |infos|
  {
    if i > 0 {
      FocusedIs(infos[1..], i - 1);
    }
  }

  /**
   A pane that is not at the requested side of the screen is resized at the border exactly at its own edge there,
   on the axis of the request.
   */
  lemma {:induction false} ResizeTakesTheEdge(l: Layout, id: nat, nav: NavDirection, area: Rect, i: nat)
    requires Valid(l) && OnScreen(area) && i < CountPanes(l.root) && Panes(l.root, area, id)[i].id == id
    requires LengthOn(Across(AxisOf(nav)), Panes(l.root, area, id)[i].rect) > 0
    requires EdgeOf(nav, Panes(l.root, area, id)[i].rect) != EdgeOf(nav, area)
    ensures var border := ResizeBorder(l.root, id, nav, area);
            && border.Some? && border.value.direction == AxisOf(nav)
            && border.value.pos == EdgeOf(nav, Panes(l.root, area, id)[i].rect)
  {
    var f := Panes(l.root, area, id)[i].rect;
    FocusedRectIs(l, id, area, i);
    var s := EdgeHasBorder(l.root, area, id, [], i, nav);
    hide Panes, Splits, FocusedRect, RatiosWithin;
    assert ResizeCandidate(s, AxisOf(nav), f, nav);
    assert SplitEdgeDistance(s, f, nav) == 0;
  }

  lemma {:induction false} FocusedRectIs(l: Layout, id: nat, area: Rect, i: nat)
    requires Valid(l) && i < CountPanes(l.root) && Panes(l.root, area, id)[i].id == id
    ensures FocusedRect(Panes(l.root, area, id)) == Some(Panes(l.root, area, id)[i].rect)
  {
    var infos := Panes(l.root, area, id);
    OneRectPerLeaf(l.root, area, id);
    forall j | 0 <= j < |infos| ensures infos[j].isFocused <==> j == i {
      if j < i { assert infos[j].id != infos[i].id; } else if i < j { assert infos[i].id != infos[j].id; }
    }
    FocusedIs(infos, i);
  }

  /** Some border of the axis is within a cell of the pane's edge on this side and runs along a part of it. */
  ghost predicate HasBorderAt(l: Layout, area: Rect, f: Rect, nav: NavDirection) {
    exists s :: s in Splits(l.root, area, []) && BordersAt(s, f, nav)
  }

  predicate BordersAt(s: SplitBorder, f: Rect, nav: NavDirection) {
    && s.direction == AxisOf(nav)
    && -1 <= s.pos - EdgeOf(nav, f) <= 1
    && StartOn(Across(AxisOf(nav)), s.area) < EndOn(Across(AxisOf(nav)), f)
    && StartOn(Across(AxisOf(nav)), f) < EndOn(Across(AxisOf(nav)), s.area)
  }

  function Back(nav: NavDirection): NavDirection {
    match nav
    case Left => Right
    case Right => Left
    case Up => Down
    case Down => Up
  }

  lemma {:induction false} CandidateIs(s: SplitBorder, f: Rect, nav: NavDirection)
    ensures ResizeCandidate(s, AxisOf(nav), f, nav) <==> BordersAt(s, f, nav)
    ensures AxisOf(nav) == AxisOf(Back(nav)) && Opposite(nav) == Back(nav)
  {
  }

  /**
   A resize finds a border if and only if the pane has one at its edge on the requested side or on the other; it
   takes one on the other side exactly when there is none on the requested side.
   */
  lemma {:induction false} ResizeFindsIff(l: Layout, id: nat, nav: NavDirection, area: Rect, i: nat)
    requires Valid(l) && i < CountPanes(l.root) && Panes(l.root, area, id)[i].id == id
    ensures var border, f := ResizeBorder(l.root, id, nav, area), Panes(l.root, area, id)[i].rect;
            && (border.Some? <==> HasBorderAt(l, area, f, nav) || HasBorderAt(l, area, f, Back(nav)))
            && (border.Some? ==> BordersAt(border.value, f, if HasBorderAt(l, area, f, nav) then nav else Back(nav)))
  {
    FocusedRectIs(l, id, area, i);
    var f, splits := Panes(l.root, area, id)[i].rect, Splits(l.root, area, []);
    forall s ensures ResizeCandidate(s, AxisOf(nav), f, nav) <==> BordersAt(s, f, nav) {
      CandidateIs(s, f, nav);
    }
    forall s ensures ResizeCandidate(s, AxisOf(nav), f, Back(nav)) <==> BordersAt(s, f, Back(nav)) {
      CandidateIs(s, f, Back(nav));
      CandidateIs(s, f, nav);
    }
    CandidateIs(SplitBorder(0, Horizontal, 0.0, f, []), f, nav);
    hide Panes, Splits, FocusedRect, ResizeCandidate, BordersAt, Back, Opposite, Valid;
  }

  /** Of the candidates the first of the nearest is taken: every earlier one is strictly farther away. */
  lemma {:induction false} FirstOfTheNearest(splits: seq<SplitBorder>, direction: Direction, focused: Rect, nav: NavDirection)
    returns (i: nat)
    requires NearestResizeSplit(splits, direction, focused, nav).Some?
    ensures i < |splits| && NearestResizeSplit(splits, direction, focused, nav) == Some(splits[i])
    ensures forall j | 0 <= j < i && ResizeCandidate(splits[j], direction, focused, nav) ::
              SplitEdgeDistance(splits[j], focused, nav) > SplitEdgeDistance(splits[i], focused, nav)
    decreases |splits|
  {
    var nearest := NearestResizeSplit(splits, direction, focused, nav).value;
    var rest := NearestResizeSplit(splits[1..], direction, focused, nav);
    hide SplitEdgeDistance, ResizeCandidate;
    if ResizeCandidate(splits[0], direction, focused, nav)
      && !(rest.Some? && SplitEdgeDistance(rest.value, focused, nav) < SplitEdgeDistance(splits[0], focused, nav)) {
      i := 0;
    } else {
      var k := FirstOfTheNearest(splits[1..], direction, focused, nav);
      i := k + 1;
      forall j | 0 <= j < i && ResizeCandidate(splits[j], direction, focused, nav)
        ensures SplitEdgeDistance(splits[j], focused, nav) > SplitEdgeDistance(splits[i], focused, nav)
      {
        if j > 0 {
          assert splits[j] == splits[1..][j - 1];
        }
      }
    }
  }
}
