/** The rectangles of a layout: exact tiling, and how far each edit's effect on them reaches. */
module LayoutGeometry {
  import opened LayoutTree

  function One(b: bool): nat { if b then 1 else 0 }

  /** How many of the panes cover a cell. */
  function Covering(infos: seq<PaneInfo>, x: nat, y: nat): nat {
    if infos == [] then 0 else One(Contains(infos[0].rect, x, y)) + Covering(infos[1..], x, y)
  }

  ghost predicate Tiles(infos: seq<PaneInfo>, area: Rect) {
    forall x: nat, y: nat :: Covering(infos, x, y) == One(Contains(area, x, y))
  }

  lemma {:induction false} CoveringAppend(a: seq<PaneInfo>, b: seq<PaneInfo>, x: nat, y: nat)
    ensures Covering(a + b, x, y) == Covering(a, x, y) + Covering(b, x, y)
    decreases |a|
  {
    if a == [] {
      assert a + b == b;
    } else {
      CoveringAppend(a[1..], b, x, y);
      assert (a + b)[1..] == a[1..] + b;
    }
  }

  /** A ratio within [0, 1] never hands the first child more than there is. */
  lemma {:induction false} FirstExtentFits(len: nat, ratio: real)
    requires 0.0 <= ratio <= 1.0 && len <= U16_MAX
    ensures FirstExtent(len, ratio) <= len
  {
    ScaledDown(len, ratio);
    RoundedDown(Scaled(len, ratio), len);
    hide Scaled, RoundExtent;
  }

  lemma {:induction false} ScaledDown(len: nat, ratio: real)
    requires 0.0 <= ratio <= 1.0
    ensures Scaled(len, ratio) <= len as real
  {
    TimesFraction(len as real, ratio);
  }

  lemma {:induction false} TimesFraction(x: real, ratio: real)
    requires 0.0 <= ratio <= 1.0 && x >= 0.0
    ensures x * ratio <= x
  {
    assert x * (1.0 - ratio) >= 0.0;
    assert x * (1.0 - ratio) == x - x * ratio;
  }

  lemma {:induction false} RoundedDown(x: real, len: nat)
    requires x <= len as real && len <= U16_MAX
    ensures RoundExtent(x) <= len
  {
  }

  lemma {:induction false} SplitRectPartitions(area: Rect, direction: Direction, ratio: real, x: nat, y: nat)
    requires 0.0 <= ratio <= 1.0 && OnScreen(area)
    ensures var (a, b) := SplitRect(area, direction, ratio);
            && OnScreen(a) && OnScreen(b)
            && One(Contains(a, x, y)) + One(Contains(b, x, y)) == One(Contains(area, x, y))
  {
    FirstExtentFits(area.width, ratio);
    FirstExtentFits(area.height, ratio);
    hide FirstExtent;
  }

  lemma {:induction false} CellCovered(node: Node, area: Rect, focus: nat, x: nat, y: nat)
    requires RatiosWithin(node, 0.0, 1.0) && OnScreen(area)
    ensures Covering(Panes(node, area, focus), x, y) == One(Contains(area, x, y))
    decreases node
  {
    match node
    case Pane(id) => assert Panes(node, area, focus)[1..] == [];
    case Split(direction, ratio, first, second) =>
      var (a, b) := SplitRect(area, direction, ratio);
      SplitRectPartitions(area, direction, ratio, x, y);
      CellCovered(first, a, focus, x, y);
      CellCovered(second, b, focus, x, y);
      CoveringAppend(Panes(first, a, focus), Panes(second, b, focus), x, y);
  }

  /** Every cell of the area lies in exactly one pane, and no pane covers a cell outside it. */
  lemma {:induction false} PanesTile(node: Node, area: Rect, focus: nat)
    requires RatiosWithin(node, 0.0, 1.0) && OnScreen(area)
    ensures Tiles(Panes(node, area, focus), area)
  {
    forall x: nat, y: nat ensures Covering(Panes(node, area, focus), x, y) == One(Contains(area, x, y)) {
      CellCovered(node, area, focus, x, y);
    }
  }

  /** One rectangle per leaf, in tree order, flagged when it is the focused one. */
  lemma {:induction false} OneRectPerLeaf(node: Node, area: Rect, focus: nat)
    ensures var infos := Panes(node, area, focus);
            && |infos| == |Ids(node)|
            && forall i | 0 <= i < |infos| :: infos[i].id == Ids(node)[i] && infos[i].isFocused == (Ids(node)[i] == focus)
    decreases node
  {
    if node.Split? {
      var (a, b) := SplitRect(area, node.direction, node.ratio);
      OneRectPerLeaf(node.first, a, focus);
      OneRectPerLeaf(node.second, b, focus);
    }
  }

  // --- Using a tiling ---

  lemma {:induction false} CoveredBySome(infos: seq<PaneInfo>, x: nat, y: nat) returns (i: nat)
    requires Covering(infos, x, y) > 0
    ensures i < |infos| && Contains(infos[i].rect, x, y)
    decreases |infos|
  {
    if Contains(infos[0].rect, x, y) {
      i := 0;
    } else {
      var k := CoveredBySome(infos[1..], x, y);
      i := k + 1;
    }
  }

  lemma {:induction false} CountedWhenCovering(infos: seq<PaneInfo>, i: nat, x: nat, y: nat)
    requires i < |infos| && Contains(infos[i].rect, x, y)
    ensures Covering(infos, x, y) >= 1
    decreases |infos|
  {
    if i > 0 {
      CountedWhenCovering(infos[1..], i - 1, x, y);
    }
  }

  lemma {:induction false} NoOverlap(infos: seq<PaneInfo>, i: nat, j: nat, x: nat, y: nat)
    requires i < j < |infos| && Covering(infos, x, y) <= 1
    requires Contains(infos[i].rect, x, y)
    ensures !Contains(infos[j].rect, x, y)
    decreases |infos|
  {
    if Contains(infos[j].rect, x, y) {
      if i == 0 {
        CountedWhenCovering(infos[1..], j - 1, x, y);
      } else {
        NoOverlap(infos[1..], i - 1, j - 1, x, y);
      }
    }
  }

  // --- How far an edit reaches ---

  /** Splitting replaces the target's rectangle by the two halves of it and moves nothing else. */
  lemma {:induction false} SplitIsLocal(
    node: Node, area: Rect, focus: nat, target: nat, direction: Direction, newId: nat, ratio: real) returns (i: nat)
    requires Distinct(Ids(node)) && target in Ids(node)
    ensures var before := Panes(node, area, focus);
            var after := Panes(SplitAt(node, target, direction, newId, ratio), area, focus);
            && i < |before| && before[i].id == target
            && var (a, b) := SplitRect(before[i].rect, direction, ratio);
            after == before[..i] + [PaneInfo(target, a, target == focus), PaneInfo(newId, b, newId == focus)] + before[i + 1..]
    decreases node
  {
    hide SplitRect;
    match node
    case Pane(id) =>
      i := 0;
    case Split(d, r, first, second) =>
      var (a, b) := SplitRect(area, d, r);
      DistinctParts(Ids(first), Ids(second));
      var fs, ss := Panes(first, a, focus), Panes(second, b, focus);
      if target in Ids(first) {
        i := SplitIsLocal(first, a, focus, target, direction, newId, ratio);
        SplitAtAbsent(second, target, direction, newId, ratio);
        hide Panes, Ids, Distinct;
        var (x, y) := SplitRect(fs[i].rect, direction, ratio);
        SpliceLeft(fs, ss, i, [PaneInfo(target, x, target == focus), PaneInfo(newId, y, newId == focus)]);
      } else {
        var k := SplitIsLocal(second, b, focus, target, direction, newId, ratio);
        SplitAtAbsent(first, target, direction, newId, ratio);
        i := |fs| + k;
        hide Panes, Ids, Distinct;
        var (x, y) := SplitRect(ss[k].rect, direction, ratio);
        SpliceRight(fs, ss, k, [PaneInfo(target, x, target == focus), PaneInfo(newId, y, newId == focus)]);
      }
  }

  lemma {:induction false} SpliceLeft(a: seq<PaneInfo>, b: seq<PaneInfo>, i: nat, mid: seq<PaneInfo>)
    requires i < |a|
    ensures (a[..i] + mid + a[i + 1..]) + b == (a + b)[..i] + mid + (a + b)[i + 1..]
  {
    assert (a + b)[..i] == a[..i];
    assert (a + b)[i + 1..] == a[i + 1..] + b;
  }

  lemma {:induction false} SpliceRight(a: seq<PaneInfo>, b: seq<PaneInfo>, k: nat, mid: seq<PaneInfo>)
    requires k < |b|
    ensures a + (b[..k] + mid + b[k + 1..]) == (a + b)[..|a| + k] + mid + (a + b)[|a| + k + 1..]
  {
    assert (a + b)[..|a| + k] == a + b[..k];
    assert (a + b)[|a| + k + 1..] == b[k + 1..];
  }

  lemma {:induction false} WidenLeft(rest: seq<PaneInfo>, pre: seq<PaneInfo>, mid: seq<PaneInfo>, post: seq<PaneInfo>)
    ensures rest + (pre + mid + post) == (rest + pre) + mid + post
  {
  }

  lemma {:induction false} WidenRight(pre: seq<PaneInfo>, mid: seq<PaneInfo>, post: seq<PaneInfo>, rest: seq<PaneInfo>)
    ensures (pre + mid + post) + rest == pre + mid + (post + rest)
  {
  }

  /** A pane and the subtree beside it, as the two children of a split. */
  predicate Beside(parent: Node, target: nat, sibling: Node) {
    parent.Split? && ((parent.first == Pane(target) && parent.second == sibling)
                      || (parent.second == Pane(target) && parent.first == sibling))
  }

  /**
   Closing lays the sibling subtree out over the whole area of the parent split, and every pane
   outside that split keeps its rectangle.
   */
  lemma {:induction false} CloseIsLocal(node: Node, area: Rect, focus: nat, target: nat)
    returns (pre: seq<PaneInfo>, post: seq<PaneInfo>, parent: Node, sibling: Node, shared: Rect)
    requires Distinct(Ids(node)) && target in Ids(node) && CountPanes(node) > 1
    ensures Beside(parent, target, sibling)
    ensures Panes(node, area, focus) == pre + Panes(parent, shared, focus) + post
    ensures RemovePane(node, target).Some?
    ensures Panes(RemovePane(node, target).value, area, focus) == pre + Panes(sibling, shared, focus) + post
    decreases node
  {
    hide SplitRect;
    var Split(d, r, first, second) := node;
    var (a, b) := SplitRect(area, d, r);
    DistinctParts(Ids(first), Ids(second));
    if first == Pane(target) {
      RemoveAbsent(second, target);
      pre, post, parent, sibling, shared := [], [], node, second, area;
    } else if second == Pane(target) {
      RemoveAbsent(first, target);
      pre, post, parent, sibling, shared := [], [], node, first, area;
    } else if target in Ids(first) {
      RemoveAbsent(second, target);
      SomewhereBelow(first, target);
      pre, post, parent, sibling, shared := CloseIsLocal(first, a, focus, target);
      var rest, over, under := Panes(second, b, focus), Panes(parent, shared, focus), Panes(sibling, shared, focus);
      assert Panes(node, area, focus) == (pre + over + post) + rest;
      assert Panes(RemovePane(node, target).value, area, focus) == (pre + under + post) + rest;
      hide Panes, RemovePane, Ids, Distinct;
      WidenRight(pre, over, post, rest);
      WidenRight(pre, under, post, rest);
      post := post + rest;
    } else {
      RemoveAbsent(first, target);
      SomewhereBelow(second, target);
      pre, post, parent, sibling, shared := CloseIsLocal(second, b, focus, target);
      var rest, over, under := Panes(first, a, focus), Panes(parent, shared, focus), Panes(sibling, shared, focus);
      assert Panes(node, area, focus) == rest + (pre + over + post);
      assert Panes(RemovePane(node, target).value, area, focus) == rest + (pre + under + post);
      hide Panes, RemovePane, Ids, Distinct;
      WidenLeft(rest, pre, over, post);
      WidenLeft(rest, pre, under, post);
      pre := rest + pre;
    }
  }

  lemma {:induction false} SomewhereBelow(node: Node, target: nat)
    requires target in Ids(node) && node != Pane(target)
    ensures node.Split? && CountPanes(node) > 1
  {
  }

  /** Swapping exchanges two ids over rectangles that stay where they are. */
  lemma {:induction false} SwapMovesOnlyIds(node: Node, area: Rect, focus: nat, first: nat, second: nat)
    ensures var before := Panes(node, area, focus);
            var after := Panes(SwapIds(node, first, second), area, focus);
            |after| == |before|
            && forall i | 0 <= i < |before| ::
                 after[i].rect == before[i].rect && after[i].id == Transpose(before[i].id, first, second)
    decreases node
  {
    if node.Split? {
      var (a, b) := SplitRect(area, node.direction, node.ratio);
      SwapMovesOnlyIds(node.first, a, focus, first, second);
      SwapMovesOnlyIds(node.second, b, focus, first, second);
      hide SplitRect;
    }
  }

  function Subtree(node: Node, path: seq<bool>): Node
    decreases node
  {
    if path == [] || node.Pane? then node
    else if path[0] then Subtree(node.second, path[1..])
    else Subtree(node.first, path[1..])
  }

  /** Changing the ratio of one split moves only the panes below that split. */
  lemma {:induction false} ResizeIsLocal(node: Node, area: Rect, focus: nat, path: seq<bool>, ratio: real)
    returns (pre: seq<PaneInfo>, post: seq<PaneInfo>, shared: Rect)
    requires GetRatioAt(node, path).Some?
    ensures Panes(node, area, focus) == pre + Panes(Subtree(node, path), shared, focus) + post
    ensures var after := SetRatioAt(node, path, ratio).0;
            Panes(after, area, focus) == pre + Panes(Subtree(after, path), shared, focus) + post
    decreases node
  {
    hide SplitRect;
    if path == [] {
      pre, post, shared := [], [], area;
    } else {
      var (a, b) := SplitRect(area, node.direction, node.ratio);
      var child := if path[0] then node.second else node.first;
      pre, post, shared := ResizeIsLocal(child, if path[0] then b else a, focus, path[1..], ratio);
      var was, now := Subtree(node, path), Subtree(SetRatioAt(node, path, ratio).0, path);
      var over, under := Panes(was, shared, focus), Panes(now, shared, focus);
      var rest := if path[0] then Panes(node.first, a, focus) else Panes(node.second, b, focus);
      if path[0] {
        assert Panes(node, area, focus) == rest + (pre + over + post);
        assert Panes(SetRatioAt(node, path, ratio).0, area, focus) == rest + (pre + under + post);
        hide Panes, SetRatioAt, Subtree;
        WidenLeft(rest, pre, over, post);
        WidenLeft(rest, pre, under, post);
        pre := rest + pre;
      } else {
        assert Panes(node, area, focus) == (pre + over + post) + rest;
        assert Panes(SetRatioAt(node, path, ratio).0, area, focus) == (pre + under + post) + rest;
        hide Panes, SetRatioAt, Subtree;
        WidenRight(pre, over, post, rest);
        WidenRight(pre, under, post, rest);
        post := post + rest;
      }
    }
  }
}
