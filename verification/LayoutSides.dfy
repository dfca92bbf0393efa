/**
 Where a split puts its panes, told without the function that cuts rectangles: side by side for a horizontal
 split and one above the other for a vertical one, in the nearest whole shares, with every border between them.
 */
module LayoutSides {
  import opened Common
  import opened LayoutTree
  import opened LayoutGeometry

  // --- Axes ---

  /** Where the rectangle begins along the axis of a split, and how long it is there. */
  function StartOn(d: Direction, r: Rect): nat {
    if d.Horizontal? then r.x else r.y
  }

  function LengthOn(d: Direction, r: Rect): nat {
    if d.Horizontal? then r.width else r.height
  }

  function EndOn(d: Direction, r: Rect): nat {
    StartOn(d, r) + LengthOn(d, r)
  }

  function Across(d: Direction): Direction {
    if d.Horizontal? then Vertical else Horizontal
  }

  /** a and b lie one after the other along the axis, fill the area there, and are as wide as it across. */
  predicate FillInOrder(d: Direction, area: Rect, a: Rect, b: Rect) {
    && StartOn(d, a) == StartOn(d, area) && EndOn(d, a) == StartOn(d, b) && EndOn(d, b) == EndOn(d, area)
    && StartOn(Across(d), a) == StartOn(Across(d), b) == StartOn(Across(d), area)
    && LengthOn(Across(d), a) == LengthOn(Across(d), b) == LengthOn(Across(d), area)
  }

  /** The whole number nearest to the share of the length, the larger one where two are equally near. */
  predicate NearestShare(share: nat, len: nat, ratio: real) {
    share as real - 0.5 <= len as real * ratio < share as real + 0.5
  }

  lemma {:induction false} FirstExtentIsNearest(len: nat, ratio: real)
    requires 0.0 <= ratio <= 1.0 && len <= U16_MAX
    ensures NearestShare(FirstExtent(len, ratio), len, ratio)
  {
    ScaledDown(len, ratio);
    ScaledUp(len as real, ratio);
    RoundIsNearest(Scaled(len, ratio));
    assert Scaled(len, ratio) == len as real * ratio;
    hide Scaled, RoundExtent;
  }

  lemma {:induction false} ScaledUp(x: real, ratio: real)
    requires x >= 0.0 && ratio >= 0.0
    ensures x * ratio >= 0.0
  {
  }

  lemma {:induction false} RoundIsNearest(x: real)
    requires 0.0 <= x <= U16_MAX as real
    ensures RoundExtent(x) as real - 0.5 <= x < RoundExtent(x) as real + 0.5
  {
  }

  /** The two halves of a split. */
  lemma {:induction false} HalvesFill(area: Rect, d: Direction, ratio: real)
    requires 0.0 <= ratio <= 1.0 && OnScreen(area)
    ensures var (a, b) := SplitRect(area, d, ratio);
            && FillInOrder(d, area, a, b) && NearestShare(LengthOn(d, a), LengthOn(d, area), ratio)
            && OnScreen(a) && OnScreen(b)
  {
    FirstExtentIsNearest(LengthOn(d, area), ratio);
    FirstExtentFits(LengthOn(d, area), ratio);
    hide FirstExtent;
  }

  // --- Every pane lies inside the area ---

  predicate Inside(r: Rect, area: Rect) {
    && area.x <= r.x && r.x + r.width <= area.x + area.width
    && area.y <= r.y && r.y + r.height <= area.y + area.height
  }

  lemma {:induction false} PanesInside(node: Node, area: Rect, focus: nat)
    requires RatiosWithin(node, 0.0, 1.0) && OnScreen(area)
    ensures forall p | p in Panes(node, area, focus) :: Inside(p.rect, area)
    decreases node
  {
    if node.Split? {
      var (a, b) := SplitRect(area, node.direction, node.ratio);
      HalvesFill(area, node.direction, node.ratio);
      hide SplitRect;
      PanesInside(node.first, a, focus);
      PanesInside(node.second, b, focus);
    }
  }

  // --- Splitting a pane ---

  /**
   Splitting a pane puts the new one after it along the axis of the split: the two fill the pane's rectangle in that
   order, the first has the nearest whole share of it, and nothing else moves.
   */
  lemma {:induction false} SplitPlacesHalves(
    node: Node, area: Rect, focus: nat, target: nat, d: Direction, newId: nat, ratio: real)
    returns (i: nat, a: Rect, b: Rect)
    requires Distinct(Ids(node)) && target in Ids(node) && RatiosWithin(node, 0.0, 1.0) && OnScreen(area)
    requires 0.0 <= ratio <= 1.0
    ensures var before := Panes(node, area, focus);
            && i < |before| && before[i].id == target
            && FillInOrder(d, before[i].rect, a, b)
            && NearestShare(LengthOn(d, a), LengthOn(d, before[i].rect), ratio)
            && Panes(SplitAt(node, target, d, newId, ratio), area, focus)
               == before[..i] + [PaneInfo(target, a, target == focus), PaneInfo(newId, b, newId == focus)] + before[i + 1..]
  {
    i := SplitIsLocal(node, area, focus, target, d, newId, ratio);
    var r := Panes(node, area, focus)[i].rect;
    PanesInside(node, area, focus);
    assert Panes(node, area, focus)[i] in Panes(node, area, focus);
    HalvesFill(r, d, ratio);
    a, b := SplitRect(r, d, ratio).0, SplitRect(r, d, ratio).1;
    hide SplitRect, Panes, SplitAt;
  }

  // --- Borders ---

  /** The panes of the two subtrees of a split, laid out in its area on the two sides of its border. */
  ghost predicate Separates(s: SplitBorder, sub: Node, firsts: seq<PaneInfo>, seconds: seq<PaneInfo>) {
    && sub.Split? && sub.direction == s.direction && sub.ratio == s.ratio
    && |firsts| == |Ids(sub.first)| && (forall i | 0 <= i < |firsts| :: firsts[i].id == Ids(sub.first)[i])
    && |seconds| == |Ids(sub.second)| && (forall i | 0 <= i < |seconds| :: seconds[i].id == Ids(sub.second)[i])
    && (forall p | p in firsts :: Inside(p.rect, s.area) && EndOn(s.direction, p.rect) <= s.pos)
    && (forall p | p in seconds :: Inside(p.rect, s.area) && s.pos <= StartOn(s.direction, p.rect))
    && StartOn(s.direction, s.area) <= s.pos <= EndOn(s.direction, s.area)
    && NearestShare(s.pos - StartOn(s.direction, s.area), LengthOn(s.direction, s.area), s.ratio)
  }

  /**
   Every border lies between the panes of the two subtrees of its split: those of the first end at or before it and
   those of the second begin at or after it, on the axis of the split, and it is where the split's ratio puts it.
   */
  lemma {:induction false} BorderSeparates(node: Node, area: Rect, focus: nat, prefix: seq<bool>, s: SplitBorder)
    returns (pre: seq<PaneInfo>, firsts: seq<PaneInfo>, seconds: seq<PaneInfo>, post: seq<PaneInfo>)
    requires RatiosWithin(node, 0.0, 1.0) && OnScreen(area) && s in Splits(node, area, prefix)
    ensures prefix <= s.path
    ensures Panes(node, area, focus) == pre + (firsts + seconds) + post
    ensures Separates(s, Subtree(node, s.path[|prefix|..]), firsts, seconds)
    decreases node
  {
    var Split(d, ratio, first, second) := node;
    var (a, b) := SplitRect(area, d, ratio);
    HalvesFill(area, d, ratio);
    BorderPathsAddressSplits(node, area, prefix, s);
    PanesOfSplit(node, area, focus);
    RatiosOfSplit(node);
    hide *;
    if s in Splits(first, a, prefix + [false]) {
      pre, firsts, seconds, post := BorderSeparates(first, a, focus, prefix + [false], s);
      SubtreeBelow(node, s.path, |prefix|, false);
      var rest := Panes(second, b, focus);
      WidenRight(pre, firsts + seconds, post, rest);
      post := post + rest;
    } else if s in Splits(second, b, prefix + [true]) {
      pre, firsts, seconds, post := BorderSeparates(second, b, focus, prefix + [true], s);
      SubtreeBelow(node, s.path, |prefix|, true);
      var rest := Panes(first, a, focus);
      WidenLeft(rest, pre, firsts + seconds, post);
      pre := rest + pre;
    } else {
      pre, firsts, seconds, post := [], Panes(first, a, focus), Panes(second, b, focus), [];
      assert [] + (firsts + seconds) + [] == firsts + seconds;
      OwnBorder(node, area, prefix, s);
      assert s.path[|prefix|..] == [];
      RootOf(node);
      OwnSeparates(node, area, focus, s);
    }
  }

  lemma {:induction false} PanesOfSplit(node: Node, area: Rect, focus: nat)
    requires node.Split?
    ensures var (a, b) := SplitRect(area, node.direction, node.ratio);
            Panes(node, area, focus) == Panes(node.first, a, focus) + Panes(node.second, b, focus)
  {
    hide SplitRect;
  }

  lemma {:induction false} RatiosOfSplit(node: Node)
    requires node.Split? && RatiosWithin(node, 0.0, 1.0)
    ensures RatiosWithin(node.first, 0.0, 1.0) && RatiosWithin(node.second, 0.0, 1.0) && 0.0 <= node.ratio <= 1.0
  {
  }

  lemma {:induction false} RootOf(node: Node)
    ensures Subtree(node, []) == node
  {
  }

  /** A split's own border separates its two halves. */
  lemma {:induction false} OwnSeparates(node: Node, area: Rect, focus: nat, s: SplitBorder)
    requires node.Split? && RatiosWithin(node, 0.0, 1.0) && OnScreen(area)
    requires s.direction == node.direction && s.ratio == node.ratio && s.area == area
    requires s.pos == EndOn(node.direction, SplitRect(area, node.direction, node.ratio).0)
    ensures var (a, b) := SplitRect(area, node.direction, node.ratio);
            Separates(s, node, Panes(node.first, a, focus), Panes(node.second, b, focus))
  {
    var (a, b) := SplitRect(area, node.direction, node.ratio);
    HalvesFill(area, node.direction, node.ratio);
    PanesInside(node.first, a, focus);
    PanesInside(node.second, b, focus);
    OneRectPerLeaf(node.first, a, focus);
    OneRectPerLeaf(node.second, b, focus);
    hide SplitRect, Panes, Ids;
  }

  lemma {:induction false} OwnBorder(node: Node, area: Rect, prefix: seq<bool>, s: SplitBorder)
    requires node.Split? && s in Splits(node, area, prefix)
    requires var (a, b) := SplitRect(area, node.direction, node.ratio);
             s !in Splits(node.first, a, prefix + [false]) && s !in Splits(node.second, b, prefix + [true])
    ensures s.path == prefix && s.direction == node.direction && s.ratio == node.ratio && s.area == area
    ensures s.pos == EndOn(node.direction, SplitRect(area, node.direction, node.ratio).0)
  {
  }

  lemma {:induction false} SubtreeBelow(node: Node, path: seq<bool>, n: nat, side: bool)
    requires node.Split? && n < |path| && path[n] == side
    ensures Subtree(node, path[n..]) == Subtree(if side then node.second else node.first, path[n + 1..])
  {
    assert path[n..][1..] == path[n + 1..];
  }
}
