/** The BSP tree of panes: its rectangles, its edits, and what each edit does to the tree. */
module LayoutTree {
  import opened Common

  const U16_MAX: nat := 65535

  datatype Rect = Rect(x: nat, y: nat, width: nat, height: nat)

  datatype Direction = Horizontal | Vertical

  datatype Node =
    | Pane(id: nat)
    | Split(direction: Direction, ratio: real, first: Node, second: Node)

  datatype PaneInfo = PaneInfo(id: nat, rect: Rect, isFocused: bool)

  datatype SplitBorder = SplitBorder(pos: nat, direction: Direction, ratio: real, area: Rect, path: seq<bool>)

  /** A 32-bit float ratio as given by a caller: a number, or one of the non-finite values. */
  datatype Ratio = Finite(value: real) | NonFinite

  function Clamp(r: real): (c: real)
    ensures 0.1 <= c <= 0.9
  {
    if r < 0.1 then 0.1 else if r > 0.9 then 0.9 else r
  }

  function ValidSplitRatio(r: Ratio): (c: real)
    ensures 0.1 <= c <= 0.9
  {
    if r.Finite? then Clamp(r.value) else 0.5
  }

  // --- Rectangles ---

  /** `round() as u16`: to the nearest integer, halves up, saturating at the bounds of 16 bits. */
  function RoundExtent(exact: real): nat {
    var rounded := (exact + 0.5).Floor;
    if rounded < 0 then 0 else if rounded > U16_MAX then U16_MAX else rounded
  }

  function Scaled(len: nat, ratio: real): real {
    len as real * ratio
  }

  function FirstExtent(len: nat, ratio: real): nat {
    RoundExtent(Scaled(len, ratio))
  }

  function Minus(a: nat, b: nat): nat {
    if a < b then 0 else a - b
  }

  function SplitRect(area: Rect, direction: Direction, ratio: real): (Rect, Rect) {
    match direction
    case Horizontal =>
      var w := FirstExtent(area.width, ratio);
      (Rect(area.x, area.y, w, area.height), Rect(area.x + w, area.y, Minus(area.width, w), area.height))
    case Vertical =>
      var h := FirstExtent(area.height, ratio);
      (Rect(area.x, area.y, area.width, h), Rect(area.x, area.y + h, area.width, Minus(area.height, h)))
  }

  predicate Contains(r: Rect, x: nat, y: nat) {
    r.x <= x < r.x + r.width && r.y <= y < r.y + r.height
  }

  /** The screen fits in 16-bit coordinates. */
  predicate OnScreen(r: Rect) {
    r.x + r.width <= U16_MAX && r.y + r.height <= U16_MAX
  }

  // --- Reading the tree ---

  function CountPanes(node: Node): (n: nat)
    ensures n >= 1
  {
    match node
    case Pane(_) => 1
    case Split(_, _, first, second) => CountPanes(first) + CountPanes(second)
  }

  function Ids(node: Node): (ids: seq<nat>)
    ensures |ids| == CountPanes(node)
  {
    match node
    case Pane(id) => [id]
    case Split(_, _, first, second) => Ids(first) + Ids(second)
  }

  function Panes(node: Node, area: Rect, focus: nat): (infos: seq<PaneInfo>)
    ensures |infos| == CountPanes(node)
    decreases node
  {
    match node
    case Pane(id) => [PaneInfo(id, area, id == focus)]
    case Split(direction, ratio, first, second) =>
      var (a, b) := SplitRect(area, direction, ratio);
      Panes(first, a, focus) + Panes(second, b, focus)
  }

  function Splits(node: Node, area: Rect, path: seq<bool>): seq<SplitBorder>
    decreases node
  {
    match node
    case Pane(_) => []
    case Split(direction, ratio, first, second) =>
      var (a, b) := SplitRect(area, direction, ratio);
      var pos := if direction.Horizontal? then a.x + a.width else a.y + a.height;
      [SplitBorder(pos, direction, ratio, area, path)]
      + Splits(first, a, path + [false]) + Splits(second, b, path + [true])
  }

  predicate RatiosWithin(node: Node, lo: real, hi: real) {
    match node
    case Pane(_) => true
    case Split(_, ratio, first, second) =>
      lo <= ratio <= hi && RatiosWithin(first, lo, hi) && RatiosWithin(second, lo, hi)
  }

  ghost predicate Distinct(s: seq<nat>) {
    forall i, j | 0 <= i < j < |s| :: s[i] != s[j]
  }

  function GetRatioAt(node: Node, path: seq<bool>): Option<real>
    decreases node
  {
    match node
    case Pane(_) => None
    case Split(_, ratio, first, second) =>
      if path == [] then Some(ratio)
      else if path[0] then GetRatioAt(second, path[1..])
      else GetRatioAt(first, path[1..])
  }

  function SplitRatios(node: Node, path: seq<bool>): seq<(seq<bool>, real)>
    decreases node
  {
    match node
    case Pane(_) => []
    case Split(_, ratio, first, second) =>
      [(path, ratio)] + SplitRatios(first, path + [false]) + SplitRatios(second, path + [true])
  }

  // --- Editing the tree ---

  function SplitAt(node: Node, target: nat, direction: Direction, newId: nat, ratio: real): Node
    decreases node
  {
    match node
    case Pane(id) => if id == target then Split(direction, ratio, Pane(id), Pane(newId)) else node
    case Split(d, r, first, second) =>
      Split(d, r, SplitAt(first, target, direction, newId, ratio), SplitAt(second, target, direction, newId, ratio))
  }

  function RemovePane(node: Node, target: nat): Option<Node>
    decreases node
  {
    match node
    case Pane(id) => if id == target then None else Some(node)
    case Split(d, r, first, second) =>
      match (RemovePane(first, target), RemovePane(second, target))
      case (None, Some(s)) => Some(s)
      case (Some(f), None) => Some(f)
      case (Some(f), Some(s)) => Some(Split(d, r, f, s))
      case (None, None) => None
  }

  function Transpose(id: nat, a: nat, b: nat): nat {
    if id == a then b else if id == b then a else id
  }

  function SwapIds(node: Node, a: nat, b: nat): Node
    decreases node
  {
    match node
    case Pane(id) => Pane(Transpose(id, a, b))
    case Split(d, r, first, second) => Split(d, r, SwapIds(first, a, b), SwapIds(second, a, b))
  }

  function SetRatioAt(node: Node, path: seq<bool>, ratio: real): (Node, bool)
    decreases node
  {
    match node
    case Pane(_) => (node, false)
    case Split(d, r, first, second) =>
      if path == [] then (Split(d, ratio, first, second), true)
      else if path[0] then
        var (s, ok) := SetRatioAt(second, path[1..], ratio);
        (Split(d, r, first, s), ok)
      else
        var (f, ok) := SetRatioAt(first, path[1..], ratio);
        (Split(d, r, f, second), ok)
  }

  // --- What the edits do to the ids ---

  function Without(s: seq<nat>, x: nat): seq<nat> {
    if s == [] then [] else (if s[0] == x then [] else [s[0]]) + Without(s[1..], x)
  }

  lemma {:induction false} WithoutAppend(a: seq<nat>, b: seq<nat>, x: nat)
    ensures Without(a + b, x) == Without(a, x) + Without(b, x)
    decreases |a|
  {
    if a == [] {
      assert a + b == b;
    } else {
      WithoutAppend(a[1..], b, x);
      assert (a + b)[1..] == a[1..] + b;
    }
  }

  lemma {:induction false} WithoutAbsent(s: seq<nat>, x: nat)
    requires x !in s
    ensures Without(s, x) == s
    decreases |s|
  {
    if s != [] {
      WithoutAbsent(s[1..], x);
    }
  }

  /** Removing every occurrence at once, and collapsing the splits that lose a side. */
  lemma {:induction false} RemoveKeepsOrder(node: Node, target: nat)
    ensures match RemovePane(node, target)
            case None => Without(Ids(node), target) == []
            case Some(rest) => Ids(rest) == Without(Ids(node), target)
    decreases node
  {
    if node.Split? {
      RemoveKeepsOrder(node.first, target);
      RemoveKeepsOrder(node.second, target);
      WithoutAppend(Ids(node.first), Ids(node.second), target);
    }
  }

  lemma {:induction false} WithoutMembers(s: seq<nat>, x: nat)
    ensures forall y :: y in Without(s, x) <==> y in s && y != x
    ensures Distinct(s) ==> Distinct(Without(s, x))
    ensures Distinct(s) ==> |Without(s, x)| == |s| - (if x in s then 1 else 0)
    decreases |s|
  {
    if s != [] {
      WithoutMembers(s[1..], x);
      if Distinct(s) {
        assert s[0] !in s[1..];
        assert Distinct(s[1..]);
      }
      assert forall y :: y in s <==> y == s[0] || y in s[1..];
    }
  }

  function InsertAfter(s: seq<nat>, target: nat, newId: nat): seq<nat> {
    if s == [] then []
    else (if s[0] == target then [s[0], newId] else [s[0]]) + InsertAfter(s[1..], target, newId)
  }

  lemma {:induction false} InsertAfterAppend(a: seq<nat>, b: seq<nat>, target: nat, newId: nat)
    ensures InsertAfter(a + b, target, newId) == InsertAfter(a, target, newId) + InsertAfter(b, target, newId)
    decreases |a|
  {
    if a == [] {
      assert a + b == b;
    } else {
      InsertAfterAppend(a[1..], b, target, newId);
      assert (a + b)[1..] == a[1..] + b;
    }
  }

  /** Where the new pane appears: right after the target, everything else in place. */
  lemma {:induction false} SplitAtIds(node: Node, target: nat, direction: Direction, newId: nat, ratio: real)
    ensures Ids(SplitAt(node, target, direction, newId, ratio)) == InsertAfter(Ids(node), target, newId)
    decreases node
  {
    match node
    case Pane(id) => assert Ids(node)[1..] == [];
    case Split(d, r, first, second) =>
      SplitAtIds(first, target, direction, newId, ratio);
      SplitAtIds(second, target, direction, newId, ratio);
      InsertAfterAppend(Ids(first), Ids(second), target, newId);
  }

  lemma {:induction false} InsertAfterMembers(s: seq<nat>, target: nat, newId: nat)
    ensures forall y :: y in InsertAfter(s, target, newId) <==> y in s || (y == newId && target in s)
    ensures Distinct(s) && newId !in s ==> Distinct(InsertAfter(s, target, newId))
    decreases |s|
  {
    if s != [] {
      InsertAfterMembers(s[1..], target, newId);
      assert forall y :: y in s <==> y == s[0] || y in s[1..];
      if Distinct(s) && newId !in s {
        assert s[0] !in s[1..] && Distinct(s[1..]);
        assert Distinct(InsertAfter(s[1..], target, newId));
      }
    }
  }

  lemma {:induction false} DistinctParts(a: seq<nat>, b: seq<nat>)
    requires Distinct(a + b)
    ensures Distinct(a) && Distinct(b) && forall x | x in a :: x !in b
  {
    forall i, j | 0 <= i < j < |a| ensures a[i] != a[j] {
      assert (a + b)[i] == a[i] && (a + b)[j] == a[j];
    }
    forall i, j | 0 <= i < j < |b| ensures b[i] != b[j] {
      assert (a + b)[|a| + i] == b[i] && (a + b)[|a| + j] == b[j];
    }
    forall x | x in a ensures x !in b {
      var i :| 0 <= i < |a| && a[i] == x;
      forall j | 0 <= j < |b| ensures b[j] != x {
        assert (a + b)[i] == x && (a + b)[|a| + j] == b[j];
      }
    }
  }

  lemma {:induction false} SplitAtAbsent(node: Node, target: nat, direction: Direction, newId: nat, ratio: real)
    requires target !in Ids(node)
    ensures SplitAt(node, target, direction, newId, ratio) == node
    decreases node
  {
    if node.Split? {
      SplitAtAbsent(node.first, target, direction, newId, ratio);
      SplitAtAbsent(node.second, target, direction, newId, ratio);
    }
  }

  lemma {:induction false} RemoveAbsent(node: Node, target: nat)
    requires target !in Ids(node)
    ensures RemovePane(node, target) == Some(node)
    decreases node
  {
    if node.Split? {
      RemoveAbsent(node.first, target);
      RemoveAbsent(node.second, target);
    }
  }

  /** Removing the pane a split added gives the tree back exactly. */
  lemma {:induction false} RemoveUndoesSplit(node: Node, target: nat, direction: Direction, newId: nat, ratio: real)
    requires newId !in Ids(node)
    ensures RemovePane(SplitAt(node, target, direction, newId, ratio), newId) == Some(node)
    decreases node
  {
    if node.Split? {
      RemoveUndoesSplit(node.first, target, direction, newId, ratio);
      RemoveUndoesSplit(node.second, target, direction, newId, ratio);
    } else if node.id == target {
      RemoveAbsent(node, newId);
    }
  }

  lemma {:induction false} SplitAtRatios(node: Node, target: nat, direction: Direction, newId: nat, ratio: real)
    requires RatiosWithin(node, 0.0, 1.0) && 0.0 <= ratio <= 1.0
    ensures RatiosWithin(SplitAt(node, target, direction, newId, ratio), 0.0, 1.0)
    decreases node
  {
    if node.Split? {
      SplitAtRatios(node.first, target, direction, newId, ratio);
      SplitAtRatios(node.second, target, direction, newId, ratio);
    }
  }

  lemma {:induction false} RemoveRatios(node: Node, target: nat)
    requires RatiosWithin(node, 0.0, 1.0)
    ensures RemovePane(node, target).Some? ==> RatiosWithin(RemovePane(node, target).value, 0.0, 1.0)
    decreases node
  {
    if node.Split? {
      RemoveRatios(node.first, target);
      RemoveRatios(node.second, target);
    }
  }

  function SwapAll(ids: seq<nat>, a: nat, b: nat): (r: seq<nat>)
    ensures |r| == |ids| && forall i | 0 <= i < |ids| :: r[i] == Transpose(ids[i], a, b)
  {
    seq(|ids|, i requires 0 <= i < |ids| => Transpose(ids[i], a, b))
  }

  lemma {:induction false} SwapKeepsShape(node: Node, a: nat, b: nat)
    ensures Ids(SwapIds(node, a, b)) == SwapAll(Ids(node), a, b)
    ensures RatiosWithin(node, 0.0, 1.0) ==> RatiosWithin(SwapIds(node, a, b), 0.0, 1.0)
    ensures SwapIds(SwapIds(node, a, b), a, b) == node
    decreases node
  {
    if node.Split? {
      SwapKeepsShape(node.first, a, b);
      SwapKeepsShape(node.second, a, b);
    }
  }

  // --- Ratio edits touch one split ---

  /** Setting a ratio succeeds exactly where a split is, and changes that ratio and nothing else. */
  lemma {:induction false} SetRatioEffect(node: Node, path: seq<bool>, ratio: real)
    ensures var (after, ok) := SetRatioAt(node, path, ratio);
            && (ok <==> GetRatioAt(node, path).Some?)
            && (!ok ==> after == node)
            && (forall q :: GetRatioAt(after, q) == if ok && q == path then Some(ratio) else GetRatioAt(node, q))
            && Ids(after) == Ids(node)
            && (RatiosWithin(node, 0.0, 1.0) && 0.0 <= ratio <= 1.0 ==> RatiosWithin(after, 0.0, 1.0))
    decreases node
  {
    if node.Split? && path != [] {
      var child := if path[0] then node.second else node.first;
      SetRatioEffect(child, path[1..], ratio);
      var (after, ok) := SetRatioAt(node, path, ratio);
      forall q ensures GetRatioAt(after, q) == if ok && q == path then Some(ratio) else GetRatioAt(node, q) {
        if q != [] && q[0] == path[0] {
          assert q == [q[0]] + q[1..] && path == [path[0]] + path[1..];
        }
      }
    }
  }

  /** Every border's path leads to the split it came from. */
  lemma {:induction false} BorderPathsAddressSplits(node: Node, area: Rect, prefix: seq<bool>, s: SplitBorder)
    requires s in Splits(node, area, prefix)
    ensures prefix <= s.path && GetRatioAt(node, s.path[|prefix|..]) == Some(s.ratio)
    decreases node
  {
    var Split(direction, ratio, first, second) := node;
    var (a, b) := SplitRect(area, direction, ratio);
    if s in Splits(first, a, prefix + [false]) {
      BorderPathsAddressSplits(first, a, prefix + [false], s);
      assert s.path[|prefix|..][1..] == s.path[|prefix| + 1..];
      assert !s.path[|prefix|..][0];
    } else if s in Splits(second, b, prefix + [true]) {
      BorderPathsAddressSplits(second, b, prefix + [true], s);
      assert s.path[|prefix|..][1..] == s.path[|prefix| + 1..];
      assert s.path[|prefix|..][0];
    } else {
      assert s.path == prefix;
    }
  }

  /** Comparing ratio lists before and after a ratio edit detects any change at all. */
  lemma {:induction false} SameRatiosSameTree(node: Node, path: seq<bool>, ratio: real, prefix: seq<bool>)
    ensures var after := SetRatioAt(node, path, ratio).0;
            SplitRatios(after, prefix) == SplitRatios(node, prefix) <==> after == node
    ensures |SplitRatios(SetRatioAt(node, path, ratio).0, prefix)| == |SplitRatios(node, prefix)|
    decreases node
  {
    if node.Split? {
      var after := SetRatioAt(node, path, ratio).0;
      var f, s := SplitRatios(node.first, prefix + [false]), SplitRatios(node.second, prefix + [true]);
      var f', s' := SplitRatios(after.first, prefix + [false]), SplitRatios(after.second, prefix + [true]);
      assert SplitRatios(node, prefix)[0] == (prefix, node.ratio);
      assert SplitRatios(after, prefix)[0] == (prefix, after.ratio);
      if path != [] {
        SameRatiosSameTree(if path[0] then node.second else node.first, path[1..], ratio, prefix + [path[0]]);
        assert |f'| == |f| && |s'| == |s|;
        assert SplitRatios(node, prefix)[1..1 + |f|] == f && SplitRatios(node, prefix)[1 + |f|..] == s;
        assert SplitRatios(after, prefix)[1..1 + |f'|] == f' && SplitRatios(after, prefix)[1 + |f'|..] == s';
      }
    }
  }
}
