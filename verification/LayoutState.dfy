/** Layouts as states: every operation, what all of them keep, and what focus history means over a run. */
module LayoutState {
  import opened Common
  import opened LayoutTree
  import opened LayoutGeometry
  import opened LayoutNavigation

  datatype Layout = Layout(root: Node, focus: nat, prev: Option<nat>)

  /** Distinct panes, a focused leaf, a remembered pane that is another leaf, ratios that fit. */
  ghost predicate Valid(l: Layout) {
    && Distinct(Ids(l.root))
    && l.focus in Ids(l.root)
    && (l.prev.Some? ==> l.prev.value in Ids(l.root) && l.prev.value != l.focus)
    && RatiosWithin(l.root, 0.0, 1.0)
  }

  function NewLayout(id: nat): Layout {
    Layout(Pane(id), id, None)
  }

  // --- Operations ---

  function SetFocus(l: Layout, id: nat): Layout {
    if id != l.focus then l.(prev := Some(l.focus), focus := id) else l
  }

  function SplitPane(l: Layout, target: nat, direction: Direction, ratio: Ratio, newId: nat): Layout {
    if target !in Ids(l.root) then l
    else l.(root := SplitAt(l.root, target, direction, newId, ValidSplitRatio(ratio)))
  }

  predicate CanInsert(l: Layout, target: nat, moved: nat) {
    target != moved && target in Ids(l.root) && moved !in Ids(l.root)
  }

  function InsertNear(l: Layout, target: nat, moved: nat, direction: Direction, ratio: Ratio, focus: bool): Layout {
    if !CanInsert(l, target, moved) then l
    else
      var grown := l.(root := SplitAt(l.root, target, direction, moved, ValidSplitRatio(ratio)));
      if focus then SetFocus(grown, moved) else grown
  }

  function IndexOf(ids: seq<nat>, id: nat): (i: nat)
    ensures i <= |ids| && (i < |ids| ==> ids[i] == id) && forall k | 0 <= k < i :: ids[k] != id
  {
    if ids == [] || ids[0] == id then 0 else 1 + IndexOf(ids[1..], id)
  }

  /** The pane after this one in tree order, or the one before when it is the last. */
  function Neighbour(ids: seq<nat>, id: nat): nat
    requires id in ids && |ids| > 1
  {
    var pos := IndexOf(ids, id);
    if pos + 1 < |ids| then ids[pos + 1] else ids[pos - 1]
  }

  function CloseFocused(l: Layout): Layout
    requires l.focus in Ids(l.root)
  {
    if CountPanes(l.root) <= 1 then l
    else
      var ids := Ids(l.root);
      var newFocus :=
        if l.prev.Some? && l.prev.value != l.focus && l.prev.value in ids then l.prev.value
        else Neighbour(ids, l.focus);
      var rest := RemovePane(l.root, l.focus);
      // no rest would leave the placeholder pane 0; it needs every pane to be the focused one
      if rest.Some? then Layout(rest.value, newFocus, None) else l.(root := Pane(0))
  }

  function ClosePane(l: Layout, id: nat): Layout
    requires l.focus in Ids(l.root)
  {
    if l.focus == id then CloseFocused(l)
    else if CountPanes(l.root) <= 1 || id !in Ids(l.root) then l
    else
      var rest := RemovePane(l.root, id);
      if rest.None? then l.(root := Pane(0))
      else l.(root := rest.value, prev := if l.prev == Some(id) then None else l.prev)
  }

  function FocusPane(l: Layout, id: nat): Layout {
    if id in Ids(l.root) then SetFocus(l, id) else l
  }

  function SwapPanes(l: Layout, first: nat, second: nat): Layout {
    if first == second || first !in Ids(l.root) || second !in Ids(l.root) then l
    else l.(root := SwapIds(l.root, first, second))
  }

  // --- Resizing ---

  function Distance(a: int, b: int): nat {
    if a < b then b - a else a - b
  }

  function SplitEdgeDistance(s: SplitBorder, focused: Rect, nav: NavDirection): nat {
    match nav
    case Left => Distance(s.pos, focused.x)
    case Right => Distance(s.pos, focused.x + focused.width)
    case Up => Distance(s.pos, focused.y)
    case Down => Distance(s.pos, focused.y + focused.height)
  }

  predicate ResizeCandidate(s: SplitBorder, direction: Direction, focused: Rect, nav: NavDirection) {
    && s.direction == direction
    && (if nav.Left? || nav.Right? then RangesOverlap(s.area.y, s.area.height, focused.y, focused.height)
        else RangesOverlap(s.area.x, s.area.width, focused.x, focused.width))
    && SplitEdgeDistance(s, focused, nav) <= 1
  }

  /** `min_by_key` over the candidates: the first of the nearest. */
  function NearestResizeSplit(splits: seq<SplitBorder>, direction: Direction, focused: Rect, nav: NavDirection)
    : (r: Option<SplitBorder>)
    ensures r.Some? ==> r.value in splits && ResizeCandidate(r.value, direction, focused, nav)
    ensures r.Some? ==> forall s | s in splits && ResizeCandidate(s, direction, focused, nav) ::
      SplitEdgeDistance(r.value, focused, nav) <= SplitEdgeDistance(s, focused, nav)
    ensures r.None? ==> forall s | s in splits :: !ResizeCandidate(s, direction, focused, nav)
  {
    if splits == [] then None
    else
      var rest := NearestResizeSplit(splits[1..], direction, focused, nav);
      if !ResizeCandidate(splits[0], direction, focused, nav) then rest
      else if rest.Some? && SplitEdgeDistance(rest.value, focused, nav) < SplitEdgeDistance(splits[0], focused, nav) then rest
      else Some(splits[0])
  }

  function Opposite(nav: NavDirection): NavDirection {
    match nav
    case Left => Right
    case Right => Left
    case Up => Down
    case Down => Up
  }

  function FocusedRect(infos: seq<PaneInfo>): Option<Rect> {
    if infos == [] then None
    else if infos[0].isFocused then Some(infos[0].rect)
    else FocusedRect(infos[1..])
  }

  /** The border a resize acts on: on the requested side, else on the opposite one. */
  function ResizeBorder(root: Node, focus: nat, nav: NavDirection, area: Rect): (r: Option<SplitBorder>)
    ensures r.Some? ==> r.value in Splits(root, area, [])
  {
    var focused := FocusedRect(Panes(root, area, focus));
    if focused.None? then None
    else
      var splits := Splits(root, area, []);
      var direction := if nav.Left? || nav.Right? then Horizontal else Vertical;
      var near := NearestResizeSplit(splits, direction, focused.value, nav);
      if near.Some? then near else NearestResizeSplit(splits, direction, focused.value, Opposite(nav))
  }

  function ResizeRoot(root: Node, focus: nat, nav: NavDirection, delta: real, area: Rect): Node {
    var border := ResizeBorder(root, focus, nav, area);
    if border.None? then root
    else
      var path := border.value.path;
      var found := GetRatioAt(root, path);
      var current := if found.Some? then found.value else 0.5;
      var adjustment := if nav.Right? || nav.Down? then delta else -delta;
      SetRatioAt(root, path, Clamp(current + adjustment)).0
  }

  /** `resize_pane`: resizes as if the pane were focused, and reports whether any ratio changed. */
  function ResizePane(l: Layout, id: nat, nav: NavDirection, delta: real, area: Rect): (Layout, bool) {
    if id !in Ids(l.root) then (l, false)
    else
      var root := ResizeRoot(l.root, id, nav, delta, area);
      (l.(root := root), SplitRatios(root, []) != SplitRatios(l.root, []))
  }

  /** The trees' ratios agree everywhere but at one path, and that path leads to a split. */
  ghost predicate OnlyRatioAt(before: Node, after: Node, path: seq<bool>) {
    GetRatioAt(before, path).Some? && forall q | q != path :: GetRatioAt(after, q) == GetRatioAt(before, q)
  }

  /** A resize changes the ratio of one existing split, or nothing; and it reports exactly whether it did. */
  lemma {:induction false} ResizeChangesOneRatio(l: Layout, id: nat, nav: NavDirection, delta: real, area: Rect)
    ensures var (after, changed) := ResizePane(l, id, nav, delta, area);
            && after.focus == l.focus && after.prev == l.prev && Ids(after.root) == Ids(l.root)
            && (changed <==> after.root != l.root)
            && (changed ==> exists path :: OnlyRatioAt(l.root, after.root, path))
            && (RatiosWithin(l.root, 0.0, 1.0) ==> RatiosWithin(after.root, 0.0, 1.0))
  {
    var border := ResizeBorder(l.root, id, nav, area);
    hide ResizeBorder;
    if id in Ids(l.root) && border.Some? {
      var path := border.value.path;
      BorderPathsAddressSplits(l.root, area, [], border.value);
      assert path[0..] == path;
      var current := GetRatioAt(l.root, path).value;
      var ratio := Clamp(current + (if nav.Right? || nav.Down? then delta else -delta));
      SetRatioEffect(l.root, path, ratio);
      SameRatiosSameTree(l.root, path, ratio, []);
      assert OnlyRatioAt(l.root, SetRatioAt(l.root, path, ratio).0, path);
    }
  }

  /** The border's path leads to a split, so the ratio lookup and the write always succeed. */
  lemma {:induction false} ResizePathIsASplit(l: Layout, id: nat, nav: NavDirection, area: Rect, ratio: real)
    requires ResizeBorder(l.root, id, nav, area).Some?
    ensures var path := ResizeBorder(l.root, id, nav, area).value.path;
            GetRatioAt(l.root, path).Some? && SetRatioAt(l.root, path, ratio).1
  {
    var border := ResizeBorder(l.root, id, nav, area).value;
    BorderPathsAddressSplits(l.root, area, [], border);
    assert border.path[0..] == border.path;
    SetRatioEffect(l.root, border.path, ratio);
  }

  // --- Runs ---

  datatype Op =
    | DoSplit(target: nat, direction: Direction, ratio: Ratio, newId: nat)
    | DoInsert(target: nat, moved: nat, direction: Direction, ratio: Ratio, focus: bool)
    | DoCloseFocused
    | DoClose(id: nat)
    | DoFocus(id: nat)
    | DoSwap(first: nat, second: nat)
    | DoSetRatio(path: seq<bool>, value: real)
    | DoResize(id: nat, nav: NavDirection, delta: real, area: Rect)

  function Apply(l: Layout, op: Op): Layout
    requires l.focus in Ids(l.root)
  {
    match op
    case DoSplit(target, direction, ratio, newId) => SplitPane(l, target, direction, ratio, newId)
    case DoInsert(target, moved, direction, ratio, focus) => InsertNear(l, target, moved, direction, ratio, focus)
    case DoCloseFocused => CloseFocused(l)
    case DoClose(id) => ClosePane(l, id)
    case DoFocus(id) => FocusPane(l, id)
    case DoSwap(first, second) => SwapPanes(l, first, second)
    case DoSetRatio(path, ratio) => l.(root := SetRatioAt(l.root, path, Clamp(ratio)).0)
    case DoResize(id, nav, delta, area) => ResizePane(l, id, nav, delta, area).0
  }

  /** A split's new pane id comes from the global allocator, so it is not in the layout yet. */
  predicate Allocates(l: Layout, op: Op) {
    op.DoSplit? ==> op.newId !in Ids(l.root)
  }

  lemma {:induction false} CloseKeepsValid(l: Layout, id: nat)
    requires Valid(l) && id in Ids(l.root) && CountPanes(l.root) > 1
    ensures RemovePane(l.root, id).Some?
    ensures var rest := RemovePane(l.root, id).value;
            && Distinct(Ids(rest)) && RatiosWithin(rest, 0.0, 1.0)
            && (forall y :: y in Ids(rest) <==> y in Ids(l.root) && y != id)
  {
    RemoveKeepsOrder(l.root, id);
    RemoveRatios(l.root, id);
    WithoutMembers(Ids(l.root), id);
  }

  /** Growing at a target keeps the layout's panes distinct and adds exactly one. */
  lemma {:induction false} GrowKeepsValid(l: Layout, target: nat, direction: Direction, newId: nat, ratio: real)
    requires Valid(l) && target in Ids(l.root) && newId !in Ids(l.root) && 0.0 <= ratio <= 1.0
    ensures var root := SplitAt(l.root, target, direction, newId, ratio);
            && Valid(l.(root := root))
            && (forall y :: y in Ids(root) <==> y in Ids(l.root) || y == newId)
  {
    SplitAtIds(l.root, target, direction, newId, ratio);
    SplitAtRatios(l.root, target, direction, newId, ratio);
    InsertAfterMembers(Ids(l.root), target, newId);
  }

  lemma {:induction false} SwapKeepsValid(l: Layout, first: nat, second: nat)
    requires Valid(l) && first in Ids(l.root) && second in Ids(l.root)
    ensures var root := SwapIds(l.root, first, second);
            Valid(l.(root := root)) && forall y :: y in Ids(root) <==> y in Ids(l.root)
  {
    var ids := Ids(l.root);
    var swapped := SwapAll(ids, first, second);
    SwapKeepsShape(l.root, first, second);
    forall y ensures y in swapped <==> y in ids {
      if y in ids {
        var i :| 0 <= i < |ids| && ids[i] == Transpose(y, first, second);
        assert swapped[i] == y;
      }
      if y in swapped {
        var i :| 0 <= i < |ids| && swapped[i] == y;
        assert ids[i] in ids;
      }
    }
  }

  /** The focus after a close: the remembered pane, else the neighbour in tree order; both are leaves. */
  lemma {:induction false} NeighbourIsOther(ids: seq<nat>, id: nat)
    requires Distinct(ids) && id in ids && |ids| > 1
    ensures Neighbour(ids, id) in ids && Neighbour(ids, id) != id
  {
    var pos := IndexOf(ids, id);
    if pos + 1 < |ids| {
      assert ids[pos] != ids[pos + 1];
    } else {
      assert ids[pos - 1] != ids[pos];
    }
  }

  lemma {:induction false} ApplyKeepsValid(l: Layout, op: Op)
    requires Valid(l) && Allocates(l, op)
    ensures Valid(Apply(l, op))
  {
    match op
    case DoSplit(target, direction, ratio, newId) =>
      if target in Ids(l.root) {
        GrowKeepsValid(l, target, direction, newId, ValidSplitRatio(ratio));
      }
    case DoInsert(target, moved, direction, ratio, focus) =>
      if CanInsert(l, target, moved) {
        GrowKeepsValid(l, target, direction, moved, ValidSplitRatio(ratio));
      }
    case DoCloseFocused =>
      if CountPanes(l.root) > 1 {
        CloseKeepsValid(l, l.focus);
        NeighbourIsOther(Ids(l.root), l.focus);
      }
    case DoClose(id) =>
      if CountPanes(l.root) > 1 && id in Ids(l.root) {
        CloseKeepsValid(l, id);
        NeighbourIsOther(Ids(l.root), l.focus);
      }
    case DoFocus(id) =>
    case DoSwap(first, second) =>
      if first in Ids(l.root) && second in Ids(l.root) {
        SwapKeepsValid(l, first, second);
      }
    case DoSetRatio(path, ratio) => SetRatioEffect(l.root, path, Clamp(ratio));
    case DoResize(id, nav, delta, area) => ResizeChangesOneRatio(l, id, nav, delta, area);
  }

  /** The layout after the first `n` operations. */
  ghost function Run(l: Layout, ops: seq<Op>, n: nat): Layout
    requires n <= |ops|
  {
    if n == 0 then l
    else
      var before := Run(l, ops, n - 1);
      if before.focus in Ids(before.root) then Apply(before, ops[n - 1]) else before
  }

  /** A run from a valid layout in which every split's new id is fresh. */
  ghost predicate RunFits(l: Layout, ops: seq<Op>) {
    Valid(l) && forall k | 0 <= k < |ops| :: Allocates(Run(l, ops, k), ops[k])
  }

  /** In every reachable layout panes are distinct, the focus is a pane and the remembered pane another. */
  lemma {:induction false} RunKeepsValid(l: Layout, ops: seq<Op>, n: nat)
    requires RunFits(l, ops) && n <= |ops|
    ensures Valid(Run(l, ops, n))
    decreases n
  {
    if n > 0 {
      RunKeepsValid(l, ops, n - 1);
      ApplyKeepsValid(Run(l, ops, n - 1), ops[n - 1]);
    }
  }

  /** The rectangles of every reachable layout tile the screen, one per pane. */
  lemma {:induction false} ReachableLayoutTiles(l: Layout, ops: seq<Op>, n: nat, area: Rect)
    requires RunFits(l, ops) && n <= |ops| && OnScreen(area)
    ensures var r := Run(l, ops, n);
            var infos := Panes(r.root, area, r.focus);
            && Tiles(infos, area)
            && |infos| == |Ids(r.root)| && (forall i | 0 <= i < |infos| :: infos[i].id == Ids(r.root)[i])
            && (forall i, j | 0 <= i < j < |infos| :: infos[i].id != infos[j].id)
  {
    RunKeepsValid(l, ops, n);
    var r := Run(l, ops, n);
    PanesTile(r.root, area, r.focus);
    OneRectPerLeaf(r.root, area, r.focus);
  }

  /**
   In every reachable layout whose panes all have room, moving in a direction finds a pane exactly
   when the pane moved from is not at that side of the screen.
   */
  lemma {:induction false} ReachableNavigation(l: Layout, ops: seq<Op>, n: nat, area: Rect, f: nat, nav: NavDirection)
    requires RunFits(l, ops) && n <= |ops| && OnScreen(area)
    requires var infos := Panes(Run(l, ops, n).root, area, Run(l, ops, n).focus);
             f < |infos| && forall i | 0 <= i < |infos| :: infos[i].rect.width > 0 && infos[i].rect.height > 0
    ensures var infos := Panes(Run(l, ops, n).root, area, Run(l, ops, n).focus);
            && (FindInDirection(infos[f], nav, infos).Some? <==> !TouchesEdge(nav, infos[f].rect, area))
            && (FindInDirection(infos[f], nav, infos).Some? ==>
                  exists i :: 0 <= i < |infos| && infos[i].id == FindInDirection(infos[f], nav, infos).value
                    && i != f && SharesEdge(nav, infos[f].rect, infos[i].rect))
  {
    ReachableLayoutTiles(l, ops, n, area);
    NavigationComplete(Panes(Run(l, ops, n).root, area, Run(l, ops, n).focus), area, f, nav);
  }

  // --- Rollback ---

  /** Splitting a pane and closing the new one gives back tree, focus and history exactly. */
  lemma {:induction false} SplitThenCloseRestores(l: Layout, target: nat, direction: Direction, ratio: Ratio, newId: nat)
    requires Valid(l) && newId !in Ids(l.root) && target in Ids(l.root)
    ensures var grown := SplitPane(l, target, direction, ratio, newId);
            l.focus in Ids(grown.root) && ClosePane(grown, newId) == l
  {
    var r := ValidSplitRatio(ratio);
    RemoveUndoesSplit(l.root, target, direction, newId, r);
    GrowKeepsValid(l, target, direction, newId, r);
    var grown := SplitPane(l, target, direction, ratio, newId);
    assert newId in Ids(grown.root) && l.focus in Ids(grown.root);
    assert CountPanes(grown.root) > 1;
  }

  // --- Focus history ---

  /** A real focus move: another pane is focused, by choice or by a focused insert. */
  predicate Moves(l: Layout, op: Op) {
    match op
    case DoFocus(id) => id in Ids(l.root) && id != l.focus
    case DoInsert(target, moved, _, _, focus) => CanInsert(l, target, moved) && focus
    case _ => false
  }

  /** Closing the focused pane, or closing pane p in the background. */
  predicate Forgets(l: Layout, op: Op, p: nat) {
    CountPanes(l.root) > 1 && (op.DoCloseFocused? || (op.DoClose? && (op.id == l.focus || op.id == p)))
  }

  /** Of the first n operations the k-th was the last focus move, it left p, and nothing since forgot p. */
  ghost predicate LeftAt(l: Layout, ops: seq<Op>, n: nat, k: nat, p: nat)
    requires n <= |ops|
  {
    && k < n && Moves(Run(l, ops, k), ops[k]) && Run(l, ops, k).focus == p
    && forall j | k < j < n :: !Moves(Run(l, ops, j), ops[j]) && !Forgets(Run(l, ops, j), ops[j], p)
  }

  lemma {:induction false} HistoryStep(l: Layout, op: Op, p: nat)
    requires Valid(l) && Allocates(l, op)
    ensures Apply(l, op).prev == Some(p) <==>
            (Moves(l, op) && l.focus == p) || (!Moves(l, op) && !Forgets(l, op, p) && l.prev == Some(p))
  {
    match op
    case DoCloseFocused =>
      if CountPanes(l.root) > 1 {
        CloseKeepsValid(l, l.focus);
      }
    case DoClose(id) =>
      if CountPanes(l.root) > 1 && id in Ids(l.root) {
        CloseKeepsValid(l, id);
      }
    case DoResize(id, nav, delta, area) => ResizeChangesOneRatio(l, id, nav, delta, area);
    case _ =>
  }

  /**
   The remembered pane is exactly the one the last focus move left, provided the focused pane has
   not been closed since and that pane itself has not been closed since.
   */
  lemma {:induction false} HistoryIsLastMove(l: Layout, ops: seq<Op>, n: nat, p: nat)
    requires RunFits(l, ops) && l.prev.None? && n <= |ops|
    ensures Run(l, ops, n).prev == Some(p) <==> exists k: nat :: LeftAt(l, ops, n, k, p)
    decreases n
  {
    if n == 0 {
      hide Moves, Forgets;
    } else {
      hide *;
      HistoryIsLastMove(l, ops, n - 1, p);
      RunKeepsValid(l, ops, n - 1);
      RunStep(l, ops, n, n - 1);
      HistoryStep(Run(l, ops, n - 1), ops[n - 1], p);
      LastMoveStep(l, ops, n, n - 1, p);
    }
  }

  lemma {:induction false} RunStep(l: Layout, ops: seq<Op>, n: nat, m: nat)
    requires RunFits(l, ops) && m + 1 == n && n <= |ops| && Valid(Run(l, ops, m))
    ensures Run(l, ops, n) == Apply(Run(l, ops, m), ops[m]) && Allocates(Run(l, ops, m), ops[m])
  {
    hide Apply, Allocates;
  }

  lemma {:induction false} LastMoveStep(l: Layout, ops: seq<Op>, n: nat, m: nat, p: nat)
    requires n <= |ops| && m + 1 == n
    ensures var before, op := Run(l, ops, m), ops[m];
            (exists k: nat :: LeftAt(l, ops, n, k, p)) <==>
            (Moves(before, op) && before.focus == p)
            || (!Moves(before, op) && !Forgets(before, op, p) && exists k: nat :: LeftAt(l, ops, m, k, p))
  {
    hide *;
    forall k: nat
      ensures LeftAt(l, ops, n, k, p) <==>
              if k == m then Moves(Run(l, ops, m), ops[m]) && Run(l, ops, m).focus == p
              else LeftAt(l, ops, m, k, p) && !Moves(Run(l, ops, m), ops[m]) && !Forgets(Run(l, ops, m), ops[m], p)
      ensures LeftAt(l, ops, m, k, p) ==> k < m
    {
      LeftAtStep(l, ops, n, m, k, p);
    }
    var before, op := Run(l, ops, m), ops[m];
    if Moves(before, op) && before.focus == p {
      assert LeftAt(l, ops, n, m, p);
    } else if !Moves(before, op) && !Forgets(before, op, p) && exists k: nat :: LeftAt(l, ops, m, k, p) {
      var k: nat :| LeftAt(l, ops, m, k, p);
      assert LeftAt(l, ops, n, k, p);
    }
  }

  /** Having left p at step k, told from the state before the n-th operation. */
  lemma {:induction false} LeftAtStep(l: Layout, ops: seq<Op>, n: nat, m: nat, k: nat, p: nat)
    requires n <= |ops| && m + 1 == n
    ensures LeftAt(l, ops, n, k, p) <==>
            if k == m then Moves(Run(l, ops, m), ops[m]) && Run(l, ops, m).focus == p
            else LeftAt(l, ops, m, k, p) && !Moves(Run(l, ops, m), ops[m]) && !Forgets(Run(l, ops, m), ops[m], p)
    ensures LeftAt(l, ops, m, k, p) ==> k < m
  {
    hide Run, Apply, Moves, Forgets;
  }

  /**
   Closing the focused pane of a reachable layout returns to the pane the last focus move left,
   if that is still there to return to, and otherwise to the neighbour in tree order.
   */
  lemma {:induction false} CloseReturnsToOrigin(l: Layout, ops: seq<Op>, n: nat)
    requires RunFits(l, ops) && l.prev.None? && n <= |ops| && CountPanes(Run(l, ops, n).root) > 1
    ensures var r := Run(l, ops, n);
            && Valid(r)
            && var closed := CloseFocused(r);
            && Valid(closed) && closed.prev.None? && r.focus !in Ids(closed.root)
            && (forall p: nat, k :: LeftAt(l, ops, n, k, p) ==> closed.focus == p)
            && ((forall p: nat, k :: !LeftAt(l, ops, n, k, p)) ==> FollowsOrEnds(Ids(r.root), r.focus, closed.focus))
  {
    RunKeepsValid(l, ops, n);
    var r := Run(l, ops, n);
    CloseKeepsValid(r, r.focus);
    ApplyKeepsValid(r, DoCloseFocused);
    hide LeftAt;
    forall p: nat, k | LeftAt(l, ops, n, k, p) ensures r.prev == Some(p) {
      HistoryIsLastMove(l, ops, n, p);
    }
    NeighbourFollows(Ids(r.root), r.focus);
    if r.prev.Some? {
      HistoryIsLastMove(l, ops, n, r.prev.value);
    }
  }

  /** At position i stands id, and next right after it, or right before it where it is the last. */
  predicate FollowsAt(ids: seq<nat>, id: nat, next: nat, i: nat) {
    && i < |ids| && ids[i] == id
    && if i < |ids| - 1 then next == ids[i + 1] else i > 0 && next == ids[i - 1]
  }

  ghost predicate FollowsOrEnds(ids: seq<nat>, id: nat, next: nat) {
    exists i: nat :: FollowsAt(ids, id, next, i)
  }

  lemma {:induction false} NeighbourFollows(ids: seq<nat>, id: nat)
    requires id in ids && |ids| > 1
    ensures FollowsOrEnds(ids, id, Neighbour(ids, id))
  {
    assert FollowsAt(ids, id, Neighbour(ids, id), IndexOf(ids, id));
  }

  /**
   Which pane has the focus after one operation: the one chosen, the one inserted with the focus, after its own close
   the remembered pane or else the neighbour in tree order, and otherwise the same as before.
   */
  lemma {:induction false} FocusStep(l: Layout, op: Op)
    requires Valid(l)
    ensures var r, ids := Apply(l, op), Ids(l.root);
            var closes := |ids| > 1 && (op.DoCloseFocused? || (op.DoClose? && op.id == l.focus));
            var chooses := op.DoFocus? && op.id in ids;
            var inserts := op.DoInsert? && op.focus && op.target != op.moved && op.target in ids && op.moved !in ids;
            && (chooses ==> r.focus == op.id)
            && (inserts ==> r.focus == op.moved)
            && (closes && l.prev.Some? ==> r.focus == l.prev.value)
            && (closes && l.prev.None? ==> FollowsOrEnds(ids, l.focus, r.focus))
            && (!closes && !chooses && !inserts ==> r.focus == l.focus)
  {
    var ids := Ids(l.root);
    if |ids| > 1 && (op.DoCloseFocused? || (op.DoClose? && op.id == l.focus)) {
      NeighbourFollows(ids, l.focus);
      CloseKeepsValid(l, l.focus);
    }
    hide Neighbour, FollowsOrEnds, ResizeRoot, SetRatioAt, SplitAt, SwapIds;
  }
}
