/** The layout object, updated in place; each method does what the functions of `LayoutState` say. */
module TileLayoutObject {
  import opened Common
  import opened LayoutTree
  import opened LayoutGeometry
  import opened LayoutNavigation
  import opened LayoutState

  /** `collect_panes`, pushing onto the caller's vector. */
  method CollectPanes(node: Node, area: Rect, focus: nat, result: seq<PaneInfo>) returns (out: seq<PaneInfo>)
    ensures out == result + Panes(node, area, focus)
    decreases node
  {
    match node
    case Pane(id) =>
      out := result + [PaneInfo(id, area, id == focus)];
    case Split(direction, ratio, first, second) =>
      var (a, b) := SplitRect(area, direction, ratio);
      out := CollectPanes(first, a, focus, result);
      out := CollectPanes(second, b, focus, out);
  }

  /** `collect_splits`. */
  method CollectSplits(node: Node, area: Rect, path: seq<bool>, result: seq<SplitBorder>) returns (out: seq<SplitBorder>)
    ensures out == result + Splits(node, area, path)
    decreases node
  {
    out := result;
    if node.Split? {
      var (a, b) := SplitRect(area, node.direction, node.ratio);
      var pos := if node.direction.Horizontal? then a.x + a.width else a.y + a.height;
      out := out + [SplitBorder(pos, node.direction, node.ratio, area, path)];
      out := CollectSplits(node.first, a, path + [false], out);
      out := CollectSplits(node.second, b, path + [true], out);
    }
  }

  class TileLayout {
    var root: Node
    var focus: nat
    var prevFocus: Option<nat>

    function State(): Layout
      reads this
    {
      Layout(root, focus, prevFocus)
    }

    constructor (id: nat)
      ensures State() == NewLayout(id) && Valid(State())
    {
      root, focus, prevFocus := Pane(id), id, None;
    }

    /** `from_saved`: a tree and a focus as they were stored. */
    constructor FromSaved(saved: Node, focused: nat)
      ensures State() == Layout(saved, focused, None)
    {
      root, focus, prevFocus := saved, focused, None;
    }

    method MoveFocus(id: nat)
      modifies this
      ensures State() == SetFocus(old(State()), id)
    {
      if id != focus {
        prevFocus := Some(focus);
        focus := id;
      }
    }

    method SplitAtPane(target: nat, direction: Direction, ratio: Ratio, newId: nat) returns (id: Option<nat>)
      modifies this
      ensures State() == SplitPane(old(State()), target, direction, ratio, newId)
      ensures id == if target in Ids(old(root)) then Some(newId) else None
    {
      if target !in Ids(root) {
        return None;
      }
      root := SplitAt(root, target, direction, newId, ValidSplitRatio(ratio));
      id := Some(newId);
    }

    method InsertPaneNear(target: nat, moved: nat, direction: Direction, ratio: Ratio, takeFocus: bool)
      returns (done: bool)
      modifies this
      ensures State() == InsertNear(old(State()), target, moved, direction, ratio, takeFocus)
      ensures done <==> CanInsert(old(State()), target, moved)
    {
      if target == moved {
        return false;
      }
      var ids := Ids(root);
      if target !in ids || moved in ids {
        return false;
      }
      root := SplitAt(root, target, direction, moved, ValidSplitRatio(ratio));
      if takeFocus {
        MoveFocus(moved);
      }
      done := true;
    }

    /** In a valid layout the focused pane is always found, and removing it always leaves a tree. */
    method CloseFocusedPane() returns (done: bool)
      requires Valid(State())
      modifies this
      ensures State() == CloseFocused(old(State())) && Valid(State())
      ensures done <==> CountPanes(old(root)) > 1
    {
      ghost var before := State();
      ApplyKeepsValid(before, DoCloseFocused);
      if CountPanes(root) <= 1 {
        return false;
      }
      CloseKeepsValid(before, focus);
      var target := focus;
      var ids := Ids(root);
      var pos := IndexOf(ids, target);
      var ordered := if pos + 1 < |ids| then ids[pos + 1] else ids[pos - 1];
      var newFocus := if prevFocus.Some? && prevFocus.value != target && prevFocus.value in ids then prevFocus.value else ordered;
      root := RemovePane(root, target).value;
      focus := newFocus;
      prevFocus := None;
      done := true;
    }

    method CloseBackgroundOrFocused(id: nat) returns (done: bool)
      requires Valid(State())
      modifies this
      ensures State() == ClosePane(old(State()), id) && Valid(State())
      ensures done <==> CountPanes(old(root)) > 1 && id in Ids(old(root))
    {
      ApplyKeepsValid(State(), DoClose(id));
      if focus == id {
        done := CloseFocusedPane();
        return;
      }
      if CountPanes(root) <= 1 || id !in Ids(root) {
        return false;
      }
      CloseKeepsValid(State(), id);
      root := RemovePane(root, id).value;
      if prevFocus == Some(id) {
        prevFocus := None;
      }
      done := true;
    }

    method Focus(id: nat)
      modifies this
      ensures State() == FocusPane(old(State()), id)
    {
      if id in Ids(root) {
        MoveFocus(id);
      }
    }

    method Swap(first: nat, second: nat) returns (done: bool)
      modifies this
      ensures State() == SwapPanes(old(State()), first, second)
      ensures done <==> first != second && first in Ids(old(root)) && second in Ids(old(root))
    {
      if first == second {
        return false;
      }
      var ids := Ids(root);
      if first !in ids || second !in ids {
        return false;
      }
      root := SwapIds(root, first, second);
      done := true;
    }

    method SetRatio(path: seq<bool>, ratio: real) returns (done: bool)
      modifies this
      ensures root == SetRatioAt(old(root), path, Clamp(ratio)).0 && focus == old(focus) && prevFocus == old(prevFocus)
      ensures done <==> GetRatioAt(old(root), path).Some?
    {
      SetRatioEffect(root, path, Clamp(ratio));
      var (changed, ok) := SetRatioAt(root, path, Clamp(ratio));
      root := changed;
      done := ok;
    }

    /** `resize_focused`. */
    method ResizeFocused(nav: NavDirection, delta: real, area: Rect)
      modifies this
      ensures root == ResizeRoot(old(root), old(focus), nav, delta, area)
      ensures focus == old(focus) && prevFocus == old(prevFocus)
    {
      var panes := CollectPanes(root, area, focus, []);
      assert panes == Panes(root, area, focus);
      var focused := FocusedRect(panes);
      if focused.None? {
        return;
      }
      var splits := CollectSplits(root, area, [], []);
      assert splits == Splits(root, area, []);
      var targetDirection := if nav.Left? || nav.Right? then Horizontal else Vertical;
      var grows := nav.Right? || nav.Down?;
      var best := NearestResizeSplit(splits, targetDirection, focused.value, nav);
      if best.None? {
        best := NearestResizeSplit(splits, targetDirection, focused.value, Opposite(nav));
      }
      assert best == ResizeBorder(root, focus, nav, area);
      if best.Some? {
        var path := best.value.path;
        var found := GetRatioAt(root, path);
        var current := if found.Some? then found.value else 0.5;
        var adjustment := if grows then delta else -delta;
        var done := SetRatio(path, current + adjustment);
      }
    }

    /** `resize_pane`: borrows the focus for the call and puts it back. */
    method Resize(id: nat, nav: NavDirection, delta: real, area: Rect) returns (changed: bool)
      modifies this
      ensures (State(), changed) == ResizePane(old(State()), id, nav, delta, area)
      ensures changed <==> root != old(root)
    {
      ResizeChangesOneRatio(State(), id, nav, delta, area);
      if id !in Ids(root) {
        return false;
      }
      var before := SplitRatios(root, []);
      var previousFocus := focus;
      focus := id;
      ResizeFocused(nav, delta, area);
      focus := previousFocus;
      changed := SplitRatios(root, []) != before;
    }
  }
}
