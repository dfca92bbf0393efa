/**
 What one frame shows, by what is given to it: nothing when the panes are hidden, exactly the terminal images
 when there are no layer slots, exactly the scene when there are.
 */
module GraphicsDispatch {
  import opened Common
  import opened HostGraphics
  import opened GraphicsStep
  import opened GraphicsAgreement
  import opened GraphicsRuns
  import opened GraphicsDrain
  import opened GraphicsConvergence
  import opened GraphicsDrainLoop
  import opened GraphicsLegacy
  import opened GraphicsLegacyScene

  /** Hidden and without slots: one frame empties cache and terminal. */
  lemma {:induction false} HiddenFrameEmpties(
    env: Env, t: Screen, c: Cache, scene: Scene, budget: Option<nat>, replay: bool, orders: Orders)
    requires OrdersFit(env, c, scene, orders) && Inv(env, c) && Mirrors(t, c)
    requires !scene.hasSlots && !scene.visible
    ensures var r := EncodeLocal(env, c, scene, budget, replay, orders);
            !r.incomplete && r.cache == EMPTY_CACHE && ExecuteAll(t, r.cmds) == Screen(map[], map[])
  {
    hide Incremental, Legacy, ClearPaneSources, ClearAll, Inv, Mirrors, Enumerates, LegacyStale, LegacyPlace;
    var cleared := ClearPaneSources(c, orders.paneImages);
    var d := ClearAll(orders.images);
    ClearPaneSourcesKeeps(env, t, c, orders.paneImages);
    var t1 := ExecuteAll(t, cleared.cmds);
    ClearAllKeeps(env, t1, cleared.cache, orders.images);
    ExecuteAllAppend(t, cleared.cmds, d.cmds);
    assert d.cache == EMPTY_CACHE by { ClearAllEmpties(orders.images); }
  }

  lemma {:induction false} ClearAllEmpties(order: seq<nat>)
    ensures ClearAll(order).cache == EMPTY_CACHE
  {
    hide DeleteAll;
  }

  /** Hidden with slots: a frame that reports itself complete leaves nothing on screen. */
  lemma {:induction false} HiddenSlotsFrameShowsNothing(
    env: Env, t: Screen, c: Cache, scene: Scene, budget: Option<nat>, replay: bool, orders: Orders)
    requires SceneFits(env, scene) && Inv(env, c) && Mirrors(t, c) && scene.hasSlots && !scene.visible
    ensures var r := EncodeLocal(env, c, scene, budget, replay, orders);
            !r.incomplete ==> r.cache.placements == map[] && ExecuteAll(t, r.cmds).placements == map[]
  {
    hide *;
    var r := EncodeLocal(env, c, scene, budget, replay, orders);
    var asked := Asked(c, scene, replay);
    WithSlotsMeans(env, c, scene, budget, replay, orders);
    EmptySceneIsSteady(env, asked, scene.live);
    SameInv(env, c, asked);
    IncrementalProgress(env, asked, [], scene.live, budget);
    EncodeWithSlotsKeeps(env, t, c, scene, budget, replay, orders);
    KeepsMeans(env, t, c, ExecuteAll(t, r.cmds), r.cache);
    NoPlacements(c, scene);
    if !r.incomplete {
      TidyMeans(env, r.cache, [], scene.live);
      NothingOnScreen(env, ExecuteAll(t, r.cmds), r.cache);
    }
  }

  lemma {:induction false} NoPlacements(c: Cache, scene: Scene)
    requires !scene.visible
    ensures (if scene.visible then scene.placements else []) == []
  {
  }

  lemma {:induction false} EmptySceneIsSteady(env: Env, c: Cache, live: set<SourceKey>)
    ensures Steady(env, [], live) && (Inv(env, c) ==> Good(env, c, []))
  {
    hide Inv;
  }

  lemma {:induction false} NothingOnScreen(env: Env, t: Screen, c: Cache)
    requires Mirrors(t, c) && c.placements.Keys <= HomeSlots(env, [])
    ensures c.placements == map[] && t.placements == map[]
  {
    assert forall s :: s !in c.placements;
    assert forall s :: s !in t.placements;
  }

  /**
   Visible with slots and without a budget: a frame that reports itself complete leaves exactly the scene, on a
   terminal that agreed, when the images that are missing can be sent.
   */
  lemma {:induction false} SlotsFrameShowsTheScene(
    env: Env, t: Screen, c: Cache, scene: Scene, replay: bool, orders: Orders)
    requires Steady(env, scene.placements, scene.live) && Good(env, c, scene.placements) && Agree(t, c)
    requires Supplied(env, c, scene.placements, None) && scene.hasSlots && scene.visible
    ensures var r := EncodeLocal(env, c, scene, None, replay, orders);
            !r.incomplete ==>
              && ShowsExactly(env, r.cache, scene.placements) && Agree(ExecuteAll(t, r.cmds), r.cache)
  {
    hide *;
    var ps := scene.placements;
    var r := EncodeLocal(env, c, scene, None, replay, orders);
    var asked := Asked(c, scene, replay);
    AllWellFormedOf(env, ps, scene.live);
    FitsWithSlots(env, scene);
    WithSlotsMeans(env, c, scene, None, replay, orders);
    AskedForScene(env, c, scene, replay);
    IncrementalProgress(env, asked, ps, scene.live, None);
    IncrementalSettles(env, asked, ps, scene.live, None);
    GoodParts(env, c, ps);
    AgreeParts(t, c);
    EncodeWithSlotsKeeps(env, t, c, scene, None, replay, orders);
    KeepsMeans(env, t, c, ExecuteAll(t, r.cmds), r.cache);
    VisibleScene(scene);
    if !r.incomplete {
      SettledIsCurrent(env, r.cache, ps);
      AllCurrentShowsExactly(env, r.cache, ps, scene.live);
      AgreeParts(ExecuteAll(t, r.cmds), r.cache);
    }
  }

  lemma {:induction false} VisibleScene(scene: Scene)
    requires scene.visible
    ensures (if scene.visible then scene.placements else []) == scene.placements
  {
  }

  lemma {:induction false} FitsWithSlots(env: Env, scene: Scene)
    requires AllWellFormed(env, scene.placements) && scene.hasSlots
    ensures SceneFits(env, scene)
  {
    hide WellFormed;
  }

  lemma {:induction false} AskedRecords(c: Cache, scene: Scene, replay: bool)
    ensures var d := Asked(c, scene, replay);
            d.images == c.images && d.placements == c.placements && d.sources == c.sources && d.oversized == c.oversized
  {
  }

  lemma {:induction false} SameForAnyScene(env: Env, c: Cache, d: Cache, ps: seq<Placement>)
    requires d.images == c.images && d.placements == c.placements && d.sources == c.sources && d.oversized == c.oversized
    ensures SameForScene(env, c, d, ps) && (Unobstructed(env, c, ps) ==> Unobstructed(env, d, ps))
  {
    hide HomeImage, HomeSlot;
  }

  lemma {:induction false} AskedForScene(env: Env, c: Cache, scene: Scene, replay: bool)
    requires Good(env, c, scene.placements) && Supplied(env, c, scene.placements, None)
    ensures Good(env, Asked(c, scene, replay), scene.placements) && Supplied(env, Asked(c, scene, replay), scene.placements, None)
  {
    var d := Asked(c, scene, replay);
    hide *;
    AskedRecords(c, scene, replay);
    GoodParts(env, c, scene.placements);
    GoodParts(env, d, scene.placements);
    SameInv(env, c, d);
    SameForAnyScene(env, c, d, scene.placements);
    StaysSupplied(env, c, d, scene.placements, None);
  }

  lemma {:induction false} SettledIsCurrent(env: Env, c: Cache, ps: seq<Placement>)
    requires AllSettled(env, c, ps, None)
    ensures forall p | p in ps && p.clip.Some? :: Current(env, c, p)
  {
    hide Current, HomeImage;
    forall p | p in ps && p.clip.Some? ensures Current(env, c, p) {
      assert Settled(env, c, p, None);
    }
  }

  // --- Without slots ---

  /** Pane layers go before the terminal images are drawn, and nothing of them stays. */
  lemma {:induction false} PanesCleared(env: Env, c: Cache, ps: seq<Placement>, order: seq<nat>)
    requires Inv(env, c) && Unobstructed(env, c, ps)
    ensures var d := ClearPaneSources(c, order).cache;
            Unobstructed(env, d, ps) && (forall k | k in d.sources :: k.Terminal?) && d.view == c.view
  {
    var c1 := c.(sources := map k | k in c.sources && !k.PaneLayer? :: c.sources[k]);
    DropImagesOnlyDrops(c1, order);
    hide HomeImage, HomeSlot, DropImages;
  }

  lemma {:induction false} DropImagesOnlyDrops(c: Cache, order: seq<nat>)
    ensures var d := DropImages(c, order).cache;
            && d.sources == c.sources && d.view == c.view
            && (forall id | id in d.images :: id in c.images && d.images[id] == c.images[id])
            && (forall s | s in d.placements :: s in c.placements && d.placements[s] == c.placements[s])
    decreases |order|
  {
    if order != [] {
      if Referenced(c, order[0]) {
        DropImagesOnlyDrops(c, order[1..]);
      } else {
        DropImagesOnlyDrops(DropImage(c, order[0]), order[1..]);
      }
    }
  }

  /**
   Visible without slots: when the view changed, or the terminal agreed before, both agree after the frame; every
   visible placement that has its pixels is shown, nothing that is not visible is, and the cache remembers the view.
   */
  lemma {:induction false} TerminalFrameShowsTheScene(
    env: Env, t: Screen, c: Cache, scene: Scene, budget: Option<nat>, replay: bool, orders: Orders)
    requires !scene.hasSlots && scene.visible && OrdersFit(env, c, scene, orders)
    requires TerminalScene(env, scene.placements) && Good(env, c, scene.placements) && Mirrors(t, c)
    requires c.view != scene.view || Agree(t, c)
    ensures var r := EncodeLocal(env, c, scene, budget, replay, orders);
            && !r.incomplete && Agree(ExecuteAll(t, r.cmds), r.cache) && r.cache.view == scene.view
            && (forall p | p in scene.placements && p.clip.Some? && p.data != [] :: Shown(env, r.cache, p))
            && r.cache.placements.Keys <= HomeSlots(env, scene.placements)
  {
    hide *;
    var ps := scene.placements;
    var cleared := ClearPaneSources(c, orders.paneImages);
    var viewed := ResetIncremental(UpdateView(cleared.cache, scene.view));
    var changed := cleared.cache.view != scene.view;
    var d := Legacy(env, viewed, ps, changed, orders.stale);
    TerminalFrameMeans(env, c, scene, budget, replay, orders);
    GoodParts(env, c, ps);
    PanesCleared(env, c, ps, orders.paneImages);
    ClearPaneSourcesKeeps(env, t, c, orders.paneImages);
    var t1 := ExecuteAll(t, cleared.cmds);
    KeepsMeans(env, t, c, t1, cleared.cache);
    AgreeParts(t, c);
    AgreeParts(t1, cleared.cache);
    ViewedIs(env, t1, cleared.cache, scene, ps);
    LegacyShowsTheScene(env, t1, viewed, ps, changed, orders.stale);
    ExecuteAllAppend(t, cleared.cmds, d.cmds);
    forall p | p in ps && p.clip.Some? && p.data != [] ensures Shown(env, d.cache, p) {
      var j :| 0 <= j < |ps| && ps[j] == p;
      LegacyShowsIff(env, viewed, ps, changed, orders.stale, j);
      WithPixelsPlaceable(env, Before(env, viewed, ps, changed, j).cache, p);
    }
    LegacyLeavesTheScene(env, viewed, ps, changed, orders.stale);
    OnlySceneSlots(env, d.cache, ps);
    LegacyKeepsView(env, viewed, ps, changed, orders.stale);
  }

  lemma {:induction false} WithPixelsPlaceable(env: Env, c: Cache, p: Placement)
    requires p.clip.Some? && p.data != []
    ensures Placeable(env, c, p)
  {
    hide HomeImage;
  }

  lemma {:induction false} TerminalFrameMeans(env: Env, c: Cache, scene: Scene, budget: Option<nat>, replay: bool, orders: Orders)
    requires !scene.hasSlots && scene.visible && OrdersFit(env, c, scene, orders)
    ensures var cleared := ClearPaneSources(c, orders.paneImages);
            var viewed := ResetIncremental(UpdateView(cleared.cache, scene.view));
            var changed := cleared.cache.view != scene.view;
            var d := Legacy(env, viewed, scene.placements, changed, orders.stale);
            && EncodeLocal(env, c, scene, budget, replay, orders) == Encoded(d.cache, cleared.cmds + d.cmds, false, false)
            && Enumerates(orders.stale, LegacyStale(LegacyPlace(env, viewed, scene.placements, changed)))
  {
    hide Incremental, Legacy, ClearPaneSources, ClearAll, Enumerates, LegacyStale, LegacyPlace;
  }

  /** Remembering the view touches no record. */
  lemma {:induction false} ViewedIs(env: Env, t: Screen, c: Cache, scene: Scene, ps: seq<Placement>)
    requires Inv(env, c) && Mirrors(t, c) && Unobstructed(env, c, ps)
    ensures var d := ResetIncremental(UpdateView(c, scene.view));
            && Inv(env, d) && Mirrors(t, d) && Unobstructed(env, d, ps) && Missing(t, d) == Missing(t, c)
            && d.view == scene.view && (Agree(t, c) ==> Agree(t, d))
  {
    var d := ResetIncremental(UpdateView(c, scene.view));
    SameRecords(env, t, c, d);
    hide Inv, Mirrors, HomeImage, HomeSlot;
  }

  lemma {:induction false} PassKeepsView(env: Env, s: LegacyPass, ps: seq<Placement>, viewChanged: bool)
    ensures LegacyAll(env, s, ps, viewChanged).cache.view == s.cache.view
    decreases |ps|
  {
    if ps != [] {
      TurnKeepsView(env, s, ps[0], viewChanged);
      hide LegacyOne;
      PassKeepsView(env, LegacyOne(env, s, ps[0], viewChanged), ps[1..], viewChanged);
    }
  }

  lemma {:induction false} TurnKeepsView(env: Env, s: LegacyPass, p: Placement, viewChanged: bool)
    ensures LegacyOne(env, s, p, viewChanged).cache.view == s.cache.view
  {
    hide ResolveSlot, ImageCurrent, Referenced;
  }

  lemma {:induction false} LegacyKeepsView(env: Env, c: Cache, ps: seq<Placement>, viewChanged: bool, order: seq<Slot>)
    ensures Legacy(env, c, ps, viewChanged, order).cache.view == c.view
  {
    var keys := set i | 0 <= i < |ps| && ps[i].key.Terminal? :: ps[i].key;
    PassKeepsView(env, LegacyPass(c.(sources := map k | k in c.sources && k in keys :: c.sources[k]), {}, []), ps, viewChanged);
    hide LegacyAll;
    DropSlotsRemoves(LegacyPlace(env, c, ps, viewChanged).cache, order);
  }
}
