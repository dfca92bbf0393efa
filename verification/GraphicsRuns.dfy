/**
 Agreement and integrity over whole runs: the terminal-only update, the clearing operations,
 the dispatch between them, and every sequence of these with text blits in between.
 */
module GraphicsRuns {
  import opened Common
  import opened HostGraphics
  import opened GraphicsStep
  import opened GraphicsAgreement

  /** Progress of an operation from (t0, c0), stated for the commands emitted so far. */
  ghost predicate Reached(env: Env, t0: Screen, c0: Cache, c: Cache, cmds: seq<Cmd>) {
    Inv(env, c) && Mirrors(ExecuteAll(t0, cmds), c) && Missing(ExecuteAll(t0, cmds), c) <= Missing(t0, c0)
  }

  lemma {:induction false} ReachedThen(env: Env, t0: Screen, c0: Cache, c: Cache, cmds: seq<Cmd>, d: Delta)
    requires Reached(env, t0, c0, c, cmds)
    requires Keeps(env, ExecuteAll(t0, cmds), c, ExecuteAll(ExecuteAll(t0, cmds), d.cmds), d.cache)
    ensures Reached(env, t0, c0, d.cache, cmds + d.cmds)
  {
    ExecuteAllAppend(t0, cmds, d.cmds);
  }

  // --- The terminal-only update ---

  lemma {:induction false} LegacyUploadKeeps(env: Env, t: Screen, c: Cache, p: Placement, slot: Slot)
    requires WellFormed(env, p) && p.key.Terminal? && ResolveSlot(env, c, p) == Some(slot)
    requires !ImageCurrent(c, p, slot.image)
    ensures Keeps(env, t, c, Execute(t, Upload(slot.image, p.sig, p.data)), c.(images := c.images[slot.image := p.sig]))
  {
    if Inv(env, c) && Mirrors(t, c) {
      ResolvedFits(env, c, p, slot);
      assert WithoutImage(t.placements, slot.image) == t.placements;
    }
  }

  lemma {:induction false} LegacyOneKeeps(env: Env, t0: Screen, c0: Cache, s: LegacyPass, p: Placement, viewChanged: bool)
    requires WellFormed(env, p) && p.key.Terminal?
    requires Reached(env, t0, c0, s.cache, s.cmds)
    ensures var s' := LegacyOne(env, s, p, viewChanged); Reached(env, t0, c0, s'.cache, s'.cmds)
  {
    var resolved := ResolveSlot(env, s.cache, p);
    if resolved.Some? && (ImageCurrent(s.cache, p, resolved.value.image) || p.data != []) {
      var slot := resolved.value;
      ResolvedFits(env, s.cache, p, slot);
      hide ResolveSlot;
      var upload := Upload(slot.image, p.sig, p.data);
      var c2 := s.cache;
      var cmds2 := s.cmds;
      if !ImageCurrent(s.cache, p, slot.image) {
        c2 := s.cache.(images := s.cache.images[slot.image := p.sig]);
        cmds2 := s.cmds + [upload];
        LegacyUploadKeeps(env, ExecuteAll(t0, s.cmds), s.cache, p, slot);
        One(ExecuteAll(t0, s.cmds), upload);
        ReachedThen(env, t0, c0, s.cache, s.cmds, Delta(c2, [upload]));
      }
      var released := Release(c2, p.key, slot.image);
      ReleaseKeeps(env, ExecuteAll(t0, cmds2), c2, p.key, slot.image);
      ReachedThen(env, t0, c0, c2, cmds2, released);
      var c3 := released.cache.(replayed := c2.replayed);
      var t3 := ExecuteAll(t0, cmds2 + released.cmds);
      SameRecords(env, t3, released.cache, c3);
      var show := Display(slot, Sig(p).geometry);
      var c4 := c3.(placements := c3.placements[slot := Sig(p)]);
      DisplayKeeps(env, t3, c3, slot, Sig(p));
      One(t3, show);
      ReachedThen(env, t0, c0, c3, cmds2 + released.cmds, Delta(c4, [show]));
    }
  }

  lemma {:induction false} LegacyAllKeeps(
    env: Env, t0: Screen, c0: Cache, s: LegacyPass, ps: seq<Placement>, viewChanged: bool)
    requires forall p | p in ps :: WellFormed(env, p) && p.key.Terminal?
    requires Reached(env, t0, c0, s.cache, s.cmds)
    ensures var s' := LegacyAll(env, s, ps, viewChanged); Reached(env, t0, c0, s'.cache, s'.cmds)
    decreases |ps|
  {
    if ps != [] {
      LegacyOneKeeps(env, t0, c0, s, ps[0], viewChanged);
      LegacyAllKeeps(env, t0, c0, LegacyOne(env, s, ps[0], viewChanged), ps[1..], viewChanged);
    }
  }

  lemma {:induction false} DropSlotsKeeps(env: Env, t: Screen, c: Cache, order: seq<Slot>)
    ensures var d := DropSlots(c, order); Keeps(env, t, c, ExecuteAll(t, d.cmds), d.cache)
    decreases |order|
  {
    if order != [] {
      var c1 := c.(placements := c.placements - {order[0]});
      var t1 := Execute(t, DeletePlacement(order[0]));
      var rest := DropSlots(c1, order[1..]);
      DropSlotsKeeps(env, t1, c1, order[1..]);
      ExecuteAllAppend(t, [DeletePlacement(order[0])], rest.cmds);
      One(t, DeletePlacement(order[0]));
    }
  }

  lemma {:induction false} LegacyStartKeeps(env: Env, t: Screen, c: Cache, c1: Cache)
    requires Inv(env, c) && Mirrors(t, c)
    requires c1 == c.(sources := c1.sources) && forall k | k in c1.sources :: k in c.sources && c1.sources[k] == c.sources[k]
    ensures Reached(env, t, c, c1, [])
  {
  }

  /** The terminal-only update keeps the two in step whatever order stale placements are deleted in. */
  lemma {:induction false} LegacyKeeps(env: Env, t: Screen, c: Cache, ps: seq<Placement>, viewChanged: bool, order: seq<Slot>)
    requires forall p | p in ps :: WellFormed(env, p) && p.key.Terminal?
    ensures var d := Legacy(env, c, ps, viewChanged, order);
            Keeps(env, t, c, ExecuteAll(t, d.cmds), d.cache)
  {
    if Inv(env, c) && Mirrors(t, c) {
      var keys := set i | 0 <= i < |ps| && ps[i].key.Terminal? :: ps[i].key;
      var c1 := c.(sources := map k | k in c.sources && k in keys :: c.sources[k]);
      LegacyStartKeeps(env, t, c, c1);
      LegacyAllKeeps(env, t, c, LegacyPass(c1, {}, []), ps, viewChanged);
      var s := LegacyPlace(env, c, ps, viewChanged);
      hide Inv, Mirrors, LegacyPlace, DropSlots;
      DropSlotsKeeps(env, ExecuteAll(t, s.cmds), s.cache, order);
      ReachedThen(env, t, c, s.cache, s.cmds, DropSlots(s.cache, order));
    }
  }

  // --- Clearing ---

  lemma {:induction false} DropImagesKeeps(env: Env, t: Screen, c: Cache, order: seq<nat>)
    ensures var d := DropImages(c, order); Keeps(env, t, c, ExecuteAll(t, d.cmds), d.cache)
    decreases |order|
  {
    if order != [] {
      if Referenced(c, order[0]) {
        DropImagesKeeps(env, t, c, order[1..]);
      } else {
        var t1 := Execute(t, DeleteImage(order[0]));
        var c1 := DropImage(c, order[0]);
        DropImageKeeps(env, t, c, order[0]);
        DropImagesKeeps(env, t1, c1, order[1..]);
        ExecuteAllAppend(t, [DeleteImage(order[0])], DropImages(c1, order[1..]).cmds);
        One(t, DeleteImage(order[0]));
      }
    }
  }

  lemma {:induction false} ClearPaneSourcesKeeps(env: Env, t: Screen, c: Cache, order: seq<nat>)
    ensures var d := ClearPaneSources(c, order); Keeps(env, t, c, ExecuteAll(t, d.cmds), d.cache)
  {
    var c1 := c.(sources := map k | k in c.sources && !k.PaneLayer? :: c.sources[k]);
    var dropped := DropImages(c1, order);
    DropImagesKeeps(env, t, c1, order);
    SameRecords(env, ExecuteAll(t, dropped.cmds), dropped.cache, ResetIncremental(dropped.cache));
  }

  lemma {:induction false} DeleteAllEmpties(t: Screen, order: seq<nat>)
    ensures var t' := ExecuteAll(t, DeleteAll(order));
            && t'.images.Keys == t.images.Keys - (set id | id in order)
            && t'.placements.Keys == set s | s in t.placements && s.image !in order
    decreases |order|
  {
    if order == [] {
      assert (set s | s in t.placements && s.image !in order) == t.placements.Keys;
    } else {
      var t1 := Execute(t, DeleteImage(order[0]));
      ExecuteAllAppend(t, [DeleteImage(order[0])], DeleteAll(order[1..]));
      One(t, DeleteImage(order[0]));
      DeleteAllEmpties(t1, order[1..]);
      assert forall id :: id in order <==> id == order[0] || id in order[1..];
    }
  }

  /** `clear_bytes` leaves both sides empty. */
  lemma {:induction false} ClearAllKeeps(env: Env, t: Screen, c: Cache, order: seq<nat>)
    requires Enumerates(order, c.images.Keys)
    ensures var d := ClearAll(order);
            && Keeps(env, t, c, ExecuteAll(t, d.cmds), d.cache)
            && (Inv(env, c) && Mirrors(t, c) ==> ExecuteAll(t, d.cmds) == Screen(map[], map[]))
  {
    if Inv(env, c) && Mirrors(t, c) {
      DeleteAllEmpties(t, order);
      var t' := ExecuteAll(t, DeleteAll(order));
      assert t'.images.Keys == {} && t'.placements.Keys == {};
      assert t'.images == map[] && t'.placements == map[];
    }
  }

  lemma {:induction false} ClearNextKeeps(env: Env, t: Screen, c: Cache)
    ensures var r := ClearNext(c); Keeps(env, t, c, ExecuteAll(t, r.cmds), r.cache)
  {
    var ids := Sort(c.images.Keys, IdLess);
    var slots := Sort(c.placements.Keys, SlotLess);
    var r := ClearNext(c);
    if ids != [] {
      One(t, DeleteImage(ids[0]));
      ForgetImageKeeps(env, t, c, r.cache, ids[0]);
    } else if slots != [] {
      One(t, DeletePlacement(slots[0]));
      DropSlotKeeps(env, t, c, slots[0]);
      SameRecords(env, Execute(t, DeletePlacement(slots[0])), DropSlot(c, slots[0]), r.cache);
    } else {
      assert forall id :: id in c.images ==> id in ids;
      assert forall s :: s in c.placements ==> s in slots;
      assert ExecuteAll(t, r.cmds) == t;
    }
  }

  lemma {:induction false} ForgetImageKeeps(env: Env, t: Screen, c: Cache, c': Cache, id: nat)
    requires c'.images == c.images - {id} && c'.placements == WithoutImage(c.placements, id)
    requires c'.sources == map k | k in c.sources && c.sources[k] != id :: c.sources[k]
    ensures Keeps(env, t, c, Execute(t, DeleteImage(id)), c')
  {
  }

  // --- Dispatch and runs ---

  /** The hash-map orders one call happens to see. */
  datatype Orders = Orders(paneImages: seq<nat>, stale: seq<Slot>, images: seq<nat>)

  /** What the app shows: visible or not, its slots, and the placements collected for the view. */
  datatype Scene = Scene(
    visible: bool, hasSlots: bool, placements: seq<Placement>, live: set<SourceKey>, view: Option<View>)

  /** `encode_local_pane_graphics`. */
  function EncodeLocal(
    env: Env, c: Cache, scene: Scene, budget: Option<nat>, replay: bool, orders: Orders
  ): Encoded {
    if !scene.hasSlots then
      var cleared := ClearPaneSources(c, orders.paneImages);
      if !scene.visible then
        var d := ClearAll(orders.images);
        Encoded(d.cache, cleared.cmds + d.cmds, false, false)
      else
        var viewed := ResetIncremental(UpdateView(cleared.cache, scene.view));
        var d := Legacy(env, viewed, scene.placements, cleared.cache.view != scene.view, orders.stale);
        Encoded(d.cache, cleared.cmds + d.cmds, false, false)
    else
      Incremental(env, Asked(c, scene, replay), if scene.visible then scene.placements else [], scene.live, budget)
  }

  /** The orders are iteration orders of the maps they go over. */
  ghost predicate OrdersFit(env: Env, c: Cache, scene: Scene, orders: Orders) {
    !scene.hasSlots ==>
      var cleared := ClearPaneSources(c, orders.paneImages).cache;
      var viewed := ResetIncremental(UpdateView(cleared, scene.view));
      && Enumerates(orders.paneImages, PaneSourceImages(c))
      && Enumerates(orders.images, cleared.images.Keys)
      && Enumerates(orders.stale,
           LegacyStale(LegacyPlace(env, viewed, scene.placements, cleared.view != scene.view)))
  }

  /** Without slots only terminal placements are collected; with slots, layers obey their ids. */
  ghost predicate SceneFits(env: Env, scene: Scene) {
    && AllWellFormed(env, scene.placements)
    && (!scene.hasSlots ==> forall p | p in scene.placements :: p.key.Terminal?)
  }

  lemma {:induction false} KeepsThen(env: Env, t: Screen, c: Cache, d1: Delta, c1: Cache, d2: Delta)
    requires Keeps(env, t, c, ExecuteAll(t, d1.cmds), d1.cache)
    requires c1.images == d1.cache.images && c1.placements == d1.cache.placements && c1.sources == d1.cache.sources
    requires Keeps(env, ExecuteAll(t, d1.cmds), c1, ExecuteAll(ExecuteAll(t, d1.cmds), d2.cmds), d2.cache)
    ensures Keeps(env, t, c, ExecuteAll(t, d1.cmds + d2.cmds), d2.cache)
  {
    hide Inv, Mirrors;
    SameRecords(env, ExecuteAll(t, d1.cmds), d1.cache, c1);
    ExecuteAllAppend(t, d1.cmds, d2.cmds);
  }

  lemma {:induction false} KeepsFrom(env: Env, t: Screen, c: Cache, c1: Cache, r: Encoded)
    requires c1.images == c.images && c1.placements == c.placements && c1.sources == c.sources
    requires Keeps(env, t, c1, ExecuteAll(t, r.cmds), r.cache)
    ensures Keeps(env, t, c, ExecuteAll(t, r.cmds), r.cache)
  {
    SameRecords(env, t, c, c1);
  }

  /** The frame without layer slots: pane layers are cleared, then everything or only the stale. */
  lemma {:induction false} EncodeWithoutSlotsKeeps(
    env: Env, t: Screen, c: Cache, scene: Scene, budget: Option<nat>, replay: bool, orders: Orders)
    requires SceneFits(env, scene) && OrdersFit(env, c, scene, orders) && !scene.hasSlots
    ensures var r := EncodeLocal(env, c, scene, budget, replay, orders);
            Keeps(env, t, c, ExecuteAll(t, r.cmds), r.cache)
  {
    hide Incremental, Legacy, ClearPaneSources, ClearAll, Inv, Mirrors, Enumerates, LegacyStale, Keeps, LegacyPlace;
    var cleared := ClearPaneSources(c, orders.paneImages);
    ClearPaneSourcesKeeps(env, t, c, orders.paneImages);
    var t1 := ExecuteAll(t, cleared.cmds);
    if !scene.visible {
      ClearAllKeeps(env, t1, cleared.cache, orders.images);
      KeepsThen(env, t, c, cleared, cleared.cache, ClearAll(orders.images));
    } else {
      var viewed := ResetIncremental(UpdateView(cleared.cache, scene.view));
      var changed := cleared.cache.view != scene.view;
      LegacyKeeps(env, t1, viewed, scene.placements, changed, orders.stale);
      KeepsThen(env, t, c, cleared, viewed, Legacy(env, viewed, scene.placements, changed, orders.stale));
    }
  }

  /** The frame with layer slots: the view and a replay request change no record, then one incremental call. */
  lemma {:induction false} EncodeWithSlotsKeeps(
    env: Env, t: Screen, c: Cache, scene: Scene, budget: Option<nat>, replay: bool, orders: Orders)
    requires SceneFits(env, scene) && scene.hasSlots
    ensures var r := EncodeLocal(env, c, scene, budget, replay, orders);
            Keeps(env, t, c, ExecuteAll(t, r.cmds), r.cache)
  {
    var asked := Asked(c, scene, replay);
    var ps := if scene.visible then scene.placements else [];
    WithSlotsMeans(env, c, scene, budget, replay, orders);
    hide *;
    IncrementalKeeps(env, t, asked, ps, scene.live, budget);
    KeepsFrom(env, t, c, asked, Incremental(env, asked, ps, scene.live, budget));
  }

  function Asked(c: Cache, scene: Scene, replay: bool): Cache {
    var viewed := UpdateView(c, if scene.visible then scene.view else None);
    if replay then RequestReplay(viewed) else viewed
  }

  lemma {:induction false} WithSlotsMeans(env: Env, c: Cache, scene: Scene, budget: Option<nat>, replay: bool, orders: Orders)
    requires SceneFits(env, scene) && scene.hasSlots
    ensures var asked := Asked(c, scene, replay);
            var ps := if scene.visible then scene.placements else [];
            && EncodeLocal(env, c, scene, budget, replay, orders) == Incremental(env, asked, ps, scene.live, budget)
            && asked.images == c.images && asked.placements == c.placements && asked.sources == c.sources
            && AllWellFormed(env, ps)
  {
    hide Incremental, Legacy, ClearPaneSources, ClearAll, WellFormed;
  }

  lemma {:induction false} EncodeLocalKeeps(
    env: Env, t: Screen, c: Cache, scene: Scene, budget: Option<nat>, replay: bool, orders: Orders)
    requires SceneFits(env, scene) && OrdersFit(env, c, scene, orders)
    ensures var r := EncodeLocal(env, c, scene, budget, replay, orders);
            Keeps(env, t, c, ExecuteAll(t, r.cmds), r.cache)
  {
    hide *;
    if scene.hasSlots {
      EncodeWithSlotsKeeps(env, t, c, scene, budget, replay, orders);
    } else {
      EncodeWithoutSlotsKeeps(env, t, c, scene, budget, replay, orders);
    }
  }

  datatype Event =
    | Encode(scene: Scene, budget: Option<nat>, replay: bool, orders: Orders)
    | ClearBytes(order: seq<nat>)
    | ClearStep
    | Blit(lost: set<Slot>)
    | TrustLayer(key: SourceKey, image: nat, sig: Signature)
    | ForgetLayer(key: SourceKey, image: nat)

  datatype World = World(screen: Screen, cache: Cache)

  const INITIAL: World := World(Screen(map[], map[]), EMPTY_CACHE)

  function Sends(env: Env, c: Cache, e: Event): Delta {
    match e
    case Encode(scene, budget, replay, orders) =>
      var r := EncodeLocal(env, c, scene, budget, replay, orders);
      Delta(r.cache, r.cmds)
    case ClearBytes(order) => ClearAll(order)
    case ClearStep => var r := ClearNext(c); Delta(r.cache, r.cmds)
    case Blit(_) => Delta(c, [])
    case TrustLayer(key, image, sig) => Delta(Trust(c, key, image, sig), [])
    case ForgetLayer(key, image) => Delta(Forget(c, key, image), [])
  }

  function After(env: Env, w: World, e: Event): World {
    var d := Sends(env, w.cache, e);
    var screen := if e.Blit? then w.screen.(placements := w.screen.placements - e.lost) else w.screen;
    World(ExecuteAll(screen, d.cmds), d.cache)
  }

  ghost predicate EventFits(env: Env, c: Cache, e: Event) {
    match e
    case Encode(scene, _, _, orders) => SceneFits(env, scene) && OrdersFit(env, c, scene, orders)
    case ClearBytes(order) => Enumerates(order, c.images.Keys)
    case TrustLayer(key, image, _) => key.PaneLayer? && Belongs(env, key, image)
    case ForgetLayer(key, image) => key.PaneLayer? && Belongs(env, key, image)
    case _ => true
  }

  /** The worlds a run passes through, starting from an empty cache and an empty terminal. */
  function Run(env: Env, events: seq<Event>): World {
    if events == [] then INITIAL else After(env, Run(env, events[..|events| - 1]), events[|events| - 1])
  }

  ghost predicate RunFits(env: Env, events: seq<Event>) {
    events == [] ||
    (RunFits(env, events[..|events| - 1])
     && EventFits(env, Run(env, events[..|events| - 1]).cache, events[|events| - 1]))
  }

  function Lost(events: seq<Event>): set<Slot> {
    if events == [] then {}
    else
      var last := events[|events| - 1];
      Lost(events[..|events| - 1]) + (if last.Blit? then last.lost else {})
  }

  predicate OutOfBand(e: Event) {
    e.TrustLayer? || e.ForgetLayer?
  }

  lemma {:induction false} SendsKeeps(env: Env, t: Screen, c: Cache, e: Event)
    requires EventFits(env, c, e) && !OutOfBand(e)
    ensures var d := Sends(env, c, e); Keeps(env, t, c, ExecuteAll(t, d.cmds), d.cache)
  {
    match e
    case Encode(scene, budget, replay, orders) => EncodeLocalKeeps(env, t, c, scene, budget, replay, orders);
    case ClearBytes(order) => ClearAllKeeps(env, t, c, order);
    case ClearStep => ClearNextKeeps(env, t, c);
    case _ =>
  }

  /**
   Over every run of encodes, clears and blits, cache and terminal hold the same images, the
   terminal shows nothing the cache does not record with the same geometry, and every placement
   it lacks was taken away by a blit.
   */
  lemma {:induction false} RunStaysInStep(env: Env, events: seq<Event>)
    requires RunFits(env, events) && forall e | e in events :: !OutOfBand(e)
    ensures var w := Run(env, events);
            Inv(env, w.cache) && Mirrors(w.screen, w.cache) && Missing(w.screen, w.cache) <= Lost(events)
    decreases |events|
  {
    if events != [] {
      var before := events[..|events| - 1];
      var e := events[|events| - 1];
      RunStaysInStep(env, before);
      var w := Run(env, before);
      var screen := if e.Blit? then w.screen.(placements := w.screen.placements - e.lost) else w.screen;
      assert Mirrors(screen, w.cache) && Missing(screen, w.cache) <= Lost(events);
      SendsKeeps(env, screen, w.cache, e);
    }
  }

  /** A run without blits ends with the terminal holding exactly what the cache records. */
  lemma {:induction false} RunAgrees(env: Env, events: seq<Event>)
    requires RunFits(env, events) && forall e | e in events :: !OutOfBand(e) && !e.Blit?
    ensures var w := Run(env, events);
            && w.screen.images == w.cache.images
            && w.screen.placements == map s | s in w.cache.placements :: w.cache.placements[s].geometry
  {
    RunStaysInStep(env, events);
    NothingLost(events);
    AgreeIsEquality(Run(env, events).screen, Run(env, events).cache);
  }

  lemma {:induction false} NothingLost(events: seq<Event>)
    requires forall e | e in events :: !e.Blit?
    ensures Lost(events) == {}
    decreases |events|
  {
    if events != [] {
      NothingLost(events[..|events| - 1]);
    }
  }

  // --- Referential integrity ---

  lemma {:induction false} EventKeepsInv(env: Env, c: Cache, e: Event)
    requires Inv(env, c) && EventFits(env, c, e)
    ensures Inv(env, Sends(env, c, e).cache)
  {
    if !OutOfBand(e) {
      SendsKeeps(env, Screen(c.images, map[]), c, e);
    }
  }

  /**
   In every reachable cache, layers trusted and forgotten out of band included: each placement's
   and each source's image is known, terminal sources use only hashed ids, a pane-layer id is used
   only by the layer it was reserved for, and each layer id has one slot.
   */
  lemma {:induction false} RunKeepsIntegrity(env: Env, events: seq<Event>)
    requires RunFits(env, events)
    ensures Inv(env, Run(env, events).cache)
    decreases |events|
  {
    if events != [] {
      var before := events[..|events| - 1];
      RunKeepsIntegrity(env, before);
      EventKeepsInv(env, Run(env, before).cache, events[|events| - 1]);
    }
  }

  /** Two placement sources asked for at once never resolve to the same occupied slot. */
  lemma {:induction false} OccupiedSlotIsOwn(env: Env, c: Cache, p: Placement, slot: Slot)
    requires Inv(env, c) && WellFormed(env, p) && ResolveSlot(env, c, p) == Some(slot)
    ensures slot in c.placements ==> c.placements[slot].source == Source(p)
    ensures p.key.Terminal? && slot.image in c.images ==> c.images[slot.image] == p.sig
  {
    ResolvedFits(env, c, p, slot);
  }

  // --- What a call deleted stays deleted ---

  ghost predicate DeletedGone(c: Cache, cmds: seq<Cmd>) {
    forall id | DeleteImage(id) in cmds :: id !in c.images
  }

  lemma {:induction false} UpdateDeletes(env: Env, c: Cache, p: Placement)
    requires Inv(env, c) && WellFormed(env, p) && Update(env, c, p).Some?
    ensures var d := Update(env, c, p).value;
            && DeletedGone(d.cache, d.cmds)
            && (d.cmds == [] ==> d.cache.images == c.images)
  {
    var slot := ResolveSlot(env, c, p).value;
    ResolvedFits(env, c, p, slot);
    hide ResolveSlot;
    var d := Update(env, c, p).value;
    var sent := Transmit(c, p, slot).value;
    var released := Release(sent.cache, p.key, slot.image);
    assert forall id :: DeleteImage(id) !in sent.cmds;
    assert forall id | DeleteImage(id) in d.cmds :: DeleteImage(id) in released.cmds;
  }

  lemma {:induction false} SweepDeadDeletes(s: Pass, dead: seq<SourceKey>, desired: set<nat>)
    requires forall k | k in dead :: k in s.cache.sources
    requires forall i, j | 0 <= i < j < |dead| :: dead[i] != dead[j]
    requires DeletedGone(s.cache, s.cmds)
    ensures var r := SweepDead(s, dead, desired); DeletedGone(r.cache, r.cmds)
    decreases |dead|
  {
    if dead != [] {
      var key := dead[0];
      var image := s.cache.sources[key];
      var last := LastReference(s.cache, key, desired);
      if !(s.emitted && last) {
        var c1 := s.cache.(sources := s.cache.sources - {key});
        SweepDeadDeletes(
          if last
          then s.(cache := DropImage(c1, image), cmds := s.cmds + [DeleteImage(image)], emitted := true)
          else s.(cache := c1), dead[1..], desired);
      }
    }
  }

  lemma {:induction false} SweepOrphansDeletes(s: Pass, orphans: seq<nat>)
    requires DeletedGone(s.cache, s.cmds)
    ensures var r := SweepOrphans(s, orphans); DeletedGone(r.cache, r.cmds)
    decreases |orphans|
  {
    if orphans != [] && !s.emitted {
      SweepOrphansDeletes(
        s.(cache := DropImage(s.cache, orphans[0]), cmds := s.cmds + [DeleteImage(orphans[0])], emitted := true),
        orphans[1..]);
    }
  }

  lemma {:induction false} SweepStaleDeletes(s: Pass, stale: seq<Slot>)
    requires DeletedGone(s.cache, s.cmds)
    ensures var r := SweepStale(s, stale); DeletedGone(r.cache, r.cmds)
    decreases |stale|
  {
    if stale != [] && !s.emitted {
      SweepStaleDeletes(
        s.(cache := DropSlot(s.cache, stale[0]), cmds := s.cmds + [DeletePlacement(stale[0])], emitted := true),
        stale[1..]);
    }
  }

  lemma {:induction false} ServeOneDeletes(env: Env, s: Pass, ps: seq<Placement>, index: nat, budget: Option<nat>)
    requires index < |ps| && AllWellFormed(env, ps)
    requires Inv(env, s.cache) && DeletedGone(s.cache, s.cmds)
    ensures var r := ServeOne(env, s, ps, index, budget); Inv(env, r.cache) && DeletedGone(r.cache, r.cmds)
  {
    hide Update, Inv, Commit, ResolveImage, ImageCurrent, TransactionFits, WellFormed, DeletedGone;
    var p := ps[index];
    var c1 := s.cache.(oversized := s.cache.oversized - {p.key});
    assert p in ps;
    SameInv(env, s.cache, c1);
    SameGone(s.cache, c1, s.cmds);
    if Update(env, c1, p).Some? {
      UpdateDeletes(env, c1, p);
      UpdateKeepsInv(env, c1, p);
    }
    CommitDeletes(env, s, c1, Cursor(Source(p), (index + 1) % |ps|), Update(env, c1, p));
    var c2 := c1.(oversized := c1.oversized[p.key := p.sig]);
    SameInv(env, c1, c2);
    SameGone(c1, c2, s.cmds);
  }

  lemma {:induction false} SameGone(c: Cache, c': Cache, cmds: seq<Cmd>)
    requires c.images == c'.images
    ensures DeletedGone(c, cmds) <==> DeletedGone(c', cmds)
  {
  }

  lemma {:induction false} CommitDeletes(env: Env, s: Pass, c: Cache, cursor: Cursor, update: Option<Delta>)
    requires Inv(env, c) && DeletedGone(s.cache, s.cmds) && c.images == s.cache.images
    requires update.Some? ==>
      var d := update.value;
      Inv(env, d.cache) && DeletedGone(d.cache, d.cmds) && (d.cmds == [] ==> d.cache.images == c.images)
    ensures var r := Commit(s, c, cursor, update); Inv(env, r.cache) && DeletedGone(r.cache, r.cmds)
  {
    if update.Some? {
      SameInv(env, update.value.cache, update.value.cache.(continuation := Some(cursor)));
    }
    hide Inv;
  }

  lemma {:induction false} ServeDeletes(
    env: Env, s: Pass, ps: seq<Placement>, start: nat, offset: nat, budget: Option<nat>)
    requires offset <= |ps| && AllWellFormed(env, ps)
    requires Inv(env, s.cache) && DeletedGone(s.cache, s.cmds)
    ensures var r := Serve(env, s, ps, start, offset, budget); DeletedGone(r.cache, r.cmds)
    decreases |ps| - offset
  {
    hide ServeOne, Inv;
    if offset < |ps| {
      ServeOneDeletes(env, s, ps, (start + offset) % |ps|, budget);
      var next := ServeOne(env, s, ps, (start + offset) % |ps|, budget);
      if !next.stopped {
        ServeDeletes(env, next, ps, start, offset + 1, budget);
      }
    }
  }

  lemma {:induction false} SameInv(env: Env, c: Cache, c': Cache)
    requires c.images == c'.images && c.placements == c'.placements && c.sources == c'.sources
    ensures Inv(env, c) <==> Inv(env, c')
  {
  }

  lemma {:induction false} DeletionsDelete(c: Cache, slots: set<Slot>, keys: set<SourceKey>, live: set<SourceKey>)
    ensures var r := Deletions(c, slots, keys, live); DeletedGone(r.cache, r.cmds)
  {
    var images := DesiredImages(slots);
    LayerLessTotal(DeadSources(c, live));
    SortDistinct(DeadSources(c, live), LayerLess);
    var s0 := Pass(c, [], false, false, false);
    var dead := Sort(DeadSources(c, live), LayerLess);
    SweepDeadDeletes(s0, dead, images);
    var s1 := SweepDead(s0, dead, images);
    hide SweepDead;
    if !s1.stopped {
      var s2 := s1.(cache := Prune(s1.cache, keys, live));
      var orphans := Sort(OrphanImages(s2.cache, live, images), IdLess);
      SweepOrphansDeletes(s2, orphans);
      var s3 := SweepOrphans(s2, orphans);
      if !s3.stopped {
        SweepStaleDeletes(s3, Sort(StaleSlots(s3.cache, slots), SlotLess));
      }
    }
  }

  /** After an incremental call, no source and no placement refers to an image that call deleted. */
  lemma {:induction false} NoReferenceToDeleted(env: Env, c: Cache, ps: seq<Placement>, live: set<SourceKey>, budget: Option<nat>)
    requires Inv(env, c) && AllWellFormed(env, ps)
    ensures var r := Incremental(env, c, ps, live, budget);
            forall id | DeleteImage(id) in r.cmds ::
              && (forall k | k in r.cache.sources :: r.cache.sources[k] != id)
              && (forall s | s in r.cache.placements :: s.image != id)
  {
    var r := Incremental(env, c, ps, live, budget);
    var t := Screen(c.images, map[]);
    var slots := DesiredSlots(env, c, ps);
    IncrementalKeeps(env, t, c, ps, live, budget);
    DeletionsDelete(c, slots, DesiredKeys(ps), live);
    DeletionsKeep(env, t, c, slots, DesiredKeys(ps), live);
    hide Deletions, Serve;
    var s := Deletions(c, slots, DesiredKeys(ps), live);
    if !s.stopped {
      ServeDeletes(env, s, ps, StartIndex(c, ps), 0, budget);
    }
    assert DeletedGone(r.cache, r.cmds);
  }

  // --- Every operation: deleted images, and images sent again after their deletion ---

  /** Transmits an image under this id. */
  predicate Transmits(cmd: Cmd, id: nat) {
    match cmd
    case Upload(image, _, _) => image == id
    case TransmitAndDisplay(slot, _, _, _) => slot.image == id
    case _ => false
  }

  /** No command of the batch transmits the image after the last deletion of it. */
  ghost predicate StaysDeleted(cmds: seq<Cmd>, id: nat) {
    exists i :: 0 <= i < |cmds| && cmds[i] == DeleteImage(id) && forall j | i < j < |cmds| :: !Transmits(cmds[j], id)
  }

  /** The image is not there and nothing refers to it. */
  ghost predicate Unused(c: Cache, id: nat) {
    && id !in c.images
    && (forall k | k in c.sources :: c.sources[k] != id)
    && (forall s | s in c.placements :: s.image != id)
  }

  lemma {:induction false} NotThereUnused(env: Env, c: Cache, id: nat)
    requires Inv(env, c) && id !in c.images
    ensures Unused(c, id)
  {
    hide Belongs, SlotFits;
  }

  lemma {:induction false} NotTransmitted(t: Screen, cmds: seq<Cmd>, id: nat)
    requires id !in t.images && forall j | 0 <= j < |cmds| :: !Transmits(cmds[j], id)
    ensures id !in ExecuteAll(t, cmds).images
    decreases |cmds|
  {
    if cmds != [] {
      assert id !in Execute(t, cmds[0]).images;
      NotTransmitted(Execute(t, cmds[0]), cmds[1..], id);
    }
  }

  lemma {:induction false} NotDeleted(t: Screen, cmds: seq<Cmd>, id: nat)
    requires id in t.images && DeleteImage(id) !in cmds
    ensures id in ExecuteAll(t, cmds).images
    decreases |cmds|
  {
    if cmds != [] {
      assert cmds[0] in cmds && id in Execute(t, cmds[0]).images;
      NotDeleted(Execute(t, cmds[0]), cmds[1..], id);
    }
  }

  /** Of a deleted image a batch leaves nothing if and only if it does not transmit it again. */
  lemma {:induction false} DeletedUnlessSentAgain(t: Screen, cmds: seq<Cmd>, id: nat)
    requires DeleteImage(id) in cmds
    ensures id in ExecuteAll(t, cmds).images <==> !StaysDeleted(cmds, id)
    decreases |cmds|
  {
    var t1, rest := Execute(t, cmds[0]), cmds[1..];
    if DeleteImage(id) in rest {
      DeletedUnlessSentAgain(t1, rest, id);
      assert StaysDeleted(rest, id) <==> StaysDeleted(cmds, id) by {
        if i :| 0 <= i < |rest| && rest[i] == DeleteImage(id) && forall j | i < j < |rest| :: !Transmits(rest[j], id) {
          assert cmds[i + 1] == DeleteImage(id);
          assert forall j | i + 1 < j < |cmds| :: cmds[j] == rest[j - 1];
        }
        if StaysDeleted(cmds, id) {
          LaterDeletion(cmds, id);
        }
      }
    } else {
      assert cmds[0] == DeleteImage(id);
      if StaysDeleted(cmds, id) {
        forall j | 0 <= j < |rest| ensures !Transmits(rest[j], id) {
          assert rest[j] == cmds[j + 1] && rest[j] in rest;
        }
        NotTransmitted(t1, rest, id);
      } else {
        var j :| 0 < j < |cmds| && Transmits(cmds[j], id);
        TransmittedIsThere(t1, rest, id, j - 1);
      }
    }
  }

  lemma {:induction false} LaterDeletion(cmds: seq<Cmd>, id: nat)
    requires |cmds| > 0 && StaysDeleted(cmds, id) && DeleteImage(id) in cmds[1..]
    ensures StaysDeleted(cmds[1..], id)
  {
    var rest := cmds[1..];
    var i :| 0 <= i < |cmds| && cmds[i] == DeleteImage(id) && forall j | i < j < |cmds| :: !Transmits(cmds[j], id);
    var k :| 0 <= k < |rest| && rest[k] == DeleteImage(id);
    var m := if i == 0 then k else i - 1;
    assert rest[m] == DeleteImage(id);
    forall j | m < j < |rest| ensures !Transmits(rest[j], id) {
      assert rest[j] == cmds[j + 1];
    }
  }

  lemma {:induction false} TransmittedIsThere(t: Screen, cmds: seq<Cmd>, id: nat, j: nat)
    requires DeleteImage(id) !in cmds && j < |cmds| && Transmits(cmds[j], id)
    ensures id in ExecuteAll(t, cmds).images
    decreases |cmds|
  {
    if j == 0 {
      NotDeleted(Execute(t, cmds[0]), cmds[1..], id);
    } else {
      TransmittedIsThere(Execute(t, cmds[0]), cmds[1..], id, j - 1);
    }
  }

  /** What an operation that keeps both sides in step leaves of an image it deleted. */
  lemma {:induction false} KeptAfter(env: Env, c: Cache, d: Delta, id: nat)
    requires Inv(env, c) && DeleteImage(id) in d.cmds
    requires var t := Screen(c.images, map[]); Keeps(env, t, c, ExecuteAll(t, d.cmds), d.cache)
    ensures Unused(d.cache, id) <==> StaysDeleted(d.cmds, id)
  {
    var t := Screen(c.images, map[]);
    DeletedUnlessSentAgain(t, d.cmds, id);
    hide StaysDeleted, Inv;
    if id !in d.cache.images {
      NotThereUnused(env, d.cache, id);
    }
  }

  /**
   Of an image that an operation deletes, whichever it is, nothing is left and nothing refers to it,
   if and only if the operation does not transmit it again after deleting it.
   */
  lemma {:induction false} EventForgetsDeleted(env: Env, c: Cache, e: Event, id: nat)
    requires Inv(env, c) && EventFits(env, c, e) && !OutOfBand(e)
    requires DeleteImage(id) in Sends(env, c, e).cmds
    ensures var d := Sends(env, c, e); Unused(d.cache, id) <==> StaysDeleted(d.cmds, id)
  {
    hide *;
    SendsKeeps(env, Screen(c.images, map[]), c, e);
    KeptAfter(env, c, Sends(env, c, e), id);
  }

  lemma {:induction false} DropImagesOnlyDelete(c: Cache, order: seq<nat>)
    ensures forall cmd | cmd in DropImages(c, order).cmds :: cmd.DeleteImage?
    decreases |order|
  {
    if order != [] {
      DropImagesOnlyDelete(c, order[1..]);
      DropImagesOnlyDelete(DropImage(c, order[0]), order[1..]);
    }
  }

  lemma {:induction false} OnlyDeletesStayDeleted(cmds: seq<Cmd>, id: nat)
    requires DeleteImage(id) in cmds && forall cmd | cmd in cmds :: cmd.DeleteImage?
    ensures StaysDeleted(cmds, id)
  {
    var i :| 0 <= i < |cmds| && cmds[i] == DeleteImage(id);
    forall j | i < j < |cmds| ensures !Transmits(cmds[j], id) {
      assert cmds[j] in cmds;
    }
  }

  lemma {:induction false} ClearPanesForgets(env: Env, c: Cache, order: seq<nat>, id: nat)
    requires Inv(env, c) && DeleteImage(id) in ClearPaneSources(c, order).cmds
    ensures Unused(ClearPaneSources(c, order).cache, id)
  {
    var t := Screen(c.images, map[]);
    var d := ClearPaneSources(c, order);
    DropImagesOnlyDelete(c.(sources := map k | k in c.sources && !k.PaneLayer? :: c.sources[k]), order);
    hide DropImages, StaysDeleted, Unused, Referenced;
    assert forall cmd | cmd in d.cmds :: cmd.DeleteImage?;
    hide *;
    KeptAfter(env, c, d, id) by {
      ClearPaneSourcesKeeps(env, t, c, order);
    }
    OnlyDeletesStayDeleted(d.cmds, id);
  }

  lemma {:induction false} ClearNextForgets(env: Env, c: Cache, id: nat)
    requires Inv(env, c) && DeleteImage(id) in ClearNext(c).cmds
    ensures Unused(ClearNext(c).cache, id)
  {
    ClearNextKeeps(env, Screen(c.images, map[]), c);
    assert id !in ClearNext(c).cache.images;
    hide ClearNext, ExecuteAll, Inv;
    NotThereUnused(env, ClearNext(c).cache, id);
  }

  /** The clearing operations never send: nothing refers to an image one of them deleted. */
  lemma {:induction false} ClearForgetsDeleted(env: Env, c: Cache, order: seq<nat>, id: nat)
    requires Inv(env, c)
    ensures DeleteImage(id) in ClearPaneSources(c, order).cmds ==> Unused(ClearPaneSources(c, order).cache, id)
    ensures DeleteImage(id) in ClearNext(c).cmds ==> Unused(ClearNext(c).cache, id)
    ensures DeleteImage(id) in ClearAll(order).cmds ==> Unused(ClearAll(order).cache, id)
  {
    hide Inv, ClearPaneSources, ClearNext;
    if DeleteImage(id) in ClearPaneSources(c, order).cmds {
      ClearPanesForgets(env, c, order, id);
    }
    if DeleteImage(id) in ClearNext(c).cmds {
      ClearNextForgets(env, c, id);
    }
  }

  // --- The terminal-only update can delete an image and send it again ---

  /** Two terminal images, where the first moves on from the image that the second now wants. */
  ghost predicate HandsOver(env: Env, c: Cache, p: Placement, q: Placement, a: nat, b: nat) {
    && WellFormed(env, p) && WellFormed(env, q) && p.key.Terminal? && q.key.Terminal? && p.key != q.key
    && p.clip.Some? && q.clip.Some? && p.data != [] && q.data != []
    && ImageStart(env, q) == a && ImageStart(env, p) == b && a != b
    && c == EMPTY_CACHE.(images := map[a := q.sig], sources := map[p.key := a])
  }

  /** The image is deleted when the first moves on, sent again for the second, and used by it. */
  lemma {:induction false} LegacyMapsDeletedAgain(env: Env, c: Cache, p: Placement, q: Placement, a: nat, b: nat, viewChanged: bool)
    requires HandsOver(env, c, p, q, a, b)
    ensures Inv(env, c)
    ensures var d := Legacy(env, c, [p, q], viewChanged, []);
            && Enumerates([], LegacyStale(LegacyPlace(env, c, [p, q], viewChanged)))
            && DeleteImage(a) in d.cmds && q.key in d.cache.sources && d.cache.sources[q.key] == a
            && !StaysDeleted(d.cmds, a)
  {
    HandsOverMeans(env, c, p, q, a, b);
    hide *;
    var s1 := FirstHandsOver(env, c, p, q, a, b, viewChanged);
    SecondTakesOver(env, s1, p, q, a, b, viewChanged);
    LegacyOfTwo(env, c, p, q, viewChanged);
    var s2 := LegacyOne(env, s1, q, viewChanged);
    NothingStale(env, c, p, q, s2, viewChanged);
    SentAgain(s2.cmds, p, q, a, b, Slot(b, PlacementStart(env, Source(p))), Slot(a, PlacementStart(env, Source(q))));
  }

  lemma {:induction false} HandsOverMeans(env: Env, c: Cache, p: Placement, q: Placement, a: nat, b: nat)
    requires HandsOver(env, c, p, q, a, b)
    ensures WellFormed(env, q) && p.key.Terminal? && q.key.Terminal? && p.key != q.key
    ensures p.clip.Some? && q.clip.Some? && q.data != [] && ImageStart(env, q) == a && a != b
    ensures Inv(env, c) && forall k | k in c.sources :: k == p.key
  {
  }

  lemma {:induction false} LegacyOfTwo(env: Env, c: Cache, p: Placement, q: Placement, viewChanged: bool)
    requires p.key.Terminal? && forall k | k in c.sources :: k == p.key
    ensures LegacyPlace(env, c, [p, q], viewChanged)
         == LegacyOne(env, LegacyOne(env, LegacyPass(c, {}, []), p, viewChanged), q, viewChanged)
  {
    var ps := [p, q];
    var keys := set i | 0 <= i < |ps| && ps[i].key.Terminal? :: ps[i].key;
    assert ps[0].key in keys;
    assert c.(sources := map k | k in c.sources && k in keys :: c.sources[k]) == c;
    hide LegacyOne;
    var s0 := LegacyPass(c, {}, []);
    var s1 := LegacyOne(env, s0, p, viewChanged);
    assert ps[1..] == [q] && [q][1..] == [];
    assert LegacyAll(env, s1, [q], viewChanged) == LegacyAll(env, LegacyOne(env, s1, q, viewChanged), [], viewChanged);
  }

  lemma {:induction false} NothingStale(env: Env, c: Cache, p: Placement, q: Placement, s: LegacyPass, viewChanged: bool)
    requires s == LegacyPlace(env, c, [p, q], viewChanged) && s.cache.placements.Keys == s.current
    ensures Enumerates([], LegacyStale(LegacyPlace(env, c, [p, q], viewChanged)))
    ensures Legacy(env, c, [p, q], viewChanged, []) == Delta(s.cache, s.cmds)
  {
    hide LegacyPlace;
    assert LegacyStale(s) == {};
  }

  lemma {:induction false} SentAgain(cmds: seq<Cmd>, p: Placement, q: Placement, a: nat, b: nat, x: Slot, y: Slot)
    requires p.clip.Some? && q.clip.Some?
    requires cmds == [Upload(b, p.sig, p.data), DeleteImage(a), Display(x, Sig(p).geometry)]
                     + [Upload(a, q.sig, q.data), Display(y, Sig(q).geometry)]
    ensures DeleteImage(a) in cmds && !StaysDeleted(cmds, a)
  {
    assert cmds[1] == DeleteImage(a) && Transmits(cmds[3], a);
  }

  lemma {:induction false} FirstHandsOver(env: Env, c: Cache, p: Placement, q: Placement, a: nat, b: nat, viewChanged: bool) returns (s: LegacyPass)
    requires HandsOver(env, c, p, q, a, b)
    ensures s == LegacyOne(env, LegacyPass(c, {}, []), p, viewChanged)
    ensures var slot := Slot(b, PlacementStart(env, Source(p)));
            && s.current == {slot} && s.cmds == [Upload(b, p.sig, p.data), DeleteImage(a), Display(slot, Sig(p).geometry)]
            && s.cache == EMPTY_CACHE.(images := map[b := p.sig], sources := map[p.key := b], placements := map[slot := Sig(p)])
  {
    s := LegacyOne(env, LegacyPass(c, {}, []), p, viewChanged);
  }

  lemma {:induction false} SecondTakesOver(env: Env, s: LegacyPass, p: Placement, q: Placement, a: nat, b: nat, viewChanged: bool)
    requires WellFormed(env, q) && q.key.Terminal? && p.key != q.key && p.clip.Some? && q.clip.Some? && q.data != []
    requires ImageStart(env, q) == a && a != b
    requires var slot := Slot(b, PlacementStart(env, Source(p)));
             && s.current == {slot}
             && s.cache == EMPTY_CACHE.(images := map[b := p.sig], sources := map[p.key := b], placements := map[slot := Sig(p)])
    ensures var slot := Slot(a, PlacementStart(env, Source(q)));
            var r := LegacyOne(env, s, q, viewChanged);
            && r.cmds == s.cmds + [Upload(a, q.sig, q.data), Display(slot, Sig(q).geometry)]
            && r.current == s.current + {slot}
            && r.cache.placements.Keys == r.current
            && r.cache.sources == map[p.key := b, q.key := a]
  {
  }
}
