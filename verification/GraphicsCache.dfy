/**
 The cache object: its fields are updated in place, loop by loop and early return by early
 return, and each method is proved to do what the functions of `GraphicsStep` say.
 */
module GraphicsCache {
  import opened Common
  import opened HostGraphics
  import opened GraphicsStep
  import opened GraphicsAgreement
  import opened GraphicsDrain
  import opened GraphicsConvergence
  import opened GraphicsDrainLoop
  import opened GraphicsReplay
  import opened GraphicsElision
  import opened GraphicsCuts
  import opened GraphicsFrames
  import opened GraphicsRuns

  class HostGraphicsCache {
    var images: map<nat, Signature>
    var placements: map<Slot, PlacementSig>
    var sources: map<SourceKey, nat>
    var oversized: map<SourceKey, Signature>
    var continuation: Option<Cursor>
    var view: Option<View>
    var replay: bool
    var replayed: set<Slot>

    function State(): Cache
      reads this
    {
      Cache(images, placements, sources, oversized, continuation, view, replay, replayed)
    }

    constructor ()
      ensures State() == EMPTY_CACHE
    {
      images, placements, sources, oversized := map[], map[], map[], map[];
      continuation, view, replay, replayed := None, None, false, {};
    }

    constructor Clone(other: HostGraphicsCache)
      ensures State() == other.State()
    {
      images, placements, sources, oversized := other.images, other.placements, other.sources, other.oversized;
      continuation, view, replay, replayed := other.continuation, other.view, other.replay, other.replayed;
    }

    /** `*cache = candidate`. */
    method Become(other: HostGraphicsCache)
      modifies this
      ensures State() == other.State()
    {
      images, placements, sources, oversized := other.images, other.placements, other.sources, other.oversized;
      continuation, view, replay, replayed := other.continuation, other.view, other.replay, other.replayed;
    }

    method ForgetImage(id: nat)
      modifies this
      ensures State() == DropImage(old(State()), id)
    {
      images := images - {id};
      placements := WithoutImage(placements, id);
      replayed := WithoutSlots(replayed, id);
    }

    /** `release_superseded_source_image`. */
    method ReleaseSuperseded(key: SourceKey, image: nat) returns (cmds: seq<Cmd>)
      modifies this
      ensures Delta(State(), cmds) == Release(old(State()), key, image)
    {
      cmds := [];
      var known := key in sources;
      var previous := if known then sources[key] else image;
      sources := sources[key := image];
      if !known || previous == image || Referenced(State(), previous) {
        return;
      }
      cmds := [DeleteImage(previous)];
      ForgetImage(previous);
    }

    /** The image part of `encode_placement_update`: upload, or replace a layer's image where it stands. */
    method SendImage(p: Placement, slot: Slot) returns (sent: Option<seq<Cmd>>, displayed: bool)
      requires p.clip.Some?
      modifies this
      ensures match Transmit(old(State()), p, slot)
              case None => sent.None?
              case Some(d) => sent == Some(d.cmds) && State() == d.cache
      ensures sent.Some? ==> displayed == ReplacesInPlace(old(State()), p, slot)
    {
      displayed := false;
      if ImageCurrent(State(), p, slot.image) {
        return Some([]), false;
      }
      if p.data == [] {
        return None, false;
      }
      var bytes: seq<Cmd> := [];
      if slot.image in images && p.key.PaneLayer? {
        bytes := [TransmitAndDisplay(slot, p.sig, Sig(p).geometry, p.data)];
        displayed := true;
      } else {
        if slot.image in images {
          bytes := [DeleteImage(slot.image)];
          placements := WithoutImage(placements, slot.image);
          replayed := WithoutSlots(replayed, slot.image);
        }
        bytes := bytes + [Upload(slot.image, p.sig, p.data)];
        assert ReplacesInPlace(old(State()), p, slot) == displayed;
      }
      images := images[slot.image := p.sig];
      assert Transmit(old(State()), p, slot).value.cmds == bytes;
      assert Transmit(old(State()), p, slot).value.cache == State();
      sent := Some(bytes);
    }

    /**
     `encode_placement_update`. A failed update may leave this object changed: it is always run on
     a copy that is then thrown away.
     */
    method EncodePlacementUpdate(env: Env, p: Placement) returns (cmds: Option<seq<Cmd>>)
      modifies this
      ensures match Update(env, old(State()), p)
              case None => cmds.None?
              case Some(d) => cmds == Some(d.cmds) && State() == d.cache
    {
      var resolved := ResolveSlot(env, State(), p);
      if resolved.None? {
        return None;
      }
      var slot := resolved.value;
      hide ResolveSlot, ImageCurrent, PlacementCurrent, Maps, Release, Transmit, ReplacesInPlace, Sig;
      var signature := Sig(p);
      var placementCurrent := PlacementCurrent(State(), p, slot);
      if ImageCurrent(State(), p, slot.image) && placementCurrent && Maps(State(), p.key, slot.image) {
        return None;
      }
      var sent, displayed := SendImage(p, slot);
      if sent.None? {
        return None;
      }
      var bytes := sent.value;
      var released := ReleaseSuperseded(p.key, slot.image);
      bytes := bytes + released;
      assert bytes + [] == bytes;
      if !displayed && !placementCurrent {
        bytes := bytes + [Display(slot, signature.geometry)];
      }
      placements := placements[slot := signature];
      if replay {
        replayed := replayed + {slot};
      }
      cmds := Some(bytes);
    }

    /** The loop over dead sources; `stopped` is the early return. */
    method DropDeadSources(dead: seq<SourceKey>, desired: set<nat>) returns (s: Pass)
      requires forall k | k in dead :: k in sources
      requires forall i, j | 0 <= i < j < |dead| :: dead[i] != dead[j]
      modifies this
      ensures s == SweepDead(Pass(old(State()), [], false, false, false), dead, desired)
      ensures State() == s.cache
    {
      hide LastReference, WithoutImage, WithoutSlots;
      var cmds: seq<Cmd> := [];
      var emitted := false;
      var i := 0;
      ghost var whole := SweepDead(Pass(State(), [], false, false, false), dead, desired);
      assert dead[0..] == dead;
      while i < |dead|
        invariant 0 <= i <= |dead|
        invariant forall k | k in dead[i..] :: k in sources
        invariant whole == SweepDead(Pass(State(), cmds, emitted, false, false), dead[i..], desired)
      {
        var key := dead[i];
        assert dead[i..][0] == key && dead[i..][1..] == dead[i + 1..];
        assert key in dead[i..];
        var image := sources[key];
        var last := LastReference(State(), key, desired);
        if emitted && last {
          return Pass(State(), cmds, emitted, true, false);
        }
        sources := sources - {key};
        if last {
          cmds := cmds + [DeleteImage(image)];
          ForgetImage(image);
          emitted := true;
        }
        i := i + 1;
      }
      s := Pass(State(), cmds, emitted, false, false);
    }

    method DropOrphans(before: Pass, orphans: seq<nat>) returns (s: Pass)
      requires before.cache == State()
      modifies this
      ensures s == SweepOrphans(before, orphans) && State() == s.cache
    {
      s := before;
      var i := 0;
      assert orphans[0..] == orphans;
      while i < |orphans|
        invariant 0 <= i <= |orphans| && s.cache == State()
        invariant SweepOrphans(before, orphans) == SweepOrphans(s, orphans[i..])
      {
        var id := orphans[i];
        assert orphans[i..][0] == id && orphans[i..][1..] == orphans[i + 1..];
        if s.emitted {
          return s.(stopped := true);
        }
        ForgetImage(id);
        s := s.(cache := State(), cmds := s.cmds + [DeleteImage(id)], emitted := true);
        i := i + 1;
      }
    }

    method DropStale(before: Pass, stale: seq<Slot>) returns (s: Pass)
      requires before.cache == State()
      modifies this
      ensures s == SweepStale(before, stale) && State() == s.cache
    {
      s := before;
      var i := 0;
      assert stale[0..] == stale;
      while i < |stale|
        invariant 0 <= i <= |stale| && s.cache == State()
        invariant SweepStale(before, stale) == SweepStale(s, stale[i..])
      {
        var slot := stale[i];
        assert stale[i..][0] == slot && stale[i..][1..] == stale[i + 1..];
        if s.emitted {
          return s.(stopped := true);
        }
        placements := placements - {slot};
        replayed := replayed - {slot};
        s := s.(cache := State(), cmds := s.cmds + [DeletePlacement(slot)], emitted := true);
        i := i + 1;
      }
    }

    /** `let mut candidate = cache.clone()` and the update on it; this object does not change. */
    method TryUpdate(env: Env, p: Placement) returns (candidate: HostGraphicsCache, cmds: Option<seq<Cmd>>)
      ensures fresh(candidate)
      ensures match Update(env, State(), p)
              case None => cmds.None?
              case Some(d) => cmds == Some(d.cmds) && candidate.State() == d.cache
    {
      hide Update;
      candidate := new HostGraphicsCache.Clone(this);
      cmds := candidate.EncodePlacementUpdate(env, p);
    }

    method TryAndCommit(env: Env, before: Pass, p: Placement, cursor: Cursor) returns (s: Pass)
      modifies this
      ensures s == Commit(before, old(State()), cursor, Update(env, old(State()), p)) && State() == s.cache
    {
      hide Update;
      s := before.(cache := State());
      var candidate, transaction := TryUpdate(env, p);
      if transaction.None? {
        return;
      }
      if transaction.value == [] {
        Become(candidate);
        return s.(cache := State());
      }
      if s.emitted {
        return s.(stopped := true);
      }
      Become(candidate);
      continuation := Some(cursor);
      s := s.(cache := State(), cmds := transaction.value, emitted := true);
    }

    /** One round of the placement loop: the update runs on a copy and is committed only if it is to be sent. */
    method ServePlacement(env: Env, before: Pass, ps: seq<Placement>, index: nat, budget: Option<nat>)
      returns (s: Pass)
      requires index < |ps| && before.cache == State()
      modifies this
      ensures s == ServeOne(env, before, ps, index, budget) && State() == s.cache
    {
      hide Update;
      var p := ps[index];
      s := before;
      if budget.Some? && p.key in oversized && oversized[p.key] == p.sig {
        return s.(skipped := true);
      }
      oversized := oversized - {p.key};
      s := s.(cache := State());
      hide ResolveImage, TransactionFits, ImageCurrent, Commit;
      var image := ResolveImage(env, p, images);
      if image.None? {
        return;
      }
      if !ImageCurrent(State(), p, image.value) && !TransactionFits(p.sig.dataLen, budget) {
        oversized := oversized[p.key := p.sig];
        return s.(cache := State(), skipped := true);
      }
      s := TryAndCommit(env, before, p, Cursor(Source(p), (index + 1) % |ps|));
    }

    method ServePlacements(env: Env, before: Pass, ps: seq<Placement>, start: nat, budget: Option<nat>)
      returns (s: Pass)
      requires before.cache == State()
      modifies this
      ensures s == Serve(env, before, ps, start, 0, budget) && State() == s.cache
    {
      hide ServeOne;
      s := before;
      var offset := 0;
      while offset < |ps|
        invariant 0 <= offset <= |ps| && s.cache == State()
        invariant Serve(env, before, ps, start, 0, budget) == Serve(env, s, ps, start, offset, budget)
      {
        s := ServePlacement(env, s, ps, (start + offset) % |ps|, budget);
        if s.stopped {
          return;
        }
        offset := offset + 1;
      }
    }

    /** The deletion phases of `encode_graphics_update_incremental`. */
    method RunDeletions(slots: set<Slot>, keys: set<SourceKey>, live: set<SourceKey>) returns (s: Pass)
      modifies this
      ensures s == Deletions(old(State()), slots, keys, live) && State() == s.cache
    {
      hide SweepDead, SweepOrphans, SweepStale, Sort;
      var desired := DesiredImages(slots);
      LayerLessTotal(DeadSources(State(), live));
      SortDistinct(DeadSources(State(), live), LayerLess);
      s := DropDeadSources(Sort(DeadSources(State(), live), LayerLess), desired);
      if s.stopped {
        return;
      }
      var pruned := Prune(State(), keys, live);
      sources, oversized := pruned.sources, pruned.oversized;
      s := s.(cache := State());
      s := DropOrphans(s, Sort(OrphanImages(State(), live, desired), IdLess));
      if s.stopped {
        return;
      }
      s := DropStale(s, Sort(StaleSlots(State(), slots), SlotLess));
    }

    /** `encode_graphics_update_incremental`. */
    method EncodeIncremental(env: Env, ps: seq<Placement>, live: set<SourceKey>, budget: Option<nat>)
      returns (r: Encoded)
      modifies this
      ensures r == Incremental(env, old(State()), ps, live, budget) && State() == r.cache
    {
      hide Serve, Deletions, DesiredSlots, DesiredKeys, StartIndex;
      var start := StartIndex(State(), ps);
      var s := RunDeletions(DesiredSlots(env, State(), ps), DesiredKeys(ps), live);
      if s.stopped {
        return Encoded(State(), s.cmds, true, false);
      }
      s := ServePlacements(env, s, ps, start, budget);
      if s.stopped {
        return Encoded(State(), s.cmds, true, s.skipped);
      }
      replay, replayed := false, {};
      r := Encoded(State(), s.cmds, false, s.skipped);
    }

    /**
     The loop of `paint_local_pane_graphics`: every round collects the scene anew, with pixels only for images
     that are not there, and asks for a replay, which does nothing while one is pending. It terminates, and
     what it leaves on any terminal that was in step is known exactly.
     */
    method Paint(env: Env, full: seq<Placement>, live: set<SourceKey>) returns (cmds: seq<Cmd>)
      requires Steady(env, full, live) && Good(env, State(), full) && AllPixels(full)
      modifies this
      ensures var asked := RequestReplay(old(State()));
              && Good(env, asked, full) && Delta(State(), cmds) == FrameDrain(env, asked, full, live)
              && Good(env, State(), full) && Tidy(env, State(), full, live) && !replay
              && (MatchingIsMapped(env, asked, full) ==> (ShowsExactly(env, State(), full) <==> Uncut(env, asked, full)))
      ensures var asked := RequestReplay(old(State()));
              MatchingIsMapped(env, asked, full) ==>
                forall t | Mirrors(t, old(State())) ::
                  && Mirrors(ExecuteAll(t, cmds), State())
                  && Missing(ExecuteAll(t, cmds), State()) == Missing(t, old(State())) * Overlooked(env, asked, full, None)
      ensures !old(replay) ==>
                forall t | Mirrors(t, old(State())) ::
                  && Agree(ExecuteAll(t, cmds), State())
                  && (OnScreen(env, ExecuteAll(t, cmds), full) <==> Uncut(env, RequestReplay(old(State())), full))
    {
      hide Incremental, Steady, Good, AllPixels, MatchingIsMapped, ShowsExactly, Tidy, Uncut, FrameDrain, Collect, Work,
           RequestReplay, ExecuteAll, Mirrors, Missing, Overlooked, Agree, OnScreen;
      AskedIsGood(env, State(), full, live);
      ghost var asked := RequestReplay(State());
      ghost var whole := FrameDrain(env, asked, full, live);
      FrameResult(env, State(), full, live);
      cmds := [];
      assert Prepend([], whole) == whole;
      var more := true;
      while more
        invariant Good(env, State(), full) && Good(env, RequestReplay(State()), full)
        invariant more ==> whole == Prepend(cmds, FrameDrain(env, RequestReplay(State()), full, live))
        invariant !more ==> whole == Delta(State(), cmds)
        decreases more, if more then Work(env, RequestReplay(State()), full, live) else {}
      {
        AskedCollects(env, State(), full);
        AskedTwice(State());
        var ps := Collect(env, State(), full);
        AskReplay();
        FrameRound(env, State(), full, live, cmds);
        var r := EncodeIncremental(env, ps, live, None);
        AskedIsGood(env, State(), full, live);
        AskedTwice(State());
        cmds := cmds + r.cmds;
        more := r.incomplete;
      }
    }

    /** `request_placement_replay`. */
    method AskReplay()
      modifies this
      ensures State() == RequestReplay(old(State()))
    {
      if !replay {
        replay, replayed := true, {};
      }
    }

    /** `update_view`. */
    method ChangeView(next: Option<View>) returns (changed: bool)
      modifies this
      ensures changed == (old(view) != next) && State() == UpdateView(old(State()), next)
    {
      if view == next {
        return false;
      }
      view, continuation := next, None;
      changed := true;
    }

    // --- The terminal-only update and clearing ---

    /** One placement of the terminal-only update. */
    method PlaceLegacy(env: Env, before: LegacyPass, p: Placement, viewChanged: bool) returns (s: LegacyPass)
      requires before.cache == State()
      modifies this
      ensures s == LegacyOne(env, before, p, viewChanged) && State() == s.cache
    {
      s := before;
      var resolved := ResolveSlot(env, State(), p);
      if resolved.None? {
        return;
      }
      hide ResolveSlot;
      var slot := resolved.value;
      s := s.(current := s.current + {slot});
      if !ImageCurrent(State(), p, slot.image) {
        if p.data == [] {
          return;
        }
        images := images[slot.image := p.sig];
        s := s.(cache := State(), cmds := s.cmds + [Upload(slot.image, p.sig, p.data)]);
      }
      ghost var s2 := s;
      var marks := replayed;
      var shown := placements;
      var released := ReleaseSuperseded(p.key, slot.image);
      replayed := marks;
      s := LegacyPass(State(), (set x | x in s.current && (x in shown ==> x in placements)), s.cmds + released);
      assert s == LegacyRelease(s2, p.key, slot.image);
      if slot in placements && !viewChanged && placements[slot] == Sig(p) {
        return;
      }
      placements := placements[slot := Sig(p)];
      s := s.(cache := State(), cmds := s.cmds + [Display(slot, Sig(p).geometry)]);
    }

    /** `encode_terminal_graphics_update_legacy`; `order` is the order stale slots happened to be visited in. */
    method EncodeLegacy(env: Env, ps: seq<Placement>, viewChanged: bool)
      returns (cmds: seq<Cmd>, ghost order: seq<Slot>)
      modifies this
      ensures Enumerates(order, LegacyStale(LegacyPlace(env, old(State()), ps, viewChanged)))
      ensures Delta(State(), cmds) == Legacy(env, old(State()), ps, viewChanged, order)
    {
      hide LegacyOne;
      var keys := set i | 0 <= i < |ps| && ps[i].key.Terminal? :: ps[i].key;
      sources := map k | k in sources && k in keys :: sources[k];
      var s := LegacyPass(State(), {}, []);
      ghost var s0 := s;
      var i := 0;
      assert ps[0..] == ps;
      while i < |ps|
        invariant 0 <= i <= |ps| && s.cache == State()
        invariant LegacyAll(env, s0, ps, viewChanged) == LegacyAll(env, s, ps[i..], viewChanged)
      {
        assert ps[i..][0] == ps[i] && ps[i..][1..] == ps[i + 1..];
        s := PlaceLegacy(env, s, ps[i], viewChanged);
        i := i + 1;
      }
      assert s == LegacyPlace(env, old(State()), ps, viewChanged);
      var dropped: seq<Cmd>;
      dropped, order := DropInAnyOrder(StaleSlots(State(), s.current));
      cmds := s.cmds + dropped;
    }

    method DropInAnyOrder(stale: set<Slot>) returns (cmds: seq<Cmd>, ghost order: seq<Slot>)
      modifies this
      ensures Enumerates(order, stale)
      ensures Delta(State(), cmds) == DropSlots(old(State()), order)
    {
      cmds, order := [], [];
      var rest := stale;
      while rest != {}
        invariant rest <= stale && Enumerates(order, stale - rest)
        invariant Delta(State(), cmds) == DropSlots(old(State()), order)
        decreases rest
      {
        var slot :| slot in rest;
        DropSlotsAppend(old(State()), order, slot);
        cmds := cmds + [DeletePlacement(slot)];
        placements := placements - {slot};
        rest := rest - {slot};
        order := order + [slot];
      }
      assert stale - rest == stale;
    }

    /** `clear_pane_sources`. */
    method ClearPanes() returns (cmds: seq<Cmd>, ghost order: seq<nat>)
      modifies this
      ensures Enumerates(order, PaneSourceImages(old(State())))
      ensures Delta(State(), cmds) == ClearPaneSources(old(State()), order)
    {
      hide PaneSourceImages, DropImages, Enumerates;
      var removed := PaneSourceImages(State());
      sources := map k | k in sources && !k.PaneLayer? :: sources[k];
      cmds, order := DropUnreferenced(removed);
      oversized, continuation, replay, replayed := map[], None, false, {};
    }

    method DropUnreferenced(removed: set<nat>) returns (cmds: seq<Cmd>, ghost order: seq<nat>)
      modifies this
      ensures Enumerates(order, removed)
      ensures Delta(State(), cmds) == DropImages(old(State()), order)
    {
      ghost var before := State();
      cmds, order := [], [];
      var rest := removed;
      assert removed - rest == {};
      hide Referenced, DropImage;
      while rest != {}
        invariant rest <= removed && Enumerates(order, removed - rest)
        invariant Delta(State(), cmds) == DropImages(before, order)
        decreases rest
      {
        hide Enumerates, DropImages;
        var id :| id in rest;
        DropImagesAppend(before, order, id);
        EnumeratesOneMore(order, removed - rest, id);
        if !Referenced(State(), id) {
          cmds := cmds + [DeleteImage(id)];
          ForgetImage(id);
        }
        assert removed - (rest - {id}) == removed - rest + {id};
        rest := rest - {id};
        order := order + [id];
      }
      assert removed - rest == removed;
    }

    /** `clear_bytes`. */
    method ClearBytes() returns (cmds: seq<Cmd>, ghost order: seq<nat>)
      modifies this
      ensures Enumerates(order, old(images).Keys)
      ensures Delta(State(), cmds) == ClearAll(order)
    {
      cmds, order := [], [];
      var rest := images.Keys;
      while rest != {}
        invariant rest <= images.Keys && Enumerates(order, images.Keys - rest)
        invariant images == old(images) && cmds == DeleteAll(order)
        decreases rest
      {
        var id :| id in rest;
        DeleteAllAppend(order, id);
        cmds := cmds + [DeleteImage(id)];
        rest := rest - {id};
        order := order + [id];
      }
      assert images.Keys - rest == images.Keys;
      images, placements, sources, oversized := map[], map[], map[], map[];
      continuation, view, replay, replayed := None, None, false, {};
    }

    /** `clear_next`. */
    method ClearNextImage() returns (r: Encoded)
      modifies this
      ensures r == ClearNext(old(State())) && State() == r.cache
    {
      hide Sort, WithoutImage, WithoutSlots;
      continuation := None;
      var cmds: seq<Cmd> := [];
      var ids := Sort(images.Keys, IdLess);
      var slots := Sort(placements.Keys, SlotLess);
      if ids != [] {
        var id := ids[0];
        cmds := [DeleteImage(id)];
        ForgetImage(id);
        sources := map k | k in sources && sources[k] != id :: sources[k];
      } else if slots != [] {
        var slot := slots[0];
        cmds := [DeletePlacement(slot)];
        placements := placements - {slot};
        replayed := replayed - {slot};
      } else {
        sources, oversized, view, replay, replayed := map[], map[], None, false, {};
      }
      r := Encoded(State(), cmds, !(images == map[] && placements == map[]), false);
    }

    /** `trust_pane_layer`. */
    method TrustPaneLayer(key: SourceKey, image: nat, sig: Signature)
      modifies this
      ensures State() == Trust(old(State()), key, image, sig)
    {
      oversized := oversized - {key};
      sources := sources[key := image];
      images := images[image := sig];
    }

    /** `forget_pane_layer`. */
    method ForgetPaneLayer(key: SourceKey, image: nat)
      modifies this
      ensures State() == Forget(old(State()), key, image)
    {
      sources := sources - {key};
      oversized := oversized - {key};
      ForgetImage(image);
    }

    /** `encode_local_pane_graphics`. */
    method Encode(env: Env, scene: Scene, budget: Option<nat>, replayRequested: bool)
      returns (r: Encoded, ghost orders: Orders)
      modifies this
      ensures OrdersFit(env, old(State()), scene, orders)
      ensures r == EncodeLocal(env, old(State()), scene, budget, replayRequested, orders)
      ensures State() == r.cache
    {
      hide Incremental, Legacy, ClearPaneSources, LegacyPlace, LegacyStale, Enumerates, DeleteAll;
      orders := Orders([], [], []);
      if scene.hasSlots {
        var changed := ChangeView(if scene.visible then scene.view else None);
        if replayRequested {
          AskReplay();
        }
        r := EncodeIncremental(env, if scene.visible then scene.placements else [], scene.live, budget);
      } else {
        r, orders := EncodeTerminalOnly(env, scene);
      }
    }

    method EncodeTerminalOnly(env: Env, scene: Scene) returns (r: Encoded, ghost orders: Orders)
      requires !scene.hasSlots
      modifies this
      ensures OrdersFit(env, old(State()), scene, orders)
      ensures r == EncodeLocal(env, old(State()), scene, None, false, orders)
      ensures State() == r.cache
    {
      hide Incremental, Legacy, ClearPaneSources, LegacyPlace, LegacyStale, Enumerates, DeleteAll;
      var cleared, paneOrder := ClearPanes();
      ghost var c1 := State();
      ghost var viewed := ResetIncremental(UpdateView(c1, scene.view));
      if !scene.visible {
        var wiped, imageOrder := ClearBytes();
        ghost var stale := AnySlots(LegacyStale(LegacyPlace(env, viewed, scene.placements, c1.view != scene.view)));
        orders := Orders(paneOrder, stale, imageOrder);
        r := Encoded(State(), cleared + wiped, false, false);
      } else {
        var changed := ChangeView(scene.view);
        oversized, continuation, replay, replayed := map[], None, false, {};
        assert State() == viewed;
        var placed, staleOrder := EncodeLegacy(env, scene.placements, changed);
        orders := Orders(paneOrder, staleOrder, AnyOrder(c1.images.Keys));
        r := Encoded(State(), cleared + placed, false, false);
      }
    }
  }

  ghost function AnyOrder(s: set<nat>): (r: seq<nat>)
    ensures Enumerates(r, s)
  {
    SortDistinct(s, IdLess);
    Sort(s, IdLess)
  }

  ghost function AnySlots(s: set<Slot>): (r: seq<Slot>)
    ensures Enumerates(r, s)
  {
    SortDistinct(s, SlotLess);
    Sort(s, SlotLess)
  }

  function Prepend(cmds: seq<Cmd>, d: Delta): Delta {
    Delta(d.cache, cmds + d.cmds)
  }

  lemma {:induction false} AskedIsGood(env: Env, c: Cache, full: seq<Placement>, live: set<SourceKey>)
    requires Good(env, c, full)
    ensures Good(env, RequestReplay(c), full)
  {
    SameRecords(env, Screen(map[], map[]), c, RequestReplay(c));
    hide Inv, HomeImage, HomeSlot;
  }

  /** What a frame leaves, in the cache and on every terminal that was in step with it. */
  lemma {:induction false} FrameResult(env: Env, c: Cache, full: seq<Placement>, live: set<SourceKey>)
    requires Steady(env, full, live) && Good(env, c, full) && AllPixels(full)
    ensures var asked := RequestReplay(c);
            && Good(env, asked, full)
            && var d := FrameDrain(env, asked, full, live);
            && Good(env, d.cache, full) && Tidy(env, d.cache, full, live) && !d.cache.replay
            && (MatchingIsMapped(env, asked, full) ==>
                  && (ShowsExactly(env, d.cache, full) <==> Uncut(env, asked, full))
                  && forall t | Mirrors(t, c) ::
                       && Mirrors(ExecuteAll(t, d.cmds), d.cache)
                       && Missing(ExecuteAll(t, d.cmds), d.cache) == Missing(t, c) * Overlooked(env, asked, full, None))
            && (!c.replay ==>
                  forall t | Mirrors(t, c) ::
                    && Agree(ExecuteAll(t, d.cmds), d.cache)
                    && (OnScreen(env, ExecuteAll(t, d.cmds), full) <==> Uncut(env, asked, full)))
  {
    hide *;
    AskedIsGood(env, c, full, live);
    var asked := RequestReplay(c);
    var d := FrameDrain(env, asked, full, live);
    FrameEnds(env, asked, full, live);
    if MatchingIsMapped(env, asked, full) {
      FrameShowsIff(env, asked, full, live);
      forall t | Mirrors(t, c)
        ensures Mirrors(ExecuteAll(t, d.cmds), d.cache)
        ensures Missing(ExecuteAll(t, d.cmds), d.cache) == Missing(t, c) * Overlooked(env, asked, full, None)
      {
        FrameRepairsExactly(env, t, c, full, live);
      }
    }
    if !c.replay {
      forall t | Mirrors(t, c)
        ensures Agree(ExecuteAll(t, d.cmds), d.cache)
        ensures OnScreen(env, ExecuteAll(t, d.cmds), full) <==> Uncut(env, asked, full)
      {
        FrameAgrees(env, t, c, full, live);
        FrameOnScreenIff(env, t, c, full, live);
      }
    }
  }

  /** Asking again changes nothing while a replay is pending. */
  lemma {:induction false} AskedTwice(c: Cache)
    ensures c.replay ==> RequestReplay(c) == c
    ensures RequestReplay(c).replay
  {
  }

  lemma {:induction false} AskedCollects(env: Env, c: Cache, full: seq<Placement>)
    ensures Collect(env, RequestReplay(c), full) == Collect(env, c, full)
  {
  }

  /** One round of the loop, after the commands already sent. */
  lemma {:induction false} FrameRound(env: Env, c: Cache, full: seq<Placement>, live: set<SourceKey>, sent: seq<Cmd>)
    requires Steady(env, full, live) && Good(env, c, full) && AllPixels(full)
    ensures var r := Incremental(env, c, Collect(env, c, full), live, None);
            && Good(env, r.cache, full)
            && (r.incomplete ==> r.cache.replay == c.replay && Work(env, r.cache, full, live) < Work(env, c, full, live))
            && Prepend(sent, FrameDrain(env, c, full, live)) ==
                 if r.incomplete then Prepend(sent + r.cmds, FrameDrain(env, r.cache, full, live))
                 else Delta(r.cache, sent + r.cmds)
  {
    FrameProgress(env, c, full, live);
    FrameUnfolds(env, c, full, live);
    IncompleteKeepsReplay(env, c, Collect(env, c, full), live, None);
    hide Incremental, Steady, Good, Work, Collect, FrameDrain;
    var r := Incremental(env, c, Collect(env, c, full), live, None);
    if r.incomplete {
      var rest := FrameDrain(env, r.cache, full, live).cmds;
      assert sent + (r.cmds + rest) == (sent + r.cmds) + rest;
    }
  }

  lemma {:induction false} EnumeratesOneMore<T(!new)>(order: seq<T>, s: set<T>, x: T)
    requires Enumerates(order, s) && x !in s
    ensures Enumerates(order + [x], s + {x})
  {
  }

  lemma {:induction false} DropSlotsAppend(c: Cache, order: seq<Slot>, slot: Slot)
    ensures var d := DropSlots(c, order);
            DropSlots(c, order + [slot])
            == Delta(d.cache.(placements := d.cache.placements - {slot}), d.cmds + [DeletePlacement(slot)])
    decreases |order|
  {
    if order != [] {
      DropSlotsAppend(c.(placements := c.placements - {order[0]}), order[1..], slot);
      assert (order + [slot])[1..] == order[1..] + [slot];
    } else {
      assert (order + [slot])[1..] == [];
    }
  }

  lemma {:induction false} DropImagesAppend(c: Cache, order: seq<nat>, id: nat)
    ensures var d := DropImages(c, order);
            DropImages(c, order + [id])
            == if Referenced(d.cache, id) then d else Delta(DropImage(d.cache, id), d.cmds + [DeleteImage(id)])
    decreases |order|
  {
    if order != [] {
      var next := if Referenced(c, order[0]) then c else DropImage(c, order[0]);
      DropImagesAppend(next, order[1..], id);
      assert (order + [id])[1..] == order[1..] + [id];
    } else {
      assert (order + [id])[1..] == [];
    }
  }

  lemma {:induction false} DeleteAllAppend(order: seq<nat>, id: nat)
    ensures DeleteAll(order + [id]) == DeleteAll(order) + [DeleteImage(id)]
    decreases |order|
  {
    if order != [] {
      DeleteAllAppend(order[1..], id);
      assert (order + [id])[1..] == order[1..] + [id];
    } else {
      assert (order + [id])[1..] == [];
    }
  }
}
