/**
 Cache and terminal stay in step: every operation keeps the cache's own integrity, and running
 the commands it emits takes a terminal that mirrors the old cache to one that mirrors the new.
 */
module GraphicsAgreement {
  import opened Common
  import opened HostGraphics
  import opened GraphicsStep

  /** Terminal ids live in the hashed span; a pane-layer id is outside it and exclusive to its owner. */
  predicate Belongs(env: Env, key: SourceKey, image: nat) {
    match key
    case Terminal(_, _) => InTerminalSpan(image)
    case PaneLayer(_, _) => !InTerminalSpan(image) && env.owner(image) == key
  }

  /** What the caller guarantees of a placement it asks for. */
  predicate WellFormed(env: Env, p: Placement) {
    match p.key
    case Terminal(pane, _) => p.pane == pane && p.hostImage.None?
    case PaneLayer(_, _) => p.hostImage.Some? && Belongs(env, p.key, p.hostImage.value) && p.placementId == 1
  }

  ghost predicate AllWellFormed(env: Env, ps: seq<Placement>) {
    forall p | p in ps :: WellFormed(env, p)
  }

  /** The one slot a pane-layer image can have. */
  predicate SlotFits(env: Env, slot: Slot, sig: PlacementSig) {
    && Belongs(env, sig.source.key, slot.image)
    && (sig.source.key.PaneLayer? ==> sig.source.id == 1 && slot.placement == PlacementStart(env, sig.source))
  }

  /** Referential integrity, and ids used only by the sources they belong to. */
  ghost predicate Inv(env: Env, c: Cache) {
    && (forall s | s in c.placements :: s.image in c.images)
    && (forall k | k in c.sources :: c.sources[k] in c.images)
    && (forall s | s in c.placements :: SlotFits(env, s, c.placements[s]))
    && (forall k | k in c.sources :: Belongs(env, k, c.sources[k]))
  }

  /** The terminal holds the cache's images, and nothing on screen that the cache does not know. */
  ghost predicate Mirrors(t: Screen, c: Cache) {
    && t.images == c.images
    && (forall s | s in t.placements :: s in c.placements && t.placements[s] == c.placements[s].geometry)
  }

  /** Placements the cache believes shown that the terminal lost. */
  function Missing(t: Screen, c: Cache): set<Slot> {
    c.placements.Keys - t.placements.Keys
  }

  ghost predicate Agree(t: Screen, c: Cache) {
    Mirrors(t, c) && Missing(t, c) == {}
  }

  /** Agreement is equality of what both sides record. */
  lemma {:induction false} AgreeIsEquality(t: Screen, c: Cache)
    ensures Agree(t, c) <==>
            t.images == c.images && t.placements == map s | s in c.placements :: c.placements[s].geometry
  {
    var shown := map s | s in c.placements :: c.placements[s].geometry;
    if Agree(t, c) {
      forall s ensures s in t.placements <==> s in shown {
        assert s in c.placements && s !in t.placements ==> s in Missing(t, c);
      }
    }
  }

  /** What every operation owes: integrity, mirroring, and no placement newly lost. */
  ghost predicate Keeps(env: Env, t: Screen, c: Cache, t': Screen, c': Cache) {
    Inv(env, c) && Mirrors(t, c) ==> Inv(env, c') && Mirrors(t', c') && Missing(t', c') <= Missing(t, c)
  }

  // --- Single deletions ---

  lemma {:induction false} One(t: Screen, cmd: Cmd)
    ensures ExecuteAll(t, [cmd]) == Execute(t, cmd)
  {
    assert [cmd][1..] == [];
  }

  lemma {:induction false} DropImageKeeps(env: Env, t: Screen, c: Cache, id: nat)
    requires !Referenced(c, id)
    ensures Keeps(env, t, c, Execute(t, DeleteImage(id)), DropImage(c, id))
  {
  }

  lemma {:induction false} DropSlotKeeps(env: Env, t: Screen, c: Cache, slot: Slot)
    ensures Keeps(env, t, c, Execute(t, DeletePlacement(slot)), DropSlot(c, slot))
  {
  }

  lemma {:induction false} DisplayKeeps(env: Env, t: Screen, c: Cache, slot: Slot, sig: PlacementSig)
    requires slot.image in c.images && SlotFits(env, slot, sig)
    ensures Keeps(env, t, c, Execute(t, Display(slot, sig.geometry)), c.(placements := c.placements[slot := sig]))
    ensures Mirrors(t, c) ==> slot in Execute(t, Display(slot, sig.geometry)).placements
  {
  }

  /** The bookkeeping fields play no part in agreement. */
  lemma {:induction false} SameRecords(env: Env, t: Screen, c: Cache, c': Cache)
    requires c.images == c'.images && c.placements == c'.placements && c.sources == c'.sources
    ensures Inv(env, c) <==> Inv(env, c')
    ensures Mirrors(t, c) <==> Mirrors(t, c')
    ensures Missing(t, c) == Missing(t, c')
  {
  }

  // --- One placement update ---

  /** A resolved slot belongs to the placement: nobody else's image, nobody else's slot. */
  lemma {:induction false} ResolvedFits(env: Env, c: Cache, p: Placement, slot: Slot)
    requires Inv(env, c) && WellFormed(env, p) && ResolveSlot(env, c, p) == Some(slot)
    ensures SlotFits(env, slot, Sig(p))
    ensures p.key.Terminal? ==> (slot.image in c.images ==> c.images[slot.image] == p.sig)
    ensures p.key.PaneLayer? ==> forall s | s in c.placements && s.image == slot.image :: s == slot
  {
    if p.key.PaneLayer? {
      var first := Slot(slot.image, PlacementStart(env, Source(p)));
      assert first in c.placements ==> c.placements[first].source == Source(p);
    }
  }

  lemma {:induction false} TransmitKeeps(env: Env, t: Screen, c: Cache, p: Placement, slot: Slot)
    requires Inv(env, c) && Mirrors(t, c)
    requires WellFormed(env, p) && ResolveSlot(env, c, p) == Some(slot) && Transmit(c, p, slot).Some?
    ensures var d := Transmit(c, p, slot).value;
            var t' := ExecuteAll(t, d.cmds);
            && t'.images == d.cache.images && Inv(env, d.cache)
            && d.cache.sources == c.sources && d.cache.placements == c.placements
            && d.cache.replay == c.replay && d.cache.replayed == c.replayed
            && ImageCurrent(d.cache, p, slot.image)
            && (forall s | s in t'.placements && s != slot ::
                  s in c.placements && t'.placements[s] == c.placements[s].geometry)
            && (forall s | s in c.placements && s != slot && s !in t'.placements :: s !in t.placements)
            && (if ReplacesInPlace(c, p, slot) then slot in t'.placements && t'.placements[slot] == Sig(p).geometry
                else t'.placements == t.placements)
  {
    ResolvedFits(env, c, p, slot);
    var d := Transmit(c, p, slot).value;
    if ImageCurrent(c, p, slot.image) {
    } else {
      assert p.key.Terminal? ==> slot.image !in c.images;
      assert |d.cmds| == 1;
      One(t, d.cmds[0]);
      if slot.image !in c.images {
        assert forall s | s in t.placements :: s.image != slot.image;
        assert WithoutImage(t.placements, slot.image) == t.placements;
      }
    }
  }

  lemma {:induction false} ReleaseKeeps(env: Env, t: Screen, c: Cache, key: SourceKey, image: nat)
    requires image in c.images && Belongs(env, key, image)
    ensures var d := Release(c, key, image);
            && Keeps(env, t, c, ExecuteAll(t, d.cmds), d.cache)
            && image in d.cache.images && Maps(d.cache, key, image)
            && d.cache.replay == c.replay
            && (forall s | s in c.placements && s.image == image :: s in d.cache.placements)
            && (forall s | s in d.cache.placements :: s in c.placements && d.cache.placements[s] == c.placements[s])
  {
    var d := Release(c, key, image);
    var c1 := c.(sources := c.sources[key := image]);
    if d.cmds != [] {
      var previous := c.sources[key];
      One(t, DeleteImage(previous));
      DropImageKeeps(env, t, c1, previous);
    }
  }

  /** Releasing an image does not disturb the slot about to be written. */
  lemma {:induction false} ReleaseCommutes(c: Cache, key: SourceKey, image: nat, slot: Slot, sig: PlacementSig)
    requires slot.image == image
    ensures var written := c.(placements := c.placements[slot := sig]);
            && Release(written, key, image).cmds == Release(c, key, image).cmds
            && Release(written, key, image).cache.images == Release(c, key, image).cache.images
            && Release(written, key, image).cache.sources == Release(c, key, image).cache.sources
            && Release(written, key, image).cache.placements == Release(c, key, image).cache.placements[slot := sig]
  {
    var written := c.(placements := c.placements[slot := sig]);
    if key in c.sources && c.sources[key] != image {
      var previous := c.sources[key];
      assert slot.image != previous;
      assert WithoutImage(written.placements, previous) == WithoutImage(c.placements, previous)[slot := sig];
      hide WithoutImage;
    }
  }

  lemma {:induction false} UpdateInPlaceKeeps(env: Env, t: Screen, c: Cache, p: Placement, slot: Slot)
    requires Inv(env, c) && Mirrors(t, c)
    requires WellFormed(env, p) && ResolveSlot(env, c, p) == Some(slot) && UpdateAt(c, p, slot).Some?
    requires ReplacesInPlace(c, p, slot)
    ensures var d := UpdateAt(c, p, slot).value;
            && Keeps(env, t, c, ExecuteAll(t, d.cmds), d.cache)
            && slot in ExecuteAll(t, d.cmds).placements
  {
    var sent := Transmit(c, p, slot).value;
    var t1 := ExecuteAll(t, sent.cmds);
    TransmitKeeps(env, t, c, p, slot);
    ResolvedFits(env, c, p, slot);
    hide Transmit, ResolveSlot, ExecuteAll, PlacementStart;
    var written := sent.cache.(placements := sent.cache.placements[slot := Sig(p)]);
    assert Inv(env, written) && Mirrors(t1, written);
    assert Missing(t1, written) <= Missing(t, c) && slot !in Missing(t1, written);
    hide *;
    ReleaseCommutes(sent.cache, p.key, slot.image, slot, Sig(p));
    ReleaseKeeps(env, t1, written, p.key, slot.image);
    InPlaceEnd(env, t, t1, c, p, slot, sent, written);
  }

  lemma {:induction false} InPlaceEnd(env: Env, t: Screen, t1: Screen, c: Cache, p: Placement, slot: Slot, sent: Delta, written: Cache)
    requires p.clip.Some? && ReplacesInPlace(c, p, slot) && Transmit(c, p, slot) == Some(sent)
    requires t1 == ExecuteAll(t, sent.cmds) && written == sent.cache.(placements := sent.cache.placements[slot := Sig(p)])
    requires Inv(env, written) && Mirrors(t1, written) && Missing(t1, written) <= Missing(t, c)
    requires slot !in Missing(t1, written)
    requires var released := Release(written, p.key, slot.image);
             var plain := Release(sent.cache, p.key, slot.image);
             && Keeps(env, t1, written, ExecuteAll(t1, released.cmds), released.cache)
             && slot in released.cache.placements && plain.cmds == released.cmds
             && plain.cache.images == released.cache.images && plain.cache.sources == released.cache.sources
             && released.cache.placements == plain.cache.placements[slot := Sig(p)]
    ensures var d := UpdateAt(c, p, slot).value;
            && Keeps(env, t, c, ExecuteAll(t, d.cmds), d.cache)
            && slot in ExecuteAll(t, d.cmds).placements
  {
    hide Transmit, ExecuteAll, Release, Inv, Mirrors, ReplacesInPlace, PlacementCurrent, Sig;
    var released := Release(written, p.key, slot.image);
    var d := UpdateAt(c, p, slot).value;
    assert d.cmds == sent.cmds + released.cmds;
    ExecuteAllAppend(t, sent.cmds, released.cmds);
    SameRecords(env, ExecuteAll(t, d.cmds), released.cache, d.cache);
    hide UpdateAt;
  }

  lemma {:induction false} UpdateBesideKeeps(env: Env, t: Screen, c: Cache, p: Placement, slot: Slot)
    requires Inv(env, c) && Mirrors(t, c)
    requires WellFormed(env, p) && ResolveSlot(env, c, p) == Some(slot) && UpdateAt(c, p, slot).Some?
    requires !ReplacesInPlace(c, p, slot)
    ensures var d := UpdateAt(c, p, slot).value;
            && Keeps(env, t, c, ExecuteAll(t, d.cmds), d.cache)
            && (!PlacementCurrent(c, p, slot) ==> slot in ExecuteAll(t, d.cmds).placements)
  {
    var sent := Transmit(c, p, slot).value;
    var d := UpdateAt(c, p, slot).value;
    var t1 := ExecuteAll(t, sent.cmds);
    TransmitKeeps(env, t, c, p, slot);
    ResolvedFits(env, c, p, slot);
    hide Transmit, ResolveSlot, ExecuteAll, PlacementStart;
    assert Mirrors(t1, sent.cache) && Missing(t1, sent.cache) == Missing(t, c);
    ReleaseKeeps(env, t1, sent.cache, p.key, slot.image);
    var released := Release(sent.cache, p.key, slot.image);
    var t2 := ExecuteAll(t1, released.cmds);
    ExecuteAllAppend(t, sent.cmds, released.cmds);
    if PlacementCurrent(c, p, slot) {
      assert d.cmds == sent.cmds + released.cmds;
      assert d.cache.placements == released.cache.placements;
      SameRecords(env, t2, released.cache, d.cache);
    } else {
      var show := Display(slot, Sig(p).geometry);
      var shown := released.cache.(placements := released.cache.placements[slot := Sig(p)]);
      ExecuteAllAppend(t, sent.cmds + released.cmds, [show]);
      One(t2, show);
      DisplayKeeps(env, t2, released.cache, slot, Sig(p));
      SameRecords(env, Execute(t2, show), shown, d.cache);
    }
  }

  /**
   A placement update either changes nothing, or leaves cache and terminal in step with the
   placement current and on screen (unless it already counted as shown).
   */
  lemma {:induction false} UpdateKeeps(env: Env, t: Screen, c: Cache, p: Placement)
    requires Inv(env, c) && Mirrors(t, c) && WellFormed(env, p)
    requires Update(env, c, p).Some?
    ensures var d := Update(env, c, p).value;
            var slot := ResolveSlot(env, c, p).value;
            && Keeps(env, t, c, ExecuteAll(t, d.cmds), d.cache)
            && ((ImageCurrent(c, p, slot.image) && PlacementCurrent(c, p, slot))
                || slot in ExecuteAll(t, d.cmds).placements)
  {
    var slot := ResolveSlot(env, c, p).value;
    if ReplacesInPlace(c, p, slot) {
      UpdateInPlaceKeeps(env, t, c, p, slot);
    } else {
      UpdateBesideKeeps(env, t, c, p, slot);
      ResolvedFits(env, c, p, slot);
    }
  }

  lemma {:induction false} UpdateKeepsInv(env: Env, c: Cache, p: Placement)
    requires Inv(env, c) && WellFormed(env, p) && Update(env, c, p).Some?
    ensures Inv(env, Update(env, c, p).value.cache)
  {
    UpdateKeeps(env, Screen(c.images, map[]), c, p);
  }

  // --- The incremental call, phase by phase ---

  /** Executing a pass's commands from the call's start brings the terminal to the pass's cache. */
  ghost predicate PassKeeps(env: Env, t: Screen, c: Cache, s: Pass) {
    && Inv(env, s.cache) && Mirrors(ExecuteAll(t, s.cmds), s.cache)
    && Missing(ExecuteAll(t, s.cmds), s.cache) <= Missing(t, c)
  }

  lemma {:induction false} SweepDeadKeeps(env: Env, t: Screen, c: Cache, s: Pass, dead: seq<SourceKey>, desired: set<nat>)
    requires forall k | k in dead :: k in s.cache.sources
    requires forall i, j | 0 <= i < j < |dead| :: dead[i] != dead[j]
    requires PassKeeps(env, t, c, s)
    ensures PassKeeps(env, t, c, SweepDead(s, dead, desired))
    decreases |dead|
  {
    if dead != [] {
      var key := dead[0];
      var image := s.cache.sources[key];
      var last := LastReference(s.cache, key, desired);
      if !(s.emitted && last) {
        var c1 := s.cache.(sources := s.cache.sources - {key});
        if last {
          var t1 := ExecuteAll(t, s.cmds);
          assert !Referenced(c1, image);
          DropImageKeeps(env, t1, c1, image);
          ExecuteAllAppend(t, s.cmds, [DeleteImage(image)]);
          One(t1, DeleteImage(image));
          SweepDeadKeeps(env, t, c,
            s.(cache := DropImage(c1, image), cmds := s.cmds + [DeleteImage(image)], emitted := true), dead[1..], desired);
        } else {
          SweepDeadKeeps(env, t, c, s.(cache := c1), dead[1..], desired);
        }
      }
    }
  }

  lemma {:induction false} SweepOrphansKeeps(env: Env, t: Screen, c: Cache, s: Pass, orphans: seq<nat>)
    requires forall id | id in orphans :: !Referenced(s.cache, id)
    requires PassKeeps(env, t, c, s)
    ensures PassKeeps(env, t, c, SweepOrphans(s, orphans))
    decreases |orphans|
  {
    if orphans != [] && !s.emitted {
      var t1 := ExecuteAll(t, s.cmds);
      var c1 := DropImage(s.cache, orphans[0]);
      DropImageKeeps(env, t1, s.cache, orphans[0]);
      ExecuteAllAppend(t, s.cmds, [DeleteImage(orphans[0])]);
      One(t1, DeleteImage(orphans[0]));
      assert forall id :: Referenced(c1, id) <==> Referenced(s.cache, id);
      SweepOrphansKeeps(env, t, c,
        s.(cache := c1, cmds := s.cmds + [DeleteImage(orphans[0])], emitted := true), orphans[1..]);
    }
  }

  lemma {:induction false} SweepStaleKeeps(env: Env, t: Screen, c: Cache, s: Pass, stale: seq<Slot>)
    requires PassKeeps(env, t, c, s)
    ensures PassKeeps(env, t, c, SweepStale(s, stale))
    decreases |stale|
  {
    if stale != [] && !s.emitted {
      var t1 := ExecuteAll(t, s.cmds);
      DropSlotKeeps(env, t1, s.cache, stale[0]);
      ExecuteAllAppend(t, s.cmds, [DeletePlacement(stale[0])]);
      One(t1, DeletePlacement(stale[0]));
      SweepStaleKeeps(env, t, c,
        s.(cache := DropSlot(s.cache, stale[0]), cmds := s.cmds + [DeletePlacement(stale[0])], emitted := true),
        stale[1..]);
    }
  }

  lemma {:induction false} NoCommands(t: Screen)
    ensures ExecuteAll(t, []) == t
  {
  }

  lemma {:induction false} PruneKeeps(env: Env, t: Screen, c: Cache, s: Pass, keys: set<SourceKey>, live: set<SourceKey>)
    requires PassKeeps(env, t, c, s)
    ensures PassKeeps(env, t, c, s.(cache := Prune(s.cache, keys, live)))
  {
  }

  lemma {:induction false} DeletionsKeep(env: Env, t: Screen, c: Cache, slots: set<Slot>, keys: set<SourceKey>, live: set<SourceKey>)
    requires Inv(env, c) && Mirrors(t, c)
    ensures PassKeeps(env, t, c, Deletions(c, slots, keys, live))
  {
    var images := DesiredImages(slots);
    LayerLessTotal(DeadSources(c, live));
    SortDistinct(DeadSources(c, live), LayerLess);
    var s0 := Pass(c, [], false, false, false);
    var dead := Sort(DeadSources(c, live), LayerLess);
    hide SweepDead, SweepOrphans, SweepStale, Inv, Mirrors, ExecuteAll;
    assert ExecuteAll(t, []) == t by { NoCommands(t); }
    SweepDeadKeeps(env, t, c, s0, dead, images);
    var s1 := SweepDead(s0, dead, images);
    if !s1.stopped {
      var s2 := s1.(cache := Prune(s1.cache, keys, live));
      PruneKeeps(env, t, c, s1, keys, live);
      hide PassKeeps;
      var orphans := Sort(OrphanImages(s2.cache, live, images), IdLess);
      SweepOrphansKeeps(env, t, c, s2, orphans);
      var s3 := SweepOrphans(s2, orphans);
      if !s3.stopped {
        SweepStaleKeeps(env, t, c, s3, Sort(StaleSlots(s3.cache, slots), SlotLess));
      }
    }
  }

  lemma {:induction false} ServeOneKeeps(env: Env, t: Screen, c: Cache, s: Pass, ps: seq<Placement>, index: nat, budget: Option<nat>)
    requires index < |ps| && AllWellFormed(env, ps)
    requires PassKeeps(env, t, c, s) && (s.emitted || s.cmds == [])
    ensures var s' := ServeOne(env, s, ps, index, budget);
            PassKeeps(env, t, c, s') && (s'.emitted || s'.cmds == [])
  {
    hide Update, Inv, Mirrors, ResolveImage, ImageCurrent, TransactionFits;
    var p := ps[index];
    var c1 := s.cache.(oversized := s.cache.oversized - {p.key});
    var t1 := ExecuteAll(t, s.cmds);
    var s' := ServeOne(env, s, ps, index, budget);
    SameRecords(env, t1, s.cache, c1);
    if budget.Some? && p.key in s.cache.oversized && s.cache.oversized[p.key] == p.sig {
      assert s'.cache == s.cache && s'.cmds == s.cmds;
    } else if ResolveImage(env, p, c1.images).None? {
      assert s'.cache == c1 && s'.cmds == s.cmds;
    } else if !ImageCurrent(c1, p, ResolveImage(env, p, c1.images).value) && !TransactionFits(p.sig.dataLen, budget) {
      SameRecords(env, t1, c1, s'.cache);
    } else {
      var update := Update(env, c1, p);
      if update.Some? && (update.value.cmds == [] || !s.emitted) {
        UpdateKeeps(env, t1, c1, p);
        SameRecords(env, ExecuteAll(t1, update.value.cmds), update.value.cache, s'.cache);
      } else {
        assert s'.cache == c1 && s'.cmds == s.cmds;
      }
    }
  }

  lemma {:induction false} ServeKeeps(
    env: Env, t: Screen, c: Cache, s: Pass, ps: seq<Placement>, start: nat, offset: nat, budget: Option<nat>)
    requires offset <= |ps| && AllWellFormed(env, ps)
    requires PassKeeps(env, t, c, s) && (s.emitted || s.cmds == [])
    ensures PassKeeps(env, t, c, Serve(env, s, ps, start, offset, budget))
    decreases |ps| - offset
  {
    if offset < |ps| {
      var next := ServeOne(env, s, ps, (start + offset) % |ps|, budget);
      ServeOneKeeps(env, t, c, s, ps, (start + offset) % |ps|, budget);
      if !next.stopped {
        ServeKeeps(env, t, c, next, ps, start, offset + 1, budget);
      }
    }
  }

  /** The deletion phases emit nothing, or exactly one deletion. */
  predicate AtMostOneDeletion(s: Pass) {
    if s.emitted then |s.cmds| == 1 && (s.cmds[0].DeleteImage? || s.cmds[0].DeletePlacement?) else s.cmds == []
  }

  lemma {:induction false} SweepDeadOnce(s: Pass, dead: seq<SourceKey>, desired: set<nat>)
    requires forall k | k in dead :: k in s.cache.sources
    requires forall i, j | 0 <= i < j < |dead| :: dead[i] != dead[j]
    requires AtMostOneDeletion(s)
    ensures AtMostOneDeletion(SweepDead(s, dead, desired))
    decreases |dead|
  {
    if dead != [] {
      var key := dead[0];
      var image := s.cache.sources[key];
      var last := LastReference(s.cache, key, desired);
      if !(s.emitted && last) {
        var c1 := s.cache.(sources := s.cache.sources - {key});
        SweepDeadOnce(
          if last
          then s.(cache := DropImage(c1, image), cmds := s.cmds + [DeleteImage(image)], emitted := true)
          else s.(cache := c1), dead[1..], desired);
      }
    }
  }

  lemma {:induction false} SweepOrphansOnce(s: Pass, orphans: seq<nat>)
    requires AtMostOneDeletion(s)
    ensures AtMostOneDeletion(SweepOrphans(s, orphans))
  {
    if orphans != [] && !s.emitted {
      var s' := s.(cache := DropImage(s.cache, orphans[0]), cmds := s.cmds + [DeleteImage(orphans[0])], emitted := true);
      assert AtMostOneDeletion(SweepOrphans(s', orphans[1..]));
    }
  }

  lemma {:induction false} SweepStaleOnce(s: Pass, stale: seq<Slot>)
    requires AtMostOneDeletion(s)
    ensures AtMostOneDeletion(SweepStale(s, stale))
  {
    if stale != [] && !s.emitted {
      var s' := s.(cache := DropSlot(s.cache, stale[0]), cmds := s.cmds + [DeletePlacement(stale[0])], emitted := true);
      assert AtMostOneDeletion(SweepStale(s', stale[1..]));
    }
  }

  lemma {:induction false} DeletionsOnce(c: Cache, slots: set<Slot>, keys: set<SourceKey>, live: set<SourceKey>)
    ensures AtMostOneDeletion(Deletions(c, slots, keys, live))
  {
    var images := DesiredImages(slots);
    LayerLessTotal(DeadSources(c, live));
    SortDistinct(DeadSources(c, live), LayerLess);
    var s0 := Pass(c, [], false, false, false);
    var dead := Sort(DeadSources(c, live), LayerLess);
    SweepDeadOnce(s0, dead, images);
    var s1 := SweepDead(s0, dead, images);
    if !s1.stopped {
      var s2 := s1.(cache := Prune(s1.cache, keys, live));
      var orphans := Sort(OrphanImages(s2.cache, live, images), IdLess);
      SweepOrphansOnce(s2, orphans);
      var s3 := SweepOrphans(s2, orphans);
      if !s3.stopped {
        SweepStaleOnce(s3, Sort(StaleSlots(s3.cache, slots), SlotLess));
      }
    }
  }

  /**
   The incremental call keeps cache and terminal in step, whatever the budget, however many
   updates fail, and wherever it stops.
   */
  lemma {:induction false} IncrementalKeeps(
    env: Env, t: Screen, c: Cache, ps: seq<Placement>, live: set<SourceKey>, budget: Option<nat>)
    requires AllWellFormed(env, ps)
    ensures var r := Incremental(env, c, ps, live, budget);
            Keeps(env, t, c, ExecuteAll(t, r.cmds), r.cache)
  {
    if Inv(env, c) && Mirrors(t, c) {
      var slots := DesiredSlots(env, c, ps);
      DeletionsKeep(env, t, c, slots, DesiredKeys(ps), live);
      DeletionsOnce(c, slots, DesiredKeys(ps), live);
      hide Deletions, Serve, Inv, Mirrors, ExecuteAll, DesiredSlots, DesiredKeys, StartIndex;
      var deleted := Deletions(c, slots, DesiredKeys(ps), live);
      if !deleted.stopped {
        ServeKeeps(env, t, c, deleted, ps, StartIndex(c, ps), 0, budget);
        var served := Serve(env, deleted, ps, StartIndex(c, ps), 0, budget);
        SameRecords(env, ExecuteAll(t, served.cmds), served.cache, Settle(served.cache));
      }
    }
  }

  // --- One transaction per call ---

  predicate Sends(env: Env, c: Cache, p: Placement, cmds: seq<Cmd>) {
    Update(env, c, p).Some? && Update(env, c, p).value.cmds == cmds
  }

  /** Nothing, one deletion, or the commands of one placement's update. */
  ghost predicate OneTransaction(env: Env, ps: seq<Placement>, cmds: seq<Cmd>) {
    || cmds == []
    || (|cmds| == 1 && (cmds[0].DeleteImage? || cmds[0].DeletePlacement?))
    || exists c, p :: p in ps && Sends(env, c, p, cmds)
  }

  lemma {:induction false} ServeOneOnce(env: Env, s: Pass, ps: seq<Placement>, index: nat, budget: Option<nat>)
    requires index < |ps| && OneTransaction(env, ps, s.cmds) && (s.emitted || s.cmds == [])
    ensures var r := ServeOne(env, s, ps, index, budget);
            OneTransaction(env, ps, r.cmds) && (r.emitted || r.cmds == [])
  {
    var p := ps[index];
    var c1 := s.cache.(oversized := s.cache.oversized - {p.key});
    var r := ServeOne(env, s, ps, index, budget);
    assert p in ps;
    hide Update, ResolveImage, ImageCurrent, TransactionFits;
    if r.cmds != s.cmds {
      assert Sends(env, c1, p, r.cmds);
    }
  }

  lemma {:induction false} ServeOnce(env: Env, s: Pass, ps: seq<Placement>, start: nat, offset: nat, budget: Option<nat>)
    requires offset <= |ps| && OneTransaction(env, ps, s.cmds) && (s.emitted || s.cmds == [])
    ensures OneTransaction(env, ps, Serve(env, s, ps, start, offset, budget).cmds)
    decreases |ps| - offset
  {
    hide ServeOne, OneTransaction;
    if offset < |ps| {
      var next := ServeOne(env, s, ps, (start + offset) % |ps|, budget);
      ServeOneOnce(env, s, ps, (start + offset) % |ps|, budget);
      if !next.stopped {
        ServeOnce(env, next, ps, start, offset + 1, budget);
      }
    }
  }

  /** One incremental call emits nothing, exactly one deletion, or exactly one placement's update. */
  lemma {:induction false} IncrementalOnce(
    env: Env, c: Cache, ps: seq<Placement>, live: set<SourceKey>, budget: Option<nat>)
    ensures OneTransaction(env, ps, Incremental(env, c, ps, live, budget).cmds)
  {
    var slots := DesiredSlots(env, c, ps);
    DeletionsOnce(c, slots, DesiredKeys(ps), live);
    hide Deletions, Serve, DesiredSlots, DesiredKeys, StartIndex;
    var s := Deletions(c, slots, DesiredKeys(ps), live);
    assert OneTransaction(env, ps, s.cmds);
    if !s.stopped {
      ServeOnce(env, s, ps, StartIndex(c, ps), 0, budget);
    }
  }

  /** An update puts nothing on screen but the placement it is for. */
  lemma {:induction false} UpdateShowsOwn(env: Env, t: Screen, c: Cache, p: Placement)
    requires Update(env, c, p).Some?
    ensures var slot := ResolveSlot(env, c, p).value;
            forall s | s in ExecuteAll(t, Update(env, c, p).value.cmds).placements :: s in t.placements || s == slot
  {
    var slot := ResolveSlot(env, c, p).value;
    var d := Update(env, c, p).value;
    hide ResolveSlot, ImageCurrent, PlacementCurrent, Maps;
    assert UpdateAt(c, p, slot) == Some(d);
    hide Update;
    UpdateOnlyShows(c, p, slot);
    hide *;
    ShowsOnly(t, d.cmds, slot);
  }

  lemma {:induction false} UpdateOnlyShows(c: Cache, p: Placement, slot: Slot)
    requires p.clip.Some? && UpdateAt(c, p, slot).Some?
    ensures forall cmd | cmd in UpdateAt(c, p, slot).value.cmds :: OnlyShows(cmd, slot)
  {
    var sent := Transmit(c, p, slot).value;
    var released := Release(sent.cache, p.key, slot.image);
    assert forall cmd | cmd in sent.cmds :: OnlyShows(cmd, slot);
    assert forall cmd | cmd in released.cmds :: OnlyShows(cmd, slot);
    hide Transmit, Release, PlacementCurrent, ReplacesInPlace;
  }

  predicate OnlyShows(cmd: Cmd, slot: Slot) {
    (cmd.Display? || cmd.TransmitAndDisplay?) ==> cmd.slot == slot
  }

  lemma {:induction false} ShowsOnly(t: Screen, cmds: seq<Cmd>, slot: Slot)
    requires forall cmd | cmd in cmds :: OnlyShows(cmd, slot)
    ensures forall s | s in ExecuteAll(t, cmds).placements :: s in t.placements || s == slot
    decreases |cmds|
  {
    if cmds != [] {
      assert OnlyShows(cmds[0], slot);
      ShowsOnly(Execute(t, cmds[0]), cmds[1..], slot);
    }
  }
}
