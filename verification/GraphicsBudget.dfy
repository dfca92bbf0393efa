/**
 The byte budget over whole calls and whole runs: a budgeted call never emits more than its budget,
 whatever the cache holds, and a call without deletions or uploads stays within a small constant.
 */
module GraphicsBudget {
  import opened Common
  import opened HostGraphics
  import opened GraphicsStep
  import opened GraphicsAgreement
  import opened KittyWire

  /** Two commands without pixels: the superseded image's deletion and the display. */
  const SMALL: nat := 480

  /** Every id the cache holds is a 32-bit one. */
  ghost predicate Bounded(c: Cache) {
    && (forall id | id in c.images :: id < U32)
    && (forall k | k in c.sources :: c.sources[k] < U32)
    && (forall s | s in c.placements :: s.image < U32 && s.placement < U32)
  }

  /** Numbers of 32 bits, and pixels that are left out or have the length their signature states. */
  predicate Sound(p: Placement) {
    && (p.data == [] || p.sig.dataLen == |p.data| <= ISIZE_MAX)
    && SigInRange(p.sig) && (p.clip.Some? ==> GeometryInRange(Geometry(p.clip.value, p.z)))
    && (p.hostImage.Some? ==> p.hostImage.value < U32)
  }

  ghost predicate AllSound(ps: seq<Placement>) {
    forall p | p in ps :: Sound(p)
  }

  function Limit(budget: nat): nat {
    if budget < SMALL then SMALL else budget
  }

  lemma {:induction false} ResolvedIsBounded(env: Env, c: Cache, p: Placement, slot: Slot)
    requires Sound(p) && ResolveSlot(env, c, p) == Some(slot)
    ensures slot.image < U32 && slot.placement < U32 && ResolveImage(env, p, c.images) == Some(slot.image)
  {
  }

  lemma {:induction false} DropImageBounded(c: Cache, id: nat)
    requires Bounded(c)
    ensures Bounded(DropImage(c, id))
  {
  }

  lemma {:induction false} TransmitBounded(c: Cache, p: Placement, slot: Slot)
    requires Bounded(c) && p.clip.Some? && slot.image < U32 && Transmit(c, p, slot).Some?
    ensures Bounded(Transmit(c, p, slot).value.cache)
  {
  }

  lemma {:induction false} ReleaseBounded(c: Cache, key: SourceKey, image: nat)
    requires Bounded(c) && image < U32
    ensures Bounded(Release(c, key, image).cache)
  {
    var c1 := c.(sources := c.sources[key := image]);
    assert Bounded(c1);
    if key in c.sources {
      DropImageBounded(c1, c.sources[key]);
    }
    hide Bounded, DropImage, Referenced;
  }

  lemma {:induction false} UpdateBounded(env: Env, c: Cache, p: Placement)
    requires Bounded(c) && Sound(p) && Update(env, c, p).Some?
    ensures Bounded(Update(env, c, p).value.cache)
  {
    var slot := ResolveSlot(env, c, p).value;
    ResolvedIsBounded(env, c, p, slot);
    hide ResolveSlot, Transmit, Release;
    var sent := Transmit(c, p, slot).value;
    TransmitBounded(c, p, slot);
    ReleaseBounded(sent.cache, p.key, slot.image);
    var released := Release(sent.cache, p.key, slot.image).cache;
    WrittenBounded(released, Update(env, c, p).value.cache, slot, Sig(p));
  }

  lemma {:induction false} WrittenBounded(c: Cache, d: Cache, slot: Slot, sig: PlacementSig)
    requires Bounded(c) && slot.image < U32 && slot.placement < U32
    requires d.images == c.images && d.sources == c.sources && d.placements == c.placements[slot := sig]
    ensures Bounded(d)
  {
  }

  /** An update that sends no pixels is short, and one that does was checked against the budget. */
  lemma {:induction false} UpdateFits(env: Env, c: Cache, p: Placement, budget: nat)
    requires Bounded(c) && Sound(p) && Update(env, c, p).Some?
    requires var image := ResolveImage(env, p, c.images);
             image.Some? && (ImageCurrent(c, p, image.value) || TransactionFits(p.sig.dataLen, Some(budget)))
    ensures |RenderAll(Update(env, c, p).value.cmds)| <= Limit(budget)
  {
    var slot := ResolveSlot(env, c, p).value;
    ResolvedIsBounded(env, c, p, slot);
    if ImageCurrent(c, p, slot.image) {
      SmallUpdate(env, c, p, slot);
    } else {
      assert Measured(env, c, p);
      hide *;
      AcceptedTransactionFits(env, c, p, budget);
      LimitIsEnough(budget);
    }
  }

  lemma {:induction false} LimitIsEnough(budget: nat)
    ensures budget <= Limit(budget) && SMALL <= Limit(budget)
  {
  }

  lemma {:induction false} SmallUpdate(env: Env, c: Cache, p: Placement, slot: Slot)
    requires Bounded(c) && Sound(p) && Update(env, c, p).Some? && ResolveSlot(env, c, p) == Some(slot)
    requires ImageCurrent(c, p, slot.image) && slot.image < U32 && slot.placement < U32
    ensures |RenderAll(Update(env, c, p).value.cmds)| <= SMALL
  {
    assert p.clip.Some?;
    hide ResolveSlot;
    var released := Release(c, p.key, slot.image).cmds;
    var shown := Shown(c, p, slot);
    assert Update(env, c, p).value.cmds == [] + released + shown;
    assert [] + released == released;
    hide Update, RenderAll;
    PieceLength(released);
    PieceLength(shown);
    RenderAllAppend(released, shown);
  }

  // --- The deletion phases ---

  ghost predicate InBounds(s: Pass) {
    Bounded(s.cache) && forall cmd | cmd in s.cmds :: InRange(cmd)
  }

  lemma {:induction false} SweepDeadBounded(s: Pass, dead: seq<SourceKey>, desired: set<nat>)
    requires forall k | k in dead :: k in s.cache.sources
    requires forall i, j | 0 <= i < j < |dead| :: dead[i] != dead[j]
    requires InBounds(s)
    ensures InBounds(SweepDead(s, dead, desired))
    decreases |dead|
  {
    if dead != [] {
      var key := dead[0];
      var image := s.cache.sources[key];
      var last := LastReference(s.cache, key, desired);
      if !(s.emitted && last) {
        var c1 := s.cache.(sources := s.cache.sources - {key});
        var next :=
          if last
          then s.(cache := DropImage(c1, image), cmds := s.cmds + [DeleteImage(image)], emitted := true)
          else s.(cache := c1);
        assert InBounds(next);
        SweepDeadBounded(next, dead[1..], desired);
      }
    }
  }

  lemma {:induction false} SweepOrphansBounded(s: Pass, orphans: seq<nat>)
    requires InBounds(s) && forall id | id in orphans :: id < U32
    ensures InBounds(SweepOrphans(s, orphans))
    decreases |orphans|
  {
    if orphans != [] && !s.emitted {
      var next := s.(
        cache := DropImage(s.cache, orphans[0]), cmds := s.cmds + [DeleteImage(orphans[0])], emitted := true);
      assert orphans[0] in orphans && forall id | id in orphans[1..] :: id in orphans;
      DropImageBounded(s.cache, orphans[0]);
      assert InBounds(next);
      SweepOrphansBounded(next, orphans[1..]);
    }
  }

  lemma {:induction false} SweepStaleBounded(s: Pass, stale: seq<Slot>)
    requires InBounds(s) && forall x | x in stale :: x.image < U32 && x.placement < U32
    ensures InBounds(SweepStale(s, stale))
    decreases |stale|
  {
    if stale != [] && !s.emitted {
      SweepStaleBounded(
        s.(cache := DropSlot(s.cache, stale[0]), cmds := s.cmds + [DeletePlacement(stale[0])], emitted := true),
        stale[1..]);
    }
  }

  lemma {:induction false} DeletionsBounded(c: Cache, slots: set<Slot>, keys: set<SourceKey>, live: set<SourceKey>)
    requires Bounded(c)
    ensures InBounds(Deletions(c, slots, keys, live))
  {
    var images := DesiredImages(slots);
    LayerLessTotal(DeadSources(c, live));
    SortDistinct(DeadSources(c, live), LayerLess);
    var s0 := Pass(c, [], false, false, false);
    var dead := Sort(DeadSources(c, live), LayerLess);
    SweepDeadBounded(s0, dead, images);
    var s1 := SweepDead(s0, dead, images);
    hide SweepDead;
    if !s1.stopped {
      var s2 := s1.(cache := Prune(s1.cache, keys, live));
      assert InBounds(s2);
      var orphans := Sort(OrphanImages(s2.cache, live, images), IdLess);
      SweepOrphansBounded(s2, orphans);
      var s3 := SweepOrphans(s2, orphans);
      hide SweepOrphans;
      if !s3.stopped {
        SweepStaleBounded(s3, Sort(StaleSlots(s3.cache, slots), SlotLess));
      }
    }
  }

  lemma {:induction false} DeletionShort(cmd: Cmd)
    requires InRange(cmd) && (cmd.DeleteImage? || cmd.DeletePlacement?)
    ensures |RenderCmd(cmd)| <= SMALL
  {
    if cmd.DeleteImage? {
      DeleteImageShort(cmd.id);
    } else {
      DecimalShort(cmd.slot.image);
      DecimalShort(cmd.slot.placement);
      hide Decimal;
    }
  }

  // --- The call ---

  ghost predicate Fits(s: Pass, budget: nat) {
    Bounded(s.cache) && |RenderAll(s.cmds)| <= Limit(budget)
  }

  lemma {:induction false} DeletionsFit(c: Cache, slots: set<Slot>, keys: set<SourceKey>, live: set<SourceKey>, budget: nat)
    requires Bounded(c)
    ensures Fits(Deletions(c, slots, keys, live), budget)
  {
    var s := Deletions(c, slots, keys, live);
    DeletionsBounded(c, slots, keys, live);
    DeletionsOnce(c, slots, keys, live);
    hide Deletions, Bounded, RenderCmd, InRange;
    if s.emitted {
      assert s.cmds == [s.cmds[0]];
      DeletionShort(s.cmds[0]);
      RenderOne(s.cmds[0]);
    }
  }

  lemma {:induction false} ServeOneFits(env: Env, s: Pass, ps: seq<Placement>, index: nat, budget: nat)
    requires index < |ps| && AllSound(ps) && Fits(s, budget)
    ensures Fits(ServeOne(env, s, ps, index, Some(budget)), budget)
  {
    var p := ps[index];
    assert Sound(p);
    var c1 := s.cache.(oversized := s.cache.oversized - {p.key});
    SameBounds(s.cache, c1);
    SameBounds(c1, c1.(oversized := c1.oversized[p.key := p.sig]));
    var image := ResolveImage(env, p, c1.images);
    if image.Some? && (ImageCurrent(c1, p, image.value) || TransactionFits(p.sig.dataLen, Some(budget))) {
      hide Update, ResolveImage, ImageCurrent, TransactionFits, RenderAll, Limit, Bounded, Sound, Commit;
      TriedFits(env, s, c1, p, Cursor(Source(p), (index + 1) % |ps|), budget);
    } else {
      hide Update, ResolveImage, ImageCurrent, TransactionFits, RenderAll, Limit, Bounded, Sound, Commit;
    }
  }

  lemma {:induction false} SameBounds(c: Cache, d: Cache)
    requires d.images == c.images && d.sources == c.sources && d.placements == c.placements
    ensures Bounded(c) ==> Bounded(d)
  {
  }

  lemma {:induction false} TriedFits(env: Env, s: Pass, c: Cache, p: Placement, cursor: Cursor, budget: nat)
    requires Bounded(c) && Sound(p) && Fits(s, budget)
    requires var image := ResolveImage(env, p, c.images);
             image.Some? && (ImageCurrent(c, p, image.value) || TransactionFits(p.sig.dataLen, Some(budget)))
    ensures Fits(Commit(s, c, cursor, Update(env, c, p)), budget)
  {
    hide Update, ResolveImage, ImageCurrent, TransactionFits, RenderAll, Limit, Bounded, Sound;
    var update := Update(env, c, p);
    if update.Some? {
      UpdateBounded(env, c, p);
      UpdateFits(env, c, p, budget);
      SameBounds(update.value.cache, update.value.cache.(continuation := Some(cursor)));
    }
  }

  lemma {:induction false} ServeFits(env: Env, s: Pass, ps: seq<Placement>, start: nat, offset: nat, budget: nat)
    requires offset <= |ps| && AllSound(ps) && Fits(s, budget)
    ensures Fits(Serve(env, s, ps, start, offset, Some(budget)), budget)
    decreases |ps| - offset
  {
    hide ServeOne, Fits, AllSound;
    if offset < |ps| {
      ServeOneFits(env, s, ps, (start + offset) % |ps|, budget);
      var next := ServeOne(env, s, ps, (start + offset) % |ps|, Some(budget));
      if !next.stopped {
        ServeFits(env, next, ps, start, offset + 1, budget);
      }
    }
  }

  /**
   A budgeted call never emits more bytes than its budget allows, deletions, quarantined uploads and
   every other placement included, and the cache it leaves is again one this holds for.
   */
  lemma {:induction false} CallFitsBudget(
    env: Env, c: Cache, ps: seq<Placement>, live: set<SourceKey>, budget: nat)
    requires Bounded(c) && AllSound(ps)
    ensures var r := Incremental(env, c, ps, live, Some(budget));
            |RenderAll(r.cmds)| <= Limit(budget) && Bounded(r.cache)
  {
    var slots := DesiredSlots(env, c, ps);
    DeletionsFit(c, slots, DesiredKeys(ps), live, budget);
    hide Deletions, Serve, RenderAll, DesiredSlots, DesiredKeys, StartIndex, AllSound, Limit;
    var deleted := Deletions(c, slots, DesiredKeys(ps), live);
    if !deleted.stopped {
      ServeFits(env, deleted, ps, StartIndex(c, ps), 0, budget);
    }
  }
}
