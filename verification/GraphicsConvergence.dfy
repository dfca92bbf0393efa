/** The incremental call, phase by phase, against the work left; and the drain loop as a whole. */
module GraphicsConvergence {
  import opened Common
  import opened HostGraphics
  import opened GraphicsStep
  import opened GraphicsAgreement
  import opened GraphicsDrain

  /** A pass that began at `c`: work only shrank, something emitted means something done, and it stops only after emitting. */
  ghost predicate Progress(env: Env, c: Cache, s: Pass, ps: seq<Placement>, live: set<SourceKey>) {
    && Shrinks(env, c, s.cache, ps, live)
    && (s.emitted ==> Removes(env, c, s.cache, ps, live))
    && (s.stopped ==> s.emitted)
    && (!s.emitted ==> s.cmds == [])
  }

  lemma {:induction false} ProgressThen(env: Env, c: Cache, s: Pass, s': Pass, ps: seq<Placement>, live: set<SourceKey>)
    requires Progress(env, c, s, ps, live) && Shrinks(env, s.cache, s'.cache, ps, live)
    requires s'.emitted ==> s.emitted || Removes(env, s.cache, s'.cache, ps, live)
    requires (s'.stopped ==> s'.emitted) && (!s'.emitted ==> s'.cmds == [])
    ensures Progress(env, c, s', ps, live)
  {
    hide Pending, Good;
    ShrinksThen(env, c, s.cache, s'.cache, ps, live);
  }

  lemma {:induction false} SweepDeadProgress(
    env: Env, c: Cache, s: Pass, dead: seq<SourceKey>, ps: seq<Placement>, live: set<SourceKey>)
    requires Steady(env, ps, live) && Progress(env, c, s, ps, live)
    requires forall k | k in dead :: k in s.cache.sources
    requires forall i, j | 0 <= i < j < |dead| :: dead[i] != dead[j]
    requires forall k :: k in dead <==> k in DeadSources(s.cache, live)
    requires !s.stopped
    ensures var r := SweepDead(s, dead, DesiredImages(HomeSlots(env, ps)));
            Progress(env, c, r, ps, live) && (!r.stopped ==> DeadSources(r.cache, live) == {})
    decreases |dead|
  {
    hide Pending, Good, Shrinks, Removes, Steady;
    var desired := DesiredImages(HomeSlots(env, ps));
    if dead != [] {
      var key := dead[0];
      var image := s.cache.sources[key];
      var last := LastReference(s.cache, key, desired);
      if s.emitted && last {
        var r := s.(stopped := true);
        assert Progress(env, c, r, ps, live);
      } else {
        GoodOf(env, c, s, ps, live);
        DropDeadSource(env, s.cache, key, ps, live);
        var c1 := s.cache.(sources := s.cache.sources - {key});
        var s1 := s.(cache := c1);
        ProgressThen(env, c, s, s1, ps, live);
        assert forall k :: k in dead[1..] <==> k in DeadSources(c1, live) by {
          assert forall k :: k in dead <==> k == dead[0] || k in dead[1..];
        }
        if last {
          var c2 := DropImage(c1, image);
          GoodOf(env, c, s1, ps, live);
          DropImageShrinks(env, c1, image, ps, live);
          ShrinksThen(env, s.cache, c1, c2, ps, live);
          var s2 := s.(cache := c2, cmds := s.cmds + [DeleteImage(image)], emitted := true);
          ProgressThen(env, c, s, s2, ps, live);
          SweepDeadProgress(env, c, s2, dead[1..], ps, live);
        } else {
          SweepDeadProgress(env, c, s1, dead[1..], ps, live);
        }
      }
    }
  }

  lemma {:induction false} GoodOf(env: Env, c: Cache, s: Pass, ps: seq<Placement>, live: set<SourceKey>)
    requires Progress(env, c, s, ps, live)
    ensures Good(env, s.cache, ps)
  {
  }

  lemma {:induction false} SweepOrphansProgress(
    env: Env, c: Cache, s: Pass, orphans: seq<nat>, ps: seq<Placement>, live: set<SourceKey>)
    requires Steady(env, ps, live) && Progress(env, c, s, ps, live) && !s.stopped
    requires forall id | id in orphans ::
      id in s.cache.images && !Referenced(s.cache, id) && id !in DesiredImages(HomeSlots(env, ps)) && live != {}
    requires forall i, j | 0 <= i < j < |orphans| :: orphans[i] != orphans[j]
    ensures var r := SweepOrphans(s, orphans);
            && Progress(env, c, r, ps, live)
            && r.cache.sources == s.cache.sources
            && (!r.stopped ==> forall id | id in orphans :: id !in r.cache.images)
            && (forall id | id in r.cache.images :: id in s.cache.images)
            && Shrinks(env, s.cache, r.cache, ps, live)
    decreases |orphans|
  {
    hide Pending, Good, Removes, Steady;
    if orphans == [] || s.emitted {
      Refl(env, c, s, ps, live);
      assert Progress(env, c, s.(stopped := s.emitted), ps, live);
    } else {
      var c1 := DropImage(s.cache, orphans[0]);
      var s1 := s.(cache := c1, cmds := s.cmds + [DeleteImage(orphans[0])], emitted := true);
      DropImageShrinks(env, s.cache, orphans[0], ps, live);
      ProgressThen(env, c, s, s1, ps, live);
      SameReferenced(s.cache, c1);
      SweepOrphansProgress(env, c, s1, orphans[1..], ps, live);
      ShrinksThen(env, s.cache, c1, SweepOrphans(s1, orphans[1..]).cache, ps, live);
    }
  }

  lemma {:induction false} Refl(env: Env, c: Cache, s: Pass, ps: seq<Placement>, live: set<SourceKey>)
    requires Progress(env, c, s, ps, live)
    ensures Shrinks(env, s.cache, s.cache, ps, live)
  {
  }

  lemma {:induction false} SweepStaleProgress(
    env: Env, c: Cache, s: Pass, stale: seq<Slot>, ps: seq<Placement>, live: set<SourceKey>)
    requires Progress(env, c, s, ps, live) && !s.stopped
    requires forall x | x in stale :: x in s.cache.placements && x !in HomeSlots(env, ps)
    requires forall i, j | 0 <= i < j < |stale| :: stale[i] != stale[j]
    ensures var r := SweepStale(s, stale);
            && Progress(env, c, r, ps, live)
            && r.cache.sources == s.cache.sources
            && (!r.stopped ==> forall x | x in stale :: x !in r.cache.placements)
            && (forall x | x in r.cache.placements :: x in s.cache.placements)
            && Shrinks(env, s.cache, r.cache, ps, live)
    decreases |stale|
  {
    hide Pending, Good, Removes;
    if stale == [] || s.emitted {
      Refl(env, c, s, ps, live);
      assert Progress(env, c, s.(stopped := s.emitted), ps, live);
    } else {
      var c1 := DropSlot(s.cache, stale[0]);
      var s1 := s.(cache := c1, cmds := s.cmds + [DeletePlacement(stale[0])], emitted := true);
      DropStaleShrinks(env, s.cache, stale[0], ps, live);
      ProgressThen(env, c, s, s1, ps, live);
      SweepStaleProgress(env, c, s1, stale[1..], ps, live);
      ShrinksThen(env, s.cache, c1, SweepStale(s1, stale[1..]).cache, ps, live);
    }
  }

  /** Nothing left to delete, and every source still wanted. */
  ghost predicate Tidy(env: Env, c: Cache, ps: seq<Placement>, live: set<SourceKey>) {
    && AllKept(c, ps, live)
    && forall task | Pending(env, c, ps, live, task) :: task.Show?
  }

  /** The deletion phases do work or find none; passing them leaves only placements to show. */
  lemma {:induction false} DeletionsProgress(env: Env, c: Cache, ps: seq<Placement>, live: set<SourceKey>)
    requires Steady(env, ps, live) && Good(env, c, ps)
    ensures var r := Deletions(c, HomeSlots(env, ps), DesiredKeys(ps), live);
            Progress(env, c, r, ps, live) && (!r.stopped ==> Tidy(env, r.cache, ps, live))
  {
    var slots := HomeSlots(env, ps);
    var images := DesiredImages(slots);
    LayerLessTotal(DeadSources(c, live));
    SortDistinct(DeadSources(c, live), LayerLess);
    var s0 := Pass(c, [], false, false, false);
    hide Good, Steady, SweepDead, SweepOrphans, SweepStale, Sort, KeptReference, Shrinks, Tidy;
    var dead := Sort(DeadSources(c, live), LayerLess);
    SweepDeadProgress(env, c, s0, dead, ps, live);
    var s1 := SweepDead(s0, dead, images);
    if !s1.stopped {
      var s2 := s1.(cache := Prune(s1.cache, DesiredKeys(ps), live));
      hide Pending, Removes;
      PruneShrinks(env, s1.cache, ps, live);
      ProgressThen(env, c, s1, s2, ps, live);
      hide Deletions, Progress;
      SweepsProgress(env, c, s2, ps, live);
    }
  }

  lemma {:induction false} SweepsProgress(env: Env, c: Cache, s2: Pass, ps: seq<Placement>, live: set<SourceKey>)
    requires Steady(env, ps, live) && Progress(env, c, s2, ps, live) && !s2.stopped && AllKept(s2.cache, ps, live)
    ensures var slots := HomeSlots(env, ps);
            var s3 := SweepOrphans(s2, Sort(OrphanImages(s2.cache, live, DesiredImages(slots)), IdLess));
            var r := if s3.stopped then s3 else SweepStale(s3, Sort(StaleSlots(s3.cache, slots), SlotLess));
            Progress(env, c, r, ps, live) && (!r.stopped ==> Tidy(env, r.cache, ps, live))
  {
    hide Good, Steady, SweepOrphans, SweepStale, Sort, Pending, Removes, Shrinks, HomeSlots, DesiredImages, AllKept, Tidy;
    var slots := HomeSlots(env, ps);
    var images := DesiredImages(slots);
    var orphans := Sort(OrphanImages(s2.cache, live, images), IdLess);
    SortDistinct(OrphanImages(s2.cache, live, images), IdLess);
    SweepOrphansProgress(env, c, s2, orphans, ps, live);
    var s3 := SweepOrphans(s2, orphans);
    if !s3.stopped {
      var stale := Sort(StaleSlots(s3.cache, slots), SlotLess);
      SortDistinct(StaleSlots(s3.cache, slots), SlotLess);
      SweepStaleProgress(env, c, s3, stale, ps, live);
      var s4 := SweepStale(s3, stale);
      if !s4.stopped {
        DeletionsTidy(env, s2.cache, s3.cache, s4.cache, ps, live);
      }
    }
  }

  lemma {:induction false} DeletionsTidy(env: Env, c2: Cache, c3: Cache, c4: Cache, ps: seq<Placement>, live: set<SourceKey>)
    requires AllKept(c2, ps, live) && c3.sources == c2.sources && c4.sources == c3.sources
    requires Shrinks(env, c2, c3, ps, live) && Shrinks(env, c3, c4, ps, live)
    requires forall id | id in OrphanImages(c2, live, DesiredImages(HomeSlots(env, ps))) :: id !in c3.images
    requires forall x | x in StaleSlots(c3, HomeSlots(env, ps)) :: x !in c4.placements
    ensures Tidy(env, c4, ps, live)
  {
    hide Good;
    forall task | Pending(env, c4, ps, live, task) ensures task.Show? {
      if task.DropOrphan? {
        AllReferencesKept(c2, ps, live, task.image);
      }
    }
  }

  lemma {:induction false} AllReferencesKept(c: Cache, ps: seq<Placement>, live: set<SourceKey>, image: nat)
    requires AllKept(c, ps, live)
    ensures Referenced(c, image) ==> KeptReference(c, ps, live, image)
  {
  }

  // --- What the deletion phases leave alone ---

  lemma {:induction false} SweepDeadSame(
    env: Env, c: Cache, s: Pass, dead: seq<SourceKey>, ps: seq<Placement>, live: set<SourceKey>)
    requires Steady(env, ps, live) && SameForScene(env, c, s.cache, ps)
    requires forall k | k in dead :: k in s.cache.sources && k in DeadSources(c, live)
    requires forall i, j | 0 <= i < j < |dead| :: dead[i] != dead[j]
    ensures SameForScene(env, c, SweepDead(s, dead, DesiredImages(HomeSlots(env, ps))).cache, ps)
    decreases |dead|
  {
    hide SameForScene, Steady;
    var desired := DesiredImages(HomeSlots(env, ps));
    if dead != [] {
      var key := dead[0];
      var image := s.cache.sources[key];
      var last := LastReference(s.cache, key, desired);
      if !(s.emitted && last) {
        var c1 := s.cache.(sources := s.cache.sources - {key});
        assert key in dead;
        DeadIsElsewhere(env, s.cache, key, ps, live);
        SameForSceneThen(env, c, s.cache, c1, ps);
        if last {
          DropIsElsewhere(env, c1, image, ps);
          SameForSceneThen(env, c, c1, DropImage(c1, image), ps);
          SweepDeadSame(
            env, c, s.(cache := DropImage(c1, image), cmds := s.cmds + [DeleteImage(image)], emitted := true),
            dead[1..], ps, live);
        } else {
          SweepDeadSame(env, c, s.(cache := c1), dead[1..], ps, live);
        }
      }
    }
  }

  lemma {:induction false} DeadIsElsewhere(env: Env, c: Cache, key: SourceKey, ps: seq<Placement>, live: set<SourceKey>)
    requires Steady(env, ps, live) && key.PaneLayer? && key !in live
    ensures SameForScene(env, c, c.(sources := c.sources - {key}), ps)
  {
    hide HomeImage;
  }

  lemma {:induction false} DropIsElsewhere(env: Env, c: Cache, image: nat, ps: seq<Placement>)
    requires image !in DesiredImages(HomeSlots(env, ps))
    ensures SameForScene(env, c, DropImage(c, image), ps)
  {
    forall p | p in ps && p.clip.Some? ensures HomeImage(env, p) != image && HomeSlot(env, p).image == HomeImage(env, p) {
      var i :| 0 <= i < |ps| && ps[i] == p;
      assert HomeSlot(env, p) in HomeSlots(env, ps);
    }
    hide HomeImage, HomeSlots, HomeSlot;
  }

  lemma {:induction false} SweepOrphansSame(env: Env, c: Cache, s: Pass, orphans: seq<nat>, ps: seq<Placement>)
    requires SameForScene(env, c, s.cache, ps)
    requires forall id | id in orphans :: id !in DesiredImages(HomeSlots(env, ps))
    ensures SameForScene(env, c, SweepOrphans(s, orphans).cache, ps)
    decreases |orphans|
  {
    hide SameForScene;
    if orphans != [] && !s.emitted {
      var next := s.(
        cache := DropImage(s.cache, orphans[0]), cmds := s.cmds + [DeleteImage(orphans[0])], emitted := true);
      assert orphans[0] in orphans;
      DropIsElsewhere(env, s.cache, orphans[0], ps);
      SameForSceneThen(env, c, s.cache, next.cache, ps);
      SweepOrphansSame(env, c, next, orphans[1..], ps);
    }
  }

  lemma {:induction false} SweepStaleSame(env: Env, c: Cache, s: Pass, stale: seq<Slot>, ps: seq<Placement>)
    requires SameForScene(env, c, s.cache, ps)
    requires forall x | x in stale :: x !in HomeSlots(env, ps)
    ensures SameForScene(env, c, SweepStale(s, stale).cache, ps)
    decreases |stale|
  {
    if stale != [] && !s.emitted {
      assert stale[0] in stale;
      forall p | p in ps && p.clip.Some? ensures HomeSlot(env, p) in HomeSlots(env, ps) {
        var i :| 0 <= i < |ps| && ps[i] == p;
      }
      hide HomeImage, HomeSlots, HomeSlot;
      var next := s.(
        cache := DropSlot(s.cache, stale[0]), cmds := s.cmds + [DeletePlacement(stale[0])], emitted := true);
      SweepStaleSame(env, c, next, stale[1..], ps);
    }
  }

  lemma {:induction false} PruneIsElsewhere(env: Env, c: Cache, ps: seq<Placement>, live: set<SourceKey>)
    ensures SameForScene(env, c, Prune(c, DesiredKeys(ps), live), ps)
  {
    forall q | q in ps ensures q.key in DesiredKeys(ps) {
      var i :| 0 <= i < |ps| && ps[i] == q;
      assert ps[i].key in DesiredKeys(ps);
    }
    hide HomeImage, DesiredKeys;
  }

  /** The deletion phases touch no image, source or size mark that the scene counts on. */
  lemma {:induction false} DeletionsSame(env: Env, c: Cache, ps: seq<Placement>, live: set<SourceKey>)
    requires Steady(env, ps, live)
    ensures SameForScene(env, c, Deletions(c, HomeSlots(env, ps), DesiredKeys(ps), live).cache, ps)
  {
    var slots := HomeSlots(env, ps);
    var images := DesiredImages(slots);
    LayerLessTotal(DeadSources(c, live));
    SortDistinct(DeadSources(c, live), LayerLess);
    var s0 := Pass(c, [], false, false, false);
    var dead := Sort(DeadSources(c, live), LayerLess);
    assert SameForScene(env, c, c, ps);
    SweepDeadSame(env, c, s0, dead, ps, live);
    var s1 := SweepDead(s0, dead, images);
    hide SweepDead, SameForScene, Steady, Sort, HomeSlots, DesiredKeys, DesiredImages;
    if !s1.stopped {
      var s2 := s1.(cache := Prune(s1.cache, DesiredKeys(ps), live));
      PruneIsElsewhere(env, s1.cache, ps, live);
      SameForSceneThen(env, c, s1.cache, s2.cache, ps);
      var orphans := Sort(OrphanImages(s2.cache, live, images), IdLess);
      SortDistinct(OrphanImages(s2.cache, live, images), IdLess);
      SweepOrphansSame(env, c, s2, orphans, ps);
      var s3 := SweepOrphans(s2, orphans);
      hide SweepOrphans;
      if !s3.stopped {
        SortDistinct(StaleSlots(s3.cache, slots), SlotLess);
        SweepStaleSame(env, c, s3, Sort(StaleSlots(s3.cache, slots), SlotLess), ps);
      }
    }
  }

  /** With nothing to delete the deletion phases change no record and emit nothing. */
  lemma {:induction false} NothingToDelete(env: Env, c: Cache, ps: seq<Placement>, live: set<SourceKey>)
    requires Tidy(env, c, ps, live)
    ensures var s := Deletions(c, HomeSlots(env, ps), DesiredKeys(ps), live);
            s == Pass(Prune(c, DesiredKeys(ps), live), [], false, false, false)
            && s.cache == c.(oversized := s.cache.oversized)
  {
    var slots := HomeSlots(env, ps);
    var images := DesiredImages(slots);
    forall k ensures k !in DeadSources(c, live) {
      assert !Pending(env, c, ps, live, DropSource(k));
    }
    var c1 := Prune(c, DesiredKeys(ps), live);
    assert c1.sources == c.sources;
    forall id ensures id !in OrphanImages(c1, live, images) {
      AllReferencesKept(c, ps, live, id);
      SameReferenced(c, c1);
      assert !Pending(env, c, ps, live, DropOrphan(id));
    }
    forall x ensures x !in StaleSlots(c1, slots) {
      assert !Pending(env, c, ps, live, DropStale(x));
    }
    assert DeadSources(c, live) == {} && OrphanImages(c1, live, images) == {} && StaleSlots(c1, slots) == {};
  }

  // --- The placement pass ---

  /** An update that would have to send an image it has no pixels for fails. */
  lemma {:induction false} NothingToSend(env: Env, c: Cache, ps: seq<Placement>, p: Placement)
    requires Unobstructed(env, c, ps) && p in ps && WellFormed(env, p) && p.clip.Some?
    requires p.data == [] && !ImageCurrent(c, p, HomeImage(env, p))
    ensures Update(env, c, p).None?
  {
    HomeResolves(env, c, ps, p);
    hide ResolveSlot, HomeImage;
  }

  predicate Servable(env: Env, c: Cache, p: Placement, budget: Option<nat>) {
    p.clip.Some? && !Quarantined(c, p, budget) && Sendable(env, c, p, budget)
  }

  /** A placement that was shown, hidden, set aside, or passed over changes no record; one that can be sent ends up current. */
  lemma {:induction false} ServeOneProgress(
    env: Env, c: Cache, s: Pass, ps: seq<Placement>, live: set<SourceKey>, index: nat, budget: Option<nat>)
    requires Steady(env, ps, live) && index < |ps|
    requires Progress(env, c, s, ps, live) && Tidy(env, s.cache, ps, live) && !s.stopped
    ensures var r := ServeOne(env, s, ps, index, budget);
            && Progress(env, c, r, ps, live) && Tidy(env, r.cache, ps, live)
            && Shrinks(env, s.cache, r.cache, ps, live)
            && (!r.stopped && Servable(env, s.cache, ps[index], budget) ==> Current(env, r.cache, ps[index]))
  {
    var p := ps[index];
    assert p in ps;
    var c1 := s.cache.(oversized := s.cache.oversized - {p.key});
    var r := ServeOne(env, s, ps, index, budget);
    SameWork(env, s.cache, s.cache, ps, live);
    SameWork(env, s.cache, c1, ps, live);
    SameWork(env, s.cache, c1.(oversized := c1.oversized[p.key := p.sig]), ps, live);
    HomeResolves(env, c1, ps, p);
    assert ImageCurrent(c1, p, HomeImage(env, p)) == ImageCurrent(s.cache, p, HomeImage(env, p));
    hide Good, Update, Inv, Unobstructed, ResolveImage, Steady, HomeImage, TransactionFits;
    if Quarantined(s.cache, p, budget) || Oversized(env, c1, p, budget) {
      assert r.cmds == s.cmds && r.emitted == s.emitted && !r.stopped;
      assert Shrinks(env, s.cache, r.cache, ps, live) && AllKept(r.cache, ps, live);
    } else {
      TryProgress(env, s, c1, ps, live, index);
      assert r == Commit(s, c1, Cursor(Source(p), (index + 1) % |ps|), Update(env, c1, p));
      ShrinksThen(env, s.cache, c1, r.cache, ps, live);
    }
    hide Shrinks, Removes, Current, ServeOne, Tidy, Progress;
    TidyThen(env, s.cache, r.cache, ps, live);
    ProgressThen(env, c, s, r, ps, live);
  }

  lemma {:induction false} TryProgress(env: Env, s: Pass, c: Cache, ps: seq<Placement>, live: set<SourceKey>, index: nat)
    requires Steady(env, ps, live) && index < |ps| && Good(env, c, ps) && AllKept(c, ps, live) && !s.stopped
    ensures var p := ps[index];
            var r := Commit(s, c, Cursor(Source(p), (index + 1) % |ps|), Update(env, c, p));
            && Shrinks(env, c, r.cache, ps, live) && AllKept(r.cache, ps, live)
            && (r.emitted ==> s.emitted || Removes(env, c, r.cache, ps, live))
            && (r.stopped ==> r.emitted && s.emitted) && (!r.emitted ==> r.cmds == s.cmds)
            && (!r.stopped && p.clip.Some? && (p.data != [] || ImageCurrent(c, p, HomeImage(env, p))) ==> Current(env, r.cache, p))
  {
    var p := ps[index];
    SteadyMember(env, ps, live, index);
    GoodParts(env, c, ps);
    SameWork(env, c, c, ps, live);
    hide Update, Good, Inv, Unobstructed, Steady, HomeImage, Shrinks, Removes, AllKept, Current;
    if p.clip.None? || Current(env, c, p) {
      UpdateUnneeded(env, c, ps, p);
    } else if p.data == [] && !ImageCurrent(c, p, HomeImage(env, p)) {
      NothingToSend(env, c, ps, p);
    } else {
      hide ImageCurrent;
      ShownProgress(env, c, ps, live, index, Cursor(Source(p), (index + 1) % |ps|));
    }
  }

  /** An update that shows its placement, with the resume point moved or not. */
  lemma {:induction false} ShownProgress(env: Env, c: Cache, ps: seq<Placement>, live: set<SourceKey>, index: nat, cursor: Cursor)
    requires Steady(env, ps, live) && index < |ps| && Good(env, c, ps) && AllKept(c, ps, live)
    requires ps[index].clip.Some? && !Current(env, c, ps[index])
    requires ps[index].data != [] || ImageCurrent(c, ps[index], HomeImage(env, ps[index]))
    ensures Update(env, c, ps[index]).Some?
    ensures var d := Update(env, c, ps[index]).value.cache;
            forall e | e == d || e == d.(continuation := Some(cursor)) ::
              && Shrinks(env, c, e, ps, live) && AllKept(e, ps, live)
              && Removes(env, c, e, ps, live) && Current(env, e, ps[index])
  {
    SteadyMember(env, ps, live, index);
    UpdateEffect(env, c, ps, ps[index]);
    hide Update, Good, Inv, Unobstructed, Steady, HomeImage, Shrinks, Removes, AllKept, Current, Replaces, ImageCurrent;
    var d := Update(env, c, ps[index]).value.cache;
    UpdateShrinks(env, c, d, ps, live, index);
    var e := d.(continuation := Some(cursor));
    ShrinksGood(env, c, d, ps, live);
    SameWork(env, d, e, ps, live);
    ShrinksThen(env, c, d, e, ps, live);
    CursorIrrelevant(env, d, Some(cursor), ps[index]);
    assert AllKept(e, ps, live) by { SameKept(d, e, ps, live); }
  }

  lemma {:induction false} ShrinksGood(env: Env, c: Cache, d: Cache, ps: seq<Placement>, live: set<SourceKey>)
    requires Shrinks(env, c, d, ps, live)
    ensures Good(env, d, ps)
  {
    hide Good, Pending;
  }

  lemma {:induction false} SameKept(c: Cache, d: Cache, ps: seq<Placement>, live: set<SourceKey>)
    requires AllKept(c, ps, live) && d.sources == c.sources
    ensures AllKept(d, ps, live)
  {
  }

  lemma {:induction false} CursorIrrelevant(env: Env, c: Cache, cursor: Option<Cursor>, p: Placement)
    requires p.clip.Some? && Current(env, c, p)
    ensures Current(env, c.(continuation := cursor), p)
  {
  }

  lemma {:induction false} TidyThen(env: Env, c: Cache, c': Cache, ps: seq<Placement>, live: set<SourceKey>)
    requires Tidy(env, c, ps, live) && Shrinks(env, c, c', ps, live) && AllKept(c', ps, live)
    ensures Tidy(env, c', ps, live)
  {
    hide Pending, Good;
  }

  lemma {:induction false} ServeProgress(
    env: Env, c: Cache, s: Pass, ps: seq<Placement>, live: set<SourceKey>, start: nat, offset: nat, budget: Option<nat>)
    requires Steady(env, ps, live) && offset <= |ps|
    requires Progress(env, c, s, ps, live) && Tidy(env, s.cache, ps, live) && !s.stopped
    ensures var r := Serve(env, s, ps, start, offset, budget);
            && Progress(env, c, r, ps, live) && Tidy(env, r.cache, ps, live)
            && Shrinks(env, s.cache, r.cache, ps, live)
    decreases |ps| - offset
  {
    hide ServeOne, Good, Steady, Removes, Current, Shrinks, Tidy, Progress;
    if offset == |ps| {
      Refl(env, c, s, ps, live);
    } else {
      var index := (start + offset) % |ps|;
      var next := ServeOne(env, s, ps, index, budget);
      ServeOneProgress(env, c, s, ps, live, index, budget);
      if next.stopped {
      } else {
        ServeProgress(env, c, next, ps, live, start, offset + 1, budget);
        ShrinksThen(env, s.cache, next.cache, Serve(env, next, ps, start, offset + 1, budget).cache, ps, live);
      }
    }
  }

  // --- What a whole pass settles ---

  /** Hidden, current, or too large and set aside as such. */
  predicate Settled(env: Env, c: Cache, p: Placement, budget: Option<nat>) {
    p.clip.None? || Current(env, c, p) || (Oversized(env, c, p, budget) && Quarantined(c, p, budget))
  }

  predicate SettledAt(env: Env, c: Cache, ps: seq<Placement>, start: nat, k: nat, budget: Option<nat>)
    requires ps != []
  {
    Settled(env, c, ps[(start + k) % |ps|], budget)
  }

  /** The same visible placements are too large. */
  ghost predicate SameLimits(env: Env, c: Cache, d: Cache, ps: seq<Placement>, budget: Option<nat>) {
    forall p | p in ps && p.clip.Some? :: Oversized(env, c, p, budget) <==> Oversized(env, d, p, budget)
  }

  lemma {:induction false} SameSceneSameLimits(env: Env, c: Cache, d: Cache, ps: seq<Placement>, budget: Option<nat>)
    requires SameForScene(env, c, d, ps)
    ensures SameLimits(env, c, d, ps, budget)
  {
    hide HomeImage, TransactionFits;
  }

  lemma {:induction false} UpdateLimits(env: Env, c: Cache, d: Cache, ps: seq<Placement>, live: set<SourceKey>, i: nat, budget: Option<nat>)
    requires Supplied(env, c, ps, budget) && Steady(env, ps, live) && i < |ps| && ps[i].clip.Some?
    requires Sendable(env, c, ps[i], budget) && Replaces(c, d, ps[i], HomeSlot(env, ps[i]))
    ensures SameLimits(env, c, d, ps, budget)
  {
    assert ps[i] in ps;
    hide TransactionFits, Replaces, Steady, HomeImage;
    forall p | p in ps && p.clip.Some? ensures Oversized(env, c, p, budget) <==> Oversized(env, d, p, budget) {
      SameKeySameHome(env, ps, live, p, ps[i]);
      if Anchored(env, c, ps, p) {
        AnchorHolds(env, c, d, ps, live, i, p);
      }
      if Oversized(env, c, p, budget) {
        StaysOversized(env, c, d, ps[i], p, budget);
      }
    }
  }

  lemma {:induction false} UpdateKeepsMarks(env: Env, c: Cache, p: Placement)
    requires Update(env, c, p).Some?
    ensures Update(env, c, p).value.cache.oversized == c.oversized
  {
  }

  lemma {:induction false} MarkSupplied(env: Env, c: Cache, ps: seq<Placement>, live: set<SourceKey>, p: Placement, budget: Option<nat>)
    requires Supplied(env, c, ps, budget) && Steady(env, ps, live) && p in ps && Oversized(env, c, p, budget)
    ensures var d := c.(oversized := c.oversized[p.key := p.sig]);
            Supplied(env, d, ps, budget) && SameLimits(env, c, d, ps, budget)
  {
    var d := c.(oversized := c.oversized[p.key := p.sig]);
    hide TransactionFits, Steady, HomeImage;
    forall q | q in ps && q.clip.Some?
      ensures (q.data != [] && TransactionFits(q.sig.dataLen, budget)) || Anchored(env, d, ps, q) || Oversized(env, d, q, budget)
      ensures Quarantined(d, q, budget) ==> Oversized(env, d, q, budget)
    {
      SameKeySameHome(env, ps, live, p, q);
      if Anchored(env, c, ps, q) {
        SameImagesSameAnchor(env, c, d, ps, q);
      }
    }
  }

  lemma {:induction false} SameImagesSameAnchor(env: Env, c: Cache, d: Cache, ps: seq<Placement>, q: Placement)
    requires c.images == d.images && c.sources == d.sources && Anchored(env, c, ps, q)
    ensures Anchored(env, d, ps, q)
  {
    hide HomeImage;
  }

  /** Serving one placement: the scene stays supplied, and the placement is settled unless the call stops. */
  lemma {:induction false} ServeOneSettles(
    env: Env, s: Pass, ps: seq<Placement>, live: set<SourceKey>, index: nat, budget: Option<nat>)
    requires Steady(env, ps, live) && index < |ps| && Good(env, s.cache, ps) && AllKept(s.cache, ps, live)
    requires Supplied(env, s.cache, ps, budget) && !s.stopped
    ensures var r := ServeOne(env, s, ps, index, budget);
            && Supplied(env, r.cache, ps, budget) && SameLimits(env, s.cache, r.cache, ps, budget)
            && (!r.stopped ==> Settled(env, r.cache, ps[index], budget))
            && (forall p | p in ps && p.clip.Some? && Oversized(env, s.cache, p, budget) && Quarantined(s.cache, p, budget) ::
                  Quarantined(r.cache, p, budget))
  {
    var p := ps[index];
    var c1 := s.cache.(oversized := s.cache.oversized - {p.key});
    ServeOneMeans(env, s, ps, live, index, budget);
    UnmarkSettles(env, s.cache, ps, live, index, budget);
    hide *;
    if Quarantined(s.cache, p, budget) {
    } else if Oversized(env, c1, p, budget) {
      MarkSupplied(env, c1, ps, live, p, budget);
      MarkSettles(env, s.cache, c1, ps, live, index, budget);
    } else {
      ServedSettles(env, s, c1, ps, live, index, budget);
      var r := ServeOne(env, s, ps, index, budget);
      LimitsThen(env, s.cache, c1, r.cache, ps, budget);
      SameMarksSameQuarantine(c1, r.cache, ps, budget);
    }
  }

  lemma {:induction false} LimitsThen(env: Env, a: Cache, b: Cache, c: Cache, ps: seq<Placement>, budget: Option<nat>)
    requires SameLimits(env, a, b, ps, budget) && SameLimits(env, b, c, ps, budget)
    ensures SameLimits(env, a, c, ps, budget)
  {
    hide Oversized;
  }

  lemma {:induction false} SameMarksSameQuarantine(c: Cache, d: Cache, ps: seq<Placement>, budget: Option<nat>)
    requires c.oversized == d.oversized
    ensures forall p | p in ps :: Quarantined(c, p, budget) <==> Quarantined(d, p, budget)
  {
  }

  /** The three ways a placement is handled, in terms of its home image. */
  lemma {:induction false} ServeOneMeans(env: Env, s: Pass, ps: seq<Placement>, live: set<SourceKey>, index: nat, budget: Option<nat>)
    requires Steady(env, ps, live) && index < |ps| && Good(env, s.cache, ps)
    ensures var p := ps[index];
            var c1 := s.cache.(oversized := s.cache.oversized - {p.key});
            p in ps && ServeOne(env, s, ps, index, budget) ==
              if Quarantined(s.cache, p, budget) then s.(skipped := true)
              else if Oversized(env, c1, p, budget) then
                s.(cache := c1.(oversized := c1.oversized[p.key := p.sig]), skipped := true)
              else Commit(s, c1, Cursor(Source(p), (index + 1) % |ps|), Update(env, c1, p))
  {
    var p := ps[index];
    var c1 := s.cache.(oversized := s.cache.oversized - {p.key});
    SteadyMember(env, ps, live, index);
    GoodParts(env, s.cache, ps);
    assert Unobstructed(env, c1, ps);
    HomeResolves(env, c1, ps, p);
    hide Update, Inv, Unobstructed, ResolveImage, Steady, HomeImage, TransactionFits, Commit, Good;
  }

  /** Dropping the mark of a placement that was not set aside. */
  lemma {:induction false} UnmarkSettles(env: Env, c: Cache, ps: seq<Placement>, live: set<SourceKey>, index: nat, budget: Option<nat>)
    requires Steady(env, ps, live) && index < |ps| && Good(env, c, ps) && AllKept(c, ps, live)
    requires Supplied(env, c, ps, budget)
    ensures var p := ps[index];
            var d := c.(oversized := c.oversized - {p.key});
            && Good(env, d, ps) && AllKept(d, ps, live) && Supplied(env, d, ps, budget)
            && SameLimits(env, c, d, ps, budget) && SameLimits(env, c, c, ps, budget)
            && (Oversized(env, d, p, budget) <==> Oversized(env, c, p, budget))
            && (Quarantined(c, p, budget) ==> Settled(env, c, p, budget))
            && (!Quarantined(c, p, budget) ==> forall q | q in ps && Quarantined(c, q, budget) :: Quarantined(d, q, budget))
  {
    var p := ps[index];
    assert p in ps;
    var d := c.(oversized := c.oversized - {p.key});
    SameWork(env, c, d, ps, live);
    assert SameForScene(env, c, d, ps) && SameForScene(env, c, c, ps);
    StaysSupplied(env, c, d, ps, budget);
    SameSceneSameLimits(env, c, d, ps, budget);
    SameSceneSameLimits(env, c, c, ps, budget);
    forall q | q in ps ensures q.key == p.key ==> q.sig == p.sig {
      SameKeySameHome(env, ps, live, p, q);
    }
    hide Good, Steady, HomeImage, TransactionFits, SameForScene;
  }

  lemma {:induction false} MarkSettles(env: Env, c: Cache, c1: Cache, ps: seq<Placement>, live: set<SourceKey>, index: nat, budget: Option<nat>)
    requires Steady(env, ps, live) && index < |ps| && Oversized(env, c1, ps[index], budget)
    requires SameLimits(env, c, c1, ps, budget)
    requires forall q | q in ps && Quarantined(c, q, budget) :: Quarantined(c1, q, budget)
    requires var d := c1.(oversized := c1.oversized[ps[index].key := ps[index].sig]); SameLimits(env, c1, d, ps, budget)
    ensures var p := ps[index];
            var d := c1.(oversized := c1.oversized[p.key := p.sig]);
            && SameLimits(env, c, d, ps, budget) && Settled(env, d, p, budget)
            && (forall q | q in ps && Quarantined(c, q, budget) :: Quarantined(d, q, budget))
  {
    var p := ps[index];
    assert p in ps;
    forall q | q in ps ensures q.key == p.key ==> q.sig == p.sig {
      SameKeySameHome(env, ps, live, p, q);
    }
    hide Steady, HomeImage;
  }

  lemma {:induction false} ServedSettles(env: Env, s: Pass, c: Cache, ps: seq<Placement>, live: set<SourceKey>, index: nat, budget: Option<nat>)
    requires Steady(env, ps, live) && index < |ps| && Good(env, c, ps) && AllKept(c, ps, live) && !s.stopped
    requires Supplied(env, c, ps, budget) && !Oversized(env, c, ps[index], budget)
    ensures var p := ps[index];
            var r := Commit(s, c, Cursor(Source(p), (index + 1) % |ps|), Update(env, c, p));
            && Supplied(env, r.cache, ps, budget) && SameLimits(env, c, r.cache, ps, budget)
            && r.cache.oversized == c.oversized
            && (!r.stopped ==> Settled(env, r.cache, p, budget))
  {
    var p := ps[index];
    SteadyMember(env, ps, live, index);
    GoodParts(env, c, ps);
    SameSceneSameLimits(env, c, c, ps, budget) by { assert SameForScene(env, c, c, ps); }
    var cursor := Cursor(Source(p), (index + 1) % |ps|);
    if p.clip.None? || Current(env, c, p) {
      UpdateUnneeded(env, c, ps, p);
      hide Update, Supplied, SameLimits, Current, Oversized, Quarantined;
    } else {
      hide *;
      SuppliedMeans(env, c, ps, p, budget);
      UpdateEffect(env, c, ps, p);
      UpdateKeepsMarks(env, c, p);
      var d := Update(env, c, p).value.cache;
      UpdateSupplied(env, c, d, ps, live, index, budget);
      UpdateLimits(env, c, d, ps, live, index, budget);
      UpdateShrinks(env, c, d, ps, live, index);
      var e := d.(continuation := Some(cursor));
      MoveCursorSettles(env, d, cursor, ps, p, budget);
      LimitsThen(env, c, d, e, ps, budget);
      CommitMeans(s, c, cursor, Update(env, c, p));
    }
  }

  lemma {:induction false} SuppliedMeans(env: Env, c: Cache, ps: seq<Placement>, p: Placement, budget: Option<nat>)
    requires Supplied(env, c, ps, budget) && p in ps && !Oversized(env, c, p, budget) && p.clip.Some?
    ensures Sendable(env, c, p, budget) && (p.data != [] || ImageCurrent(c, p, HomeImage(env, p)))
  {
    hide HomeImage, TransactionFits;
  }

  lemma {:induction false} CommitMeans(s: Pass, c: Cache, cursor: Cursor, update: Option<Delta>)
    requires update.Some?
    ensures var r := Commit(s, c, cursor, update);
            || (r.stopped && r.cache == c)
            || r.cache == update.value.cache || r.cache == update.value.cache.(continuation := Some(cursor))
  {
  }

  lemma {:induction false} MoveCursorSettles(env: Env, c: Cache, cursor: Cursor, ps: seq<Placement>, p: Placement, budget: Option<nat>)
    requires Supplied(env, c, ps, budget) && p.clip.Some? && Current(env, c, p)
    ensures var d := c.(continuation := Some(cursor));
            && Supplied(env, d, ps, budget) && SameLimits(env, c, d, ps, budget)
            && Settled(env, d, p, budget) && Settled(env, c, p, budget)
  {
    var d := c.(continuation := Some(cursor));
    assert SameForScene(env, c, d, ps);
    StaysSupplied(env, c, d, ps, budget);
    SameSceneSameLimits(env, c, d, ps, budget);
    hide Supplied, SameLimits, HomeImage, SameForScene;
  }

  lemma {:induction false} SettledStays(env: Env, c: Cache, d: Cache, ps: seq<Placement>, live: set<SourceKey>, start: nat, k: nat, budget: Option<nat>)
    requires ps != [] && Shrinks(env, c, d, ps, live) && SameLimits(env, c, d, ps, budget)
    requires forall p | p in ps && p.clip.Some? && Oversized(env, c, p, budget) && Quarantined(c, p, budget) :: Quarantined(d, p, budget)
    requires SettledAt(env, c, ps, start, k, budget)
    ensures SettledAt(env, d, ps, start, k, budget)
  {
    hide Good;
    var i := (start + k) % |ps|;
    assert ps[i] in ps;
    assert !Pending(env, c, ps, live, Show(i)) ==> !Pending(env, d, ps, live, Show(i));
  }

  lemma {:induction false} ServeSettles(
    env: Env, c: Cache, s: Pass, ps: seq<Placement>, live: set<SourceKey>, start: nat, offset: nat, budget: Option<nat>)
    requires Steady(env, ps, live) && offset <= |ps|
    requires Progress(env, c, s, ps, live) && Tidy(env, s.cache, ps, live) && !s.stopped
    requires Supplied(env, s.cache, ps, budget)
    ensures var r := Serve(env, s, ps, start, offset, budget);
            && Supplied(env, r.cache, ps, budget) && SameLimits(env, s.cache, r.cache, ps, budget)
            && (forall p | p in ps && p.clip.Some? && Oversized(env, s.cache, p, budget) && Quarantined(s.cache, p, budget) ::
                  Quarantined(r.cache, p, budget))
            && (!r.stopped ==> forall k | offset <= k < |ps| :: SettledAt(env, r.cache, ps, start, k, budget))
    decreases |ps| - offset
  {
    hide ServeOne, Good, Steady, Removes, Current, Shrinks, Oversized, Quarantined, SettledAt, Supplied, Pending;
    if offset < |ps| {
      var index := (start + offset) % |ps|;
      var next := ServeOne(env, s, ps, index, budget);
      GoodOf(env, c, s, ps, live);
      ServeOneProgress(env, c, s, ps, live, index, budget);
      ServeOneSettles(env, s, ps, live, index, budget);
      if !next.stopped {
        ServeSettles(env, c, next, ps, live, start, offset + 1, budget);
        ServeProgress(env, c, next, ps, live, start, offset + 1, budget);
        var r := Serve(env, next, ps, start, offset + 1, budget);
        assert SettledAt(env, next.cache, ps, start, offset, budget) by { SettledHere(env, next.cache, ps, start, offset, budget); }
        hide Tidy, Progress;
        SettledStays(env, next.cache, r.cache, ps, live, start, offset, budget);
      }
    }
  }

  lemma {:induction false} SettledHere(env: Env, c: Cache, ps: seq<Placement>, start: nat, k: nat, budget: Option<nat>)
    requires ps != [] && Settled(env, c, ps[(start + k) % |ps|], budget)
    ensures SettledAt(env, c, ps, start, k, budget)
  {
  }

  lemma {:induction false} OffsetOf(n: nat, start: nat, index: nat) returns (k: nat)
    requires index < n && start < n
    ensures k < n && (start + k) % n == index
  {
    k := if start <= index then index - start else index + n - start;
  }

  ghost predicate AllSettled(env: Env, c: Cache, ps: seq<Placement>, budget: Option<nat>) {
    forall p | p in ps :: Settled(env, c, p, budget)
  }

  lemma {:induction false} PassSettlesAll(env: Env, c: Cache, ps: seq<Placement>, start: nat, budget: Option<nat>)
    requires ps != [] ==> start < |ps|
    requires forall k | 0 <= k < |ps| :: SettledAt(env, c, ps, start, k, budget)
    ensures AllSettled(env, c, ps, budget)
  {
    hide Settled;
    forall p | p in ps ensures Settled(env, c, p, budget) {
      var i :| 0 <= i < |ps| && ps[i] == p;
      var k := OffsetOf(|ps|, start, i);
      assert SettledAt(env, c, ps, start, k, budget);
    }
  }

  // --- The call ---

  /**
   One incremental call, with or without a budget and whatever pixels are left out: while it reports
   `incomplete` it strictly shrinks the work, and a complete call leaves only placements to show.
   */
  lemma {:induction false} IncrementalProgress(env: Env, c: Cache, ps: seq<Placement>, live: set<SourceKey>, budget: Option<nat>)
    requires Steady(env, ps, live) && Good(env, c, ps)
    ensures var r := Incremental(env, c, ps, live, budget);
            && Good(env, r.cache, ps)
            && (r.incomplete ==> Work(env, r.cache, ps, live) < Work(env, c, ps, live))
            && (!r.incomplete ==> Tidy(env, r.cache, ps, live) && !r.cache.replay && r.cache.replayed == {})
  {
    HomeSlotsAreDesired(env, c, ps);
    DeletionsProgress(env, c, ps, live);
    hide Deletions, Serve, Good, Steady, Pending, HomeSlots, DesiredSlots, Removes, Shrinks, Current, ResolveSlot, DesiredKeys,
         Tidy, AllKept, StartIndex, Settle;
    var s := Deletions(c, HomeSlots(env, ps), DesiredKeys(ps), live);
    if s.stopped {
      CallIncomplete(env, c, s, ps, live);
    } else {
      var start := StartIndex(c, ps);
      ServeProgress(env, c, s, ps, live, start, 0, budget);
      var served := Serve(env, s, ps, start, 0, budget);
      if served.stopped {
        CallIncomplete(env, c, served, ps, live);
      } else {
        GoodOf(env, c, served, ps, live);
        SettleFinishes(env, served.cache, ps, live);
      }
    }
  }

  /**
   In a supplied scene a complete call leaves every visible placement current, or too large and set
   aside; which ones are too large does not change.
   */
  lemma {:induction false} IncrementalSettles(env: Env, c: Cache, ps: seq<Placement>, live: set<SourceKey>, budget: Option<nat>)
    requires Steady(env, ps, live) && Good(env, c, ps) && Supplied(env, c, ps, budget)
    ensures var r := Incremental(env, c, ps, live, budget);
            && Supplied(env, r.cache, ps, budget) && SameLimits(env, c, r.cache, ps, budget)
            && (!r.incomplete ==> AllSettled(env, r.cache, ps, budget))
  {
    HomeSlotsAreDesired(env, c, ps);
    DeletionsProgress(env, c, ps, live);
    DeletionsSame(env, c, ps, live);
    hide Deletions, Serve, Good, Steady, Pending, HomeSlots, DesiredSlots, Removes, Shrinks, Current, ResolveSlot, DesiredKeys,
         Tidy, AllKept, StartIndex, SettledAt, Settle, SameForScene, Supplied, Oversized, Quarantined;
    var s := Deletions(c, HomeSlots(env, ps), DesiredKeys(ps), live);
    StaysSupplied(env, c, s.cache, ps, budget);
    SameSceneSameLimits(env, c, s.cache, ps, budget);
    if !s.stopped {
      var start := StartIndex(c, ps);
      ServeSettles(env, c, s, ps, live, start, 0, budget);
      var served := Serve(env, s, ps, start, 0, budget);
      if !served.stopped {
        PassSettlesAll(env, served.cache, ps, start, budget);
        SettleKeeps(env, served.cache, ps, budget);
      }
    }
  }

  lemma {:induction false} SettleKeeps(env: Env, c: Cache, ps: seq<Placement>, budget: Option<nat>)
    ensures Supplied(env, c, ps, budget) ==> Supplied(env, Settle(c), ps, budget)
    ensures SameLimits(env, c, Settle(c), ps, budget)
    ensures AllSettled(env, c, ps, budget) ==> AllSettled(env, Settle(c), ps, budget)
  {
    assert SameForScene(env, c, Settle(c), ps);
    if Supplied(env, c, ps, budget) {
      StaysSupplied(env, c, Settle(c), ps, budget);
    }
    hide HomeImage, TransactionFits, Supplied, SameForScene;
  }

  lemma {:induction false} CallIncomplete(env: Env, c: Cache, s: Pass, ps: seq<Placement>, live: set<SourceKey>)
    requires Progress(env, c, s, ps, live) && s.stopped
    ensures Good(env, s.cache, ps) && Work(env, s.cache, ps, live) < Work(env, c, ps, live)
  {
    WorkShrinks(env, c, s.cache, ps, live);
  }

  lemma {:induction false} SettleFinishes(env: Env, c: Cache, ps: seq<Placement>, live: set<SourceKey>)
    requires Good(env, c, ps) && Tidy(env, c, ps, live)
    ensures Good(env, Settle(c), ps) && Tidy(env, Settle(c), ps, live)
    ensures !Settle(c).replay && Settle(c).replayed == {}
  {
    SameWork(env, c, Settle(c), ps, live);
    TidyThen(env, c, Settle(c), ps, live);
  }
}
