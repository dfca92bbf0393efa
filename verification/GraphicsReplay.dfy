/**
 A text blit takes placements off the screen behind the cache's back; a placement replay puts them back.
 A request while a replay is still under way is ignored, so what a drain repairs is known exactly: every
 lost placement but the ones the unfinished replay had already dealt with.
 */
module GraphicsReplay {
  import opened Common
  import opened HostGraphics
  import opened GraphicsStep
  import opened GraphicsAgreement
  import opened GraphicsDrain
  import opened GraphicsConvergence
  import opened GraphicsDrainLoop

  /** Slots a drain from here will not draw: nothing is left to do there, or nothing can be. */
  function Overlooked(env: Env, c: Cache, ps: seq<Placement>, budget: Option<nat>): set<Slot> {
    set i | 0 <= i < |ps| && ps[i].clip.Some? && (Current(env, c, ps[i]) || Oversized(env, c, ps[i], budget)) ::
      HomeSlot(env, ps[i])
  }

  // --- The deletion phases keep the replay marks ---

  lemma {:induction false} SweepDeadReplays(s: Pass, dead: seq<SourceKey>, desired: set<nat>)
    requires forall k | k in dead :: k in s.cache.sources
    requires forall i, j | 0 <= i < j < |dead| :: dead[i] != dead[j]
    ensures var r := SweepDead(s, dead, desired).cache;
            r.replay == s.cache.replay && r.replayed <= s.cache.replayed
    decreases |dead|
  {
    if dead != [] {
      var key := dead[0];
      var image := s.cache.sources[key];
      var last := LastReference(s.cache, key, desired);
      if !(s.emitted && last) {
        var c1 := s.cache.(sources := s.cache.sources - {key});
        SweepDeadReplays(
          if last
          then s.(cache := DropImage(c1, image), cmds := s.cmds + [DeleteImage(image)], emitted := true)
          else s.(cache := c1), dead[1..], desired);
      }
    }
  }

  lemma {:induction false} SweepOrphansReplays(s: Pass, orphans: seq<nat>)
    ensures var r := SweepOrphans(s, orphans).cache;
            r.replay == s.cache.replay && r.replayed <= s.cache.replayed
    decreases |orphans|
  {
    if orphans != [] && !s.emitted {
      SweepOrphansReplays(
        s.(cache := DropImage(s.cache, orphans[0]), cmds := s.cmds + [DeleteImage(orphans[0])], emitted := true),
        orphans[1..]);
    }
  }

  lemma {:induction false} SweepStaleReplays(s: Pass, stale: seq<Slot>)
    ensures var r := SweepStale(s, stale).cache;
            r.replay == s.cache.replay && r.replayed <= s.cache.replayed
    decreases |stale|
  {
    if stale != [] && !s.emitted {
      SweepStaleReplays(
        s.(cache := DropSlot(s.cache, stale[0]), cmds := s.cmds + [DeletePlacement(stale[0])], emitted := true),
        stale[1..]);
    }
  }

  lemma {:induction false} DeletionsReplay(c: Cache, slots: set<Slot>, keys: set<SourceKey>, live: set<SourceKey>)
    ensures var r := Deletions(c, slots, keys, live).cache;
            r.replay == c.replay && r.replayed <= c.replayed
  {
    var images := DesiredImages(slots);
    LayerLessTotal(DeadSources(c, live));
    SortDistinct(DeadSources(c, live), LayerLess);
    hide SweepDead, Sort;
    var s0 := Pass(c, [], false, false, false);
    var dead := Sort(DeadSources(c, live), LayerLess);
    SweepDeadReplays(s0, dead, images);
    var s1 := SweepDead(s0, dead, images);
    if !s1.stopped {
      var s2 := s1.(cache := Prune(s1.cache, keys, live));
      var orphans := Sort(OrphanImages(s2.cache, live, images), IdLess);
      SweepOrphansReplays(s2, orphans);
      var s3 := SweepOrphans(s2, orphans);
      if !s3.stopped {
        SweepStaleReplays(s3, Sort(StaleSlots(s3.cache, slots), SlotLess));
      }
    }
  }

  // --- What is drawn again ---

  /** Among the missing slots, the ones the rest of the drain will pass over are in `lost`. */
  ghost predicate Replaying(env: Env, t: Screen, c: Cache, ps: seq<Placement>, budget: Option<nat>, lost: set<Slot>) {
    && c.replay
    && forall p | p in ps && p.clip.Some? && HomeSlot(env, p) in Missing(t, c) ::
         Drawn(env, c, p) || Oversized(env, c, p, budget) ==> HomeSlot(env, p) in lost
  }

  lemma {:induction false} ReplayingThen(
    env: Env, t: Screen, c: Cache, t': Screen, c': Cache, ps: seq<Placement>, budget: Option<nat>, lost: set<Slot>)
    requires Replaying(env, t, c, ps, budget, lost) && SameForScene(env, c, c', ps)
    requires c'.replay == c.replay && c'.replayed <= c.replayed && Missing(t', c') <= Missing(t, c)
    ensures Replaying(env, t', c', ps, budget, lost)
  {
    hide HomeImage, HomeSlot, TransactionFits, Missing;
  }

  /** A layer shares its image with no other placement of the scene, nor with any other's source. */
  lemma {:induction false} LayerApart(env: Env, c: Cache, ps: seq<Placement>, live: set<SourceKey>, i: nat, j: nat)
    requires Steady(env, ps, live) && Inv(env, c) && i < |ps| && j < |ps| && i != j && ps[j].key.PaneLayer?
    ensures HomeImage(env, ps[i]) != HomeImage(env, ps[j]) && !Maps(c, ps[i].key, HomeImage(env, ps[j]))
  {
    assert ps[i] in ps && ps[j] in ps;
    assert Source(ps[i]) != Source(ps[j]);
  }

  /** What an update leaves drawn elsewhere was drawn before. */
  lemma {:induction false} DrawnBefore(env: Env, c: Cache, d: Cache, ps: seq<Placement>, live: set<SourceKey>, i: nat, j: nat)
    requires Steady(env, ps, live) && Good(env, c, ps) && i < |ps| && j < |ps| && i != j
    requires ps[i].clip.Some? && ps[j].clip.Some?
    requires Replaces(c, d, ps[i], HomeSlot(env, ps[i])) && Drawn(env, d, ps[j])
    ensures Drawn(env, c, ps[j])
  {
    assert ps[i] in ps && ps[j] in ps;
    Apart(env, ps, live, i, j);
    if ps[j].key.PaneLayer? {
      LayerApart(env, c, ps, live, i, j);
    }
  }

  lemma {:induction false} UpdateReplaying(
    env: Env, t: Screen, c: Cache, ps: seq<Placement>, live: set<SourceKey>, i: nat, budget: Option<nat>, lost: set<Slot>)
    requires Steady(env, ps, live) && Good(env, c, ps) && Supplied(env, c, ps, budget) && Mirrors(t, c)
    requires Replaying(env, t, c, ps, budget, lost)
    requires i < |ps| && ps[i].clip.Some? && !Current(env, c, ps[i]) && Sendable(env, c, ps[i], budget)
    ensures Update(env, c, ps[i]).Some?
    ensures var d := Update(env, c, ps[i]).value; Replaying(env, ExecuteAll(t, d.cmds), d.cache, ps, budget, lost)
  {
    SteadyMember(env, ps, live, i);
    GoodParts(env, c, ps);
    HomeResolves(env, c, ps, ps[i]);
    SendableMeans(env, c, ps[i], budget);
    UpdateEffect(env, c, ps, ps[i]);
    UpdateKeeps(env, t, c, ps[i]);
    var d := Update(env, c, ps[i]).value;
    var t' := ExecuteAll(t, d.cmds);
    KeepsMeans(env, t, c, t', d.cache);
    UpdateLimits(env, c, d.cache, ps, live, i, budget);
    hide Update, Inv, Mirrors, Unobstructed, Supplied, HomeImage, TransactionFits, ExecuteAll;
    forall p | p in ps && p.clip.Some? && HomeSlot(env, p) in Missing(t', d.cache)
      ensures Drawn(env, d.cache, p) || Oversized(env, d.cache, p, budget) ==> HomeSlot(env, p) in lost
    {
      var j :| 0 <= j < |ps| && ps[j] == p;
      if i != j && Drawn(env, d.cache, p) {
        DrawnBefore(env, c, d.cache, ps, live, i, j);
      }
    }
  }

  lemma {:induction false} SendableMeans(env: Env, c: Cache, p: Placement, budget: Option<nat>)
    requires Sendable(env, c, p, budget)
    ensures p.data != [] || ImageCurrent(c, p, HomeImage(env, p))
  {
    hide HomeImage, TransactionFits;
  }

  /** What serving one placement comes to: nothing recorded, or an update of a placement that can be sent. */
  lemma {:induction false} ServeOneCases(env: Env, s: Pass, ps: seq<Placement>, live: set<SourceKey>, index: nat, budget: Option<nat>)
    requires Steady(env, ps, live) && index < |ps| && Good(env, s.cache, ps) && AllKept(s.cache, ps, live)
    requires Supplied(env, s.cache, ps, budget) && !s.stopped
    ensures var p := ps[index];
            var c1 := s.cache.(oversized := s.cache.oversized - {p.key});
            var r := ServeOne(env, s, ps, index, budget);
            || (r.cache == s.cache.(oversized := r.cache.oversized) && r.cmds == s.cmds && (r.emitted == s.emitted))
            || (&& p.clip.Some? && !Current(env, c1, p) && Sendable(env, c1, p, budget) && Update(env, c1, p).Some?
                && var d := Update(env, c1, p).value;
                && r.cache == d.cache.(continuation := r.cache.continuation) && !r.stopped
                && (if d.cmds == [] then r.cmds == s.cmds && r.emitted == s.emitted
                    else !s.emitted && r.cmds == d.cmds && r.emitted))
  {
    var p := ps[index];
    var c1 := s.cache.(oversized := s.cache.oversized - {p.key});
    ServeOneMeans(env, s, ps, live, index, budget);
    UnmarkSettles(env, s.cache, ps, live, index, budget);
    SteadyMember(env, ps, live, index);
    GoodParts(env, c1, ps);
    if p.clip.Some? && !Current(env, c1, p) && !Oversized(env, c1, p, budget) {
      SuppliedMeans(env, c1, ps, p, budget);
      UpdateEffect(env, c1, ps, p);
    } else if p.clip.None? || Current(env, c1, p) {
      UpdateUnneeded(env, c1, ps, p);
    }
    hide ServeOne, Update, Supplied, Steady, Good, HomeImage, TransactionFits, Replaces, Current, Oversized, Sendable;
  }

  lemma {:induction false} ServeOneReplaying(
    env: Env, t: Screen, s: Pass, ps: seq<Placement>, live: set<SourceKey>, index: nat, budget: Option<nat>, lost: set<Slot>)
    requires Steady(env, ps, live) && index < |ps| && Good(env, s.cache, ps) && AllKept(s.cache, ps, live)
    requires Supplied(env, s.cache, ps, budget) && !s.stopped && (s.emitted || s.cmds == [])
    requires Mirrors(ExecuteAll(t, s.cmds), s.cache)
    requires Replaying(env, ExecuteAll(t, s.cmds), s.cache, ps, budget, lost)
    ensures var r := ServeOne(env, s, ps, index, budget);
            Replaying(env, ExecuteAll(t, r.cmds), r.cache, ps, budget, lost)
  {
    var p := ps[index];
    var t1 := ExecuteAll(t, s.cmds);
    var c1 := s.cache.(oversized := s.cache.oversized - {p.key});
    var r := ServeOne(env, s, ps, index, budget);
    ServeOneCases(env, s, ps, live, index, budget);
    UnmarkSettles(env, s.cache, ps, live, index, budget);
    SameRecords(env, t1, s.cache, c1);
    hide ServeOne, Update, Supplied, Steady, Good, HomeImage, TransactionFits, Inv, Mirrors, Unobstructed, Settled;
    MarksIrrelevant(env, t1, s.cache, c1, ps, budget, lost);
    if r.cache == s.cache.(oversized := r.cache.oversized) && r.cmds == s.cmds {
      MarksIrrelevant(env, t1, s.cache, r.cache, ps, budget, lost);
    } else {
      UpdateReplaying(env, t1, c1, ps, live, index, budget, lost);
      var d := Update(env, c1, p).value;
      assert ExecuteAll(t1, []) == t1 && ExecuteAll(t, []) == t;
      MarksIrrelevant(env, ExecuteAll(t1, d.cmds), d.cache, r.cache, ps, budget, lost);
    }
  }

  lemma {:induction false} MarksIrrelevant(env: Env, t: Screen, c: Cache, d: Cache, ps: seq<Placement>, budget: Option<nat>, lost: set<Slot>)
    requires d.images == c.images && d.placements == c.placements && d.sources == c.sources
    requires d.replay == c.replay && d.replayed == c.replayed
    ensures Replaying(env, t, c, ps, budget, lost) ==> Replaying(env, t, d, ps, budget, lost)
  {
    hide HomeImage, HomeSlot, TransactionFits;
  }

  lemma {:induction false} ServeReplaying(
    env: Env, t: Screen, c: Cache, s: Pass, ps: seq<Placement>, live: set<SourceKey>, start: nat, offset: nat,
    budget: Option<nat>, lost: set<Slot>)
    requires Steady(env, ps, live) && offset <= |ps| && Supplied(env, s.cache, ps, budget)
    requires Progress(env, c, s, ps, live) && Tidy(env, s.cache, ps, live) && !s.stopped
    requires PassKeeps(env, t, c, s) && Replaying(env, ExecuteAll(t, s.cmds), s.cache, ps, budget, lost)
    ensures var r := Serve(env, s, ps, start, offset, budget);
            Replaying(env, ExecuteAll(t, r.cmds), r.cache, ps, budget, lost)
    decreases |ps| - offset
  {
    hide ServeOne, Steady, Removes, Current, Inv, Mirrors, Unobstructed, Pending, Replaying, Supplied;
    if offset < |ps| {
      var index := (start + offset) % |ps|;
      var next := ServeOne(env, s, ps, index, budget);
      GoodOf(env, c, s, ps, live);
      AllWellFormedOf(env, ps, live);
      ServeOneProgress(env, c, s, ps, live, index, budget);
      ServeOneKeeps(env, t, c, s, ps, index, budget);
      ServeOneSettles(env, s, ps, live, index, budget);
      ServeOneReplaying(env, t, s, ps, live, index, budget, lost);
      hide Tidy;
      if !next.stopped {
        ServeReplaying(env, t, c, next, ps, live, start, offset + 1, budget, lost);
      }
    }
  }

  lemma {:induction false} SettledIsReplayed(
    env: Env, t: Screen, c: Cache, ps: seq<Placement>, live: set<SourceKey>, budget: Option<nat>, lost: set<Slot>)
    requires Tidy(env, c, ps, live) && AllSettled(env, c, ps, budget) && Replaying(env, t, c, ps, budget, lost)
    ensures Missing(t, Settle(c)) <= lost
  {
    TidyMeans(env, c, ps, live);
    forall s | s in Missing(t, c) ensures s in lost {
      var i :| 0 <= i < |ps| && ps[i].clip.Some? && HomeSlot(env, ps[i]) == s;
      assert ps[i] in ps && Settled(env, c, ps[i], budget);
    }
  }

  lemma {:induction false} IncrementalReplaying(
    env: Env, t: Screen, c: Cache, ps: seq<Placement>, live: set<SourceKey>, budget: Option<nat>, lost: set<Slot>)
    requires Steady(env, ps, live) && Good(env, c, ps) && Supplied(env, c, ps, budget) && Mirrors(t, c)
    requires Replaying(env, t, c, ps, budget, lost)
    ensures var r := Incremental(env, c, ps, live, budget);
            var t' := ExecuteAll(t, r.cmds);
            if r.incomplete then Replaying(env, t', r.cache, ps, budget, lost) else Missing(t', r.cache) <= lost
  {
    var slots := HomeSlots(env, ps);
    var keys := DesiredKeys(ps);
    HomeSlotsAreDesired(env, c, ps);
    DeletionsProgress(env, c, ps, live);
    DeletionsSame(env, c, ps, live);
    DeletionsKeep(env, t, c, slots, keys, live);
    DeletionsReplay(c, slots, keys, live);
    DeletionsOnce(c, slots, keys, live);
    hide Deletions, Serve, Good, Steady, Pending, HomeSlots, DesiredSlots, Removes, Shrinks, Current, ResolveSlot, DesiredKeys,
         Tidy, AllKept, StartIndex, SettledAt, Inv, Mirrors, Replaying, Supplied, SameForScene;
    var s := Deletions(c, slots, keys, live);
    var t1 := ExecuteAll(t, s.cmds);
    StaysSupplied(env, c, s.cache, ps, budget);
    GoodParts(env, c, ps);
    assert Missing(t1, s.cache) <= Missing(t, c);
    hide Missing;
    ReplayingThen(env, t, c, t1, s.cache, ps, budget, lost);
    if !s.stopped {
      var start := StartIndex(c, ps);
      ServeReplaying(env, t, c, s, ps, live, start, 0, budget, lost);
      ServeProgress(env, c, s, ps, live, start, 0, budget);
      ServeSettles(env, c, s, ps, live, start, 0, budget);
      var served := Serve(env, s, ps, start, 0, budget);
      if !served.stopped {
        PassSettlesAll(env, served.cache, ps, start, budget);
        SettledIsReplayed(env, ExecuteAll(t, served.cmds), served.cache, ps, live, budget, lost);
      }
    }
  }

  lemma {:induction false} DrainReplaying(
    env: Env, t: Screen, c: Cache, ps: seq<Placement>, live: set<SourceKey>, budget: Option<nat>, lost: set<Slot>)
    requires Steady(env, ps, live) && Good(env, c, ps) && Supplied(env, c, ps, budget) && Mirrors(t, c)
    requires Replaying(env, t, c, ps, budget, lost)
    ensures var d := Drain(env, c, ps, live, budget); Missing(ExecuteAll(t, d.cmds), d.cache) <= lost
    decreases Work(env, c, ps, live)
  {
    hide *;
    DrainUnfolds(env, c, ps, live, budget);
    IncrementalProgress(env, c, ps, live, budget);
    IncrementalSettles(env, c, ps, live, budget);
    AllWellFormedOf(env, ps, live);
    IncrementalKeeps(env, t, c, ps, live, budget);
    GoodParts(env, c, ps);
    var r := Incremental(env, c, ps, live, budget);
    var t1 := ExecuteAll(t, r.cmds);
    KeepsMeans(env, t, c, t1, r.cache);
    IncrementalReplaying(env, t, c, ps, live, budget, lost);
    if r.incomplete {
      DrainReplaying(env, t1, r.cache, ps, live, budget, lost);
      ExecuteAllAppend(t, r.cmds, Drain(env, r.cache, ps, live, budget).cmds);
    }
  }

  // --- What stays missing ---

  /** A visible placement off the screen that the drain will not draw. */
  predicate Stuck(env: Env, t: Screen, c: Cache, p: Placement, budget: Option<nat>) {
    p.clip.Some? && HomeSlot(env, p) in Missing(t, c) && (Current(env, c, p) || Oversized(env, c, p, budget))
  }

  lemma {:induction false} StuckThen(env: Env, t: Screen, c: Cache, t': Screen, c': Cache, ps: seq<Placement>, live: set<SourceKey>, j: nat, budget: Option<nat>)
    requires j < |ps| && Stuck(env, t, c, ps[j], budget)
    requires Shrinks(env, c, c', ps, live) && SameLimits(env, c, c', ps, budget)
    requires HomeSlot(env, ps[j]) !in t'.placements && HomeSlot(env, ps[j]) in c'.placements
    ensures Stuck(env, t', c', ps[j], budget)
  {
    hide Good, HomeSlot, HomeImage, TransactionFits;
    assert ps[j] in ps;
    assert !Pending(env, c, ps, live, Show(j)) ==> !Pending(env, c', ps, live, Show(j));
  }

  /** An update leaves the record of another stuck placement, and does not draw it. */
  lemma {:induction false} UpdateStuck(
    env: Env, t: Screen, c: Cache, ps: seq<Placement>, live: set<SourceKey>, i: nat, j: nat, budget: Option<nat>)
    requires Steady(env, ps, live) && Good(env, c, ps) && AllKept(c, ps, live) && Supplied(env, c, ps, budget)
    requires i < |ps| && ps[i].clip.Some? && !Current(env, c, ps[i]) && Sendable(env, c, ps[i], budget)
    requires j < |ps| && Stuck(env, t, c, ps[j], budget)
    ensures Update(env, c, ps[i]).Some?
    ensures var d := Update(env, c, ps[i]).value; Stuck(env, ExecuteAll(t, d.cmds), d.cache, ps[j], budget)
  {
    SteadyMember(env, ps, live, i);
    SteadyMember(env, ps, live, j);
    GoodParts(env, c, ps);
    HomeResolves(env, c, ps, ps[i]);
    SendableMeans(env, c, ps[i], budget);
    UpdateEffect(env, c, ps, ps[i]);
    UpdateShowsOwn(env, t, c, ps[i]);
    var d := Update(env, c, ps[i]).value;
    UpdateLimits(env, c, d.cache, ps, live, i, budget);
    UpdateShrinks(env, c, d.cache, ps, live, i);
    NotStuckHere(env, c, ps[i], budget);
    Apart(env, ps, live, i, j);
    OtherRecordStays(env, c, d.cache, ps, live, i, j, budget);
    hide *;
    MissingMeans(t, c, HomeSlot(env, ps[j]));
    StuckMeans(env, t, c, ps[j], budget);
    StuckThen(env, t, c, ExecuteAll(t, d.cmds), d.cache, ps, live, j, budget);
  }

  lemma {:induction false} StuckMeans(env: Env, t: Screen, c: Cache, p: Placement, budget: Option<nat>)
    requires Stuck(env, t, c, p, budget)
    ensures HomeSlot(env, p) in Missing(t, c)
  {
  }

  lemma {:induction false} MissingMeans(t: Screen, c: Cache, slot: Slot)
    ensures slot in Missing(t, c) <==> slot in c.placements && slot !in t.placements
  {
  }

  lemma {:induction false} NotStuckHere(env: Env, c: Cache, p: Placement, budget: Option<nat>)
    requires Sendable(env, c, p, budget)
    ensures !Oversized(env, c, p, budget)
  {
  }

  lemma {:induction false} OtherRecordStays(
    env: Env, c: Cache, d: Cache, ps: seq<Placement>, live: set<SourceKey>, i: nat, j: nat, budget: Option<nat>)
    requires Steady(env, ps, live) && Good(env, c, ps) && i < |ps| && j < |ps| && i != j
    requires ps[i].clip.Some? && ps[j].clip.Some? && HomeSlot(env, ps[j]) in c.placements
    requires Replaces(c, d, ps[i], HomeSlot(env, ps[i]))
    requires Current(env, c, ps[j]) || Oversized(env, c, ps[j], budget)
    ensures HomeSlot(env, ps[j]) in d.placements
  {
    assert ps[i] in ps && ps[j] in ps;
    Apart(env, ps, live, i, j);
    if Current(env, c, ps[j]) {
      StaysCurrent(env, c, d, ps, live, i, j);
    } else {
      var home := HomeImage(env, ps[j]);
      assert home in c.images && ps[j].key.PaneLayer?;
      LayerApart(env, c, ps, live, i, j);
    }
  }

  lemma {:induction false} ServeOneStuck(
    env: Env, t: Screen, s: Pass, ps: seq<Placement>, live: set<SourceKey>, index: nat, j: nat, budget: Option<nat>)
    requires Steady(env, ps, live) && index < |ps| && Good(env, s.cache, ps) && AllKept(s.cache, ps, live)
    requires Supplied(env, s.cache, ps, budget) && !s.stopped && (s.emitted || s.cmds == [])
    requires j < |ps| && Stuck(env, ExecuteAll(t, s.cmds), s.cache, ps[j], budget)
    ensures var r := ServeOne(env, s, ps, index, budget);
            Stuck(env, ExecuteAll(t, r.cmds), r.cache, ps[j], budget)
  {
    var p := ps[index];
    var t1 := ExecuteAll(t, s.cmds);
    var c1 := s.cache.(oversized := s.cache.oversized - {p.key});
    var r := ServeOne(env, s, ps, index, budget);
    ServeOneCases(env, s, ps, live, index, budget);
    UnmarkSettles(env, s.cache, ps, live, index, budget);
    hide ServeOne, Update, Supplied, Steady, Good, HomeImage, TransactionFits, Settled;
    SameStuck(env, t1, s.cache, c1, ps[j], budget);
    if r.cache == s.cache.(oversized := r.cache.oversized) && r.cmds == s.cmds {
      SameStuck(env, t1, s.cache, r.cache, ps[j], budget);
    } else {
      UpdateStuck(env, t1, c1, ps, live, index, j, budget);
      var d := Update(env, c1, p).value;
      assert ExecuteAll(t1, []) == t1 && ExecuteAll(t, []) == t;
      SameStuck(env, ExecuteAll(t1, d.cmds), d.cache, r.cache, ps[j], budget);
    }
  }

  lemma {:induction false} SameStuck(env: Env, t: Screen, c: Cache, d: Cache, p: Placement, budget: Option<nat>)
    requires d.images == c.images && d.placements == c.placements && d.sources == c.sources
    requires d.replay == c.replay && d.replayed == c.replayed
    ensures Stuck(env, t, c, p, budget) ==> Stuck(env, t, d, p, budget)
  {
    hide HomeImage, HomeSlot, TransactionFits;
  }

  lemma {:induction false} ServeStuck(
    env: Env, t: Screen, c: Cache, s: Pass, ps: seq<Placement>, live: set<SourceKey>, start: nat, offset: nat,
    j: nat, budget: Option<nat>)
    requires Steady(env, ps, live) && offset <= |ps| && Supplied(env, s.cache, ps, budget)
    requires Progress(env, c, s, ps, live) && Tidy(env, s.cache, ps, live) && !s.stopped
    requires j < |ps| && Stuck(env, ExecuteAll(t, s.cmds), s.cache, ps[j], budget)
    ensures var r := Serve(env, s, ps, start, offset, budget);
            Stuck(env, ExecuteAll(t, r.cmds), r.cache, ps[j], budget)
    decreases |ps| - offset
  {
    hide ServeOne, Steady, Removes, Current, Unobstructed, Pending, Stuck, Supplied;
    if offset < |ps| {
      var index := (start + offset) % |ps|;
      var next := ServeOne(env, s, ps, index, budget);
      GoodOf(env, c, s, ps, live);
      ServeOneProgress(env, c, s, ps, live, index, budget);
      ServeOneSettles(env, s, ps, live, index, budget);
      ServeOneStuck(env, t, s, ps, live, index, j, budget);
      hide Tidy;
      if !next.stopped {
        ServeStuck(env, t, c, next, ps, live, start, offset + 1, j, budget);
      }
    }
  }

  lemma {:induction false} DeletionShowsNothing(t: Screen, s: Pass)
    requires AtMostOneDeletion(s)
    ensures ExecuteAll(t, s.cmds).placements.Keys <= t.placements.Keys
  {
    if s.cmds != [] {
      One(t, s.cmds[0]);
      assert s.cmds == [s.cmds[0]];
    }
  }

  lemma {:induction false} IncrementalStuck(
    env: Env, t: Screen, c: Cache, ps: seq<Placement>, live: set<SourceKey>, j: nat, budget: Option<nat>)
    requires Steady(env, ps, live) && Good(env, c, ps) && Supplied(env, c, ps, budget)
    requires j < |ps| && Stuck(env, t, c, ps[j], budget)
    ensures var r := Incremental(env, c, ps, live, budget);
            Stuck(env, ExecuteAll(t, r.cmds), r.cache, ps[j], budget)
  {
    var slots := HomeSlots(env, ps);
    var keys := DesiredKeys(ps);
    HomeSlotsAreDesired(env, c, ps);
    DeletionsProgress(env, c, ps, live);
    DeletionsSame(env, c, ps, live);
    DeletionsOnce(c, slots, keys, live);
    SteadyMember(env, ps, live, j);
    StuckMeans(env, t, c, ps[j], budget);
    MissingMeans(t, c, HomeSlot(env, ps[j]));
    var s := Deletions(c, slots, keys, live);
    var t1 := ExecuteAll(t, s.cmds);
    DeletionShowsNothing(t, s);
    assert HomeSlot(env, ps[j]) in s.cache.placements;
    SameSceneSameLimits(env, c, s.cache, ps, budget);
    hide Deletions, Serve, Good, Steady, Pending, HomeSlots, DesiredSlots, Removes, Shrinks, Current, ResolveSlot, DesiredKeys,
         Tidy, AllKept, StartIndex, Stuck, Supplied, SameForScene, HomeSlot;
    StaysSupplied(env, c, s.cache, ps, budget);
    StuckThen(env, t, c, t1, s.cache, ps, live, j, budget);
    if !s.stopped {
      var start := StartIndex(c, ps);
      ServeStuck(env, t, c, s, ps, live, start, 0, j, budget);
      var served := Serve(env, s, ps, start, 0, budget);
      SettleStuck(env, ExecuteAll(t, served.cmds), served.cache, ps[j], budget);
    }
  }

  lemma {:induction false} SettleStuck(env: Env, t: Screen, c: Cache, p: Placement, budget: Option<nat>)
    ensures Stuck(env, t, c, p, budget) ==> Stuck(env, t, Settle(c), p, budget)
  {
    hide HomeImage, HomeSlot, TransactionFits;
  }

  /** A missing placement that is already current, or too large, is still missing after the drain, whatever work was left. */
  lemma {:induction false} StaysMissing(
    env: Env, t: Screen, c: Cache, ps: seq<Placement>, live: set<SourceKey>, j: nat, budget: Option<nat>)
    requires Steady(env, ps, live) && Good(env, c, ps) && Supplied(env, c, ps, budget) && Mirrors(t, c)
    requires j < |ps| && Stuck(env, t, c, ps[j], budget)
    ensures var d := Drain(env, c, ps, live, budget);
            HomeSlot(env, ps[j]) in Missing(ExecuteAll(t, d.cmds), d.cache)
    decreases Work(env, c, ps, live)
  {
    hide *;
    DrainUnfolds(env, c, ps, live, budget);
    IncrementalProgress(env, c, ps, live, budget);
    IncrementalSettles(env, c, ps, live, budget);
    AllWellFormedOf(env, ps, live);
    IncrementalKeeps(env, t, c, ps, live, budget);
    GoodParts(env, c, ps);
    var r := Incremental(env, c, ps, live, budget);
    var t1 := ExecuteAll(t, r.cmds);
    KeepsMeans(env, t, c, t1, r.cache);
    IncrementalStuck(env, t, c, ps, live, j, budget);
    if r.incomplete {
      StaysMissing(env, t1, r.cache, ps, live, j, budget);
      ExecuteAllAppend(t, r.cmds, Drain(env, r.cache, ps, live, budget).cmds);
    } else {
      StuckMeans(env, t1, r.cache, ps[j], budget);
    }
  }

  // --- Exactly what a frame repairs ---

  lemma {:induction false} AskedScene(env: Env, t: Screen, c: Cache, ps: seq<Placement>, budget: Option<nat>)
    ensures var asked := RequestReplay(c);
            && (Good(env, c, ps) ==> Good(env, asked, ps))
            && (Supplied(env, c, ps, budget) ==> Supplied(env, asked, ps, budget))
            && (Mirrors(t, c) ==> Mirrors(t, asked)) && Missing(t, asked) == Missing(t, c)
            && asked.replay && (c.replay ==> asked == c)
            && (!c.replay ==> asked.replayed == {} && MatchingIsMapped(env, asked, ps))
  {
    var asked := RequestReplay(c);
    SameRecords(env, t, c, asked);
    assert SameForScene(env, c, asked, ps);
    if Supplied(env, c, ps, budget) {
      StaysSupplied(env, c, asked, ps, budget);
    }
    hide Inv, Mirrors, Supplied, HomeImage, TransactionFits;
  }

  /**
   A frame after a text blit took any placements off the screen: the cache is asked to replay and the loop
   drains. What is missing in the end is exactly what was missing in slots the request left current, because
   an unfinished replay had dealt with them, and in slots whose image is too large.
   */
  lemma {:induction false} ReplayRepairsExactly(
    env: Env, t: Screen, c: Cache, ps: seq<Placement>, live: set<SourceKey>, budget: Option<nat>)
    requires Steady(env, ps, live) && Good(env, c, ps) && Supplied(env, c, ps, budget) && Mirrors(t, c)
    requires MatchingIsMapped(env, RequestReplay(c), ps)
    ensures var asked := RequestReplay(c);
            && Good(env, asked, ps)
            && var d := Drain(env, asked, ps, live, budget);
            && Missing(ExecuteAll(t, d.cmds), d.cache) == Missing(t, c) * Overlooked(env, asked, ps, budget)
            && (Agree(ExecuteAll(t, d.cmds), d.cache) <==> NoneOverlooked(env, t, asked, ps, budget))
  {
    hide *;
    AskedScene(env, t, c, ps, budget);
    var asked := RequestReplay(c);
    var lost := Missing(t, c) * Overlooked(env, asked, ps, budget);
    var d := Drain(env, asked, ps, live, budget);
    var t' := ExecuteAll(t, d.cmds);
    LostIsOverlooked(env, t, asked, ps, budget, lost);
    DrainReplaying(env, t, asked, ps, live, budget, lost);
    forall s | s in lost ensures s in Missing(t', d.cache) {
      var j := StuckAt(env, t, asked, ps, budget, s);
      StaysMissing(env, t, asked, ps, live, j, budget);
    }
    DrainConverges(env, t, asked, ps, live, budget);
    AgreeParts(t', d.cache);
    OverlookedMeans(env, t, asked, ps, budget);
  }

  lemma {:induction false} LostIsOverlooked(env: Env, t: Screen, c: Cache, ps: seq<Placement>, budget: Option<nat>, lost: set<Slot>)
    requires MatchingIsMapped(env, c, ps) && c.replay && lost == Missing(t, c) * Overlooked(env, c, ps, budget)
    ensures Replaying(env, t, c, ps, budget, lost)
  {
    hide HomeImage, HomeSlot, TransactionFits, Missing;
    forall p | p in ps && p.clip.Some? && HomeSlot(env, p) in Missing(t, c)
      ensures Drawn(env, c, p) || Oversized(env, c, p, budget) ==> HomeSlot(env, p) in lost
    {
      var i :| 0 <= i < |ps| && ps[i] == p;
      assert Current(env, c, ps[i]) || Oversized(env, c, ps[i], budget) ==> HomeSlot(env, ps[i]) in Overlooked(env, c, ps, budget);
    }
  }

  lemma {:induction false} StuckAt(env: Env, t: Screen, c: Cache, ps: seq<Placement>, budget: Option<nat>, s: Slot) returns (j: nat)
    requires s in Missing(t, c) * Overlooked(env, c, ps, budget)
    ensures j < |ps| && HomeSlot(env, ps[j]) == s && Stuck(env, t, c, ps[j], budget)
  {
    hide HomeImage, HomeSlot, TransactionFits, Missing;
    j :| 0 <= j < |ps| && ps[j].clip.Some? && (Current(env, c, ps[j]) || Oversized(env, c, ps[j], budget))
         && HomeSlot(env, ps[j]) == s;
  }

  ghost predicate NoneOverlooked(env: Env, t: Screen, c: Cache, ps: seq<Placement>, budget: Option<nat>) {
    forall p | p in ps && p.clip.Some? && (Current(env, c, p) || Oversized(env, c, p, budget)) ::
      HomeSlot(env, p) !in Missing(t, c)
  }

  lemma {:induction false} OverlookedMeans(env: Env, t: Screen, c: Cache, ps: seq<Placement>, budget: Option<nat>)
    ensures Missing(t, c) * Overlooked(env, c, ps, budget) == {} <==> NoneOverlooked(env, t, c, ps, budget)
  {
    hide HomeImage, HomeSlot, TransactionFits, Missing, Current, Oversized;
    var both := Missing(t, c) * Overlooked(env, c, ps, budget);
    forall i | 0 <= i < |ps| && ps[i].clip.Some? && (Current(env, c, ps[i]) || Oversized(env, c, ps[i], budget))
      ensures NoneOverlooked(env, t, c, ps, budget) ==> HomeSlot(env, ps[i]) !in Missing(t, c)
    {
      assert ps[i] in ps;
    }
    assert NoneOverlooked(env, t, c, ps, budget) ==> forall s :: s !in both;
    forall p | p in ps && p.clip.Some? && (Current(env, c, p) || Oversized(env, c, p, budget))
      ensures HomeSlot(env, p) in Overlooked(env, c, ps, budget)
      ensures HomeSlot(env, p) in Missing(t, c) ==> HomeSlot(env, p) in both
    {
      var i :| 0 <= i < |ps| && ps[i] == p;
    }
  }

  /** With no replay under way and no budget a frame repairs everything. */
  lemma {:induction false} ReplayRepairs(env: Env, t: Screen, c: Cache, ps: seq<Placement>, live: set<SourceKey>)
    requires Steady(env, ps, live) && Good(env, c, ps) && Supplied(env, c, ps, None) && Mirrors(t, c) && !c.replay
    ensures var asked := RequestReplay(c);
            && Good(env, asked, ps)
            && var d := Drain(env, asked, ps, live, None); Agree(ExecuteAll(t, d.cmds), d.cache)
  {
    AskedScene(env, t, c, ps, None);
    ReplayRepairsExactly(env, t, c, ps, live, None);
    hide HomeImage, Drain, Missing, Agree;
  }

  // --- Frame after frame ---

  lemma {:induction false} MappedThen(env: Env, c: Cache, d: Cache, ps: seq<Placement>)
    requires MatchingIsMapped(env, c, ps) && SameForScene(env, c, d, ps)
    requires d.replay == c.replay && d.replayed <= c.replayed
    ensures MatchingIsMapped(env, d, ps)
  {
    hide HomeImage, HomeSlot;
  }

  lemma {:induction false} UpdateMapped(env: Env, c: Cache, ps: seq<Placement>, live: set<SourceKey>, i: nat, budget: Option<nat>)
    requires Steady(env, ps, live) && Good(env, c, ps) && MatchingIsMapped(env, c, ps)
    requires i < |ps| && ps[i].clip.Some? && !Current(env, c, ps[i]) && Sendable(env, c, ps[i], budget)
    ensures Update(env, c, ps[i]).Some? && MatchingIsMapped(env, Update(env, c, ps[i]).value.cache, ps)
    ensures Update(env, c, ps[i]).value.cache.replay == c.replay
  {
    hide *;
    SteadyMember(env, ps, live, i);
    SendableMeans(env, c, ps[i], budget);
    UpdateEffect(env, c, ps, ps[i]);
    ReplacedMapped(env, c, Update(env, c, ps[i]).value.cache, ps, live, i);
  }

  lemma {:induction false} ReplacedMapped(env: Env, c: Cache, d: Cache, ps: seq<Placement>, live: set<SourceKey>, i: nat)
    requires Steady(env, ps, live) && Good(env, c, ps) && MatchingIsMapped(env, c, ps)
    requires i < |ps| && ps[i].clip.Some? && Replaces(c, d, ps[i], HomeSlot(env, ps[i]))
    ensures MatchingIsMapped(env, d, ps) && d.replay == c.replay
  {
    var key, home := ps[i].key, HomeImage(env, ps[i]);
    assert d.sources == c.sources[key := home] && d.replay == c.replay;
    forall p | p in ps && p.clip.Some? && Drawn(env, d, p) ensures Maps(d, p.key, HomeImage(env, p)) {
      var j :| 0 <= j < |ps| && ps[j] == p;
      if i != j {
        DrawnBefore(env, c, d, ps, live, i, j);
        Apart(env, ps, live, i, j);
        hide Drawn, Replaces, Good, Steady, HomeSlot, HomeImage;
        assert Maps(c, p.key, HomeImage(env, p));
      }
    }
  }

  lemma {:induction false} ServeOneMapped(env: Env, s: Pass, ps: seq<Placement>, live: set<SourceKey>, index: nat, budget: Option<nat>)
    requires Steady(env, ps, live) && index < |ps| && Good(env, s.cache, ps) && AllKept(s.cache, ps, live)
    requires Supplied(env, s.cache, ps, budget) && !s.stopped && MatchingIsMapped(env, s.cache, ps)
    ensures var r := ServeOne(env, s, ps, index, budget);
            MatchingIsMapped(env, r.cache, ps) && r.cache.replay == s.cache.replay
  {
    var p := ps[index];
    var c1 := s.cache.(oversized := s.cache.oversized - {p.key});
    var r := ServeOne(env, s, ps, index, budget);
    ServeOneCases(env, s, ps, live, index, budget);
    UnmarkSettles(env, s.cache, ps, live, index, budget);
    hide ServeOne, Update, Supplied, Steady, Good, HomeImage, TransactionFits, Settled;
    SameMapped(env, s.cache, c1, ps);
    if r.cache == s.cache.(oversized := r.cache.oversized) {
      SameMapped(env, s.cache, r.cache, ps);
    } else {
      UpdateMapped(env, c1, ps, live, index, budget);
      SameMapped(env, Update(env, c1, p).value.cache, r.cache, ps);
    }
  }

  lemma {:induction false} SameMapped(env: Env, c: Cache, d: Cache, ps: seq<Placement>)
    requires d.images == c.images && d.placements == c.placements && d.sources == c.sources
    requires d.replay == c.replay && d.replayed == c.replayed
    ensures MatchingIsMapped(env, c, ps) ==> MatchingIsMapped(env, d, ps)
  {
    hide HomeImage, HomeSlot;
  }

  lemma {:induction false} ServeMapped(
    env: Env, c: Cache, s: Pass, ps: seq<Placement>, live: set<SourceKey>, start: nat, offset: nat, budget: Option<nat>)
    requires Steady(env, ps, live) && offset <= |ps| && Supplied(env, s.cache, ps, budget)
    requires Progress(env, c, s, ps, live) && Tidy(env, s.cache, ps, live) && !s.stopped
    requires MatchingIsMapped(env, s.cache, ps)
    ensures var r := Serve(env, s, ps, start, offset, budget);
            MatchingIsMapped(env, r.cache, ps) && r.cache.replay == s.cache.replay
    decreases |ps| - offset
  {
    hide ServeOne, Steady, Removes, Current, Unobstructed, Pending, MatchingIsMapped, Supplied;
    if offset < |ps| {
      var index := (start + offset) % |ps|;
      var next := ServeOne(env, s, ps, index, budget);
      GoodOf(env, c, s, ps, live);
      ServeOneProgress(env, c, s, ps, live, index, budget);
      ServeOneSettles(env, s, ps, live, index, budget);
      ServeOneMapped(env, s, ps, live, index, budget);
      hide Tidy;
      if !next.stopped {
        ServeMapped(env, c, next, ps, live, start, offset + 1, budget);
      }
    }
  }

  lemma {:induction false} IncrementalMapped(env: Env, c: Cache, ps: seq<Placement>, live: set<SourceKey>, budget: Option<nat>)
    requires Steady(env, ps, live) && Good(env, c, ps) && Supplied(env, c, ps, budget) && MatchingIsMapped(env, c, ps)
    ensures var r := Incremental(env, c, ps, live, budget);
            r.incomplete ==> MatchingIsMapped(env, r.cache, ps) && r.cache.replay == c.replay
  {
    HomeSlotsAreDesired(env, c, ps);
    DeletionsProgress(env, c, ps, live);
    DeletionsSame(env, c, ps, live);
    DeletionsReplay(c, HomeSlots(env, ps), DesiredKeys(ps), live);
    hide Deletions, Serve, Good, Steady, Pending, HomeSlots, DesiredSlots, Removes, Shrinks, Current, ResolveSlot, DesiredKeys,
         Tidy, AllKept, StartIndex, Supplied, SameForScene, MatchingIsMapped;
    var s := Deletions(c, HomeSlots(env, ps), DesiredKeys(ps), live);
    StaysSupplied(env, c, s.cache, ps, budget);
    MappedThen(env, c, s.cache, ps);
    if !s.stopped {
      ServeMapped(env, c, s, ps, live, StartIndex(c, ps), 0, budget);
    }
  }

  /** The cache after n frames that each ask for a replay and make one call. */
  function AfterFrames(
    env: Env, c: Cache, ps: seq<Placement>, live: set<SourceKey>, budget: Option<nat>, n: nat): Cache
  {
    if n == 0 then c
    else Incremental(env, RequestReplay(AfterFrames(env, c, ps, live, budget, n - 1)), ps, live, budget).cache
  }

  /** Starting with no replay under way, the exact law holds at every frame, in the middle of a replay as well. */
  lemma {:induction false} EveryFrameIsExact(
    env: Env, c: Cache, ps: seq<Placement>, live: set<SourceKey>, budget: Option<nat>, n: nat)
    requires Steady(env, ps, live) && Good(env, c, ps) && Supplied(env, c, ps, budget) && !c.replay
    ensures var cn := AfterFrames(env, c, ps, live, budget, n);
            && Good(env, cn, ps) && Supplied(env, cn, ps, budget) && MatchingIsMapped(env, RequestReplay(cn), ps)
    decreases n
  {
    hide Good, Supplied, MatchingIsMapped, Incremental, Steady;
    var t := Screen(map[], map[]);
    if n == 0 {
      AskedScene(env, t, c, ps, budget);
    } else {
      EveryFrameIsExact(env, c, ps, live, budget, n - 1);
      var before := AfterFrames(env, c, ps, live, budget, n - 1);
      AskedScene(env, t, before, ps, budget);
      var asked := RequestReplay(before);
      IncrementalProgress(env, asked, ps, live, budget);
      IncrementalSettles(env, asked, ps, live, budget);
      IncrementalMapped(env, asked, ps, live, budget);
      AskedScene(env, t, Incremental(env, asked, ps, live, budget).cache, ps, budget);
    }
  }

  // --- A second blit in the middle of a replay ---

  /** A text blit that takes everything. */
  function Blank(t: Screen): Screen {
    t.(placements := map[])
  }

  lemma {:induction false} BlankMirrors(t: Screen, c: Cache)
    requires Mirrors(t, c)
    ensures Mirrors(Blank(t), c) && Missing(Blank(t), c) == c.placements.Keys
  {
  }

  /** What one call puts on an empty screen is at most one placement. */
  lemma {:induction false} OneCallOneSlot(env: Env, t: Screen, c: Cache, ps: seq<Placement>, live: set<SourceKey>, budget: Option<nat>)
    ensures var t' := ExecuteAll(Blank(t), Incremental(env, c, ps, live, budget).cmds);
            forall a, b | a in t'.placements && b in t'.placements :: a == b
  {
    IncrementalOnce(env, c, ps, live, budget);
    hide Incremental;
    var cmds := Incremental(env, c, ps, live, budget).cmds;
    if cmds == [] {
    } else if |cmds| == 1 && (cmds[0].DeleteImage? || cmds[0].DeletePlacement?) {
      assert cmds == [cmds[0]];
      One(Blank(t), cmds[0]);
    } else {
      var c1, p :| p in ps && Sends(env, c1, p, cmds);
      UpdateShowsOwn(env, Blank(t), c1, p);
    }
  }

  /** With everything shown, a replay request makes every visible placement pending again. */
  lemma {:induction false} AskedWork(env: Env, c: Cache, ps: seq<Placement>, live: set<SourceKey>)
    requires Tidy(env, c, ps, live) && !c.replay
    ensures Tidy(env, RequestReplay(c), ps, live)
    ensures forall j | 0 <= j < |ps| && ps[j].clip.Some? :: !Current(env, RequestReplay(c), ps[j])
  {
    var asked := RequestReplay(c);
    forall task ensures Pending(env, asked, ps, live, task) ==> task.Show? {
      SameDeletions(env, c, asked, ps, live, task);
    }
  }

  lemma {:induction false} SameDeletions(env: Env, c: Cache, d: Cache, ps: seq<Placement>, live: set<SourceKey>, task: Task)
    requires d.images == c.images && d.placements == c.placements && d.sources == c.sources
    ensures !task.Show? ==> (Pending(env, d, ps, live, task) <==> Pending(env, c, ps, live, task))
  {
    if task.DropOrphan? {
      assert KeptReference(c, ps, live, task.image) <==> KeptReference(d, ps, live, task.image);
    }
  }

  /**
   A run that shows the loss. Everything is shown; a blit takes everything; one frame draws one placement
   and reports that it is not done; a second blit takes everything; the following frames drain completely,
   and that placement is still missing.
   */
  lemma {:induction false} SecondBlitLosesOne(env: Env, t: Screen, c: Cache, ps: seq<Placement>, live: set<SourceKey>, a: nat, b: nat)
    requires Steady(env, ps, live) && Good(env, c, ps) && Supplied(env, c, ps, None) && Mirrors(t, c)
    requires Tidy(env, c, ps, live) && AllSettled(env, c, ps, None) && !c.replay
    requires a < b < |ps| && ps[a].clip.Some? && ps[b].clip.Some?
    ensures var r := Incremental(env, RequestReplay(c), ps, live, None);
            var t1 := ExecuteAll(Blank(t), r.cmds);
            && r.incomplete && Good(env, r.cache, ps) && RequestReplay(r.cache) == r.cache
            && var d := Drain(env, r.cache, ps, live, None);
               var t2 := ExecuteAll(Blank(t1), d.cmds);
            && exists j :: 0 <= j < |ps| && ps[j].clip.Some? && HomeSlot(env, ps[j]) in t1.placements
                 && HomeSlot(env, ps[j]) in Missing(t2, d.cache)
  {
    hide *;
    AskedScene(env, t, c, ps, None);
    AskedWork(env, c, ps, live);
    BlankMirrors(t, c);
    var asked := RequestReplay(c);
    var r := Incremental(env, asked, ps, live, None);
    var t1 := ExecuteAll(Blank(t), r.cmds);
    AskedBlank(t, c);
    FirstFrame(env, t, asked, ps, live, a, b);
    IncrementalProgress(env, asked, ps, live, None);
    IncrementalSettles(env, asked, ps, live, None);
    IncrementalMapped(env, asked, ps, live, None);
    AskedScene(env, t1, r.cache, ps, None);
    var j := FirstDrawn(env, asked, r.cache, ps, live);
    AllWellFormedOf(env, ps, live);
    GoodParts(env, asked, ps);
    IncrementalKeeps(env, Blank(t), asked, ps, live, None);
    KeepsMeans(env, Blank(t), asked, t1, r.cache);
    BlankMirrors(t1, r.cache);
    CurrentIsStuck(env, t1, r.cache, ps[j]);
    DrawnOnScreen(env, Blank(t), asked, ps, live, j);
    StaysMissing(env, Blank(t1), r.cache, ps, live, j, None);
  }

  lemma {:induction false} AskedBlank(t: Screen, c: Cache)
    requires Mirrors(Blank(t), c)
    ensures Mirrors(Blank(t), RequestReplay(c))
  {
  }

  lemma {:induction false} CurrentIsStuck(env: Env, t: Screen, c: Cache, p: Placement)
    requires p.clip.Some? && Current(env, c, p) && Missing(Blank(t), c) == c.placements.Keys
    ensures Stuck(env, Blank(t), c, p, None)
  {
  }

  /** The first frame cannot draw two placements, so it is not done. */
  lemma {:induction false} FirstFrame(env: Env, t: Screen, c: Cache, ps: seq<Placement>, live: set<SourceKey>, a: nat, b: nat)
    requires Steady(env, ps, live) && Good(env, c, ps) && Supplied(env, c, ps, None) && Mirrors(Blank(t), c) && c.replay
    requires forall j | 0 <= j < |ps| && ps[j].clip.Some? :: !Current(env, c, ps[j])
    requires MatchingIsMapped(env, c, ps)
    requires a < b < |ps| && ps[a].clip.Some? && ps[b].clip.Some?
    ensures Incremental(env, c, ps, live, None).incomplete
  {
    hide *;
    var r := Incremental(env, c, ps, live, None);
    if !r.incomplete {
      DrainUnfolds(env, c, ps, live, None);
      AskedScene(env, Blank(t), c, ps, None);
      ReplayRepairsExactly(env, Blank(t), c, ps, live, None);
      DrainLeavesTheScene(env, c, ps, live);
      OneCallOneSlot(env, t, c, ps, live, None);
      NothingOverlooked(env, c, ps);
      TwoSlots(env, ExecuteAll(Blank(t), r.cmds), r.cache, ps, live, a, b);
    }
  }

  lemma {:induction false} NothingOverlooked(env: Env, c: Cache, ps: seq<Placement>)
    requires forall j | 0 <= j < |ps| && ps[j].clip.Some? :: !Current(env, c, ps[j])
    ensures Overlooked(env, c, ps, None) == {}
  {
    hide Current, HomeImage, HomeSlot;
  }

  lemma {:induction false} TwoSlots(env: Env, t: Screen, c: Cache, ps: seq<Placement>, live: set<SourceKey>, a: nat, b: nat)
    requires Steady(env, ps, live) && ShowsExactly(env, c, ps) && Missing(t, c) == {}
    requires a < b < |ps| && ps[a].clip.Some? && ps[b].clip.Some?
    ensures HomeSlot(env, ps[a]) in t.placements && HomeSlot(env, ps[b]) in t.placements
    ensures HomeSlot(env, ps[a]) != HomeSlot(env, ps[b])
  {
    Apart(env, ps, live, a, b);
    hide HomeSlot, HomeImage;
    assert HomeSlot(env, ps[a]) in HomeSlots(env, ps) && HomeSlot(env, ps[b]) in HomeSlots(env, ps);
    assert forall s | s in HomeSlots(env, ps) :: s in c.placements && s !in Missing(t, c);
  }

  /** An incomplete call with nothing but placements to show has made one of them current. */
  lemma {:induction false} FirstDrawn(env: Env, c: Cache, d: Cache, ps: seq<Placement>, live: set<SourceKey>) returns (j: nat)
    requires Tidy(env, c, ps, live) && Work(env, d, ps, live) < Work(env, c, ps, live)
    ensures j < |ps| && ps[j].clip.Some? && !Current(env, c, ps[j]) && Current(env, d, ps[j])
  {
    hide Current;
    var task :| task in Work(env, c, ps, live) && task !in Work(env, d, ps, live);
    j := task.index;
  }

  /** A placement that a call makes current is on screen afterwards. */
  lemma {:induction false} DrawnOnScreen(env: Env, t: Screen, c: Cache, ps: seq<Placement>, live: set<SourceKey>, j: nat)
    requires Steady(env, ps, live) && Good(env, c, ps) && Supplied(env, c, ps, None) && Mirrors(t, c) && c.replay
    requires MatchingIsMapped(env, c, ps) && j < |ps| && ps[j].clip.Some? && !Current(env, c, ps[j])
    requires var r := Incremental(env, c, ps, live, None); r.incomplete && Current(env, r.cache, ps[j]) && r.cache.replay
    ensures HomeSlot(env, ps[j]) in ExecuteAll(t, Incremental(env, c, ps, live, None).cmds).placements
  {
    hide *;
    var r := Incremental(env, c, ps, live, None);
    var lost := Missing(t, c) * Overlooked(env, c, ps, None);
    LostIsOverlooked(env, t, c, ps, None, lost);
    IncrementalReplaying(env, t, c, ps, live, None, lost);
    SlotNotOverlooked(env, t, c, ps, live, j);
    ReplayingMeans(env, ExecuteAll(t, r.cmds), r.cache, ps, j, lost);
  }

  lemma {:induction false} SlotNotOverlooked(env: Env, t: Screen, c: Cache, ps: seq<Placement>, live: set<SourceKey>, j: nat)
    requires Steady(env, ps, live) && j < |ps| && ps[j].clip.Some? && !Current(env, c, ps[j])
    ensures HomeSlot(env, ps[j]) !in Missing(t, c) * Overlooked(env, c, ps, None)
  {
    forall i | 0 <= i < |ps| && ps[i].clip.Some? && i != j ensures HomeSlot(env, ps[i]) != HomeSlot(env, ps[j]) {
      Apart(env, ps, live, i, j);
    }
    hide HomeSlot, Current, HomeImage;
  }

  lemma {:induction false} ReplayingMeans(env: Env, t: Screen, c: Cache, ps: seq<Placement>, j: nat, lost: set<Slot>)
    requires Replaying(env, t, c, ps, None, lost) && j < |ps| && ps[j].clip.Some? && Current(env, c, ps[j])
    requires HomeSlot(env, ps[j]) !in lost
    ensures HomeSlot(env, ps[j]) in t.placements
  {
    assert ps[j] in ps;
    hide HomeImage;
  }

  /** Such a run starts from an empty cache and an empty terminal for every fixed scene that supplies its pixels. */
  lemma {:induction false} SecondBlitLosesFromScratch(env: Env, ps: seq<Placement>, live: set<SourceKey>, a: nat, b: nat)
    requires Steady(env, ps, live) && forall p | p in ps && p.clip.Some? :: p.data != []
    requires a < b < |ps| && ps[a].clip.Some? && ps[b].clip.Some?
    ensures Good(env, EMPTY_CACHE, ps) && Supplied(env, EMPTY_CACHE, ps, None)
    ensures var shown := Drain(env, EMPTY_CACHE, ps, live, None);
            var t := ExecuteAll(Screen(map[], map[]), shown.cmds);
            var r := Incremental(env, RequestReplay(shown.cache), ps, live, None);
            var t1 := ExecuteAll(Blank(t), r.cmds);
            && Agree(t, shown.cache) && r.incomplete && Good(env, r.cache, ps) && RequestReplay(r.cache) == r.cache
            && var d := Drain(env, r.cache, ps, live, None); !Agree(ExecuteAll(Blank(t1), d.cmds), d.cache)
  {
    var t0 := Screen(map[], map[]);
    assert Good(env, EMPTY_CACHE, ps) && Supplied(env, EMPTY_CACHE, ps, None) && Mirrors(t0, EMPTY_CACHE);
    assert Missing(t0, EMPTY_CACHE) == {};
    hide *;
    DrainConverges(env, t0, EMPTY_CACHE, ps, live, None);
    var shown := Drain(env, EMPTY_CACHE, ps, live, None);
    var t := ExecuteAll(t0, shown.cmds);
    AgreeParts(t, shown.cache);
    SecondBlitLosesOne(env, t, shown.cache, ps, live, a, b);
    var r := Incremental(env, RequestReplay(shown.cache), ps, live, None);
    var d := Drain(env, r.cache, ps, live, None);
    AgreeParts(ExecuteAll(Blank(ExecuteAll(Blank(t), r.cmds)), d.cmds), d.cache);
  }
}
