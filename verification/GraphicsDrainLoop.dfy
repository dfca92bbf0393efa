/**
 The drain loop with a fixed scene: it ends, it leaves exactly the visible placements that can be sent,
 and one more call is silent.
 */
module GraphicsDrainLoop {
  import opened Common
  import opened HostGraphics
  import opened GraphicsStep
  import opened GraphicsAgreement
  import opened GraphicsDrain
  import opened GraphicsConvergence

  /** Call until nothing is left, with the scene held fixed. */
  function Drain(env: Env, c: Cache, ps: seq<Placement>, live: set<SourceKey>, budget: Option<nat>): Delta
    requires Steady(env, ps, live) && Good(env, c, ps)
    decreases Work(env, c, ps, live)
  {
    IncrementalProgress(env, c, ps, live, budget);
    var r := Incremental(env, c, ps, live, budget);
    if !r.incomplete then Delta(r.cache, r.cmds)
    else
      var rest := Drain(env, r.cache, ps, live, budget);
      Delta(rest.cache, r.cmds + rest.cmds)
  }

  /** One round of the loop. */
  lemma {:induction false} DrainUnfolds(env: Env, c: Cache, ps: seq<Placement>, live: set<SourceKey>, budget: Option<nat>)
    requires Steady(env, ps, live) && Good(env, c, ps)
    ensures var r := Incremental(env, c, ps, live, budget);
            && Good(env, r.cache, ps)
            && Drain(env, c, ps, live, budget) ==
                 if !r.incomplete then Delta(r.cache, r.cmds)
                 else
                   var rest := Drain(env, r.cache, ps, live, budget);
                   Delta(rest.cache, r.cmds + rest.cmds)
  {
    IncrementalProgress(env, c, ps, live, budget);
    hide Incremental, Steady, Good, Work;
  }

  /** The slots in use are the visible placements', each with its current geometry and pixels. */
  ghost predicate ShowsExactly(env: Env, c: Cache, ps: seq<Placement>) {
    && c.placements.Keys == HomeSlots(env, ps)
    && forall p | p in ps && p.clip.Some? ::
         && c.placements[HomeSlot(env, p)] == Sig(p)
         && ImageCurrent(c, p, HomeImage(env, p))
         && Maps(c, p.key, HomeImage(env, p))
  }

  /** Every image kept is on screen or belongs to a source that is still wanted. */
  ghost predicate NoOrphans(env: Env, c: Cache, ps: seq<Placement>, live: set<SourceKey>) {
    && AllKept(c, ps, live)
    && (live != {} ==> forall id | id in c.images :: Referenced(c, id) || id in DesiredImages(HomeSlots(env, ps)))
  }

  /** With nothing to delete, only slots of visible placements are in use and no image is an orphan. */
  lemma {:induction false} TidyMeans(env: Env, c: Cache, ps: seq<Placement>, live: set<SourceKey>)
    requires Tidy(env, c, ps, live)
    ensures c.placements.Keys <= HomeSlots(env, ps) && NoOrphans(env, c, ps, live)
  {
    forall s | s in c.placements ensures s in HomeSlots(env, ps) {
      assert !Pending(env, c, ps, live, DropStale(s));
    }
    forall id | id in c.images && live != {} ensures Referenced(c, id) || id in DesiredImages(HomeSlots(env, ps)) {
      assert !Pending(env, c, ps, live, DropOrphan(id));
    }
  }

  lemma {:induction false} AllCurrentShowsExactly(env: Env, c: Cache, ps: seq<Placement>, live: set<SourceKey>)
    requires Tidy(env, c, ps, live) && forall p | p in ps && p.clip.Some? :: Current(env, c, p)
    ensures ShowsExactly(env, c, ps)
  {
    TidyMeans(env, c, ps, live);
    forall s | s in HomeSlots(env, ps) ensures s in c.placements {
      var i :| 0 <= i < |ps| && ps[i].clip.Some? && HomeSlot(env, ps[i]) == s;
      assert Current(env, c, ps[i]);
    }
  }

  /**
   The drain ends with nothing to delete, no orphans, every visible placement current or too large and
   set aside, the terminal in step, and nothing lost on the way.
   */
  lemma {:induction false} DrainConverges(
    env: Env, t: Screen, c: Cache, ps: seq<Placement>, live: set<SourceKey>, budget: Option<nat>)
    requires Steady(env, ps, live) && Good(env, c, ps) && Supplied(env, c, ps, budget) && Mirrors(t, c)
    ensures var d := Drain(env, c, ps, live, budget);
            var t' := ExecuteAll(t, d.cmds);
            && AllSettled(env, d.cache, ps, budget) && Tidy(env, d.cache, ps, live)
            && Supplied(env, d.cache, ps, budget) && SameLimits(env, c, d.cache, ps, budget)
            && Good(env, d.cache, ps) && Mirrors(t', d.cache) && Missing(t', d.cache) <= Missing(t, c)
            && !d.cache.replay && d.cache.replayed == {}
    decreases Work(env, c, ps, live)
  {
    hide *;
    DrainUnfolds(env, c, ps, live, budget);
    IncrementalProgress(env, c, ps, live, budget);
    IncrementalSettles(env, c, ps, live, budget);
    AllWellFormedOf(env, ps, live);
    IncrementalKeeps(env, t, c, ps, live, budget);
    GoodParts(env, c, ps);
    var r := Incremental(env, c, ps, live, budget);
    var t1 := ExecuteAll(t, r.cmds);
    KeepsMeans(env, t, c, t1, r.cache);
    if r.incomplete {
      DrainConverges(env, t1, r.cache, ps, live, budget);
      var rest := Drain(env, r.cache, ps, live, budget);
      ExecuteAllAppend(t, r.cmds, rest.cmds);
      LimitsThen(env, c, r.cache, rest.cache, ps, budget);
    }
  }

  lemma {:induction false} KeepsMeans(env: Env, t: Screen, c: Cache, t': Screen, c': Cache)
    requires Keeps(env, t, c, t', c') && Inv(env, c) && Mirrors(t, c)
    ensures Inv(env, c') && Mirrors(t', c') && Missing(t', c') <= Missing(t, c)
  {
    hide Inv, Mirrors, Missing;
  }

  lemma {:induction false} AllWellFormedOf(env: Env, ps: seq<Placement>, live: set<SourceKey>)
    requires Steady(env, ps, live)
    ensures AllWellFormed(env, ps)
  {
  }

  /**
   With a budget: in the end a visible placement is shown if and only if its image was there or fits,
   and is set aside if and only if it is neither.
   */
  lemma {:induction false} DrainShowsWhatFits(
    env: Env, c: Cache, ps: seq<Placement>, live: set<SourceKey>, budget: Option<nat>)
    requires Steady(env, ps, live) && Good(env, c, ps) && Supplied(env, c, ps, budget)
    ensures var d := Drain(env, c, ps, live, budget).cache;
            && d.placements.Keys <= HomeSlots(env, ps) && NoOrphans(env, d, ps, live)
            && forall p | p in ps && p.clip.Some? ::
                 && (Current(env, d, p) <==> ImageCurrent(c, p, HomeImage(env, p)) || TransactionFits(p.sig.dataLen, budget))
                 && (Quarantined(d, p, budget) <==> !Current(env, d, p))
  {
    DrainConverges(env, Screen(c.images, map[]), c, ps, live, budget);
    var d := Drain(env, c, ps, live, budget).cache;
    TidyMeans(env, d, ps, live);
    hide HomeImage, TransactionFits, Drain, HomeSlots, NoOrphans;
    forall p | p in ps && p.clip.Some?
      ensures Current(env, d, p) <==> ImageCurrent(c, p, HomeImage(env, p)) || TransactionFits(p.sig.dataLen, budget)
      ensures Quarantined(d, p, budget) <==> !Current(env, d, p)
    {
      assert Settled(env, d, p, budget);
      assert Oversized(env, c, p, budget) <==> Oversized(env, d, p, budget);
    }
  }

  /** Without a budget: what the drain leaves is exactly the scene. */
  lemma {:induction false} DrainLeavesTheScene(env: Env, c: Cache, ps: seq<Placement>, live: set<SourceKey>)
    requires Steady(env, ps, live) && Good(env, c, ps) && Supplied(env, c, ps, None)
    ensures var d := Drain(env, c, ps, live, None).cache;
            ShowsExactly(env, d, ps) && NoOrphans(env, d, ps, live)
  {
    DrainConverges(env, Screen(c.images, map[]), c, ps, live, None);
    var d := Drain(env, c, ps, live, None).cache;
    forall p | p in ps && p.clip.Some? ensures Current(env, d, p) {
      assert Settled(env, d, p, None);
    }
    hide Drain, Current, ShowsExactly, NoOrphans;
    AllCurrentShowsExactly(env, d, ps, live);
    TidyMeans(env, d, ps, live);
  }

  /** What the user sees: from a terminal in step, the drain ends showing each visible placement and nothing else. */
  lemma {:induction false} DrainShowsTheScene(env: Env, t: Screen, c: Cache, ps: seq<Placement>, live: set<SourceKey>)
    requires Steady(env, ps, live) && Good(env, c, ps) && Supplied(env, c, ps, None) && Agree(t, c)
    ensures var t' := ExecuteAll(t, Drain(env, c, ps, live, None).cmds);
            && t'.placements.Keys == HomeSlots(env, ps)
            && forall p | p in ps && p.clip.Some? ::
                 && HomeSlot(env, p) in t'.placements && t'.placements[HomeSlot(env, p)] == Geometry(p.clip.value, p.z)
                 && HomeImage(env, p) in t'.images && t'.images[HomeImage(env, p)] == p.sig
  {
    hide *;
    AgreeParts(t, c);
    DrainConverges(env, t, c, ps, live, None);
    DrainLeavesTheScene(env, c, ps, live);
    var d := Drain(env, c, ps, live, None);
    AgreeParts(ExecuteAll(t, d.cmds), d.cache);
    ShownOnScreen(env, ExecuteAll(t, d.cmds), d.cache, ps);
  }

  lemma {:induction false} AgreeParts(t: Screen, c: Cache)
    ensures Agree(t, c) <==> Mirrors(t, c) && Missing(t, c) == {}
  {
    hide Mirrors;
  }

  /** A terminal in agreement with a cache that shows the scene shows it too. */
  lemma {:induction false} ShownOnScreen(env: Env, t: Screen, c: Cache, ps: seq<Placement>)
    requires Agree(t, c) && ShowsExactly(env, c, ps)
    ensures t.placements.Keys == HomeSlots(env, ps)
    ensures forall p | p in ps && p.clip.Some? ::
              && HomeSlot(env, p) in t.placements && t.placements[HomeSlot(env, p)] == Geometry(p.clip.value, p.z)
              && HomeImage(env, p) in t.images && t.images[HomeImage(env, p)] == p.sig
  {
    AgreeIsEquality(t, c);
    hide Agree;
    forall p | p in ps && p.clip.Some? ensures HomeSlot(env, p) in HomeSlots(env, ps) {
      var i :| 0 <= i < |ps| && ps[i] == p;
    }
    hide HomeSlots, HomeSlot, HomeImage;
  }

  // --- Quiescence ---

  /** Placements that are settled are passed without a command, and stay settled. */
  lemma {:induction false} ServeOneQuiet(
    env: Env, s: Pass, ps: seq<Placement>, live: set<SourceKey>, index: nat, budget: Option<nat>)
    requires Steady(env, ps, live) && index < |ps| && Good(env, s.cache, ps) && !s.stopped
    requires AllSettled(env, s.cache, ps, budget)
    ensures var r := ServeOne(env, s, ps, index, budget);
            && r == s.(cache := s.cache.(oversized := r.cache.oversized), skipped := r.skipped)
            && Good(env, r.cache, ps) && AllSettled(env, r.cache, ps, budget)
  {
    var p := ps[index];
    var c1 := s.cache.(oversized := s.cache.oversized - {p.key});
    var r := ServeOne(env, s, ps, index, budget);
    ServeOneMeans(env, s, ps, live, index, budget);
    SteadyMember(env, ps, live, index);
    SettledPasses(env, s.cache, ps, index, budget);
    hide ServeOne, Update, Steady, HomeImage, TransactionFits, Good, AllSettled, Quarantined, Oversized;
    assert r.cache == s.cache.(oversized := r.cache.oversized);
    SameWork(env, s.cache, r.cache, ps, live);
    ShrinksGood(env, s.cache, r.cache, ps, live);
    MarksStaySettled(env, s.cache, r.cache, ps, live, p, budget);
  }

  lemma {:induction false} SettledPasses(env: Env, c: Cache, ps: seq<Placement>, index: nat, budget: Option<nat>)
    requires index < |ps| && Good(env, c, ps) && AllSettled(env, c, ps, budget) && WellFormed(env, ps[index])
    ensures var p := ps[index];
            var c1 := c.(oversized := c.oversized - {p.key});
            !Quarantined(c, p, budget) && !Oversized(env, c1, p, budget) ==> Update(env, c1, p).None?
  {
    var p := ps[index];
    var c1 := c.(oversized := c.oversized - {p.key});
    assert p in ps && Settled(env, c, p, budget);
    GoodParts(env, c, ps);
    assert Unobstructed(env, c1, ps);
    hide Update, HomeImage, TransactionFits, Inv, Unobstructed, WellFormed;
    if !Quarantined(c, p, budget) && !Oversized(env, c1, p, budget) {
      UpdateUnneeded(env, c1, ps, p);
    }
  }

  /** Setting or dropping one placement's mark as serving it does leaves everything settled. */
  lemma {:induction false} MarksStaySettled(
    env: Env, c: Cache, d: Cache, ps: seq<Placement>, live: set<SourceKey>, p: Placement, budget: Option<nat>)
    requires Steady(env, ps, live) && p in ps && AllSettled(env, c, ps, budget)
    requires d == c.(oversized := d.oversized)
    requires if Quarantined(c, p, budget) then d == c
             else if Oversized(env, c.(oversized := c.oversized - {p.key}), p, budget)
             then d.oversized == (c.oversized - {p.key})[p.key := p.sig]
             else d.oversized == c.oversized - {p.key}
    ensures AllSettled(env, d, ps, budget)
  {
    forall q | q in ps ensures q.key == p.key ==> q.sig == p.sig {
      SameKeySameHome(env, ps, live, p, q);
    }
    hide Steady, HomeImage, TransactionFits;
    forall q | q in ps ensures Settled(env, d, q, budget) {
      assert Settled(env, c, q, budget);
    }
  }

  lemma {:induction false} ServeQuiet(
    env: Env, s: Pass, ps: seq<Placement>, live: set<SourceKey>, start: nat, offset: nat, budget: Option<nat>)
    requires Steady(env, ps, live) && offset <= |ps| && Good(env, s.cache, ps) && !s.stopped
    requires AllSettled(env, s.cache, ps, budget)
    ensures var r := Serve(env, s, ps, start, offset, budget);
            r == s.(cache := s.cache.(oversized := r.cache.oversized), skipped := r.skipped)
    decreases |ps| - offset
  {
    hide Steady, Good, AllSettled, ServeOne;
    if offset < |ps| {
      var index := (start + offset) % |ps|;
      ServeOneQuiet(env, s, ps, live, index, budget);
      ServeQuiet(env, ServeOne(env, s, ps, index, budget), ps, live, start, offset + 1, budget);
    }
  }

  /** With nothing to delete and every placement settled a call emits nothing and changes no record. */
  lemma {:induction false} SettledIsSilent(env: Env, c: Cache, ps: seq<Placement>, live: set<SourceKey>, budget: Option<nat>)
    requires Steady(env, ps, live) && Good(env, c, ps) && Tidy(env, c, ps, live) && AllSettled(env, c, ps, budget)
    ensures var r := Incremental(env, c, ps, live, budget);
            && r.cmds == [] && !r.incomplete
            && exists marks :: r.cache == Settle(c).(oversized := marks)
  {
    HomeSlotsAreDesired(env, c, ps);
    NothingToDelete(env, c, ps, live);
    hide Deletions, Steady, Pending, HomeSlots, DesiredSlots, ResolveSlot, AllKept, StartIndex;
    var s := Deletions(c, HomeSlots(env, ps), DesiredKeys(ps), live);
    SameWork(env, c, s.cache, ps, live);
    PrunedStaysSettled(env, c, ps, live, budget);
    hide Good, Shrinks, DesiredKeys, Prune, AllSettled;
    ServeQuiet(env, s, ps, live, StartIndex(c, ps), 0, budget);
    var served := Serve(env, s, ps, StartIndex(c, ps), 0, budget);
    assert Settle(served.cache) == Settle(c).(oversized := served.cache.oversized);
  }

  lemma {:induction false} PrunedStaysSettled(env: Env, c: Cache, ps: seq<Placement>, live: set<SourceKey>, budget: Option<nat>)
    requires AllSettled(env, c, ps, budget) && AllKept(c, ps, live)
    ensures AllSettled(env, Prune(c, DesiredKeys(ps), live), ps, budget)
  {
    var d := Prune(c, DesiredKeys(ps), live);
    assert d.sources == c.sources;
    forall p | p in ps ensures Settled(env, d, p, budget) {
      assert Settled(env, c, p, budget);
      var i :| 0 <= i < |ps| && ps[i] == p;
      assert ps[i].key in DesiredKeys(ps);
    }
  }

  /** After the drain one more call emits nothing. */
  lemma {:induction false} DrainIsQuiescent(
    env: Env, c: Cache, ps: seq<Placement>, live: set<SourceKey>, budget: Option<nat>)
    requires Steady(env, ps, live) && Good(env, c, ps) && Supplied(env, c, ps, budget)
    ensures var d := Drain(env, c, ps, live, budget);
            var again := Incremental(env, d.cache, ps, live, budget);
            && again.cmds == [] && !again.incomplete
            && exists marks :: again.cache == d.cache.(oversized := marks)
  {
    DrainConverges(env, Screen(c.images, map[]), c, ps, live, budget);
    var d := Drain(env, c, ps, live, budget);
    SettledIsSilent(env, d.cache, ps, live, budget);
    assert Settle(d.cache) == d.cache;
  }
}
