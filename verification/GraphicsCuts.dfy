/**
 Which placements a frame will not show, read off the cache before its first call: the placements with
 something to do are served in order, one a call, and the frame ends early at the first of them that takes
 away the image all the later ones wait for.
 */
module GraphicsCuts {
  import opened Common
  import opened HostGraphics
  import opened GraphicsStep
  import opened GraphicsAgreement
  import opened GraphicsDrain
  import opened GraphicsConvergence
  import opened GraphicsDrainLoop
  import opened GraphicsReplay
  import opened GraphicsElision

  // --- What one call does, by the placement it serves ---

  /** The same placements have something to do, and images and sources of the scene are as they were. */
  ghost predicate SameFacts(env: Env, c: Cache, d: Cache, ps: seq<Placement>) {
    (forall p | p in ps ::
          && (Mover(env, c, p) <==> Mover(env, d, p))
          && (p.key in c.sources <==> p.key in d.sources)
          && (p.key in c.sources ==> d.sources[p.key] == c.sources[p.key])
          && (p.clip.Some? ==> (ImageCurrent(c, p, HomeImage(env, p)) <==> ImageCurrent(d, p, HomeImage(env, p)))))
  }

  lemma {:induction false} SameFactsThen(env: Env, a: Cache, b: Cache, c: Cache, ps: seq<Placement>)
    requires SameFacts(env, a, b, ps) && SameFacts(env, b, c, ps)
    ensures SameFacts(env, a, c, ps)
  {
    hide Mover, ImageCurrent, HomeImage;
  }

  lemma {:induction false} RecordedFacts(env: Env, c: Cache, d: Cache, ps: seq<Placement>, live: set<SourceKey>)
    requires SameRecorded(c, d)
    ensures SameFacts(env, c, d, ps)
  {
    SameRecordedState(env, c, d, ps, live);
    hide Mover, HomeImage;
  }

  // --- The deletion phases keep the resume point ---

  lemma {:induction false} SweepDeadKeepsCursor(s: Pass, dead: seq<SourceKey>, desired: set<nat>)
    requires forall k | k in dead :: k in s.cache.sources
    requires forall i, j | 0 <= i < j < |dead| :: dead[i] != dead[j]
    ensures SweepDead(s, dead, desired).cache.continuation == s.cache.continuation
    decreases |dead|
  {
    if dead != [] {
      var key := dead[0];
      var last := LastReference(s.cache, key, desired);
      if !(s.emitted && last) {
        var image := s.cache.sources[key];
        var c1 := s.cache.(sources := s.cache.sources - {key});
        hide LastReference, WithoutImage, WithoutSlots;
        SweepDeadKeepsCursor(
          if last
          then s.(cache := DropImage(c1, image), cmds := s.cmds + [DeleteImage(image)], emitted := true)
          else s.(cache := c1),
          dead[1..], desired);
      }
    }
  }

  lemma {:induction false} SweepOrphansKeepsCursor(s: Pass, orphans: seq<nat>)
    ensures SweepOrphans(s, orphans).cache.continuation == s.cache.continuation
    decreases |orphans|
  {
    if orphans != [] && !s.emitted {
      SweepOrphansKeepsCursor(
        s.(cache := DropImage(s.cache, orphans[0]), cmds := s.cmds + [DeleteImage(orphans[0])], emitted := true),
        orphans[1..]);
    }
  }

  lemma {:induction false} SweepStaleKeepsCursor(s: Pass, stale: seq<Slot>)
    ensures SweepStale(s, stale).cache.continuation == s.cache.continuation
    decreases |stale|
  {
    if stale != [] && !s.emitted {
      SweepStaleKeepsCursor(
        s.(cache := DropSlot(s.cache, stale[0]), cmds := s.cmds + [DeletePlacement(stale[0])], emitted := true),
        stale[1..]);
    }
  }

  lemma {:induction false} DeletionsKeepCursor(c: Cache, slots: set<Slot>, keys: set<SourceKey>, live: set<SourceKey>)
    ensures Deletions(c, slots, keys, live).cache.continuation == c.continuation
  {
    var images := DesiredImages(slots);
    LayerLessTotal(DeadSources(c, live));
    SortDistinct(DeadSources(c, live), LayerLess);
    hide SweepDead, Sort, SweepOrphans, SweepStale;
    var s0 := Pass(c, [], false, false, false);
    var dead := Sort(DeadSources(c, live), LayerLess);
    SweepDeadKeepsCursor(s0, dead, images);
    var s1 := SweepDead(s0, dead, images);
    if !s1.stopped {
      var s2 := s1.(cache := Prune(s1.cache, keys, live));
      var orphans := Sort(OrphanImages(s2.cache, live, images), IdLess);
      SweepOrphansKeepsCursor(s2, orphans);
      var s3 := SweepOrphans(s2, orphans);
      if !s3.stopped {
        SweepStaleKeepsCursor(s3, Sort(StaleSlots(s3.cache, slots), SlotLess));
      }
    }
  }

  /** The deletion phases change nothing the scene counts on. */
  lemma {:induction false} DeletedFacts(env: Env, c: Cache, ps: seq<Placement>, live: set<SourceKey>)
    requires Steady(env, ps, live) && Good(env, c, ps)
    ensures var s := Deletions(c, HomeSlots(env, ps), DesiredKeys(ps), live);
            SameFacts(env, c, s.cache, ps) && s.cache.continuation == c.continuation
  {
    var slots, keys := HomeSlots(env, ps), DesiredKeys(ps);
    var s := Deletions(c, slots, keys, live);
    DeletionsProgress(env, c, ps, live);
    DeletionsSame(env, c, ps, live);
    DeletionsReplay(c, slots, keys, live);
    DeletionsKeepCursor(c, slots, keys, live);
    hide Deletions, HomeSlots, DesiredKeys, Good, HomeImage, HomeSlot, Removes, Shrinks;
    forall p | p in ps ensures Mover(env, c, p) <==> Mover(env, s.cache, p) {
      SameMover(env, c, s.cache, ps, live, p);
    }
    hide Mover, Pending;
  }

  lemma {:induction false} SameMover(env: Env, c: Cache, d: Cache, ps: seq<Placement>, live: set<SourceKey>, p: Placement)
    requires Shrinks(env, c, d, ps, live) && SameForScene(env, c, d, ps) && p in ps
    requires d.replay == c.replay && d.replayed <= c.replayed
    ensures Mover(env, c, p) <==> Mover(env, d, p)
  {
    var i :| 0 <= i < |ps| && ps[i] == p;
    hide HomeImage, HomeSlot, Good;
    assert Pending(env, d, ps, live, Show(i)) ==> Pending(env, c, ps, live, Show(i));
  }

  predicate OnlyDeletes(cmds: seq<Cmd>) {
    forall cmd | cmd in cmds :: cmd.DeleteImage? || cmd.DeletePlacement?
  }

  /** A call that served nothing: it deleted something and is not done, or there is nothing to do. */
  ghost predicate Passed(env: Env, b: Cache, e: Cache, r: Encoded, ps: seq<Placement>) {
    && SameRecorded(b, e) && e.continuation == b.continuation
    && (r.incomplete || AllShown(env, b, ps))
    && OnlyDeletes(r.cmds)
  }

  /** A call that served the k-th placement in order, the first with something to do, and stopped at a later one that can be. */
  ghost predicate CallServed(
    env: Env, b: Cache, d: Cache, e: Cache, r: Encoded, ps: seq<Placement>, live: set<SourceKey>, start: nat, k: nat)
    requires k < |ps|
  {
    && FirstMover(env, b, ps, start, k) && AllKept(b, ps, live) && Served(env, b, d, ps, live, At(ps, start, k))
    && Sends(env, b, At(ps, start, k), r.cmds)
    && SameRecorded(d, e)
    && e.continuation == Some(Cursor(Source(At(ps, start, k)), ((start + k) % |ps| + 1) % |ps|))
    && (r.incomplete <==> exists j :: k < j < |ps| && Blocks(env, d, At(ps, start, j)))
  }

  /** `b` is the cache after the deletion phases, `e` the cache when the pass ended. */
  ghost predicate CallEnds(
    env: Env, c: Cache, b: Cache, d: Cache, e: Cache, r: Encoded, ps: seq<Placement>, live: set<SourceKey>, k: nat)
  {
    && SameFacts(env, c, b, ps) && b.replay == c.replay && b.continuation == c.continuation
    && Good(env, b, ps) && MatchingIsMapped(env, b, ps) && Elides(env, b, ps)
    && r.cache == (if r.incomplete then e else Settle(e))
    && k <= |ps|
    && if k == |ps| then Passed(env, b, e, r, ps) else CallServed(env, b, d, e, r, ps, live, StartIndex(c, ps), k)
  }

  lemma {:induction false} RecordedElides(env: Env, c: Cache, d: Cache, ps: seq<Placement>)
    requires SameRecorded(c, d) && Elides(env, c, ps)
    ensures Elides(env, d, ps)
  {
    hide HomeImage;
  }

  /** The call told by its phases, with what it sends. */
  lemma {:induction false} CallCommands(env: Env, c: Cache, ps: seq<Placement>, live: set<SourceKey>)
    requires Steady(env, ps, live) && Good(env, c, ps)
    ensures var s := Deletions(c, HomeSlots(env, ps), DesiredKeys(ps), live);
            var served := Serve(env, s, ps, StartIndex(c, ps), 0, None);
            var r := Incremental(env, c, ps, live, None);
            && OnlyDeletes(s.cmds) && (!s.emitted ==> s.cmds == [])
            && if s.stopped then r == Encoded(s.cache, s.cmds, true, r.skippedOversized)
               else r == Encoded(if served.stopped then served.cache else Settle(served.cache), served.cmds, served.stopped,
                                 r.skippedOversized)
  {
    var slots, keys := HomeSlots(env, ps), DesiredKeys(ps);
    HomeSlotsAreDesired(env, c, ps);
    DeletionsOnce(c, slots, keys, live);
    DeletionsProgress(env, c, ps, live);
    hide Deletions, Serve, StartIndex, HomeSlots, DesiredSlots, DesiredKeys, Steady, Good, Shrinks, Removes;
  }

  lemma {:induction false} StoppedEnds(env: Env, c: Cache, b: Cache, r: Encoded, ps: seq<Placement>, live: set<SourceKey>)
    requires SameFacts(env, c, b, ps) && b.replay == c.replay && b.continuation == c.continuation
    requires Good(env, b, ps) && MatchingIsMapped(env, b, ps) && Elides(env, b, ps)
    requires r.incomplete && r.cache == b && OnlyDeletes(r.cmds)
    ensures CallEnds(env, c, b, b, b, r, ps, live, |ps|)
  {
    hide SameFacts, Good, MatchingIsMapped, Elides, AllShown, StartIndex;
  }

  lemma {:induction false} PassedEnds(
    env: Env, c: Cache, b: Cache, e: Cache, r: Encoded, ps: seq<Placement>, live: set<SourceKey>, start: nat)
    requires SameFacts(env, c, b, ps) && b.replay == c.replay && b.continuation == c.continuation
    requires Good(env, b, ps) && MatchingIsMapped(env, b, ps) && Elides(env, b, ps)
    requires SameRecorded(b, e) && e.continuation == b.continuation && OnlyDeletes(r.cmds)
    requires r.cache == if r.incomplete then e else Settle(e)
    requires ps != [] ==> start < |ps|
    requires !r.incomplete ==> forall j | 0 <= j < |ps| :: !Blocks(env, b, At(ps, start, j))
    ensures CallEnds(env, c, b, b, e, r, ps, live, |ps|)
  {
    hide SameFacts, Good, MatchingIsMapped, Elides, AllShown, StartIndex, At, Blocks, Mover;
    if !r.incomplete {
      MoverBlocks(env, b, ps);
      forall j | 0 <= j < |ps| ensures !Mover(env, b, At(ps, start, j)) {
        AtIsMember(ps, start, j);
      }
      NoMoverAllShown(env, b, ps, start);
    }
  }

  lemma {:induction false} ServedEnds(
    env: Env, c: Cache, b0: Cache, b: Cache, d: Cache, served: Pass, r: Encoded, ps: seq<Placement>, live: set<SourceKey>,
    k: nat)
    requires SameFacts(env, c, b0, ps) && b0.replay == c.replay && b0.continuation == c.continuation && AllKept(b0, ps, live)
    requires Good(env, b0, ps) && MatchingIsMapped(env, b0, ps) && Elides(env, b0, ps)
    requires k < |ps| && FirstMover(env, b0, ps, StartIndex(c, ps), k)
    requires SameRecorded(b0, b) && b.continuation == b0.continuation
    requires ServedNext(env, b, d, served, ps, live, StartIndex(c, ps), k)
    requires served.stopped <==> exists j :: k < j < |ps| && Blocks(env, d, At(ps, StartIndex(c, ps), j))
    requires r == Encoded(if served.stopped then served.cache else Settle(served.cache), served.cmds, served.stopped,
                          r.skippedOversized)
    ensures CallEnds(env, c, b, d, served.cache, r, ps, live, k)
  {
    RecordedFacts(env, b0, b, ps, live);
    SameFactsThen(env, c, b0, b, ps);
    RecordedElides(env, b0, b, ps);
    SameRecordedState(env, b0, b, ps, live);
    hide SameFacts, Good, MatchingIsMapped, Elides, AllKept, StartIndex, At, Blocks, Mover, Served, Sends;
  }

  lemma {:induction false} NoMoverNoBlock(env: Env, c: Cache, ps: seq<Placement>, start: nat)
    requires forall j | 0 <= j < |ps| :: !Mover(env, c, At(ps, start, j))
    ensures forall j | 0 <= j < |ps| :: !Blocks(env, c, At(ps, start, j))
  {
    hide Mover, At;
  }

  /** Deletion phases that sent nothing leave cache and terminal in step. */
  lemma {:induction false} UnsentMirrors(env: Env, t: Screen, c: Cache, s: Pass, b: Cache, ps: seq<Placement>, live: set<SourceKey>)
    requires Good(env, c, ps) && Mirrors(t, c)
    requires s == Deletions(c, HomeSlots(env, ps), DesiredKeys(ps), live) && s.cmds == []
    requires SameRecorded(s.cache, b)
    ensures Mirrors(t, b)
  {
    GoodParts(env, c, ps);
    DeletionsKeep(env, t, c, HomeSlots(env, ps), DesiredKeys(ps), live);
    NoCommands(t);
    SameRecords(env, t, s.cache, b);
    hide Deletions, Good, Inv, Mirrors, HomeSlots, DesiredKeys;
  }

  /** What one call on a collected scene comes to. */
  lemma {:induction false} CallOutcome(env: Env, t: Screen, c: Cache, ps: seq<Placement>, live: set<SourceKey>)
    returns (b: Cache, d: Cache, e: Cache, k: nat)
    requires Steady(env, ps, live) && Good(env, c, ps) && MatchingIsMapped(env, c, ps) && Elides(env, c, ps)
    requires Mirrors(t, c)
    ensures k <= |ps| && CallEnds(env, c, b, d, e, Incremental(env, c, ps, live, None), ps, live, k)
    ensures k < |ps| ==> Mirrors(t, b)
  {
    var s := Deletions(c, HomeSlots(env, ps), DesiredKeys(ps), live);
    var start := StartIndex(c, ps);
    var r := Incremental(env, c, ps, live, None);
    hide *;
    StartInRange(c, ps);
    CallCommands(env, c, ps, live);
    AfterDeletions(env, c, ps, live);
    DeletedFacts(env, c, ps, live);
    if s.stopped {
      b, d, e, k := s.cache, s.cache, s.cache, |ps|;
      StoppedEnds(env, c, b, r, ps, live);
    } else {
      var served := Serve(env, s, ps, start, 0, None);
      e := served.cache;
      if s.emitted {
        b, d, k := s.cache, s.cache, |ps|;
        ServeRest(env, s, ps, live, start, 0);
        PassedEnds(env, c, b, e, r, ps, live, start);
      } else {
        MoverBlocks(env, s.cache, ps);
        k, b, d := ServeFirst(env, s, ps, live, start, 0);
        if k == |ps| {
          b, d := s.cache, s.cache;
          NoMoverNoBlock(env, b, ps, start);
          PassedEnds(env, c, b, e, r, ps, live, start);
        } else {
          FirstMoverMeans(env, s.cache, ps, start, k);
          ServedEnds(env, c, s.cache, b, d, served, r, ps, live, k);
          UnsentMirrors(env, t, c, s, b, ps, live);
        }
      }
    }
  }

  // --- Cuts ---

  /** The placements with something to do that come before the k-th in order. */
  function Earlier(env: Env, c: Cache, ps: seq<Placement>, start: nat, k: nat): set<Placement>
    requires k <= |ps|
  {
    set i | 0 <= i < k && Mover(env, c, At(ps, start, i)) :: At(ps, start, i)
  }

  /**
   When its turn comes, q takes away the image that p waits for: q's source uses it and will leave it, no earlier
   placement moves q's source or brings a use of the image, and every other use in the scene is given up earlier.
   */
  ghost predicate CutsOff(env: Env, c: Cache, ps: seq<Placement>, q: Placement, earlier: set<Placement>, p: Placement) {
    var image := HomeImage(env, p);
    && ImageCurrent(c, p, image) && Maps(c, q.key, image) && HomeImage(env, q) != image
    && (forall x | x in earlier :: x.key != q.key && HomeImage(env, x) != image)
    && (forall x | x in ps && x.key != q.key && Maps(c, x.key, image) :: exists y :: y in earlier && y.key == x.key)
  }

  /** The k-th placement in order has something to do, others later in order have, and it cuts all of these off. */
  ghost predicate Cut(env: Env, c: Cache, ps: seq<Placement>, start: nat, k: nat) {
    && k < |ps| && Mover(env, c, At(ps, start, k))
    && (exists j :: k < j < |ps| && Mover(env, c, At(ps, start, j)))
    && (forall j | k < j < |ps| && Mover(env, c, At(ps, start, j)) ::
          CutsOff(env, c, ps, At(ps, start, k), Earlier(env, c, ps, start, k), At(ps, start, j)))
  }

  ghost predicate Uncut(env: Env, c: Cache, ps: seq<Placement>) {
    forall k: nat :: !Cut(env, c, ps, StartIndex(c, ps), k)
  }

  lemma {:induction false} EarlierMembers(env: Env, c: Cache, ps: seq<Placement>, start: nat, k: nat)
    requires k <= |ps|
    ensures forall x :: x in Earlier(env, c, ps, start, k) ==> x in ps && Mover(env, c, x)
  {
    forall i | 0 <= i < k ensures At(ps, start, i) in ps {
      AtIsMember(ps, start, i);
    }
    hide Mover, At;
  }

  lemma {:induction false} SameEarlier(env: Env, c: Cache, d: Cache, ps: seq<Placement>, start: nat, k: nat)
    requires SameFacts(env, c, d, ps) && k <= |ps|
    ensures Earlier(env, c, ps, start, k) == Earlier(env, d, ps, start, k)
  {
    forall i | 0 <= i < k ensures At(ps, start, i) in ps {
      AtIsMember(ps, start, i);
    }
    hide Mover, At, ImageCurrent, HomeImage;
  }

  lemma {:induction false} FactsCutOff(env: Env, c: Cache, d: Cache, ps: seq<Placement>, q: Placement, earlier: set<Placement>, p: Placement)
    requires SameFacts(env, c, d, ps) && p in ps && q in ps && p.clip.Some?
    ensures CutsOff(env, c, ps, q, earlier, p) ==> CutsOff(env, d, ps, q, earlier, p)
  {
    hide HomeImage, Mover;
  }

  lemma {:induction false} SameFactsBack(env: Env, c: Cache, d: Cache, ps: seq<Placement>)
    requires SameFacts(env, c, d, ps)
    ensures SameFacts(env, d, c, ps)
  {
    hide HomeImage, Mover, ImageCurrent;
  }

  lemma {:induction false} FactsCut(env: Env, c: Cache, d: Cache, ps: seq<Placement>, start: nat, k: nat)
    requires SameFacts(env, c, d, ps) && Cut(env, c, ps, start, k)
    ensures Cut(env, d, ps, start, k)
  {
    SameEarlier(env, c, d, ps, start, k);
    forall j | 0 <= j < |ps|
      ensures At(ps, start, j) in ps && (Mover(env, c, At(ps, start, j)) <==> Mover(env, d, At(ps, start, j)))
    {
      AtIsMember(ps, start, j);
    }
    forall j | k < j < |ps| && Mover(env, d, At(ps, start, j))
      ensures CutsOff(env, d, ps, At(ps, start, k), Earlier(env, d, ps, start, k), At(ps, start, j))
    {
      MoverIsVisible(env, d, At(ps, start, j));
      FactsCutOff(env, c, d, ps, At(ps, start, k), Earlier(env, c, ps, start, k), At(ps, start, j));
    }
    hide Mover, At, CutsOff, SameFacts, Earlier;
  }

  lemma {:induction false} MoverIsVisible(env: Env, c: Cache, p: Placement)
    requires Mover(env, c, p)
    ensures p.clip.Some?
  {
  }

  lemma {:induction false} SameStart(c: Cache, d: Cache, ps: seq<Placement>)
    requires c.continuation == d.continuation
    ensures StartIndex(c, ps) == StartIndex(d, ps)
  {
  }

  lemma {:induction false} SameCuts(env: Env, c: Cache, d: Cache, ps: seq<Placement>, start: nat)
    requires SameFacts(env, c, d, ps)
    ensures (forall k: nat :: !Cut(env, c, ps, start, k)) <==> forall k: nat :: !Cut(env, d, ps, start, k)
  {
    SameFactsBack(env, c, d, ps);
    forall k: nat ensures Cut(env, c, ps, start, k) <==> Cut(env, d, ps, start, k) {
      if Cut(env, c, ps, start, k) {
        FactsCut(env, c, d, ps, start, k);
      }
      if Cut(env, d, ps, start, k) {
        FactsCut(env, d, c, ps, start, k);
      }
    }
    hide Cut, SameFacts;
  }

  /** Cuts depend on nothing but these facts. */
  lemma {:induction false} SameUncut(env: Env, c: Cache, d: Cache, ps: seq<Placement>)
    requires SameFacts(env, c, d, ps) && d.continuation == c.continuation
    ensures Uncut(env, c, ps) <==> Uncut(env, d, ps)
  {
    SameStart(c, d, ps);
    SameCuts(env, c, d, ps, StartIndex(c, ps));
    hide Cut, StartIndex, SameFacts;
  }

  // --- The first placement with something to do ---

  lemma {:induction false} NothingEarlier(env: Env, c: Cache, ps: seq<Placement>, start: nat, k: nat)
    requires FirstMover(env, c, ps, start, k)
    ensures Earlier(env, c, ps, start, k) == {}
  {
    hide Mover, At;
  }

  lemma {:induction false} FirstCutsOff(env: Env, c: Cache, ps: seq<Placement>, live: set<SourceKey>, q: Placement, p: Placement)
    requires Steady(env, ps, live) && AllKept(c, ps, live) && Inv(env, c) && p in ps && q in ps
    ensures CutsOff(env, c, ps, q, {}, p) <==> Starved(env, c, q, p)
  {
    var image := HomeImage(env, p);
    forall x | x in ps && Maps(c, x.key, image) ensures x.key in c.sources && c.sources[x.key] == image {
    }
    if CutsOff(env, c, ps, q, {}, p) {
      forall k | k in c.sources && k != q.key ensures c.sources[k] != image {
        if c.sources[k] == image {
          UsedInScene(env, c, ps, live, p, k);
        }
      }
    }
    hide HomeImage, Steady, AllKept, Inv;
  }

  /** Whatever source uses the image that a placement of the scene wants is a source of the scene. */
  lemma {:induction false} UsedInScene(env: Env, c: Cache, ps: seq<Placement>, live: set<SourceKey>, p: Placement, key: SourceKey)
    requires Steady(env, ps, live) && AllKept(c, ps, live) && Inv(env, c) && p in ps && Maps(c, key, HomeImage(env, p))
    ensures exists x :: x in ps && x.key == key
  {
    assert Kept(ps, live, key) && Belongs(env, key, HomeImage(env, p)) && WellFormed(env, p);
    if key.PaneLayer? {
      assert p.key == key;
    } else {
      var i :| 0 <= i < |ps| && ps[i].key == key;
      assert ps[i] in ps;
    }
  }

  /** The first placement with something to do is a cut exactly when it starves all the others that have. */
  lemma {:induction false} FirstIsCut(env: Env, c: Cache, ps: seq<Placement>, live: set<SourceKey>, start: nat, k: nat)
    requires Steady(env, ps, live) && AllKept(c, ps, live) && Inv(env, c)
    requires FirstMover(env, c, ps, start, k)
    ensures Cut(env, c, ps, start, k) <==> StarvesOthers(env, c, ps, start, k)
  {
    NothingEarlier(env, c, ps, start, k);
    FirstMoverMeans(env, c, ps, start, k);
    forall j | 0 <= j < |ps|
      ensures CutsOff(env, c, ps, At(ps, start, k), {}, At(ps, start, j)) <==> Starved(env, c, At(ps, start, k), At(ps, start, j))
    {
      AtIsMember(ps, start, j);
      AtIsMember(ps, start, k);
      FirstCutsOff(env, c, ps, live, At(ps, start, k), At(ps, start, j));
    }
    hide Mover, At, CutsOff, Starved, Earlier, Steady, AllKept, Inv;
  }

  // --- Serving the first one shifts the cuts after it ---

  lemma {:induction false} ShiftCutsOff(
    env: Env, c: Cache, d: Cache, ps: seq<Placement>, live: set<SourceKey>, m: Placement, q: Placement,
    earlier: set<Placement>, p: Placement)
    requires Steady(env, ps, live) && m in ps && q in ps && p in ps && m.clip.Some?
    requires Replaces(c, d, m, HomeSlot(env, m)) && forall x | x in earlier :: x in ps
    ensures CutsOff(env, c, ps, q, earlier + {m}, p) ==> CutsOff(env, d, ps, q, earlier, p)
    ensures CutsOff(env, d, ps, q, earlier, p) ==> CutsOff(env, c, ps, q, earlier + {m}, p)
  {
    var image := HomeImage(env, p);
    if CutsOff(env, c, ps, q, earlier + {m}, p) {
      ShiftForward(env, c, d, ps, m, q, earlier, p);
    }
    if CutsOff(env, d, ps, q, earlier, p) {
      forall x | x in ps ensures x.key == m.key ==> HomeImage(env, x) == HomeImage(env, m) {
        SameKeySameHome(env, ps, live, x, m);
      }
      ShiftBack(env, c, d, ps, m, q, earlier, p);
    }
  }

  lemma {:induction false} ShiftForward(
    env: Env, c: Cache, d: Cache, ps: seq<Placement>, m: Placement, q: Placement, earlier: set<Placement>, p: Placement)
    requires m.clip.Some? && Replaces(c, d, m, HomeSlot(env, m)) && CutsOff(env, c, ps, q, earlier + {m}, p)
    ensures CutsOff(env, d, ps, q, earlier, p)
  {
    var image := HomeImage(env, p);
    assert m in earlier + {m};
    hide HomeImage, PlacementCurrent;
    assert Maps(d, q.key, image);
    assert Referenced(d, image);
    assert ImageCurrent(d, p, image);
    forall x | x in ps && x.key != q.key && Maps(d, x.key, image) ensures exists y :: y in earlier && y.key == x.key {
      assert Maps(c, x.key, image) && x.key != m.key;
      var y :| y in earlier + {m} && y.key == x.key;
      assert y in earlier;
    }
  }

  lemma {:induction false} ShiftBack(
    env: Env, c: Cache, d: Cache, ps: seq<Placement>, m: Placement, q: Placement, earlier: set<Placement>, p: Placement)
    requires m in ps && q in ps && m.clip.Some? && Replaces(c, d, m, HomeSlot(env, m)) && CutsOff(env, d, ps, q, earlier, p)
    requires forall x | x in earlier :: x in ps
    requires forall x | x in ps :: x.key == m.key ==> HomeImage(env, x) == HomeImage(env, m)
    ensures CutsOff(env, c, ps, q, earlier + {m}, p)
  {
    var image := HomeImage(env, p);
    assert HomeSlot(env, m).image == HomeImage(env, m);
    hide HomeImage, PlacementCurrent, HomeSlot;
    assert d.sources == c.sources[m.key := HomeImage(env, m)];
    assert m.key != q.key && Maps(c, q.key, image);
    assert HomeImage(env, m) == image ==> Maps(d, m.key, image);
    assert forall y | y in earlier && y.key == m.key :: HomeImage(env, y) == HomeImage(env, m);
    assert HomeImage(env, m) != image;
    assert ImageCurrent(c, p, image);
    forall x | x in ps && x.key != q.key && Maps(c, x.key, image) ensures exists y :: y in earlier + {m} && y.key == x.key {
      if x.key == m.key {
        assert m in earlier + {m};
      } else {
        assert Maps(d, x.key, image);
        var y :| y in earlier && y.key == x.key;
        assert y in earlier + {m};
      }
    }
  }

  /** The order of the next call is that of this one, begun after the placement it served. */
  lemma {:induction false} ShiftedAt(ps: seq<Placement>, start: nat, f: nat, j: nat)
    requires start < |ps| && f < |ps| && j < |ps|
    ensures var next := ((start + f) % |ps| + 1) % |ps|;
            && At(ps, next, j) == (if f + 1 + j < |ps| then At(ps, start, f + 1 + j) else At(ps, start, f + 1 + j - |ps|))
  {
    var n := |ps|;
    Wrap(n, start + f);
    Wrap(n, (start + f) % n + 1);
    var next := ((start + f) % n + 1) % n;
    Wrap(n, next + j);
    Wrap(n, if f + 1 + j < n then start + f + 1 + j else start + f + 1 + j - n);
  }

  /** Serving the first one takes it off the list and leaves the others as they were. */
  lemma {:induction false} MoversAfter(env: Env, c: Cache, d: Cache, ps: seq<Placement>, live: set<SourceKey>, start: nat, f: nat)
    requires Steady(env, ps, live) && Good(env, c, ps) && MatchingIsMapped(env, c, ps) && Elides(env, c, ps)
    requires start < |ps| && f < |ps| && Served(env, c, d, ps, live, At(ps, start, f))
    ensures !Mover(env, d, At(ps, start, f))
    ensures forall j | 0 <= j < |ps| && j != f :: Mover(env, d, At(ps, start, j)) <==> Mover(env, c, At(ps, start, j))
  {
    ServedIsCurrent(env, c, d, ps, live, At(ps, start, f));
    forall j | 0 <= j < |ps| && j != f ensures Mover(env, d, At(ps, start, j)) <==> Mover(env, c, At(ps, start, j)) {
      DifferentOffsets(|ps|, start, j, f);
      var m := (start + j) % |ps|;
      assert ps[m] in ps;
      OthersAfter(env, c, d, ps, live, (start + f) % |ps|, m);
    }
  }

  /** What is true of the movers of a call and of the next one, whose order begins at `next`. */
  ghost predicate Shifted(env: Env, c: Cache, d: Cache, ps: seq<Placement>, start: nat, f: nat, next: nat) {
    && start < |ps| && f < |ps| && next == ((start + f) % |ps| + 1) % |ps|
    && FirstMover(env, c, ps, start, f) && !Mover(env, d, At(ps, start, f))
    && forall j | 0 <= j < |ps| && j != f :: Mover(env, d, At(ps, start, j)) <==> Mover(env, c, At(ps, start, j))
  }

  /** Past the end of the first order nothing is left to do. */
  lemma {:induction false} ShiftedMover(env: Env, c: Cache, d: Cache, ps: seq<Placement>, start: nat, f: nat, next: nat, j: nat)
    requires Shifted(env, c, d, ps, start, f, next) && j < |ps|
    ensures Mover(env, d, At(ps, next, j)) <==> f + 1 + j < |ps| && Mover(env, c, At(ps, start, f + 1 + j))
    ensures f + 1 + j < |ps| ==> At(ps, next, j) == At(ps, start, f + 1 + j)
  {
    ShiftedAt(ps, start, f, j);
    hide Mover, At;
  }

  lemma {:induction false} ShiftedEarlier(env: Env, c: Cache, d: Cache, ps: seq<Placement>, start: nat, f: nat, next: nat, k: nat)
    requires Shifted(env, c, d, ps, start, f, next) && f < k <= |ps|
    ensures Earlier(env, c, ps, start, k) == Earlier(env, d, ps, next, k - f - 1) + {At(ps, start, f)}
  {
    var before, after := Earlier(env, c, ps, start, k), Earlier(env, d, ps, next, k - f - 1);
    forall j | 0 <= j < k - f - 1
      ensures At(ps, next, j) == At(ps, start, f + 1 + j)
      ensures Mover(env, d, At(ps, next, j)) <==> Mover(env, c, At(ps, start, f + 1 + j))
    {
      ShiftedMover(env, c, d, ps, start, f, next, j);
    }
    hide Mover, At;
    forall x | x in before ensures x in after + {At(ps, start, f)} {
      var i :| 0 <= i < k && Mover(env, c, At(ps, start, i)) && At(ps, start, i) == x;
      if i != f {
        assert At(ps, next, i - f - 1) == x;
      }
    }
    forall x | x in after ensures x in before {
      var i :| 0 <= i < k - f - 1 && Mover(env, d, At(ps, next, i)) && At(ps, next, i) == x;
      assert At(ps, start, f + 1 + i) == x;
    }
  }

  lemma {:induction false} ShiftedAlike(
    env: Env, c: Cache, d: Cache, ps: seq<Placement>, live: set<SourceKey>, start: nat, f: nat, next: nat, k: nat, j: nat)
    requires Shifted(env, c, d, ps, start, f, next) && Steady(env, ps, live) && f < k < |ps| && j < |ps|
    requires At(ps, start, f).clip.Some? && Replaces(c, d, At(ps, start, f), HomeSlot(env, At(ps, start, f)))
    ensures CutsOff(env, c, ps, At(ps, start, k), Earlier(env, c, ps, start, k), At(ps, next, j)) <==>
            CutsOff(env, d, ps, At(ps, start, k), Earlier(env, d, ps, next, k - f - 1), At(ps, next, j))
  {
    hide *;
    ShiftedEarlier(env, c, d, ps, start, f, next, k);
    EarlierMembers(env, d, ps, next, k - f - 1);
    AtIsMember(ps, start, f);
    AtIsMember(ps, start, k);
    AtIsMember(ps, next, j);
    ShiftCutsOff(
      env, c, d, ps, live, At(ps, start, f), At(ps, start, k), Earlier(env, d, ps, next, k - f - 1), At(ps, next, j));
  }

  lemma {:induction false} ShiftCut(
    env: Env, c: Cache, d: Cache, ps: seq<Placement>, live: set<SourceKey>, start: nat, f: nat, next: nat, k: nat)
    requires Shifted(env, c, d, ps, start, f, next) && Steady(env, ps, live) && f < k < |ps|
    requires At(ps, start, f).clip.Some? && Replaces(c, d, At(ps, start, f), HomeSlot(env, At(ps, start, f)))
    ensures Cut(env, c, ps, start, k) <==> Cut(env, d, ps, next, k - f - 1)
  {
    hide *;
    forall j | 0 <= j < |ps|
      ensures Mover(env, d, At(ps, next, j)) <==> f + 1 + j < |ps| && Mover(env, c, At(ps, start, f + 1 + j))
      ensures f + 1 + j < |ps| ==> At(ps, next, j) == At(ps, start, f + 1 + j)
      ensures CutsOff(env, c, ps, At(ps, start, k), Earlier(env, c, ps, start, k), At(ps, next, j)) <==>
              CutsOff(env, d, ps, At(ps, start, k), Earlier(env, d, ps, next, k - f - 1), At(ps, next, j))
    {
      ShiftedMover(env, c, d, ps, start, f, next, j);
      ShiftedAlike(env, c, d, ps, live, start, f, next, k, j);
    }
    CutByIndices(env, c, d, ps, start, f, next, k);
  }

  lemma {:induction false} CutByIndices(env: Env, c: Cache, d: Cache, ps: seq<Placement>, start: nat, f: nat, next: nat, k: nat)
    requires f < k < |ps|
    requires forall j | 0 <= j < |ps| ::
               && (Mover(env, d, At(ps, next, j)) <==> f + 1 + j < |ps| && Mover(env, c, At(ps, start, f + 1 + j)))
               && (f + 1 + j < |ps| ==> At(ps, next, j) == At(ps, start, f + 1 + j))
               && (CutsOff(env, c, ps, At(ps, start, k), Earlier(env, c, ps, start, k), At(ps, next, j)) <==>
                   CutsOff(env, d, ps, At(ps, start, k), Earlier(env, d, ps, next, k - f - 1), At(ps, next, j)))
    ensures Cut(env, c, ps, start, k) <==> Cut(env, d, ps, next, k - f - 1)
  {
    var k' := k - f - 1;
    hide Mover, At, CutsOff, Earlier;
    assert At(ps, next, k') == At(ps, start, k);
    if Cut(env, c, ps, start, k) {
      var j :| k < j < |ps| && Mover(env, c, At(ps, start, j));
      assert Mover(env, d, At(ps, next, j - f - 1));
      forall m | k' < m < |ps| && Mover(env, d, At(ps, next, m))
        ensures CutsOff(env, d, ps, At(ps, next, k'), Earlier(env, d, ps, next, k'), At(ps, next, m))
      {
        assert Mover(env, c, At(ps, start, f + 1 + m));
      }
    }
    if Cut(env, d, ps, next, k') {
      var j :| k' < j < |ps| && Mover(env, d, At(ps, next, j));
      assert Mover(env, c, At(ps, start, f + 1 + j));
      forall m | k < m < |ps| && Mover(env, c, At(ps, start, m))
        ensures CutsOff(env, c, ps, At(ps, start, k), Earlier(env, c, ps, start, k), At(ps, start, m))
      {
        assert At(ps, next, m - f - 1) == At(ps, start, m);
      }
    }
  }

  /** Where no placement is a cut, and the first is none, none is for the next call; and the other way round. */
  lemma {:induction false} ShiftUncut(env: Env, c: Cache, d: Cache, ps: seq<Placement>, live: set<SourceKey>, start: nat, f: nat, next: nat)
    requires Shifted(env, c, d, ps, start, f, next) && Steady(env, ps, live)
    requires At(ps, start, f).clip.Some? && Replaces(c, d, At(ps, start, f), HomeSlot(env, At(ps, start, f)))
    ensures (forall k: nat :: !Cut(env, c, ps, start, k)) <==>
            !Cut(env, c, ps, start, f) && forall k: nat :: !Cut(env, d, ps, next, k)
  {
    hide Cut, Steady, Replaces, At, FirstMover, Mover;
    ShiftedParts(env, c, d, ps, start, f, next);
    hide Shifted;
    forall k: nat ensures Cut(env, c, ps, start, k) ==> k == f || (f < k < |ps| && Cut(env, d, ps, next, k - f - 1)) {
      if Cut(env, c, ps, start, k) {
        CutMoves(env, c, ps, start, k);
        BeforeFirst(env, c, ps, start, f, k);
        if f < k {
          ShiftCut(env, c, d, ps, live, start, f, next, k);
        }
      }
    }
    forall k: nat ensures Cut(env, d, ps, next, k) ==> Cut(env, c, ps, start, f + 1 + k) {
      if Cut(env, d, ps, next, k) {
        CutMoves(env, d, ps, next, k);
        ShiftedMover(env, c, d, ps, start, f, next, k);
        ShiftCut(env, c, d, ps, live, start, f, next, f + 1 + k);
      }
    }
  }

  lemma {:induction false} ShiftedParts(env: Env, c: Cache, d: Cache, ps: seq<Placement>, start: nat, f: nat, next: nat)
    requires Shifted(env, c, d, ps, start, f, next)
    ensures start < |ps| && f < |ps| && FirstMover(env, c, ps, start, f)
  {
    hide FirstMover, Mover, At;
  }

  lemma {:induction false} CutMoves(env: Env, c: Cache, ps: seq<Placement>, start: nat, k: nat)
    requires Cut(env, c, ps, start, k)
    ensures k < |ps| && Mover(env, c, At(ps, start, k))
  {
    hide Mover, At, CutsOff;
  }

  lemma {:induction false} BeforeFirst(env: Env, c: Cache, ps: seq<Placement>, start: nat, f: nat, k: nat)
    requires FirstMover(env, c, ps, start, f) && k < |ps| && Mover(env, c, At(ps, start, k))
    ensures f <= k
  {
    hide Mover, At;
  }

  // --- Exactly when one call, and what is left after it, shows the scene ---

  /** The next call resumes after the placement this one served. */
  lemma {:induction false} ResumesNext(c: Cache, ps: seq<Placement>, live: set<SourceKey>, env: Env, start: nat, k: nat)
    requires Steady(env, ps, live) && k < |ps|
    requires c.continuation == Some(Cursor(Source(At(ps, start, k)), ((start + k) % |ps| + 1) % |ps|))
    ensures StartIndex(c, ps) == ((start + k) % |ps| + 1) % |ps|
  {
    var i := (start + k) % |ps|;
    var found := IndexOf(ps, Source(ps[i]));
    assert found.Some? && found.value == i;
    hide Steady, IndexOf;
  }

  /**
   A call that is done shows everything if and only if nothing was a cut when it began; one that is not done
   leaves a cut if and only if there was one.
   */
  lemma {:induction false} CallCuts(env: Env, c: Cache, ps: seq<Placement>, live: set<SourceKey>)
    requires Steady(env, ps, live) && Good(env, c, ps) && MatchingIsMapped(env, c, ps) && Elides(env, c, ps)
    ensures var r := Incremental(env, c, ps, live, None);
            if r.incomplete then MatchingIsMapped(env, r.cache, ps) && (Uncut(env, c, ps) <==> Uncut(env, r.cache, ps))
            else AllShown(env, r.cache, ps) <==> Uncut(env, c, ps)
  {
    hide *;
    CallExact(env, c, ps, live);
    var t := Screen(c.images, map[]);
    ImagesMirror(c);
    var b, d, e, k := CallOutcome(env, t, c, ps, live);
    var r := Incremental(env, c, ps, live, None);
    if k == |ps| {
      PassedCuts(env, c, b, d, e, r, ps, live);
    } else {
      ServedCuts(env, c, b, d, e, r, ps, live, k);
    }
  }

  lemma {:induction false} ImagesMirror(c: Cache)
    ensures Mirrors(Screen(c.images, map[]), c)
  {
  }

  lemma {:induction false} NoMoverUncut(env: Env, c: Cache, ps: seq<Placement>)
    requires AllShown(env, c, ps)
    ensures Uncut(env, c, ps)
  {
    forall k: nat ensures !Cut(env, c, ps, StartIndex(c, ps), k) {
      if k < |ps| {
        AtIsMember(ps, StartIndex(c, ps), k);
      }
    }
    hide Mover, At, CutsOff, Earlier, StartIndex;
  }

  lemma {:induction false} PassedCuts(env: Env, c: Cache, b: Cache, d: Cache, e: Cache, r: Encoded, ps: seq<Placement>, live: set<SourceKey>)
    requires CallEnds(env, c, b, d, e, r, ps, live, |ps|)
    ensures if r.incomplete then Uncut(env, c, ps) <==> Uncut(env, r.cache, ps)
            else AllShown(env, r.cache, ps) && Uncut(env, c, ps)
  {
    RecordedFacts(env, b, e, ps, live);
    SameFactsThen(env, c, b, e, ps);
    SameUncut(env, c, e, ps);
    SameUncut(env, c, b, ps);
    hide SameFacts, Uncut, AllShown, CallServed, Good, MatchingIsMapped, Elides;
    if !r.incomplete {
      NoMoverUncut(env, b, ps);
      ShownSettles(env, b, e, ps);
    }
  }

  lemma {:induction false} ServedEndsMeans(
    env: Env, c: Cache, b: Cache, d: Cache, e: Cache, r: Encoded, ps: seq<Placement>, live: set<SourceKey>, k: nat)
    requires k < |ps| && CallEnds(env, c, b, d, e, r, ps, live, k)
    ensures var start := StartIndex(c, ps);
            && start < |ps| && SameFacts(env, c, b, ps) && b.continuation == c.continuation
            && Good(env, b, ps) && Inv(env, b) && MatchingIsMapped(env, b, ps) && Elides(env, b, ps) && AllKept(b, ps, live)
            && r.cache == (if r.incomplete then e else Settle(e))
            && FirstMover(env, b, ps, start, k) && Served(env, b, d, ps, live, At(ps, start, k))
            && At(ps, start, k).clip.Some? && Replaces(b, d, At(ps, start, k), HomeSlot(env, At(ps, start, k)))
            && SameRecorded(d, e)
            && e.continuation == Some(Cursor(Source(At(ps, start, k)), ((start + k) % |ps| + 1) % |ps|))
            && (r.incomplete <==> exists j :: k < j < |ps| && Blocks(env, d, At(ps, start, j)))
  {
    GoodParts(env, b, ps);
    hide SameFacts, Good, Inv, MatchingIsMapped, Elides, AllKept, FirstMover, Replaces, Blocks, At, Sends, StartIndex;
    StartInRange(c, ps);
  }

  lemma {:induction false} ShiftedMeans(env: Env, c: Cache, d: Cache, ps: seq<Placement>, start: nat, f: nat, next: nat)
    requires start < |ps| && f < |ps| && next == ((start + f) % |ps| + 1) % |ps|
    requires FirstMover(env, c, ps, start, f) && !Mover(env, d, At(ps, start, f))
    requires forall j | 0 <= j < |ps| && j != f :: Mover(env, d, At(ps, start, j)) <==> Mover(env, c, At(ps, start, j))
    ensures Shifted(env, c, d, ps, start, f, next)
  {
    hide Mover, At, FirstMover;
  }

  lemma {:induction false} UncutMeans(env: Env, c: Cache, ps: seq<Placement>)
    ensures Uncut(env, c, ps) <==> forall k: nat :: !Cut(env, c, ps, StartIndex(c, ps), k)
  {
    hide Cut, StartIndex;
  }

  lemma {:induction false} OneMoverUncut(env: Env, c: Cache, ps: seq<Placement>, start: nat, f: nat)
    requires forall j | 0 <= j < |ps| && j != f :: !Mover(env, c, At(ps, start, j))
    ensures forall k: nat :: !Cut(env, c, ps, start, k)
  {
    hide Mover, At, CutsOff, Earlier;
  }

  lemma {:induction false} ServedCuts(
    env: Env, c: Cache, b: Cache, d: Cache, e: Cache, r: Encoded, ps: seq<Placement>, live: set<SourceKey>, k: nat)
    requires Steady(env, ps, live) && k < |ps| && CallEnds(env, c, b, d, e, r, ps, live, k)
    ensures if r.incomplete then Uncut(env, c, ps) <==> Uncut(env, r.cache, ps)
            else AllShown(env, r.cache, ps) <==> Uncut(env, c, ps)
  {
    var start := StartIndex(c, ps);
    var next := ((start + k) % |ps| + 1) % |ps|;
    ServedEndsMeans(env, c, b, d, e, r, ps, live, k);
    hide *;
    SameUncut(env, c, b, ps);
    MoversAfter(env, b, d, ps, live, start, k);
    ShiftedMeans(env, b, d, ps, start, k, next);
    ShiftUncut(env, b, d, ps, live, start, k, next);
    FirstIsCut(env, b, ps, live, start, k);
    FirstServed(env, b, d, ps, live, start, k);
    StarvesOthersMeans(env, b, ps, start, k);
    UncutMeans(env, b, ps);
    SameStart(c, b, ps);
    if r.incomplete {
      ResumesNext(e, ps, live, env, start, k);
      RecordedFacts(env, d, e, ps, live);
      SameCuts(env, d, e, ps, next);
      UncutMeans(env, e, ps);
    } else if forall j | 0 <= j < |ps| && j != k :: !Mover(env, b, At(ps, start, j)) {
      ShownSettles(env, d, e, ps);
      OneMoverUncut(env, b, ps, start, k);
    } else {
      var j :| 0 <= j < |ps| && j != k && Mover(env, b, At(ps, start, j));
      StarvedIsLost(env, b, d, ps, live, start, k, j);
      LostIsNotShown(env, d, e, ps, start, j);
    }
  }
}
