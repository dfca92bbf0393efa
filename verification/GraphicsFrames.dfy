/**
 Frames as the paint loop makes them: before every call the scene is collected anew, with pixels only for
 images the cache does not hold. When a frame shows its scene, and what the terminal lacks after it.
 */
module GraphicsFrames {
  import opened Common
  import opened HostGraphics
  import opened GraphicsStep
  import opened GraphicsAgreement
  import opened GraphicsDrain
  import opened GraphicsConvergence
  import opened GraphicsDrainLoop
  import opened GraphicsReplay
  import opened GraphicsElision
  import opened GraphicsCuts

  // --- The frame: collect, call, and again until done ---

  /** Every placement's pixels can be had. */
  ghost predicate AllPixels(full: seq<Placement>) {
    forall p | p in full :: p.data != []
  }

  lemma {:induction false} CollectedScene(env: Env, c: Cache, full: seq<Placement>, live: set<SourceKey>)
    requires Steady(env, full, live) && Good(env, c, full) && AllPixels(full)
    ensures var ps := Collect(env, c, full);
            && SameButData(full, ps) && Steady(env, ps, live) && Good(env, c, ps) && Elides(env, c, ps)
            && (MatchingIsMapped(env, c, full) ==> MatchingIsMapped(env, c, ps))
  {
    hide Steady, Good, MatchingIsMapped, SameButData, Elides, Collect;
    CollectMeans(env, c, full, live);
    var ps := Collect(env, c, full);
    SameScene(env, c, full, ps, live);
    SameState(env, c, full, ps, live);
  }

  lemma {:induction false} FrameProgress(env: Env, c: Cache, full: seq<Placement>, live: set<SourceKey>)
    requires Steady(env, full, live) && Good(env, c, full) && AllPixels(full)
    ensures var r := Incremental(env, c, Collect(env, c, full), live, None);
            && Good(env, r.cache, full)
            && (r.incomplete ==> Work(env, r.cache, full, live) < Work(env, c, full, live))
            && (!r.incomplete ==> Tidy(env, r.cache, full, live) && !r.cache.replay && r.cache.replayed == {})
  {
    hide Steady, Good, SameButData, Elides, Collect, Incremental, Tidy, Work, AllPixels;
    CollectedScene(env, c, full, live);
    var ps := Collect(env, c, full);
    IncrementalProgress(env, c, ps, live, None);
    var r := Incremental(env, c, ps, live, None);
    SameState(env, c, full, ps, live);
    SameState(env, r.cache, full, ps, live);
  }

  /** The loop of `paint_local_pane_graphics`: the scene is collected again in every round. */
  function FrameDrain(env: Env, c: Cache, full: seq<Placement>, live: set<SourceKey>): Delta
    requires Steady(env, full, live) && Good(env, c, full) && AllPixels(full)
    decreases Work(env, c, full, live)
  {
    FrameProgress(env, c, full, live);
    var r := Incremental(env, c, Collect(env, c, full), live, None);
    if !r.incomplete then Delta(r.cache, r.cmds)
    else
      var rest := FrameDrain(env, r.cache, full, live);
      Delta(rest.cache, r.cmds + rest.cmds)
  }

  lemma {:induction false} FrameUnfolds(env: Env, c: Cache, full: seq<Placement>, live: set<SourceKey>)
    requires Steady(env, full, live) && Good(env, c, full) && AllPixels(full)
    ensures var r := Incremental(env, c, Collect(env, c, full), live, None);
            && Good(env, r.cache, full)
            && (if !r.incomplete then
                  FrameDrain(env, c, full, live) == Delta(r.cache, r.cmds)
                else
                  FrameDrain(env, c, full, live) == (var rest := FrameDrain(env, r.cache, full, live);
                                                     Delta(rest.cache, r.cmds + rest.cmds)))
  {
    FrameProgress(env, c, full, live);
    hide Incremental, Steady, Good, Work, Collect, AllPixels;
  }

  lemma {:induction false} ShownExactly(env: Env, c: Cache, full: seq<Placement>, live: set<SourceKey>)
    requires Tidy(env, c, full, live) && !c.replay
    ensures ShowsExactly(env, c, full) <==> AllShown(env, c, full)
  {
    if AllShown(env, c, full) {
      forall p | p in full && p.clip.Some? ensures Current(env, c, p) {
        assert !Mover(env, c, p);
      }
      AllCurrentShowsExactly(env, c, full, live);
    }
    if ShowsExactly(env, c, full) {
      forall p | p in full ensures !Mover(env, c, p) {
        if p.clip.Some? {
          var i :| 0 <= i < |full| && full[i] == p;
          assert HomeSlot(env, full[i]) in HomeSlots(env, full);
        }
      }
    }
  }

  lemma {:induction false} SameShown(env: Env, c: Cache, ps: seq<Placement>, qs: seq<Placement>)
    requires SameButData(ps, qs)
    ensures AllShown(env, c, ps) ==> AllShown(env, c, qs)
  {
    forall q | q in qs && AllShown(env, c, ps) ensures !Mover(env, c, q) {
      var i :| 0 <= i < |qs| && qs[i] == q;
      assert ps[i] in ps && SamePlacement(ps[i], q);
      SameAt(env, c, ps[i], q);
    }
  }

  /** Every frame ends with nothing left to delete and no replay pending. */
  lemma {:induction false} FrameEnds(env: Env, c: Cache, full: seq<Placement>, live: set<SourceKey>)
    requires Steady(env, full, live) && Good(env, c, full) && AllPixels(full)
    ensures var d := FrameDrain(env, c, full, live).cache;
            Good(env, d, full) && Tidy(env, d, full, live) && !d.replay && d.replayed == {}
    decreases Work(env, c, full, live)
  {
    hide *;
    FrameUnfolds(env, c, full, live);
    FrameProgress(env, c, full, live);
    var r := Incremental(env, c, Collect(env, c, full), live, None);
    if r.incomplete {
      FrameEnds(env, r.cache, full, live);
    }
  }

  // --- Cuts of the whole scene and of what is collected from it ---

  lemma {:induction false} SameCollectedCuts(env: Env, c: Cache, ps: seq<Placement>, qs: seq<Placement>)
    requires SameButData(ps, qs)
    ensures Uncut(env, c, ps) ==> Uncut(env, c, qs)
  {
    SameStartIndex(c, ps, qs);
    var start := StartIndex(c, ps);
    forall k: nat ensures Cut(env, c, qs, start, k) ==> Cut(env, c, ps, start, k) {
      if Cut(env, c, qs, start, k) {
        SameCut(env, c, ps, qs, start, k);
      }
    }
    hide Cut, StartIndex, SameButData;
  }

  lemma {:induction false} SameIndex(ps: seq<Placement>, qs: seq<Placement>, source: PlacementSource)
    requires SameButData(ps, qs)
    ensures IndexOf(ps, source) == IndexOf(qs, source)
    decreases |ps|
  {
    if ps != [] {
      assert SamePlacement(ps[0], qs[0]) && SameButData(ps[1..], qs[1..]);
      SameIndex(ps[1..], qs[1..], source);
      assert Source(ps[0]) == Source(qs[0]) by {
        assert ps[0].key == ps[0].(data := []).key == qs[0].key;
        assert ps[0].placementId == ps[0].(data := []).placementId == qs[0].placementId;
      }
    }
  }

  lemma {:induction false} SameStartIndex(c: Cache, ps: seq<Placement>, qs: seq<Placement>)
    requires SameButData(ps, qs)
    ensures StartIndex(c, ps) == StartIndex(c, qs)
  {
    if c.continuation.Some? {
      SameIndex(ps, qs, c.continuation.value.source);
    }
  }

  /** What two placements that differ in pixels alone have in common. */
  ghost predicate Alike(env: Env, c: Cache, p: Placement, q: Placement) {
    && p.key == q.key && p.sig == q.sig && p.clip == q.clip && HomeImage(env, p) == HomeImage(env, q)
    && (Mover(env, c, p) <==> Mover(env, c, q))
  }

  lemma {:induction false} AlikeAt(env: Env, c: Cache, ps: seq<Placement>, qs: seq<Placement>, start: nat, k: nat)
    requires SameButData(ps, qs) && k < |ps|
    ensures Alike(env, c, At(ps, start, k), At(qs, start, k))
  {
    var i := (start + k) % |ps|;
    assert SamePlacement(ps[i], qs[i]);
    SameAt(env, c, ps[i], qs[i]);
  }

  lemma {:induction false} AlikeMember(env: Env, c: Cache, ps: seq<Placement>, qs: seq<Placement>, p: Placement) returns (q: Placement)
    requires SameButData(ps, qs) && p in ps
    ensures q in qs && Alike(env, c, p, q)
  {
    var i :| 0 <= i < |ps| && ps[i] == p;
    q := qs[i];
    assert SamePlacement(ps[i], qs[i]);
    SameAt(env, c, ps[i], qs[i]);
  }

  lemma {:induction false} SameCut(env: Env, c: Cache, ps: seq<Placement>, qs: seq<Placement>, start: nat, k: nat)
    requires SameButData(ps, qs) && Cut(env, c, qs, start, k)
    ensures Cut(env, c, ps, start, k)
  {
    forall j | 0 <= j < |ps| ensures Alike(env, c, At(ps, start, j), At(qs, start, j)) {
      AlikeAt(env, c, ps, qs, start, j);
    }
    forall j | k < j < |ps| && Mover(env, c, At(ps, start, j))
      ensures CutsOff(env, c, ps, At(ps, start, k), Earlier(env, c, ps, start, k), At(ps, start, j))
    {
      assert Mover(env, c, At(qs, start, j)) by { assert Alike(env, c, At(ps, start, j), At(qs, start, j)); }
      SameCutsOff(env, c, ps, qs, start, k, j);
    }
    assert Alike(env, c, At(ps, start, k), At(qs, start, k));
    hide At, CutsOff, Earlier, HomeImage, Mover;
    var j :| k < j < |qs| && Mover(env, c, At(qs, start, j));
    assert Alike(env, c, At(ps, start, j), At(qs, start, j));
  }

  lemma {:induction false} SameCutsOff(env: Env, c: Cache, ps: seq<Placement>, qs: seq<Placement>, start: nat, k: nat, j: nat)
    requires SameButData(ps, qs) && k < |ps| && j < |ps|
    requires forall i | 0 <= i < |ps| :: Alike(env, c, At(ps, start, i), At(qs, start, i))
    requires CutsOff(env, c, qs, At(qs, start, k), Earlier(env, c, qs, start, k), At(qs, start, j))
    ensures CutsOff(env, c, ps, At(ps, start, k), Earlier(env, c, ps, start, k), At(ps, start, j))
  {
    var q, p, earlier := At(ps, start, k), At(ps, start, j), Earlier(env, c, ps, start, k);
    var later := Earlier(env, c, qs, start, k);
    var image := HomeImage(env, p);
    assert Alike(env, c, q, At(qs, start, k)) && Alike(env, c, p, At(qs, start, j));
    hide At, HomeImage, Mover, SameButData;
    forall x | x in earlier ensures x.key != q.key && HomeImage(env, x) != image {
      var i :| 0 <= i < k && Mover(env, c, At(ps, start, i)) && At(ps, start, i) == x;
      assert Alike(env, c, x, At(qs, start, i));
      assert At(qs, start, i) in later;
    }
    forall x | x in ps && x.key != q.key && Maps(c, x.key, image) ensures exists y :: y in earlier && y.key == x.key {
      var x' := AlikeMember(env, c, ps, qs, x);
      var y' :| y' in later && y'.key == x'.key;
      var i :| 0 <= i < k && Mover(env, c, At(qs, start, i)) && At(qs, start, i) == y';
      assert Alike(env, c, At(ps, start, i), y');
      assert At(ps, start, i) in earlier;
    }
  }

  // --- Exactly when a frame shows its scene ---

  /**
   A frame ends showing exactly its scene if and only if, when it begins, no placement is a cut: none takes away,
   when its turn comes, the image that all the later ones with something to do wait for.
   */
  lemma {:induction false} FrameShowsIff(env: Env, c: Cache, full: seq<Placement>, live: set<SourceKey>)
    requires Steady(env, full, live) && Good(env, c, full) && AllPixels(full) && MatchingIsMapped(env, c, full)
    ensures ShowsExactly(env, FrameDrain(env, c, full, live).cache, full) <==> Uncut(env, c, full)
    decreases Work(env, c, full, live)
  {
    hide *;
    FrameUnfolds(env, c, full, live);
    FrameProgress(env, c, full, live);
    CollectedScene(env, c, full, live);
    var ps := Collect(env, c, full);
    SameBack(full, ps);
    CallCuts(env, c, ps, live);
    SameCollectedCuts(env, c, full, ps);
    SameCollectedCuts(env, c, ps, full);
    var r := Incremental(env, c, ps, live, None);
    if r.incomplete {
      SameGood(env, r.cache, ps, full);
      SameCollectedCuts(env, r.cache, full, ps);
      SameCollectedCuts(env, r.cache, ps, full);
      FrameShowsIff(env, r.cache, full, live);
    } else {
      ShownExactly(env, r.cache, full, live);
      SameShown(env, r.cache, full, ps);
      SameShown(env, r.cache, ps, full);
    }
  }

  lemma {:induction false} SameBack(ps: seq<Placement>, qs: seq<Placement>)
    requires SameButData(ps, qs)
    ensures SameButData(qs, ps)
  {
  }

  // --- A call that is not done keeps a replay pending ---

  lemma {:induction false} UpdateKeepsReplay(env: Env, c: Cache, p: Placement)
    requires Update(env, c, p).Some?
    ensures Update(env, c, p).value.cache.replay == c.replay
  {
    hide ResolveSlot;
  }

  lemma {:induction false} CommitKeepsReplay(s: Pass, c: Cache, cursor: Cursor, update: Option<Delta>)
    requires c.replay == s.cache.replay && (update.Some? ==> update.value.cache.replay == c.replay)
    ensures Commit(s, c, cursor, update).cache.replay == s.cache.replay
  {
  }

  lemma {:induction false} ServeOneKeepsReplay(env: Env, s: Pass, ps: seq<Placement>, index: nat, budget: Option<nat>)
    requires index < |ps|
    ensures ServeOne(env, s, ps, index, budget).cache.replay == s.cache.replay
  {
    var c1 := s.cache.(oversized := s.cache.oversized - {ps[index].key});
    var update := Update(env, c1, ps[index]);
    if update.Some? {
      UpdateKeepsReplay(env, c1, ps[index]);
    }
    CommitKeepsReplay(s, c1, Cursor(Source(ps[index]), (index + 1) % |ps|), update);
    hide Update, ResolveImage, TransactionFits, ImageCurrent, Commit;
  }

  lemma {:induction false} ServeKeepsReplay(
    env: Env, s: Pass, ps: seq<Placement>, start: nat, offset: nat, budget: Option<nat>)
    requires offset <= |ps|
    ensures Serve(env, s, ps, start, offset, budget).cache.replay == s.cache.replay
    decreases |ps| - offset
  {
    hide ServeOne;
    if offset < |ps| {
      ServeOneKeepsReplay(env, s, ps, (start + offset) % |ps|, budget);
      var next := ServeOne(env, s, ps, (start + offset) % |ps|, budget);
      if !next.stopped {
        ServeKeepsReplay(env, next, ps, start, offset + 1, budget);
      }
    }
  }

  lemma {:induction false} IncompleteKeepsReplay(env: Env, c: Cache, ps: seq<Placement>, live: set<SourceKey>, budget: Option<nat>)
    ensures var r := Incremental(env, c, ps, live, budget); r.incomplete ==> r.cache.replay == c.replay
  {
    var slots := DesiredSlots(env, c, ps);
    DeletionsReplay(c, slots, DesiredKeys(ps), live);
    hide Deletions, Serve, DesiredSlots, DesiredKeys, StartIndex;
    var s := Deletions(c, slots, DesiredKeys(ps), live);
    ServeKeepsReplay(env, s, ps, StartIndex(c, ps), 0, budget);
  }

  // --- When a frame is sure to show the scene ---

  /** Every image there that a visible placement wants will stay. */
  ghost predicate AllAnchored(env: Env, c: Cache, ps: seq<Placement>) {
    forall p | p in ps && p.clip.Some? && ImageCurrent(c, p, HomeImage(env, p)) :: Anchored(env, c, ps, p)
  }

  lemma {:induction false} AnchoredIsNotStarved(env: Env, c: Cache, ps: seq<Placement>, live: set<SourceKey>, q: Placement, p: Placement)
    requires Steady(env, ps, live) && p in ps && q in ps && q.clip.Some? && Anchored(env, c, ps, p)
    ensures !Starved(env, c, q, p)
  {
    forall x | x in ps ensures x.key == q.key ==> HomeImage(env, x) == HomeImage(env, q) {
      SameKeySameHome(env, ps, live, x, q);
    }
    hide HomeImage, Steady;
  }

  lemma {:induction false} AnchoredAfter(env: Env, c: Cache, d: Cache, ps: seq<Placement>)
    requires AllAnchored(env, c, ps) && SameForScene(env, c, d, ps)
    ensures AllAnchored(env, d, ps)
  {
    hide HomeImage, HomeSlot, Anchored;
    forall p | p in ps && p.clip.Some? && ImageCurrent(d, p, HomeImage(env, p)) ensures Anchored(env, d, ps, p) {
      StaysAnchored(env, c, d, ps, p);
    }
  }

  /** With every image anchored the first mover starves nobody. */
  lemma {:induction false} AnchoredNeverStarves(env: Env, c: Cache, ps: seq<Placement>, live: set<SourceKey>)
    requires Steady(env, ps, live) && AllAnchored(env, c, ps)
    ensures !Starves(env, c, ps, live)
  {
    var s := Deletions(c, HomeSlots(env, ps), DesiredKeys(ps), live);
    DeletionsSame(env, c, ps, live);
    AnchoredAfter(env, c, s.cache, ps);
    hide Deletions, Steady, HomeImage, HomeSlots, DesiredKeys, StartIndex, SameForScene;
    var start := StartIndex(c, ps);
    forall k, j | 0 <= k < |ps| && 0 <= j < |ps| && Mover(env, s.cache, At(ps, start, k)) && Mover(env, s.cache, At(ps, start, j))
      ensures !Starved(env, s.cache, At(ps, start, k), At(ps, start, j))
    {
      AtIsMember(ps, start, k);
      AtIsMember(ps, start, j);
      var q, p := At(ps, start, k), At(ps, start, j);
      if ImageCurrent(s.cache, p, HomeImage(env, p)) {
        AnchoredIsNotStarved(env, s.cache, ps, live, q, p);
      }
    }
  }

  /** An anchored image is not cut off: the source that anchors it would have to leave it. */
  lemma {:induction false} AnchoredIsNotCutOff(env: Env, c: Cache, ps: seq<Placement>, live: set<SourceKey>, q: Placement, earlier: set<Placement>, p: Placement)
    requires Steady(env, ps, live) && q in ps && q.clip.Some? && p in ps && Anchored(env, c, ps, p)
    requires forall x | x in earlier :: x in ps
    ensures !CutsOff(env, c, ps, q, earlier, p)
  {
    forall x, y | x in ps && y in ps && x.key == y.key ensures HomeImage(env, x) == HomeImage(env, y) {
      SameKeySameHome(env, ps, live, x, y);
    }
    hide HomeImage, Steady;
  }

  lemma {:induction false} AnchoredUncut(env: Env, c: Cache, ps: seq<Placement>, live: set<SourceKey>)
    requires Steady(env, ps, live) && AllAnchored(env, c, ps)
    ensures Uncut(env, c, ps)
  {
    var start := StartIndex(c, ps);
    forall k: nat ensures !Cut(env, c, ps, start, k) {
      if Cut(env, c, ps, start, k) {
        var j :| k < j < |ps| && Mover(env, c, At(ps, start, j));
        AtIsMember(ps, start, j);
        AtIsMember(ps, start, k);
        EarlierMembers(env, c, ps, start, k);
        AnchoredIsNotCutOff(env, c, ps, live, At(ps, start, k), Earlier(env, c, ps, start, k), At(ps, start, j));
      }
    }
    hide Cut, StartIndex;
  }

  /** If every image that is there and wanted is anchored when the frame begins, the frame shows the scene. */
  lemma {:induction false} AnchoredFrameShows(env: Env, c: Cache, full: seq<Placement>, live: set<SourceKey>)
    requires Steady(env, full, live) && Good(env, c, full) && AllPixels(full) && MatchingIsMapped(env, c, full)
    requires AllAnchored(env, c, full)
    ensures ShowsExactly(env, FrameDrain(env, c, full, live).cache, full)
  {
    AnchoredUncut(env, c, full, live);
    FrameShowsIff(env, c, full, live);
    hide *;
  }

  // --- What the terminal lacks after a call ---

  lemma {:induction false} DeletionsShowNothing(t: Screen, cmds: seq<Cmd>)
    requires OnlyDeletes(cmds)
    ensures ExecuteAll(t, cmds).placements.Keys <= t.placements.Keys
    decreases |cmds|
  {
    if cmds != [] {
      assert cmds[0] in cmds;
      DeletionsShowNothing(Execute(t, cmds[0]), cmds[1..]);
    }
  }

  /**
   One placement over a call: current, it stays so and is not drawn; it becomes current only by being drawn; and if
   the call is done without it, its image is gone.
   */
  ghost predicate Tracked(env: Env, t: Screen, c: Cache, t': Screen, c': Cache, p: Placement, done: bool)
    requires p.clip.Some?
  {
    && (Current(env, c, p) ==> Current(env, c', p) && (HomeSlot(env, p) in t'.placements ==> HomeSlot(env, p) in t.placements))
    && (Current(env, c', p) ==> Current(env, c, p) || HomeSlot(env, p) in t'.placements)
    && (done && !Current(env, c', p) ==> HomeImage(env, p) !in c'.images)
  }

  /** Ending a replay makes nothing out of date. */
  lemma {:induction false} SettledCurrent(env: Env, c: Cache, p: Placement)
    requires p.clip.Some?
    ensures Current(env, c, p) ==> Current(env, Settle(c), p)
  {
    hide HomeImage, HomeSlot;
  }

  lemma {:induction false} MoverMeans(env: Env, c: Cache, p: Placement)
    ensures p.clip.Some? ==> (Current(env, c, p) <==> !Mover(env, c, p))
  {
  }

  lemma {:induction false} PassedTracked(
    env: Env, t: Screen, c: Cache, b: Cache, d: Cache, e: Cache, r: Encoded, ps: seq<Placement>, live: set<SourceKey>,
    p: Placement)
    requires CallEnds(env, c, b, d, e, r, ps, live, |ps|) && p in ps && p.clip.Some?
    ensures Tracked(env, t, c, ExecuteAll(t, r.cmds), r.cache, p, !r.incomplete)
  {
    DeletionsShowNothing(t, r.cmds);
    RecordedFacts(env, b, e, ps, live);
    MoverMeans(env, c, p);
    MoverMeans(env, b, p);
    MoverMeans(env, e, p);
    SettledCurrent(env, e, p);
    hide Current, Mover, Good, MatchingIsMapped, Elides, HomeImage, HomeSlot, ExecuteAll, CallServed;
  }

  lemma {:induction false} ServedTracked(
    env: Env, t: Screen, c: Cache, b: Cache, d: Cache, e: Cache, r: Encoded, ps: seq<Placement>, live: set<SourceKey>,
    k: nat, j: nat)
    requires Steady(env, ps, live) && k < |ps| && j < |ps| && CallEnds(env, c, b, d, e, r, ps, live, k) && Mirrors(t, b)
    requires At(ps, StartIndex(c, ps), j).clip.Some?
    ensures Tracked(env, t, c, ExecuteAll(t, r.cmds), r.cache, At(ps, StartIndex(c, ps), j), !r.incomplete)
  {
    var start := StartIndex(c, ps);
    var p, q := At(ps, start, j), At(ps, start, k);
    ServedEndsMeans(env, c, b, d, e, r, ps, live, k);
    hide *;
    AtIsMember(ps, start, j);
    AtIsMember(ps, start, k);
    MoversAfter(env, b, d, ps, live, start, k);
    FirstServed(env, b, d, ps, live, start, k);
    RecordedFacts(env, d, e, ps, live);
    FirstMoverMeans(env, b, ps, start, k);
    SendsMeans(env, c, b, d, e, r, ps, live, k);
    ServedOnScreen(env, t, b, q, ps, live, r.cmds);
    MoverMeans(env, c, p);
    MoverMeans(env, b, p);
    MoverMeans(env, d, p);
    MoverMeans(env, e, p);
    SettledCurrent(env, e, p);
    FactsMean(env, c, b, d, e, ps, p);
    if j == k {
      assert At(ps, start, j) == q;
    } else {
      OffsetsApart(env, ps, live, start, j, k);
      if !r.incomplete && Mover(env, b, p) {
        StarvedIsGone(env, b, d, e, ps, live, start, k, j);
      }
    }
    TrackedWhen(env, t, c, ExecuteAll(t, r.cmds), r.cache, p, !r.incomplete);
  }

  lemma {:induction false} TrackedWhen(env: Env, t: Screen, c: Cache, t': Screen, c': Cache, p: Placement, done: bool)
    requires p.clip.Some?
    requires Current(env, c, p) ==> Current(env, c', p)
    requires Current(env, c, p) && HomeSlot(env, p) in t'.placements ==> HomeSlot(env, p) in t.placements
    requires Current(env, c', p) ==> Current(env, c, p) || HomeSlot(env, p) in t'.placements
    requires done && !Current(env, c', p) ==> HomeImage(env, p) !in c'.images
    ensures Tracked(env, t, c, t', c', p, done)
  {
    hide Current, HomeSlot, HomeImage;
  }

  lemma {:induction false} FactsMean(env: Env, c: Cache, b: Cache, d: Cache, e: Cache, ps: seq<Placement>, p: Placement)
    requires SameFacts(env, c, b, ps) && SameFacts(env, d, e, ps) && p in ps
    ensures Mover(env, c, p) <==> Mover(env, b, p)
    ensures Mover(env, d, p) <==> Mover(env, e, p)
  {
    hide Mover, HomeImage, ImageCurrent;
  }

  lemma {:induction false} SendsMeans(
    env: Env, c: Cache, b: Cache, d: Cache, e: Cache, r: Encoded, ps: seq<Placement>, live: set<SourceKey>, k: nat)
    requires k < |ps| && CallEnds(env, c, b, d, e, r, ps, live, k)
    ensures Sends(env, b, At(ps, StartIndex(c, ps), k), r.cmds)
  {
    hide SameFacts, Good, MatchingIsMapped, Elides, AllKept, FirstMover, Served, Blocks, At, Sends, StartIndex;
  }

  /** Serving a placement draws it and nothing else. */
  lemma {:induction false} ServedOnScreen(
    env: Env, t: Screen, c: Cache, p: Placement, ps: seq<Placement>, live: set<SourceKey>, cmds: seq<Cmd>)
    requires Steady(env, ps, live) && Good(env, c, ps) && MatchingIsMapped(env, c, ps) && Mirrors(t, c)
    requires p in ps && Mover(env, c, p) && Sends(env, c, p, cmds)
    ensures HomeSlot(env, p) in ExecuteAll(t, cmds).placements
    ensures forall s | s in ExecuteAll(t, cmds).placements :: s in t.placements || s == HomeSlot(env, p)
  {
    var i :| 0 <= i < |ps| && ps[i] == p;
    SteadyMember(env, ps, live, i);
    GoodParts(env, c, ps);
    HomeResolves(env, c, ps, p);
    UpdateKeeps(env, t, c, p);
    UpdateShowsOwn(env, t, c, p);
    assert !Drawn(env, c, p);
    hide Update, Steady, Good, MatchingIsMapped, Mirrors, HomeImage, ResolveSlot, ExecuteAll, Keeps, Inv, Unobstructed;
  }

  lemma {:induction false} OffsetsApart(env: Env, ps: seq<Placement>, live: set<SourceKey>, start: nat, j: nat, k: nat)
    requires Steady(env, ps, live) && start < |ps| && j < |ps| && k < |ps| && j != k
    ensures HomeSlot(env, At(ps, start, j)) != HomeSlot(env, At(ps, start, k))
  {
    DifferentOffsets(|ps|, start, j, k);
    Apart(env, ps, live, (start + j) % |ps|, (start + k) % |ps|);
    hide Steady, HomeSlot;
  }

  lemma {:induction false} StarvedIsGone(
    env: Env, b: Cache, d: Cache, e: Cache, ps: seq<Placement>, live: set<SourceKey>, start: nat, k: nat, j: nat)
    requires start < |ps| && k < |ps| && j < |ps| && SameRecorded(d, e)
    requires At(ps, start, j).clip.Some? && Starved(env, b, At(ps, start, k), At(ps, start, j))
    requires Served(env, b, d, ps, live, At(ps, start, k))
    ensures var p := At(ps, start, j); HomeImage(env, p) !in Settle(e).images && !Current(env, Settle(e), p)
  {
    StarvedDropped(b, d, At(ps, start, k), HomeSlot(env, At(ps, start, k)), HomeImage(env, At(ps, start, j)));
    hide Good, AllKept, MatchingIsMapped, Replaces, HomeImage;
  }

  lemma {:induction false} StarvedDropped(c: Cache, d: Cache, q: Placement, slot: Slot, image: nat)
    requires q.clip.Some? && Replaces(c, d, q, slot) && Maps(c, q.key, image) && slot.image != image
    requires forall k | k in c.sources && k != q.key :: c.sources[k] != image
    ensures image !in d.images
  {
    assert !Referenced(d, image);
  }

  /** Every visible placement is tracked over a call. */
  lemma {:induction false} CallTracked(env: Env, t: Screen, c: Cache, ps: seq<Placement>, live: set<SourceKey>)
    requires Steady(env, ps, live) && Good(env, c, ps) && MatchingIsMapped(env, c, ps) && Elides(env, c, ps)
    requires Mirrors(t, c)
    ensures var r := Incremental(env, c, ps, live, None);
            forall p | p in ps && p.clip.Some? :: Tracked(env, t, c, ExecuteAll(t, r.cmds), r.cache, p, !r.incomplete)
  {
    hide *;
    var b, d, e, k := CallOutcome(env, t, c, ps, live);
    var r := Incremental(env, c, ps, live, None);
    forall p | p in ps && p.clip.Some? ensures Tracked(env, t, c, ExecuteAll(t, r.cmds), r.cache, p, !r.incomplete) {
      if k == |ps| {
        PassedTracked(env, t, c, b, d, e, r, ps, live, p);
      } else {
        StartInRange(c, ps);
        var j := EveryIndex(ps, StartIndex(c, ps), p);
        ServedTracked(env, t, c, b, d, e, r, ps, live, k, j);
      }
    }
  }

  lemma {:induction false} TrackedThen(
    env: Env, t: Screen, c: Cache, t1: Screen, c1: Cache, t2: Screen, c2: Cache, p: Placement)
    requires p.clip.Some? && Tracked(env, t, c, t1, c1, p, false) && Tracked(env, t1, c1, t2, c2, p, true)
    requires Missing(t2, c2) <= Missing(t1, c1)
    ensures Tracked(env, t, c, t2, c2, p, true)
  {
    MissingMeans(t1, c1, HomeSlot(env, p));
    MissingMeans(t2, c2, HomeSlot(env, p));
    CurrentRecorded(env, c1, p);
    CurrentRecorded(env, c2, p);
    hide Current, HomeSlot, HomeImage, Missing;
  }

  lemma {:induction false} CurrentRecorded(env: Env, c: Cache, p: Placement)
    requires p.clip.Some?
    ensures Current(env, c, p) ==> HomeSlot(env, p) in c.placements && HomeImage(env, p) in c.images
  {
  }

  lemma {:induction false} SameTracked(
    env: Env, t: Screen, c: Cache, t': Screen, c': Cache, ps: seq<Placement>, qs: seq<Placement>, done: bool)
    requires SameButData(ps, qs)
    requires forall p | p in ps && p.clip.Some? :: Tracked(env, t, c, t', c', p, done)
    ensures forall q | q in qs && q.clip.Some? :: Tracked(env, t, c, t', c', q, done)
  {
    forall q | q in qs && q.clip.Some? ensures Tracked(env, t, c, t', c', q, done) {
      var i :| 0 <= i < |qs| && qs[i] == q;
      assert SamePlacement(ps[i], qs[i]) && ps[i] in ps;
      SameAt(env, c, ps[i], q);
      SameAt(env, c', ps[i], q);
      hide Current, HomeSlot, HomeImage, SamePlacement;
    }
  }

  /** A frame keeps the terminal in step, and every visible placement is tracked over it. */
  lemma {:induction false} FrameTracked(env: Env, t: Screen, c: Cache, full: seq<Placement>, live: set<SourceKey>)
    requires Steady(env, full, live) && Good(env, c, full) && AllPixels(full) && MatchingIsMapped(env, c, full)
    requires Mirrors(t, c)
    ensures var d := FrameDrain(env, c, full, live);
            var t' := ExecuteAll(t, d.cmds);
            && Mirrors(t', d.cache) && Missing(t', d.cache) <= Missing(t, c)
            && forall p | p in full && p.clip.Some? :: Tracked(env, t, c, t', d.cache, p, true)
    decreases Work(env, c, full, live)
  {
    hide *;
    FrameUnfolds(env, c, full, live);
    FrameProgress(env, c, full, live);
    CollectedScene(env, c, full, live);
    var ps := Collect(env, c, full);
    CallTracked(env, t, c, ps, live);
    CallCuts(env, c, ps, live);
    AllWellFormedOf(env, ps, live);
    IncrementalKeeps(env, t, c, ps, live, None);
    GoodParts(env, c, ps);
    SameBack(full, ps);
    var r := Incremental(env, c, ps, live, None);
    var t1 := ExecuteAll(t, r.cmds);
    KeepsMeans(env, t, c, t1, r.cache);
    SameTracked(env, t, c, t1, r.cache, ps, full, !r.incomplete);
    if r.incomplete {
      SameGood(env, r.cache, ps, full);
      FrameTracked(env, t1, r.cache, full, live);
      var rest := FrameDrain(env, r.cache, full, live);
      ExecuteAllAppend(t, r.cmds, rest.cmds);
      forall p | p in full && p.clip.Some? ensures Tracked(env, t, c, ExecuteAll(t1, rest.cmds), rest.cache, p, true) {
        TrackedThen(env, t, c, t1, r.cache, ExecuteAll(t1, rest.cmds), rest.cache, p);
      }
    }
  }

  lemma {:induction false} MissingSlot(env: Env, t: Screen, c: Cache, t': Screen, d: Cache, ps: seq<Placement>, s: Slot)
    requires Inv(env, d) && d.placements.Keys <= HomeSlots(env, ps) && Missing(t', d) <= Missing(t, c)
    requires forall p | p in ps && p.clip.Some? :: Tracked(env, t, c, t', d, p, true)
    ensures s in Missing(t', d) <==> s in Missing(t, c) * Overlooked(env, c, ps, None)
  {
    MissingMeans(t, c, s);
    MissingMeans(t', d, s);
    if s in Missing(t', d) {
      var i :| 0 <= i < |ps| && ps[i].clip.Some? && HomeSlot(env, ps[i]) == s;
      assert ps[i] in ps && Tracked(env, t, c, t', d, ps[i], true);
      assert s.image == HomeImage(env, ps[i]) && s.image in d.images;
      hide HomeImage, HomeSlot, HomeSlots, Current, Missing, Inv, Oversized;
      assert Current(env, c, ps[i]);
    }
    if s in Missing(t, c) * Overlooked(env, c, ps, None) {
      NeverOversized(env, c);
      hide HomeImage, HomeSlot, HomeSlots, Current, Missing, Inv, Oversized;
      var i :| 0 <= i < |ps| && ps[i].clip.Some? && Current(env, c, ps[i]) && HomeSlot(env, ps[i]) == s;
      assert ps[i] in ps && Tracked(env, t, c, t', d, ps[i], true);
      CurrentRecorded(env, d, ps[i]);
    }
  }

  lemma {:induction false} NeverOversized(env: Env, c: Cache)
    ensures forall p :: !Oversized(env, c, p, None)
  {
    hide HomeImage;
  }

  /**
   Exactly what a frame leaves missing: the placements that were missing when it began and counted as current.
   The rest is on screen, also where the frame does not show its scene, since a record goes with its image.
   */
  lemma {:induction false} FrameMissing(env: Env, t: Screen, c: Cache, full: seq<Placement>, live: set<SourceKey>)
    requires Steady(env, full, live) && Good(env, c, full) && AllPixels(full) && MatchingIsMapped(env, c, full)
    requires Mirrors(t, c)
    ensures var d := FrameDrain(env, c, full, live);
            var t' := ExecuteAll(t, d.cmds);
            && Mirrors(t', d.cache)
            && Missing(t', d.cache) == Missing(t, c) * Overlooked(env, c, full, None)
            && (Agree(t', d.cache) <==> NoneOverlooked(env, t, c, full, None))
  {
    hide *;
    FrameTracked(env, t, c, full, live);
    FrameEnds(env, c, full, live);
    var d := FrameDrain(env, c, full, live);
    var t' := ExecuteAll(t, d.cmds);
    TidyMeans(env, d.cache, full, live);
    GoodParts(env, d.cache, full);
    forall s ensures s in Missing(t', d.cache) <==> s in Missing(t, c) * Overlooked(env, c, full, None) {
      MissingSlot(env, t, c, t', d.cache, full, s);
    }
    OverlookedMeans(env, t, c, full, None);
    AgreeParts(t', d.cache);
  }

  // --- The frame after a blit: ask for a replay, then draw ---

  lemma {:induction false} AskedFrame(env: Env, c: Cache, full: seq<Placement>)
    requires Good(env, c, full)
    ensures Good(env, RequestReplay(c), full)
  {
    AskedScene(env, Screen(map[], map[]), c, full, None);
    hide *;
  }

  /**
   After a blit, a frame leaves missing exactly what was missing and, once the replay was asked for, counted as
   current: what a replay still under way had dealt with.
   */
  lemma {:induction false} FrameRepairsExactly(env: Env, t: Screen, c: Cache, full: seq<Placement>, live: set<SourceKey>)
    requires Steady(env, full, live) && Good(env, c, full) && AllPixels(full) && Mirrors(t, c)
    requires MatchingIsMapped(env, RequestReplay(c), full)
    ensures var asked := RequestReplay(c);
            && Good(env, asked, full)
            && var d := FrameDrain(env, asked, full, live);
               var t' := ExecuteAll(t, d.cmds);
            && Mirrors(t', d.cache)
            && Missing(t', d.cache) == Missing(t, c) * Overlooked(env, asked, full, None)
            && (Agree(t', d.cache) <==> NoneOverlooked(env, t, asked, full, None))
  {
    hide *;
    AskedFrame(env, c, full);
    AskedScene(env, t, c, full, None);
    FrameMissing(env, t, RequestReplay(c), full, live);
  }

  /** With no replay under way cache and terminal agree after the frame, whatever a blit took and whether or not it shows its scene. */
  lemma {:induction false} FrameAgrees(env: Env, t: Screen, c: Cache, full: seq<Placement>, live: set<SourceKey>)
    requires Steady(env, full, live) && Good(env, c, full) && AllPixels(full) && Mirrors(t, c) && !c.replay
    ensures var asked := RequestReplay(c);
            && Good(env, asked, full)
            && var d := FrameDrain(env, asked, full, live); Agree(ExecuteAll(t, d.cmds), d.cache)
  {
    hide *;
    AskedFrame(env, c, full);
    AskedScene(env, t, c, full, None);
    FrameRepairsExactly(env, t, c, full, live);
    NoneAskedFor(env, t, RequestReplay(c), full);
  }

  lemma {:induction false} NoneAskedFor(env: Env, t: Screen, c: Cache, ps: seq<Placement>)
    requires c.replay && c.replayed == {}
    ensures NoneOverlooked(env, t, c, ps, None)
  {
    NeverOversized(env, c);
    hide HomeImage, Oversized;
  }

  /** The terminal shows each visible placement, with its geometry and pixels, and nothing else. */
  ghost predicate OnScreen(env: Env, t: Screen, ps: seq<Placement>) {
    && t.placements.Keys == HomeSlots(env, ps)
    && forall p | p in ps && p.clip.Some? ::
         && HomeSlot(env, p) in t.placements && t.placements[HomeSlot(env, p)] == Geometry(p.clip.value, p.z)
         && HomeImage(env, p) in t.images && t.images[HomeImage(env, p)] == p.sig
  }

  /**
   What the user sees: whatever a blit took, the terminal shows exactly the scene after a frame if and only if
   no placement is a cut when it begins.
   */
  lemma {:induction false} FrameOnScreenIff(env: Env, t: Screen, c: Cache, full: seq<Placement>, live: set<SourceKey>)
    requires Steady(env, full, live) && Good(env, c, full) && AllPixels(full) && Mirrors(t, c) && !c.replay
    ensures var asked := RequestReplay(c);
            && Good(env, asked, full)
            && (OnScreen(env, ExecuteAll(t, FrameDrain(env, asked, full, live).cmds), full) <==> Uncut(env, asked, full))
  {
    hide *;
    AskedFrame(env, c, full);
    AskedScene(env, t, c, full, None);
    var asked := RequestReplay(c);
    FrameAgrees(env, t, c, full, live);
    FrameShowsIff(env, asked, full, live);
    FrameTracked(env, t, asked, full, live);
    FrameEnds(env, asked, full, live);
    var d := FrameDrain(env, asked, full, live);
    var t' := ExecuteAll(t, d.cmds);
    if Uncut(env, asked, full) {
      ShownOnScreen(env, t', d.cache, full);
      OnScreenMeans(env, t', full);
    } else {
      ShownExactly(env, d.cache, full, live);
      NotOnScreen(env, t, asked, t', d.cache, full);
    }
  }

  lemma {:induction false} OnScreenMeans(env: Env, t: Screen, ps: seq<Placement>)
    requires t.placements.Keys == HomeSlots(env, ps)
    requires forall p | p in ps && p.clip.Some? ::
               && HomeSlot(env, p) in t.placements && t.placements[HomeSlot(env, p)] == Geometry(p.clip.value, p.z)
               && HomeImage(env, p) in t.images && t.images[HomeImage(env, p)] == p.sig
    ensures OnScreen(env, t, ps)
  {
    hide HomeSlots, HomeSlot, HomeImage;
  }

  /** A placement the frame does not show has lost its image on both sides. */
  lemma {:induction false} NotOnScreen(env: Env, t: Screen, c: Cache, t': Screen, d: Cache, ps: seq<Placement>)
    requires Mirrors(t', d) && !AllShown(env, d, ps)
    requires forall p | p in ps && p.clip.Some? :: Tracked(env, t, c, t', d, p, true)
    ensures !OnScreen(env, t', ps)
  {
    hide Current, HomeSlot, HomeSlots, HomeImage;
    var p :| p in ps && Mover(env, d, p);
    assert Tracked(env, t, c, t', d, p, true);
  }

  // --- One call a frame, as for remote clients ---

  /** The cache after n frames that each collect the scene, ask for a replay and make one call. */
  function AfterCalls(env: Env, c: Cache, full: seq<Placement>, live: set<SourceKey>, n: nat): Cache {
    if n == 0 then c
    else
      var before := RequestReplay(AfterCalls(env, c, full, live, n - 1));
      Incremental(env, before, Collect(env, before, full), live, None).cache
  }

  /** Starting with no replay under way, the exact laws of a frame hold after any number of calls. */
  lemma {:induction false} EveryCallIsExact(env: Env, c: Cache, full: seq<Placement>, live: set<SourceKey>, n: nat)
    requires Steady(env, full, live) && Good(env, c, full) && AllPixels(full) && !c.replay
    ensures var cn := AfterCalls(env, c, full, live, n);
            Good(env, cn, full) && MatchingIsMapped(env, RequestReplay(cn), full)
    decreases n
  {
    hide Good, MatchingIsMapped, Incremental, Steady, AllPixels, Collect, RequestReplay;
    var t := Screen(map[], map[]);
    if n == 0 {
      AskedScene(env, t, c, full, None);
    } else {
      EveryCallIsExact(env, c, full, live, n - 1);
      var before := AfterCalls(env, c, full, live, n - 1);
      var asked := RequestReplay(before);
      AskedScene(env, t, before, full, None);
      CollectedScene(env, asked, full, live);
      var ps := Collect(env, asked, full);
      CallCuts(env, asked, ps, live);
      FrameProgress(env, asked, full, live);
      IncompleteKeepsReplay(env, asked, ps, live, None);
      var r := Incremental(env, asked, ps, live, None);
      AskedScene(env, t, r.cache, full, None);
      if r.incomplete {
        SameBack(full, ps);
        SameGood(env, r.cache, ps, full);
      }
    }
  }

  lemma {:induction false} FittingServeOne(env: Env, s: Pass, ps: seq<Placement>, index: nat, budget: Option<nat>)
    requires index < |ps|
    requires forall p | p in ps :: TransactionFits(p.sig.dataLen, budget) && !Quarantined(s.cache, p, budget)
    ensures var r := ServeOne(env, s, ps, index, budget);
            r == ServeOne(env, s, ps, index, None) && forall p | p in ps :: !Quarantined(r.cache, p, budget)
  {
    var p := ps[index];
    var c1 := s.cache.(oversized := s.cache.oversized - {p.key});
    assert p in ps && !Quarantined(s.cache, p, budget);
    if Update(env, c1, p).Some? {
      UpdateKeepsMarks(env, c1, p);
    }
    assert TransactionFits(p.sig.dataLen, None);
    hide Update, ResolveImage, ImageCurrent, TransactionFits;
  }

  lemma {:induction false} FittingServe(
    env: Env, s: Pass, ps: seq<Placement>, start: nat, offset: nat, budget: Option<nat>)
    requires offset <= |ps|
    requires forall p | p in ps :: TransactionFits(p.sig.dataLen, budget) && !Quarantined(s.cache, p, budget)
    ensures var r := Serve(env, s, ps, start, offset, budget);
            r == Serve(env, s, ps, start, offset, None) && forall p | p in ps :: !Quarantined(r.cache, p, budget)
    decreases |ps| - offset
  {
    hide ServeOne, TransactionFits, Quarantined;
    if offset < |ps| {
      FittingServeOne(env, s, ps, (start + offset) % |ps|, budget);
      var next := ServeOne(env, s, ps, (start + offset) % |ps|, budget);
      if !next.stopped {
        FittingServe(env, next, ps, start, offset + 1, budget);
      }
    }
  }

  /** A budget that every placement fits, and that set none aside, makes no difference. */
  lemma {:induction false} FittingBudget(
    env: Env, c: Cache, ps: seq<Placement>, live: set<SourceKey>, budget: Option<nat>)
    requires Steady(env, ps, live)
    requires forall p | p in ps :: TransactionFits(p.sig.dataLen, budget) && !Quarantined(c, p, budget)
    requires Good(env, c, ps)
    ensures var r := Incremental(env, c, ps, live, budget);
            r == Incremental(env, c, ps, live, None) && forall p | p in ps :: !Quarantined(r.cache, p, budget)
  {
    HomeSlotsAreDesired(env, c, ps);
    DeletionsSame(env, c, ps, live);
    var s := Deletions(c, HomeSlots(env, ps), DesiredKeys(ps), live);
    forall p | p in ps ensures !Quarantined(s.cache, p, budget) {
      assert SameForScene(env, c, s.cache, ps);
    }
    hide Deletions, Serve, StartIndex, HomeSlots, DesiredSlots, DesiredKeys, TransactionFits, Good, Steady, SameForScene;
    if !s.stopped {
      FittingServe(env, s, ps, StartIndex(c, ps), 0, budget);
    }
  }

  // --- A frame that failed is made good by the next ---

  lemma {:induction false} EndsAnchored(env: Env, t: Screen, c: Cache, t': Screen, d: Cache, ps: seq<Placement>)
    requires forall p | p in ps && p.clip.Some? :: Tracked(env, t, c, t', d, p, true)
    ensures AllAnchored(env, RequestReplay(d), ps)
  {
    hide HomeSlot, HomeImage;
    forall p | p in ps && p.clip.Some? && ImageCurrent(RequestReplay(d), p, HomeImage(env, p))
      ensures Anchored(env, RequestReplay(d), ps, p)
    {
      assert Tracked(env, t, c, t', d, p, true);
      assert Maps(d, p.key, HomeImage(env, p));
    }
  }

  /** After any frame, shown or not, the next frame of the same scene shows it. */
  lemma {:induction false} NextFrameShows(env: Env, c: Cache, full: seq<Placement>, live: set<SourceKey>)
    requires Steady(env, full, live) && Good(env, c, full) && AllPixels(full) && MatchingIsMapped(env, c, full)
    ensures var asked := RequestReplay(FrameDrain(env, c, full, live).cache);
            && Good(env, asked, full)
            && ShowsExactly(env, FrameDrain(env, asked, full, live).cache, full)
  {
    hide *;
    var t := Screen(c.images, map[]);
    ImagesMirror(c);
    FrameTracked(env, t, c, full, live);
    FrameEnds(env, c, full, live);
    var d := FrameDrain(env, c, full, live).cache;
    AskedFrame(env, d, full);
    AskedScene(env, t, d, full, None);
    EndsAnchored(env, t, c, ExecuteAll(t, FrameDrain(env, c, full, live).cmds), d, full);
    AnchoredFrameShows(env, RequestReplay(d), full, live);
  }

  // --- Two contents exchanged ---

  /** Two visible images of one pane, apart from each other in every id they hash to. */
  ghost predicate TwoImages(env: Env, p: Placement, q: Placement) {
    && WellFormed(env, p) && WellFormed(env, q) && p.key.Terminal? && q.key.Terminal? && p.key != q.key
    && p.pane == q.pane && p.clip.Some? && q.clip.Some? && p.data != [] && q.data != []
    && HomeImage(env, p) != HomeImage(env, q)
    && PlacementStart(env, Source(p)) != PlacementStart(env, Source(q))
  }

  /** The placement p with the content of q. */
  function With(p: Placement, q: Placement): Placement {
    p.(sig := q.sig, data := q.data)
  }

  lemma {:induction false} WithMeans(env: Env, p: Placement, q: Placement)
    requires TwoImages(env, p, q)
    ensures TwoImages(env, With(p, q), With(q, p))
    ensures HomeImage(env, With(p, q)) == HomeImage(env, q) && HomeImage(env, With(q, p)) == HomeImage(env, p)
    ensures With(p, q).key == p.key && With(q, p).key == q.key && Source(With(p, q)) == Source(p) && Source(With(q, p)) == Source(q)
  {
  }

  lemma {:induction false} TwoImagesScene(env: Env, p: Placement, q: Placement, live: set<SourceKey>)
    requires TwoImages(env, p, q)
    ensures Steady(env, [p, q], live) && AllPixels([p, q])
    ensures HomeSlots(env, [p, q]) == {HomeSlot(env, p), HomeSlot(env, q)}
  {
    var ps := [p, q];
    assert ps[0] == p && ps[1] == q;
    hide HomeImage, WellFormed;
  }

  /** Once one scene is shown, the scene with the contents exchanged can be drawn. */
  lemma {:induction false} ExchangedScene(env: Env, c: Cache, p: Placement, q: Placement)
    requires TwoImages(env, p, q) && Inv(env, c) && ShowsExactly(env, c, [p, q])
    ensures Good(env, c, [With(p, q), With(q, p)])
  {
    var p', q' := With(p, q), With(q, p);
    WithMeans(env, p, q);
    TwoImagesScene(env, p, q, {});
    assert [p, q][0] == p && [p, q][1] == q;
    assert p in [p, q] && q in [p, q];
    hide HomeImage, PlacementStart;
    forall x | x in [p', q']
      ensures x.key.Terminal? && HomeImage(env, x) in c.images ==> c.images[HomeImage(env, x)] == x.sig
      ensures HomeSlot(env, x) in c.placements ==> c.placements[HomeSlot(env, x)].source == Source(x)
    {
    }
  }

  /** Either of the two, when it comes first, takes away the image the other now waits for. */
  lemma {:induction false} ExchangedCutsOff(env: Env, c: Cache, ps: seq<Placement>, x: Placement, y: Placement)
    requires forall z | z in ps :: z == x || z == y
    requires x.key != y.key && HomeImage(env, x) != HomeImage(env, y)
    requires ImageCurrent(c, y, HomeImage(env, y)) && Maps(c, x.key, HomeImage(env, y)) && Maps(c, y.key, HomeImage(env, x))
    ensures CutsOff(env, c, ps, x, {}, y)
  {
    hide HomeImage;
  }

  lemma {:induction false} TwoCut(env: Env, c: Cache, ps: seq<Placement>, start: nat)
    requires |ps| == 2 && Mover(env, c, At(ps, start, 0)) && Mover(env, c, At(ps, start, 1))
    requires CutsOff(env, c, ps, At(ps, start, 0), {}, At(ps, start, 1))
    ensures Cut(env, c, ps, start, 0)
  {
    hide Mover, At, CutsOff;
    assert Earlier(env, c, ps, start, 0) == {};
  }

  lemma {:induction false} ExchangedFacts(env: Env, c: Cache, p: Placement, q: Placement)
    requires TwoImages(env, p, q) && ShowsExactly(env, c, [p, q]) && c.replay && c.replayed == {}
    ensures var x, y := With(p, q), With(q, p);
            && Mover(env, c, x) && Mover(env, c, y) && x.key != y.key && HomeImage(env, x) != HomeImage(env, y)
            && ImageCurrent(c, x, HomeImage(env, x)) && ImageCurrent(c, y, HomeImage(env, y))
            && Maps(c, x.key, HomeImage(env, y)) && Maps(c, y.key, HomeImage(env, x))
  {
    WithMeans(env, p, q);
    assert p in [p, q] && q in [p, q];
    hide HomeImage, PlacementStart, WellFormed;
  }

  lemma {:induction false} ExchangedCut(env: Env, c: Cache, p: Placement, q: Placement)
    requires TwoImages(env, p, q) && ShowsExactly(env, c, [p, q])
    requires c.replay && c.replayed == {}
    ensures !Uncut(env, c, [With(p, q), With(q, p)])
  {
    var p', q' := With(p, q), With(q, p);
    var ps := [p', q'];
    ExchangedFacts(env, c, p, q);
    var start := StartIndex(c, ps);
    assert ps[0] == p' && ps[1] == q';
    Either(start);
    assert (At(ps, start, 0) == p' && At(ps, start, 1) == q') || (At(ps, start, 0) == q' && At(ps, start, 1) == p');
    hide HomeImage, StartIndex, Mover, TwoImages, With, CutsOff, At, ImageCurrent, Maps, Cut, ShowsExactly;
    ExchangedCutsOff(env, c, ps, p', q');
    ExchangedCutsOff(env, c, ps, q', p');
    TwoCut(env, c, ps, start);
  }

  lemma {:induction false} Either(start: nat)
    ensures (start % 2 == 0 && (start + 1) % 2 == 1) || (start % 2 == 1 && (start + 1) % 2 == 0)
  {
  }

  /**
   A run that shows it, from an empty cache and an empty terminal: the first frame shows two images of a pane; their
   contents are exchanged; the next frame is done without showing them; the one after it shows them.
   */
  lemma {:induction false} ExchangedFromScratch(env: Env, p: Placement, q: Placement, live: set<SourceKey>)
    requires TwoImages(env, p, q)
    ensures var ps, qs := [p, q], [With(p, q), With(q, p)];
            && Steady(env, ps, live) && AllPixels(ps) && Steady(env, qs, live) && AllPixels(qs)
            && Good(env, RequestReplay(EMPTY_CACHE), ps)
            && var d1 := FrameDrain(env, RequestReplay(EMPTY_CACHE), ps, live);
               var t1 := ExecuteAll(Screen(map[], map[]), d1.cmds);
            && OnScreen(env, t1, ps) && Good(env, RequestReplay(d1.cache), qs)
            && var d2 := FrameDrain(env, RequestReplay(d1.cache), qs, live);
               var t2 := ExecuteAll(t1, d2.cmds);
            && !OnScreen(env, t2, qs) && Good(env, RequestReplay(d2.cache), qs)
            && OnScreen(env, ExecuteAll(t2, FrameDrain(env, RequestReplay(d2.cache), qs, live).cmds), qs)
  {
    var ps, qs := [p, q], [With(p, q), With(q, p)];
    var t0 := Screen(map[], map[]);
    EmptyIsGood(env, ps);
    WithMeans(env, p, q);
    TwoImagesScene(env, p, q, live);
    TwoImagesScene(env, With(p, q), With(q, p), live);
    hide *;
    // the first frame
    EmptyUncut(env, ps, live);
    FrameOnScreenIff(env, t0, EMPTY_CACHE, ps, live);
    FrameAgrees(env, t0, EMPTY_CACHE, ps, live);
    var asked0 := RequestReplay(EMPTY_CACHE);
    AskedScene(env, t0, EMPTY_CACHE, ps, None);
    FrameShowsIff(env, asked0, ps, live);
    FrameEnds(env, asked0, ps, live);
    var d1 := FrameDrain(env, asked0, ps, live);
    var t1 := ExecuteAll(t0, d1.cmds);
    AgreeParts(t1, d1.cache);
    GoodParts(env, d1.cache, ps);
    // the contents are exchanged
    ExchangedScene(env, d1.cache, p, q);
    AskedScene(env, t1, d1.cache, qs, None);
    AskedShows(env, d1.cache, ps);
    ExchangedCut(env, RequestReplay(d1.cache), p, q);
    FrameOnScreenIff(env, t1, d1.cache, qs, live);
    FrameAgrees(env, t1, d1.cache, qs, live);
    var asked1 := RequestReplay(d1.cache);
    FrameEnds(env, asked1, qs, live);
    var d2 := FrameDrain(env, asked1, qs, live);
    var t2 := ExecuteAll(t1, d2.cmds);
    AgreeParts(t2, d2.cache);
    // the frame after it
    FrameOnScreenIff(env, t2, d2.cache, qs, live);
    NextFrameShows(env, asked1, qs, live);
    AskedScene(env, t2, d2.cache, qs, None);
    FrameShowsIff(env, RequestReplay(d2.cache), qs, live);
  }

  lemma {:induction false} AskedShows(env: Env, c: Cache, ps: seq<Placement>)
    ensures ShowsExactly(env, c, ps) ==> ShowsExactly(env, RequestReplay(c), ps)
  {
    hide HomeSlots, HomeSlot, HomeImage;
  }

  lemma {:induction false} EmptyIsGood(env: Env, ps: seq<Placement>)
    ensures Good(env, EMPTY_CACHE, ps) && Mirrors(Screen(map[], map[]), EMPTY_CACHE)
    ensures !EMPTY_CACHE.replay
  {
  }

  lemma {:induction false} EmptyUncut(env: Env, ps: seq<Placement>, live: set<SourceKey>)
    requires Steady(env, ps, live)
    ensures Uncut(env, RequestReplay(EMPTY_CACHE), ps)
  {
    hide Steady, HomeImage, Uncut;
    AnchoredUncut(env, RequestReplay(EMPTY_CACHE), ps, live);
  }
}
