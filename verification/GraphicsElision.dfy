/**
 A call on a scene as it is really collected: with pixels only for images the cache does not hold. Exactly
 when such a call reports that it is done without showing the scene.
 */
module GraphicsElision {
  import opened Common
  import opened HostGraphics
  import opened GraphicsStep
  import opened GraphicsAgreement
  import opened GraphicsDrain
  import opened GraphicsConvergence
  import opened GraphicsDrainLoop
  import opened GraphicsReplay

  /** Collecting a placement: its pixels are left out when its image is there. */
  function Collected(env: Env, c: Cache, p: Placement): Placement {
    var image := ResolveImage(env, p, c.images);
    if image.Some? && ImageCurrent(c, p, image.value) then p.(data := []) else p
  }

  function Collect(env: Env, c: Cache, full: seq<Placement>): (ps: seq<Placement>)
    ensures |ps| == |full| && forall i | 0 <= i < |ps| :: ps[i] == Collected(env, c, full[i])
  {
    seq(|full|, i requires 0 <= i < |full| => Collected(env, c, full[i]))
  }

  // --- Pixels do not matter to what there is to do ---

  ghost predicate SameButData(ps: seq<Placement>, qs: seq<Placement>) {
    |ps| == |qs| && forall i | 0 <= i < |ps| :: SamePlacement(ps[i], qs[i])
  }

  predicate SamePlacement(p: Placement, q: Placement) {
    p.(data := []) == q.(data := [])
  }

  lemma {:induction false} SameAt(env: Env, c: Cache, p: Placement, q: Placement)
    requires SamePlacement(p, q)
    ensures p.key == q.key && p.sig == q.sig && p.clip == q.clip && p.hostImage == q.hostImage && Source(p) == Source(q)
    ensures HomeImage(env, p) == HomeImage(env, q) && HomeSlot(env, p) == HomeSlot(env, q)
    ensures WellFormed(env, p) <==> WellFormed(env, q)
    ensures p.clip.Some? ==> (Current(env, c, p) <==> Current(env, c, q)) && (Drawn(env, c, p) <==> Drawn(env, c, q))
  {
    assert p.key == p.(data := []).key == q.key && p.sig == p.(data := []).sig == q.sig;
    assert p.clip == p.(data := []).clip == q.clip && p.z == p.(data := []).z == q.z;
    assert p.hostImage == p.(data := []).hostImage == q.hostImage && p.pane == p.(data := []).pane == q.pane;
    assert p.placementId == p.(data := []).placementId == q.placementId;
    assert p.scrollback == p.(data := []).scrollback == q.scrollback;
  }

  lemma {:induction false} SameScene(env: Env, c: Cache, ps: seq<Placement>, qs: seq<Placement>, live: set<SourceKey>)
    requires SameButData(ps, qs) && Steady(env, ps, live)
    ensures Steady(env, qs, live)
  {
    forall i | 0 <= i < |ps| ensures HomeImage(env, ps[i]) == HomeImage(env, qs[i]) && HomeSlot(env, ps[i]) == HomeSlot(env, qs[i])
      ensures ps[i].key == qs[i].key && ps[i].sig == qs[i].sig && ps[i].hostImage == qs[i].hostImage
      ensures Source(ps[i]) == Source(qs[i]) && WellFormed(env, qs[i]) && (qs[i].key.PaneLayer? ==> qs[i].key in live)
    {
      assert ps[i] in ps;
      SameAt(env, c, ps[i], qs[i]);
    }
    hide HomeImage, HomeSlot, WellFormed, SamePlacement;
  }

  lemma {:induction false} SameSlots(env: Env, ps: seq<Placement>, qs: seq<Placement>)
    requires SameButData(ps, qs)
    ensures HomeSlots(env, ps) == HomeSlots(env, qs) && DesiredKeys(ps) == DesiredKeys(qs)
  {
    forall i | 0 <= i < |ps|
      ensures HomeSlot(env, ps[i]) == HomeSlot(env, qs[i]) && ps[i].clip == qs[i].clip && ps[i].key == qs[i].key
    {
      SameAt(env, EMPTY_CACHE, ps[i], qs[i]);
    }
    hide HomeSlot, SamePlacement;
    assert forall s :: s in HomeSlots(env, ps) <==> s in HomeSlots(env, qs) by {
      forall s | s in HomeSlots(env, ps) ensures s in HomeSlots(env, qs) {
        var i :| 0 <= i < |ps| && ps[i].clip.Some? && HomeSlot(env, ps[i]) == s;
        assert HomeSlot(env, qs[i]) == s;
      }
      forall s | s in HomeSlots(env, qs) ensures s in HomeSlots(env, ps) {
        var i :| 0 <= i < |qs| && qs[i].clip.Some? && HomeSlot(env, qs[i]) == s;
        assert HomeSlot(env, ps[i]) == s;
      }
    }
    assert forall k :: k in DesiredKeys(ps) <==> k in DesiredKeys(qs) by {
      forall k | k in DesiredKeys(ps) ensures k in DesiredKeys(qs) {
        var i :| 0 <= i < |ps| && ps[i].key == k;
        assert qs[i].key == k;
      }
      forall k | k in DesiredKeys(qs) ensures k in DesiredKeys(ps) {
        var i :| 0 <= i < |qs| && qs[i].key == k;
        assert ps[i].key == k;
      }
    }
  }

  lemma {:induction false} SamePending(env: Env, c: Cache, ps: seq<Placement>, qs: seq<Placement>, live: set<SourceKey>, task: Task)
    requires SameButData(ps, qs)
    ensures Pending(env, c, ps, live, task) <==> Pending(env, c, qs, live, task)
  {
    SameSlots(env, ps, qs);
    match task
    case Show(i) =>
      if i < |ps| {
        SameAt(env, c, ps[i], qs[i]);
      }
    case DropOrphan(image) =>
      assert KeptReference(c, ps, live, image) <==> KeptReference(c, qs, live, image) by {
        assert forall k :: Kept(ps, live, k) <==> Kept(qs, live, k);
        hide Kept;
      }
    case _ =>
  }

  /** A scene and what is collected from it agree on everything but pixels. */
  lemma {:induction false} SameState(env: Env, c: Cache, ps: seq<Placement>, qs: seq<Placement>, live: set<SourceKey>)
    requires SameButData(ps, qs) && Steady(env, ps, live)
    ensures Work(env, c, ps, live) == Work(env, c, qs, live)
    ensures Good(env, c, ps) <==> Good(env, c, qs)
    ensures Tidy(env, c, ps, live) <==> Tidy(env, c, qs, live)
    ensures MatchingIsMapped(env, c, ps) <==> MatchingIsMapped(env, c, qs)
  {
    forall task ensures Pending(env, c, ps, live, task) <==> Pending(env, c, qs, live, task) {
      SamePending(env, c, ps, qs, live, task);
    }
    assert forall task :: task in Work(env, c, ps, live) <==> task in Work(env, c, qs, live);
    SameSlots(env, ps, qs);
    assert AllKept(c, ps, live) <==> AllKept(c, qs, live) by {
      assert forall k :: Kept(ps, live, k) <==> Kept(qs, live, k);
      hide Kept;
    }
    SameGood(env, c, ps, qs);
    SameGood(env, c, qs, ps) by { assert SameButData(qs, ps); }
  }

  lemma {:induction false} SameGood(env: Env, c: Cache, ps: seq<Placement>, qs: seq<Placement>)
    requires SameButData(ps, qs)
    ensures Good(env, c, ps) ==> Good(env, c, qs)
    ensures MatchingIsMapped(env, c, ps) ==> MatchingIsMapped(env, c, qs)
  {
    forall q | q in qs ensures exists p :: p in ps && SamePlacement(p, q) {
      var i :| 0 <= i < |qs| && qs[i] == q;
      assert ps[i] in ps && SamePlacement(ps[i], q);
    }
    forall p, q | SamePlacement(p, q) ensures p.key == q.key && p.sig == q.sig && p.clip == q.clip && Source(p) == Source(q)
      ensures HomeImage(env, p) == HomeImage(env, q) && HomeSlot(env, p) == HomeSlot(env, q)
      ensures p.clip.Some? ==> (Drawn(env, c, p) <==> Drawn(env, c, q))
    {
      SameAt(env, c, p, q);
    }
    hide HomeImage, HomeSlot, SamePlacement, Drawn, Inv, Source;
  }

  /** Pixels are left out exactly where the image is there. */
  ghost predicate Elides(env: Env, c: Cache, ps: seq<Placement>) {
    forall p | p in ps && p.clip.Some? :: p.data == [] <==> ImageCurrent(c, p, HomeImage(env, p))
  }

  lemma {:induction false} CollectMeans(env: Env, c: Cache, full: seq<Placement>, live: set<SourceKey>)
    requires Steady(env, full, live) && Good(env, c, full) && forall p | p in full :: p.data != []
    ensures var ps := Collect(env, c, full);
            SameButData(full, ps) && Elides(env, c, ps)
  {
    var ps := Collect(env, c, full);
    forall p | p in ps && p.clip.Some? ensures p.data == [] <==> ImageCurrent(c, p, HomeImage(env, p)) {
      var i :| 0 <= i < |ps| && ps[i] == p;
      assert full[i] in full;
      HomeResolves(env, c, full, full[i]);
      SameAt(env, c, full[i], p);
    }
  }

  // --- One call on a collected scene ---

  /** Something is left to do for this placement. */
  predicate Mover(env: Env, c: Cache, p: Placement) {
    p.clip.Some? && !Current(env, c, p)
  }

  function At(ps: seq<Placement>, start: nat, k: nat): Placement
    requires ps != []
  {
    ps[(start + k) % |ps|]
  }

  /** The first placement in the order of this call that has something to do. */
  ghost predicate FirstMover(env: Env, c: Cache, ps: seq<Placement>, start: nat, k: nat) {
    k < |ps| && Mover(env, c, At(ps, start, k)) && forall j | 0 <= j < k :: !Mover(env, c, At(ps, start, j))
  }

  /** The image p wants is there, but q alone uses it and will leave it for another. */
  ghost predicate Starved(env: Env, c: Cache, q: Placement, p: Placement) {
    var image := HomeImage(env, p);
    && ImageCurrent(c, p, image) && Maps(c, q.key, image) && HomeImage(env, q) != image
    && forall k | k in c.sources && k != q.key :: c.sources[k] != image
  }

  /** A placement that would make the call stop once something was emitted. */
  predicate Blocks(env: Env, c: Cache, p: Placement) {
    Mover(env, c, p) && (p.data != [] || ImageCurrent(c, p, HomeImage(env, p)))
  }

  /** An update of a placement that is not drawn sends something. */
  lemma {:induction false} UpdateSends(env: Env, c: Cache, ps: seq<Placement>, p: Placement)
    requires Good(env, c, ps) && MatchingIsMapped(env, c, ps) && p in ps && WellFormed(env, p) && Blocks(env, c, p)
    ensures Update(env, c, p).Some? && Update(env, c, p).value.cmds != []
  {
    UpdateEffect(env, c, ps, p);
    HomeResolves(env, c, ps, p);
    assert !Drawn(env, c, p);
    hide ResolveSlot, Release, HomeImage;
  }

  /** The three things serving a placement can come to when there is no budget. */
  lemma {:induction false} ServeOneCollected(env: Env, s: Pass, ps: seq<Placement>, live: set<SourceKey>, index: nat)
    requires Steady(env, ps, live) && index < |ps| && Good(env, s.cache, ps) && AllKept(s.cache, ps, live)
    requires MatchingIsMapped(env, s.cache, ps) && !s.stopped
    ensures var p := ps[index];
            var r := ServeOne(env, s, ps, index, None);
            var c1 := s.cache.(oversized := s.cache.oversized - {p.key});
            && Good(env, c1, ps) && AllKept(c1, ps, live) && MatchingIsMapped(env, c1, ps)
            && (Blocks(env, c1, p) <==> Blocks(env, s.cache, p))
            && (!Blocks(env, s.cache, p) ==> r == s.(cache := c1))
            && (Blocks(env, s.cache, p) && s.emitted ==> r == s.(cache := c1, stopped := true))
            && (Blocks(env, s.cache, p) && !s.emitted ==>
                  && r.emitted && !r.stopped && Update(env, c1, p).Some?
                  && r.cache == Update(env, c1, p).value.cache.(continuation := Some(Cursor(Source(p), (index + 1) % |ps|)))
                  && r.cmds == Update(env, c1, p).value.cmds)
  {
    var p := ps[index];
    var c1 := s.cache.(oversized := s.cache.oversized - {p.key});
    ServeOneMeans(env, s, ps, live, index, None);
    SteadyMember(env, ps, live, index);
    SameWork(env, s.cache, c1, ps, live);
    SameMapped(env, s.cache, c1, ps);
    GoodParts(env, c1, ps);
    if Blocks(env, c1, p) {
      UpdateSends(env, c1, ps, p);
    } else if !Mover(env, c1, p) {
      UpdateUnneeded(env, c1, ps, p);
    } else {
      NothingToSend(env, c1, ps, p);
    }
    hide ServeOne, Update, Good, HomeImage, Shrinks, MatchingIsMapped;
  }

  /** The records of two caches are the same. */
  predicate SameRecorded(c: Cache, d: Cache) {
    d.images == c.images && d.placements == c.placements && d.sources == c.sources
    && d.replay == c.replay && d.replayed == c.replayed
  }

  lemma {:induction false} SameRecordedState(env: Env, c: Cache, d: Cache, ps: seq<Placement>, live: set<SourceKey>)
    requires SameRecorded(c, d)
    ensures Good(env, c, ps) ==> Good(env, d, ps)
    ensures AllKept(c, ps, live) ==> AllKept(d, ps, live)
    ensures MatchingIsMapped(env, c, ps) ==> MatchingIsMapped(env, d, ps)
    ensures forall p :: Mover(env, c, p) <==> Mover(env, d, p)
    ensures forall p :: Blocks(env, c, p) <==> Blocks(env, d, p)
  {
    SameRecords(env, Screen(map[], map[]), c, d);
    SameMapped(env, c, d, ps);
    hide Inv, HomeImage, HomeSlot, MatchingIsMapped;
  }

  /** Once something was emitted the pass changes no record, and stops exactly at the first placement that blocks. */
  lemma {:induction false} ServeRest(env: Env, s: Pass, ps: seq<Placement>, live: set<SourceKey>, start: nat, offset: nat)
    requires Steady(env, ps, live) && offset <= |ps| && Good(env, s.cache, ps) && AllKept(s.cache, ps, live)
    requires MatchingIsMapped(env, s.cache, ps) && !s.stopped && s.emitted
    ensures var r := Serve(env, s, ps, start, offset, None);
            && SameRecorded(s.cache, r.cache) && r.emitted
            && r.cache.continuation == s.cache.continuation && r.cmds == s.cmds
            && (r.stopped <==> exists k :: offset <= k < |ps| && Blocks(env, s.cache, At(ps, start, k)))
    decreases |ps| - offset
  {
    hide ServeOne, Steady, Good, AllKept, MatchingIsMapped, Blocks;
    if offset < |ps| {
      var index := (start + offset) % |ps|;
      ServeOneCollected(env, s, ps, live, index);
      var next := ServeOne(env, s, ps, index, None);
      assert At(ps, start, offset) == ps[index];
      if !next.stopped {
        SameRecordedState(env, s.cache, next.cache, ps, live);
        ServeRest(env, next, ps, live, start, offset + 1);
      }
    }
  }

  /** What is known of the cache after the first mover was served. */
  ghost predicate Served(env: Env, c: Cache, d: Cache, ps: seq<Placement>, live: set<SourceKey>, q: Placement) {
    && q.clip.Some? && Replaces(c, d, q, HomeSlot(env, q))
    && Good(env, d, ps) && AllKept(d, ps, live) && MatchingIsMapped(env, d, ps)
  }

  lemma {:induction false} BlockServed(env: Env, c: Cache, ps: seq<Placement>, live: set<SourceKey>, i: nat)
    requires Steady(env, ps, live) && i < |ps| && Good(env, c, ps) && AllKept(c, ps, live)
    requires MatchingIsMapped(env, c, ps) && Blocks(env, c, ps[i])
    ensures Update(env, c, ps[i]).Some? && Served(env, c, Update(env, c, ps[i]).value.cache, ps, live, ps[i])
  {
    SteadyMember(env, ps, live, i);
    UpdateEffect(env, c, ps, ps[i]);
    var d := Update(env, c, ps[i]).value.cache;
    UpdateShrinks(env, c, d, ps, live, i);
    ReplacedMapped(env, c, d, ps, live, i);
    hide Update, Steady, Replaces, MatchingIsMapped, AllKept, HomeImage;
  }

  /** What serving the k-th placement in order sends and where it leaves the resume point; `u` is what it is served from. */
  ghost predicate ServedNext(
    env: Env, u: Cache, d: Cache, r: Pass, ps: seq<Placement>, live: set<SourceKey>, start: nat, k: nat)
    requires k < |ps|
  {
    && Served(env, u, d, ps, live, At(ps, start, k)) && Sends(env, u, At(ps, start, k), r.cmds)
    && SameRecorded(d, r.cache)
    && r.cache.continuation == Some(Cursor(Source(At(ps, start, k)), ((start + k) % |ps| + 1) % |ps|))
  }

  /** Before anything was emitted: the pass runs to the first mover, serves it, and then stops at what blocks. */
  lemma {:induction false} ServeFirst(env: Env, s: Pass, ps: seq<Placement>, live: set<SourceKey>, start: nat, offset: nat)
    returns (k: nat, u: Cache, d: Cache)
    requires Steady(env, ps, live) && offset <= |ps| && Good(env, s.cache, ps) && AllKept(s.cache, ps, live)
    requires MatchingIsMapped(env, s.cache, ps) && !s.stopped && !s.emitted
    requires forall p | p in ps && Mover(env, s.cache, p) :: Blocks(env, s.cache, p)
    requires forall j | 0 <= j < offset :: !Mover(env, s.cache, At(ps, start, j))
    ensures var r := Serve(env, s, ps, start, offset, None);
            if k == |ps| then
              && SameRecorded(s.cache, r.cache) && r.cache.continuation == s.cache.continuation && r.cmds == s.cmds
              && !r.stopped && forall j | 0 <= j < |ps| :: !Mover(env, s.cache, At(ps, start, j))
            else
              && FirstMover(env, s.cache, ps, start, k) && Served(env, s.cache, d, ps, live, At(ps, start, k))
              && SameRecorded(d, r.cache)
              && SameRecorded(s.cache, u) && u.continuation == s.cache.continuation
              && ServedNext(env, u, d, r, ps, live, start, k)
              && (r.stopped <==> exists j :: k < j < |ps| && Blocks(env, d, At(ps, start, j)))
    decreases |ps| - offset
  {
    hide ServeOne, Steady, Good, AllKept, MatchingIsMapped, Blocks, Mover, Served;
    if offset == |ps| {
      k, u, d := |ps|, s.cache, s.cache;
    } else {
      var index := (start + offset) % |ps|;
      var p := ps[index];
      assert At(ps, start, offset) == p && p in ps;
      ServeOneCollected(env, s, ps, live, index);
      var c1 := s.cache.(oversized := s.cache.oversized - {p.key});
      var next := ServeOne(env, s, ps, index, None);
      SameRecordedState(env, s.cache, c1, ps, live);
      if Blocks(env, s.cache, p) {
        BlockServed(env, c1, ps, live, index);
        k, u, d := offset, c1, Update(env, c1, p).value.cache;
        ServedElsewhere(env, c1, s.cache, d, ps, live, p);
        ServedGood(env, s.cache, d, ps, live, p);
        SameRecordedState(env, d, next.cache, ps, live);
        ServeRest(env, next, ps, live, start, offset + 1);
        assert Mover(env, s.cache, p) by { BlocksIsMover(env, s.cache, p); }
      } else {
        k, u, d := ServeFirst(env, next, ps, live, start, offset + 1);
        if k < |ps| {
          ServedElsewhere(env, c1, s.cache, d, ps, live, At(ps, start, k));
        }
      }
    }
  }

  lemma {:induction false} BlocksIsMover(env: Env, c: Cache, p: Placement)
    requires Blocks(env, c, p)
    ensures Mover(env, c, p)
  {
  }

  lemma {:induction false} ServedElsewhere(env: Env, c: Cache, c': Cache, d: Cache, ps: seq<Placement>, live: set<SourceKey>, q: Placement)
    requires SameRecorded(c, c') && Served(env, c, d, ps, live, q)
    ensures Served(env, c', d, ps, live, q)
  {
    hide Good, AllKept, MatchingIsMapped, HomeSlot;
    SameReplaces(c, c', d, q, HomeSlot(env, q));
  }

  lemma {:induction false} SameReplaces(c: Cache, c': Cache, d: Cache, q: Placement, slot: Slot)
    requires SameRecorded(c, c') && q.clip.Some? && Replaces(c, d, q, slot)
    ensures Replaces(c', d, q, slot)
  {
  }

  lemma {:induction false} ServedGood(env: Env, c: Cache, d: Cache, ps: seq<Placement>, live: set<SourceKey>, q: Placement)
    requires Served(env, c, d, ps, live, q)
    ensures Good(env, d, ps) && AllKept(d, ps, live) && MatchingIsMapped(env, d, ps)
  {
    hide Good, AllKept, MatchingIsMapped, Replaces;
  }

  // --- What serving the first mover does to the others ---

  /** The others keep having, or not having, something to do; and one is cut off exactly when the first starves it. */
  lemma {:induction false} OthersAfter(env: Env, c: Cache, d: Cache, ps: seq<Placement>, live: set<SourceKey>, i: nat, j: nat)
    requires Steady(env, ps, live) && Good(env, c, ps) && MatchingIsMapped(env, c, ps)
    requires i < |ps| && j < |ps| && i != j && ps[i].clip.Some?
    requires Replaces(c, d, ps[i], HomeSlot(env, ps[i]))
    requires ps[j].clip.Some? ==> (ps[j].data == [] <==> ImageCurrent(c, ps[j], HomeImage(env, ps[j])))
    ensures Mover(env, d, ps[j]) <==> Mover(env, c, ps[j])
    ensures Blocks(env, d, ps[j]) <==> Mover(env, c, ps[j]) && !Starved(env, c, ps[i], ps[j])
    ensures Current(env, d, ps[i])
  {
    if ps[j].clip.Some? {
      if Current(env, c, ps[j]) {
        StaysCurrent(env, c, d, ps, live, i, j);
      } else if Current(env, d, ps[j]) {
        NotDrawnBefore(env, c, d, ps, live, i, j);
      }
      ImageAfter(env, c, d, ps, live, i, j);
    }
    hide HomeImage, Steady, Good, MatchingIsMapped, Starved;
  }

  lemma {:induction false} NotDrawnBefore(env: Env, c: Cache, d: Cache, ps: seq<Placement>, live: set<SourceKey>, i: nat, j: nat)
    requires Steady(env, ps, live) && Good(env, c, ps) && MatchingIsMapped(env, c, ps)
    requires i < |ps| && j < |ps| && i != j && ps[i].clip.Some? && ps[j].clip.Some?
    requires Replaces(c, d, ps[i], HomeSlot(env, ps[i])) && Current(env, d, ps[j])
    ensures Current(env, c, ps[j])
  {
    assert ps[j] in ps;
    DrawnBefore(env, c, d, ps, live, i, j);
    hide Good, Steady, HomeImage, Replaces;
  }

  lemma {:induction false} ImageAfter(env: Env, c: Cache, d: Cache, ps: seq<Placement>, live: set<SourceKey>, i: nat, j: nat)
    requires Steady(env, ps, live) && i < |ps| && j < |ps| && i != j && ps[i].clip.Some? && ps[j].clip.Some?
    requires Replaces(c, d, ps[i], HomeSlot(env, ps[i]))
    ensures ImageCurrent(c, ps[j], HomeImage(env, ps[j])) ==>
              (ImageCurrent(d, ps[j], HomeImage(env, ps[j])) <==> !Starved(env, c, ps[i], ps[j]))
    ensures Starved(env, c, ps[i], ps[j]) ==> ImageCurrent(c, ps[j], HomeImage(env, ps[j]))
  {
    Apart(env, ps, live, i, j);
    var image, home := HomeImage(env, ps[j]), HomeImage(env, ps[i]);
    hide Steady, HomeImage, PlacementCurrent;
    if image != home {
      assert d.sources == c.sources[ps[i].key := home];
      assert Referenced(d, image) <==> exists k | k in c.sources :: k != ps[i].key && c.sources[k] == image by {
        if k :| k in c.sources && k != ps[i].key && c.sources[k] == image {
          assert k in d.sources && d.sources[k] == image;
        }
        if Referenced(d, image) {
          var k :| k in d.sources && d.sources[k] == image;
          assert k != ps[i].key && k in c.sources && c.sources[k] == image;
        }
      }
    }
  }

  // --- Exactly when a call is done without showing the scene ---

  ghost predicate AllShown(env: Env, c: Cache, ps: seq<Placement>) {
    forall p | p in ps :: !Mover(env, c, p)
  }

  /** Some other placement has something to do, and the k-th in order starves every such placement. */
  ghost predicate StarvesOthers(env: Env, c: Cache, ps: seq<Placement>, start: nat, k: nat)
    requires k < |ps|
  {
    && (exists j :: 0 <= j < |ps| && j != k && Mover(env, c, At(ps, start, j)))
    && (forall j | 0 <= j < |ps| && j != k && Mover(env, c, At(ps, start, j)) ::
          Starved(env, c, At(ps, start, k), At(ps, start, j)))
  }

  /**
   The call deletes nothing first, and the first placement in its order with something to do leaves, as the
   only one using it, the image that all the others with something to do are waiting for.
   */
  ghost predicate Starves(env: Env, c: Cache, ps: seq<Placement>, live: set<SourceKey>) {
    var s := Deletions(c, HomeSlots(env, ps), DesiredKeys(ps), live);
    && !s.stopped && !s.emitted
    && exists k :: 0 <= k < |ps| && FirstMover(env, s.cache, ps, StartIndex(c, ps), k)
                   && StarvesOthers(env, s.cache, ps, StartIndex(c, ps), k)
  }

  lemma {:induction false} EveryIndex(ps: seq<Placement>, start: nat, p: Placement) returns (k: nat)
    requires p in ps && start < |ps|
    ensures k < |ps| && At(ps, start, k) == p
  {
    var i :| 0 <= i < |ps| && ps[i] == p;
    k := OffsetOf(|ps|, start, i);
  }

  lemma {:induction false} NoMoverAllShown(env: Env, c: Cache, ps: seq<Placement>, start: nat)
    requires ps != [] ==> start < |ps|
    requires forall j | 0 <= j < |ps| :: !Mover(env, c, At(ps, start, j))
    ensures AllShown(env, c, ps)
  {
    hide Mover, At;
    forall p | p in ps ensures !Mover(env, c, p) {
      var k := EveryIndex(ps, start, p);
    }
  }

  lemma {:induction false} DifferentOffsets(n: nat, start: nat, j: nat, k: nat)
    requires start < n && j < n && k < n && j != k
    ensures (start + j) % n != (start + k) % n
  {
    Wrap(n, start + j);
    Wrap(n, start + k);
  }

  /** After the first mover was served: whether the call stops, and whether all is shown. */
  lemma {:induction false} FirstServed(env: Env, c: Cache, d: Cache, ps: seq<Placement>, live: set<SourceKey>, start: nat, k: nat)
    requires Steady(env, ps, live) && Good(env, c, ps) && MatchingIsMapped(env, c, ps) && Elides(env, c, ps)
    requires start < |ps| && FirstMover(env, c, ps, start, k) && Served(env, c, d, ps, live, At(ps, start, k))
    ensures (exists j :: k < j < |ps| && Blocks(env, d, At(ps, start, j))) <==>
            exists j :: 0 <= j < |ps| && j != k && Mover(env, c, At(ps, start, j))
                        && !Starved(env, c, At(ps, start, k), At(ps, start, j))
    ensures AllShown(env, d, ps) <==> forall j | 0 <= j < |ps| && j != k :: !Mover(env, c, At(ps, start, j))
  {
    var i := (start + k) % |ps|;
    forall j | 0 <= j < |ps| && j != k
      ensures Mover(env, d, At(ps, start, j)) <==> Mover(env, c, At(ps, start, j))
      ensures Blocks(env, d, At(ps, start, j)) <==>
              Mover(env, c, At(ps, start, j)) && !Starved(env, c, At(ps, start, k), At(ps, start, j))
      ensures At(ps, start, j) in ps
    {
      DifferentOffsets(|ps|, start, j, k);
      var m := (start + j) % |ps|;
      assert ps[m] in ps;
      OthersAfter(env, c, d, ps, live, i, m);
    }
    assert !Mover(env, d, At(ps, start, k)) && At(ps, start, k) in ps by { ServedIsCurrent(env, c, d, ps, live, At(ps, start, k)); }
    hide *;
    FirstServedMeans(env, c, d, ps, start, k);
  }

  lemma {:induction false} FirstServedMeans(env: Env, c: Cache, d: Cache, ps: seq<Placement>, start: nat, k: nat)
    requires start < |ps| && FirstMover(env, c, ps, start, k) && !Mover(env, d, At(ps, start, k))
    requires forall j | 0 <= j < |ps| && j != k ::
               && At(ps, start, j) in ps
               && (Mover(env, d, At(ps, start, j)) <==> Mover(env, c, At(ps, start, j)))
               && (Blocks(env, d, At(ps, start, j)) <==>
                     Mover(env, c, At(ps, start, j)) && !Starved(env, c, At(ps, start, k), At(ps, start, j)))
    ensures (exists j :: k < j < |ps| && Blocks(env, d, At(ps, start, j))) <==>
            exists j :: 0 <= j < |ps| && j != k && Mover(env, c, At(ps, start, j))
                        && !Starved(env, c, At(ps, start, k), At(ps, start, j))
    ensures AllShown(env, d, ps) <==> forall j | 0 <= j < |ps| && j != k :: !Mover(env, c, At(ps, start, j))
  {
    hide Blocks, Mover, Starved, At;
    if forall j | 0 <= j < |ps| && j != k :: !Mover(env, c, At(ps, start, j)) {
      NoMoverAllShown(env, d, ps, start);
    }
  }

  lemma {:induction false} ServedIsCurrent(env: Env, c: Cache, d: Cache, ps: seq<Placement>, live: set<SourceKey>, q: Placement)
    requires Served(env, c, d, ps, live, q)
    ensures !Mover(env, d, q)
  {
    hide Good, AllKept, MatchingIsMapped;
  }

  lemma {:induction false} StarvedIsLost(env: Env, c: Cache, d: Cache, ps: seq<Placement>, live: set<SourceKey>, start: nat, k: nat, j: nat)
    requires Steady(env, ps, live) && start < |ps| && k < |ps| && j < |ps| && j != k
    requires Served(env, c, d, ps, live, At(ps, start, k)) && Mover(env, c, At(ps, start, j))
    requires Starved(env, c, At(ps, start, k), At(ps, start, j))
    ensures Mover(env, Settle(d), At(ps, start, j))
  {
    DifferentOffsets(|ps|, start, j, k);
    ImageAfter(env, c, d, ps, live, (start + k) % |ps|, (start + j) % |ps|);
    hide Steady, Good, MatchingIsMapped, Replaces, HomeImage, HomeSlot, Starved;
  }

  lemma {:induction false} ShownSettles(env: Env, c: Cache, d: Cache, ps: seq<Placement>)
    requires AllShown(env, c, ps) && SameRecorded(c, d)
    ensures AllShown(env, Settle(d), ps)
  {
    hide HomeImage, HomeSlot;
  }

  lemma {:induction false} MoverBlocks(env: Env, c: Cache, ps: seq<Placement>)
    requires Elides(env, c, ps)
    ensures forall p | p in ps && Mover(env, c, p) :: Blocks(env, c, p)
  {
    hide HomeImage;
  }

  lemma {:induction false} StillElides(env: Env, c: Cache, d: Cache, ps: seq<Placement>)
    requires Elides(env, c, ps) && SameForScene(env, c, d, ps)
    ensures Elides(env, d, ps)
  {
    hide HomeImage, HomeSlot;
  }

  lemma {:induction false} AtIsMember(ps: seq<Placement>, start: nat, k: nat)
    requires ps != []
    ensures At(ps, start, k) in ps
  {
  }

  /** The placement pass after deletion phases that emitted a deletion: done only if all is shown. */
  lemma {:induction false} PassAfterDeletion(env: Env, s: Pass, ps: seq<Placement>, live: set<SourceKey>, start: nat)
    requires Steady(env, ps, live) && Good(env, s.cache, ps) && AllKept(s.cache, ps, live)
    requires MatchingIsMapped(env, s.cache, ps) && Elides(env, s.cache, ps) && !s.stopped && s.emitted
    requires ps != [] ==> start < |ps|
    ensures var r := Serve(env, s, ps, start, 0, None);
            SameRecorded(s.cache, r.cache) && (!r.stopped ==> AllShown(env, Settle(r.cache), ps))
  {
    hide *;
    ServeRest(env, s, ps, live, start, 0);
    var r := Serve(env, s, ps, start, 0, None);
    MoverBlocks(env, s.cache, ps);
    if !r.stopped {
      forall j | 0 <= j < |ps| ensures !Mover(env, s.cache, At(ps, start, j)) {
        AtIsMember(ps, start, j);
      }
      NoMoverAllShown(env, s.cache, ps, start);
      ShownSettles(env, s.cache, r.cache, ps);
    }
  }

  /** The placement pass when nothing was deleted: done without showing all exactly when the first mover starves the rest. */
  lemma {:induction false} PassFromNothing(env: Env, s: Pass, ps: seq<Placement>, live: set<SourceKey>, start: nat)
    requires Steady(env, ps, live) && Good(env, s.cache, ps) && AllKept(s.cache, ps, live)
    requires MatchingIsMapped(env, s.cache, ps) && Elides(env, s.cache, ps) && !s.stopped && !s.emitted
    requires ps != [] ==> start < |ps|
    ensures var r := Serve(env, s, ps, start, 0, None);
            && ((!r.stopped && !AllShown(env, Settle(r.cache), ps)) <==>
                exists k :: 0 <= k < |ps| && FirstMover(env, s.cache, ps, start, k) && StarvesOthers(env, s.cache, ps, start, k))
            && (r.stopped ==> MatchingIsMapped(env, r.cache, ps) && r.cache.replay == s.cache.replay)
  {
    MoverBlocks(env, s.cache, ps);
    hide *;
    var r := Serve(env, s, ps, start, 0, None);
    var k, u, d := ServeFirst(env, s, ps, live, start, 0);
    if k == |ps| {
      NoMoverAllShown(env, s.cache, ps, start);
      ShownSettles(env, s.cache, r.cache, ps);
      NoFirstMover(env, s.cache, ps, start);
    } else {
      FirstMoverMeans(env, s.cache, ps, start, k);
      FirstServed(env, s.cache, d, ps, live, start, k);
      ServedGood(env, s.cache, d, ps, live, At(ps, start, k));
      SameRecordedState(env, d, r.cache, ps, live);
      ServedReplay(env, s.cache, d, r.cache, ps, live, At(ps, start, k));
      OnlyFirst(env, s.cache, ps, start, k);
      StarvesOthersMeans(env, s.cache, ps, start, k);
      if StarvesOthers(env, s.cache, ps, start, k) {
        var j :| 0 <= j < |ps| && j != k && Mover(env, s.cache, At(ps, start, j));
        StarvedIsLost(env, s.cache, d, ps, live, start, k, j);
        LostIsNotShown(env, d, r.cache, ps, start, j);
      } else if !r.stopped {
        ShownSettles(env, d, r.cache, ps);
      }
    }
  }

  lemma {:induction false} NoFirstMover(env: Env, c: Cache, ps: seq<Placement>, start: nat)
    requires forall j | 0 <= j < |ps| :: !Mover(env, c, At(ps, start, j))
    ensures forall k: nat :: !FirstMover(env, c, ps, start, k)
  {
    hide Mover, At;
  }

  lemma {:induction false} FirstMoverMeans(env: Env, c: Cache, ps: seq<Placement>, start: nat, k: nat)
    requires FirstMover(env, c, ps, start, k)
    ensures k < |ps| && Mover(env, c, At(ps, start, k))
  {
    hide Mover, At;
  }

  lemma {:induction false} OnlyFirst(env: Env, c: Cache, ps: seq<Placement>, start: nat, k: nat)
    requires FirstMover(env, c, ps, start, k)
    ensures forall m: nat :: FirstMover(env, c, ps, start, m) ==> m == k
  {
    hide Mover, At;
  }

  lemma {:induction false} StarvesOthersMeans(env: Env, c: Cache, ps: seq<Placement>, start: nat, k: nat)
    requires k < |ps|
    ensures StarvesOthers(env, c, ps, start, k) <==>
            && (exists j :: 0 <= j < |ps| && j != k && Mover(env, c, At(ps, start, j)))
            && (forall j | 0 <= j < |ps| && j != k && Mover(env, c, At(ps, start, j)) ::
                  Starved(env, c, At(ps, start, k), At(ps, start, j)))
  {
    hide Mover, At, Starved;
  }

  lemma {:induction false} LostIsNotShown(env: Env, d: Cache, e: Cache, ps: seq<Placement>, start: nat, j: nat)
    requires j < |ps| && SameRecorded(d, e) && Mover(env, Settle(d), At(ps, start, j))
    ensures !AllShown(env, Settle(e), ps)
  {
    AtIsMember(ps, start, j);
    hide HomeImage, HomeSlot, At;
  }

  lemma {:induction false} ServedReplay(env: Env, c: Cache, d: Cache, e: Cache, ps: seq<Placement>, live: set<SourceKey>, q: Placement)
    requires Served(env, c, d, ps, live, q) && SameRecorded(d, e)
    ensures e.replay == c.replay
  {
    hide Good, AllKept, MatchingIsMapped, HomeSlot;
  }

  lemma {:induction false} SameRecordedReplay(c: Cache, d: Cache)
    requires SameRecorded(c, d)
    ensures c.replay == d.replay
  {
  }

  /** The incremental call, told by its phases. */
  lemma {:induction false} CallMeans(env: Env, c: Cache, ps: seq<Placement>, live: set<SourceKey>)
    requires Steady(env, ps, live) && Good(env, c, ps)
    ensures var s := Deletions(c, HomeSlots(env, ps), DesiredKeys(ps), live);
            var served := Serve(env, s, ps, StartIndex(c, ps), 0, None);
            var r := Incremental(env, c, ps, live, None);
            if s.stopped then r.incomplete && r.cache == s.cache
            else if served.stopped then r.incomplete && r.cache == served.cache
            else !r.incomplete && r.cache == Settle(served.cache)
  {
    HomeSlotsAreDesired(env, c, ps);
    hide Deletions, Serve, StartIndex, HomeSlots, DesiredSlots, DesiredKeys, Steady, Good;
  }

  lemma {:induction false} AfterDeletions(env: Env, c: Cache, ps: seq<Placement>, live: set<SourceKey>)
    requires Steady(env, ps, live) && Good(env, c, ps) && MatchingIsMapped(env, c, ps) && Elides(env, c, ps)
    ensures var s := Deletions(c, HomeSlots(env, ps), DesiredKeys(ps), live);
            && Good(env, s.cache, ps) && MatchingIsMapped(env, s.cache, ps) && Elides(env, s.cache, ps)
            && SameForScene(env, c, s.cache, ps) && s.cache.replay == c.replay
            && (!s.stopped ==> AllKept(s.cache, ps, live))
  {
    var s := Deletions(c, HomeSlots(env, ps), DesiredKeys(ps), live);
    DeletionsProgress(env, c, ps, live);
    DeletionsSame(env, c, ps, live);
    DeletionsReplay(c, HomeSlots(env, ps), DesiredKeys(ps), live);
    hide Deletions, SameForScene, MatchingIsMapped, Elides, Steady, Good, AllKept;
    MappedThen(env, c, s.cache, ps);
    StillElides(env, c, s.cache, ps);
  }

  /**
   A call on a scene collected for it reports that it is done although not everything is shown if and only if
   the first placement with something to do starves all the others that have.
   */
  lemma {:induction false} CallExact(env: Env, c: Cache, ps: seq<Placement>, live: set<SourceKey>)
    requires Steady(env, ps, live) && Good(env, c, ps) && MatchingIsMapped(env, c, ps) && Elides(env, c, ps)
    ensures var r := Incremental(env, c, ps, live, None);
            && ((!r.incomplete && !AllShown(env, r.cache, ps)) <==> Starves(env, c, ps, live))
            && (r.incomplete ==> MatchingIsMapped(env, r.cache, ps) && r.cache.replay == c.replay)
  {
    var s := Deletions(c, HomeSlots(env, ps), DesiredKeys(ps), live);
    var start := StartIndex(c, ps);
    StarvesMeans(env, c, ps, live);
    hide *;
    StartInRange(c, ps);
    CallMeans(env, c, ps, live);
    AfterDeletions(env, c, ps, live);
    if s.stopped {
    } else if s.emitted {
      PassAfterDeletion(env, s, ps, live, start);
      var served := Serve(env, s, ps, start, 0, None);
      SameRecordedState(env, s.cache, served.cache, ps, live);
      SameRecordedReplay(s.cache, served.cache);
    } else {
      PassFromNothing(env, s, ps, live, start);
    }
  }

  lemma {:induction false} StartInRange(c: Cache, ps: seq<Placement>)
    ensures ps != [] ==> StartIndex(c, ps) < |ps|
  {
  }

  lemma {:induction false} StarvesMeans(env: Env, c: Cache, ps: seq<Placement>, live: set<SourceKey>)
    ensures var s := Deletions(c, HomeSlots(env, ps), DesiredKeys(ps), live);
            Starves(env, c, ps, live) <==>
              && !s.stopped && !s.emitted
              && exists k :: 0 <= k < |ps| && FirstMover(env, s.cache, ps, StartIndex(c, ps), k)
                             && StarvesOthers(env, s.cache, ps, StartIndex(c, ps), k)
  {
    hide Deletions, HomeSlots, DesiredKeys, StartIndex, FirstMover, StarvesOthers;
  }
}
