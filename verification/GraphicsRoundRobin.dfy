/**
 Fairness: with n visible pane layers and d pending deletions, a layer that is out of date is brought up
 to date within n + d incremental calls, whatever the other layers do between the calls.
 */
module GraphicsRoundRobin {
  import opened Common
  import opened HostGraphics
  import opened GraphicsStep
  import opened GraphicsAgreement
  import opened GraphicsDrain
  import opened GraphicsConvergence
  import opened GraphicsReplay

  /** The same visible pane layers in the same order, each with its own image id. */
  ghost predicate LayerScene(env: Env, ps: seq<Placement>, live: set<SourceKey>) {
    && AllWellFormed(env, ps)
    && (forall p | p in ps :: p.key.PaneLayer? && p.key in live && p.clip.Some?)
    && (forall i, j | 0 <= i < j < |ps| :: ps[i].key != ps[j].key)
  }

  /** Pixels are left out at most where the layer's image is there, as when the scene is collected. */
  ghost predicate Fed(env: Env, c: Cache, ps: seq<Placement>) {
    forall p | p in ps :: p.data != [] || ImageCurrent(c, p, HomeImage(env, p))
  }

  /** A layer alone uses its image, so an image that is there will stay. */
  lemma {:induction false} FedIsSupplied(env: Env, c: Cache, ps: seq<Placement>, live: set<SourceKey>)
    requires LayerScene(env, ps, live) && Inv(env, c) && Fed(env, c, ps)
    ensures Supplied(env, c, ps, None)
  {
    forall p, q | p in ps && q in ps && p.key == q.key ensures HomeImage(env, p) == HomeImage(env, q) {
      var i :| 0 <= i < |ps| && ps[i] == p;
      var j :| 0 <= j < |ps| && ps[j] == q;
      OneLayerOneIndex(env, ps, live, i, j);
    }
    forall p | p in ps && ImageCurrent(c, p, HomeImage(env, p)) ensures Anchored(env, c, ps, p) {
      forall q | q in ps && Maps(c, q.key, HomeImage(env, p)) ensures q.key == p.key {
        assert WellFormed(env, p) && Belongs(env, q.key, HomeImage(env, p));
      }
      hide HomeImage;
    }
  }

  /** Two scenes ask for the same layers; content and geometry may differ. */
  ghost predicate SameLayers(ps: seq<Placement>, qs: seq<Placement>) {
    |ps| == |qs| && forall i | 0 <= i < |ps| :: ps[i].key == qs[i].key && ps[i].hostImage == qs[i].hostImage
  }

  lemma {:induction false} LayerSceneIsSteady(env: Env, c: Cache, ps: seq<Placement>, live: set<SourceKey>)
    requires LayerScene(env, ps, live) && Inv(env, c)
    ensures Steady(env, ps, live) && Good(env, c, ps)
  {
    forall i, j | 0 <= i < |ps| && 0 <= j < |ps| && i != j
      ensures HomeImage(env, ps[i]) != HomeImage(env, ps[j]) && Source(ps[i]) != Source(ps[j])
    {
      assert ps[i] in ps && ps[j] in ps;
      if i < j { assert ps[i].key != ps[j].key; } else { assert ps[j].key != ps[i].key; }
    }
  }

  /** The pending deletions: dead sources, orphan images, stale placements. */
  function Chores(env: Env, c: Cache, ps: seq<Placement>, live: set<SourceKey>): (w: set<Task>)
    ensures forall task :: task in w <==> Pending(env, c, ps, live, task) && !task.Show?
  {
    set task | task in Work(env, c, ps, live) && !task.Show?
  }

  lemma {:induction false} SameLayersSameChores(env: Env, c: Cache, ps: seq<Placement>, qs: seq<Placement>, live: set<SourceKey>)
    requires LayerScene(env, ps, live) && LayerScene(env, qs, live) && SameLayers(ps, qs)
    ensures Chores(env, c, ps, live) == Chores(env, c, qs, live)
  {
    assert DesiredKeys(ps) == DesiredKeys(qs) by {
      forall k | k in DesiredKeys(qs) ensures k in DesiredKeys(ps) {
        var i :| 0 <= i < |qs| && qs[i].key == k;
        assert ps[i].key == k;
      }
      forall k | k in DesiredKeys(ps) ensures k in DesiredKeys(qs) {
        var i :| 0 <= i < |ps| && ps[i].key == k;
        assert qs[i].key == k;
      }
    }
    assert HomeSlots(env, ps) == HomeSlots(env, qs) by {
      forall i | 0 <= i < |ps| ensures HomeSlot(env, ps[i]) == HomeSlot(env, qs[i]) && ps[i].clip.Some? && qs[i].clip.Some? {
        assert ps[i] in ps && qs[i] in qs;
      }
      hide HomeSlot;
      forall s | s in HomeSlots(env, qs) ensures s in HomeSlots(env, ps) {
        var i :| 0 <= i < |qs| && qs[i].clip.Some? && HomeSlot(env, qs[i]) == s;
        assert HomeSlot(env, ps[i]) == s;
      }
      forall s | s in HomeSlots(env, ps) ensures s in HomeSlots(env, qs) {
        var i :| 0 <= i < |ps| && ps[i].clip.Some? && HomeSlot(env, ps[i]) == s;
        assert HomeSlot(env, qs[i]) == s;
      }
    }
    hide HomeSlots, DesiredKeys;
    forall task: Task | !task.Show? ensures Pending(env, c, ps, live, task) <==> Pending(env, c, qs, live, task) {
      PendingElsewhere(env, c, ps, qs, live, task);
      PendingElsewhere(env, c, qs, ps, live, task);
    }
    hide Pending, Chores;
    assert forall task :: task in Chores(env, c, ps, live) <==> task in Chores(env, c, qs, live);
  }

  lemma {:induction false} PendingElsewhere(env: Env, c: Cache, ps: seq<Placement>, qs: seq<Placement>, live: set<SourceKey>, task: Task)
    requires DesiredKeys(ps) == DesiredKeys(qs) && HomeSlots(env, ps) == HomeSlots(env, qs) && !task.Show?
    ensures Pending(env, c, qs, live, task) ==> Pending(env, c, ps, live, task)
  {
    hide HomeSlots, DesiredKeys;
    match task
    case DropOrphan(image) =>
      if KeptReference(c, ps, live, image) {
        var k :| k in c.sources && Kept(ps, live, k) && c.sources[k] == image;
        assert Kept(qs, live, k);
      }
    case _ =>
  }

  /** How many layers the pass looks at before it reaches index j. */
  function Distance(n: nat, start: nat, j: nat): (d: nat)
    requires start < n && j < n
    ensures d < n && (start + d) % n == j
  {
    Wrap(n, j);
    Wrap(n, j + n);
    if start <= j then j - start else j + n - start
  }

  /** Where the cycle goes on after its k-th layer. */
  function IndexAfter(n: nat, start: nat, k: nat): (i: nat)
    requires n > 0
    ensures i < n
  {
    ((start + k) % n + 1) % n
  }

  /** The next call will resume right after the placement at this cyclic position. */
  predicate ResumesAfter(c: Cache, ps: seq<Placement>, start: nat, k: nat)
    requires ps != []
  {
    var index := (start + k) % |ps|;
    c.continuation == Some(Cursor(Source(ps[index]), (index + 1) % |ps|))
  }

  /** Where the pass stops first: at j, or at an earlier layer after which it will resume. */
  ghost predicate ServedOrCloser(env: Env, c: Cache, ps: seq<Placement>, start: nat, from: nat, j: nat)
    requires start < |ps| && j < |ps| && ps[j].clip.Some?
  {
    Current(env, c, ps[j])
    || exists k: nat :: from <= k < Distance(|ps|, start, j) && ResumesAfter(c, ps, start, k)
  }

  /** Once something was emitted the rest of the pass leaves the resume point alone. */
  lemma {:induction false} ServeOneKeepsCursor(env: Env, s: Pass, ps: seq<Placement>, index: nat)
    requires index < |ps|
    ensures var r := ServeOne(env, s, ps, index, None);
            if s.emitted || !r.emitted then r.emitted == s.emitted && r.cache.continuation == s.cache.continuation
            else r.cache.continuation == Some(Cursor(Source(ps[index]), (index + 1) % |ps|))
  {
    var c1 := s.cache.(oversized := s.cache.oversized - {ps[index].key});
    UpdateKeepsCursor(env, c1, ps[index]);
    CommitKeepsCursor(s, c1, Cursor(Source(ps[index]), (index + 1) % |ps|), Update(env, c1, ps[index]));
    hide Update, ResolveImage, ImageCurrent, TransactionFits, Commit;
  }

  lemma {:induction false} CommitKeepsCursor(s: Pass, c: Cache, cursor: Cursor, update: Option<Delta>)
    requires c.continuation == s.cache.continuation
    requires update.Some? ==> update.value.cache.continuation == c.continuation
    ensures var r := Commit(s, c, cursor, update);
            if s.emitted || !r.emitted then r.emitted == s.emitted && r.cache.continuation == s.cache.continuation
            else r.cache.continuation == Some(cursor)
  {
  }

  lemma {:induction false} UpdateKeepsCursor(env: Env, c: Cache, p: Placement)
    ensures Update(env, c, p).Some? ==> Update(env, c, p).value.cache.continuation == c.continuation
  {
  }

  lemma {:induction false} ServeEmittedKeepsCursor(env: Env, s: Pass, ps: seq<Placement>, start: nat, offset: nat)
    requires offset <= |ps| && s.emitted
    ensures Serve(env, s, ps, start, offset, None).cache.continuation == s.cache.continuation
    decreases |ps| - offset
  {
    hide ServeOne;
    if offset < |ps| {
      ServeOneKeepsCursor(env, s, ps, (start + offset) % |ps|);
      var next := ServeOne(env, s, ps, (start + offset) % |ps|, None);
      if !next.stopped {
        ServeEmittedKeepsCursor(env, next, ps, start, offset + 1);
      }
    }
  }

  /** From a pass that has emitted nothing yet, layer j is served or the resume point moves closer to it. */
  lemma {:induction false} ServeReaches(
    env: Env, c: Cache, s: Pass, ps: seq<Placement>, live: set<SourceKey>, start: nat, offset: nat, j: nat)
    requires LayerScene(env, ps, live) && Steady(env, ps, live)
    requires start < |ps| && j < |ps| && ps[j].clip.Some? && offset <= Distance(|ps|, start, j)
    requires Progress(env, c, s, ps, live) && Tidy(env, s.cache, ps, live) && !s.stopped && !s.emitted
    requires Supplied(env, s.cache, ps, None)
    ensures ServedOrCloser(env, Serve(env, s, ps, start, offset, None).cache, ps, start, offset, j)
    decreases |ps| - offset
  {
    hide ServeOne, Steady, Removes, Current, Tidy, Pending, Good, LayerScene, Progress, Supplied, Servable;
    var index := (start + offset) % |ps|;
    var next := ServeOne(env, s, ps, index, None);
    var r := Serve(env, s, ps, start, offset, None);
    ServeOneProgress(env, c, s, ps, live, index, None);
    StaysFed(env, c, s, ps, live, index);
    ServeOneKeepsCursor(env, s, ps, index);
    NotStopped(env, s, ps, index);
    if next.emitted && offset < Distance(|ps|, start, j) {
      ServeEmittedKeepsCursor(env, next, ps, start, offset + 1);
      assert ResumesAfter(r.cache, ps, start, offset);
    } else if offset == Distance(|ps|, start, j) {
      ServeProgress(env, c, next, ps, live, start, offset + 1, None);
      ShowStays(env, next.cache, r.cache, ps, live, j);
    } else {
      ServeReaches(env, c, next, ps, live, start, offset + 1, j);
      assert r == Serve(env, next, ps, start, offset + 1, None);
    }
  }

  /** Serving one layer: it could be served, and the scene stays supplied. */
  lemma {:induction false} StaysFed(env: Env, c: Cache, s: Pass, ps: seq<Placement>, live: set<SourceKey>, index: nat)
    requires LayerScene(env, ps, live) && Steady(env, ps, live) && index < |ps|
    requires Progress(env, c, s, ps, live) && Tidy(env, s.cache, ps, live) && !s.stopped
    requires Supplied(env, s.cache, ps, None)
    ensures Servable(env, s.cache, ps[index], None)
    ensures Supplied(env, ServeOne(env, s, ps, index, None).cache, ps, None)
  {
    GoodOf(env, c, s, ps, live);
    ServeOneSettles(env, s, ps, live, index, None);
    assert ps[index] in ps;
    SuppliedMeans(env, s.cache, ps, ps[index], None);
    hide ServeOne, Steady, Good, Supplied, HomeImage, Progress;
  }

  lemma {:induction false} NotStopped(env: Env, s: Pass, ps: seq<Placement>, index: nat)
    requires index < |ps| && !s.emitted && !s.stopped
    ensures !ServeOne(env, s, ps, index, None).stopped
  {
    hide Update;
  }

  lemma {:induction false} ShowStays(env: Env, c: Cache, c': Cache, ps: seq<Placement>, live: set<SourceKey>, j: nat)
    requires j < |ps| && ps[j].clip.Some? && Current(env, c, ps[j]) && Shrinks(env, c, c', ps, live)
    ensures Current(env, c', ps[j])
  {
    hide Good;
    assert !Pending(env, c, ps, live, Show(j));
    assert !Pending(env, c', ps, live, Show(j));
  }

  // --- One call ---

  /** With nothing to delete the deletion phases emit nothing and drop no record but unwanted terminal sources. */
  lemma {:induction false} NoChores(env: Env, c: Cache, ps: seq<Placement>, live: set<SourceKey>)
    requires Steady(env, ps, live) && Good(env, c, ps) && Chores(env, c, ps, live) == {}
    ensures var s := Deletions(c, HomeSlots(env, ps), DesiredKeys(ps), live);
            && s == Pass(Prune(c, DesiredKeys(ps), live), [], false, false, false)
            && Tidy(env, s.cache, ps, live) && Shrinks(env, c, s.cache, ps, live)
  {
    var slots := HomeSlots(env, ps);
    var images := DesiredImages(slots);
    NoPending(env, c, ps, live);
    forall k ensures k !in DeadSources(c, live) {
      assert !Pending(env, c, ps, live, DropSource(k));
    }
    var c1 := Prune(c, DesiredKeys(ps), live);
    forall id ensures id !in OrphanImages(c1, live, images) {
      assert !Pending(env, c, ps, live, DropOrphan(id));
      if k :| k in c.sources && Kept(ps, live, k) && c.sources[k] == id {
        assert c1.sources[k] == id;
      }
    }
    forall x ensures x !in StaleSlots(c1, slots) {
      assert !Pending(env, c, ps, live, DropStale(x));
    }
    assert DeadSources(c, live) == {} && OrphanImages(c1, live, images) == {} && StaleSlots(c1, slots) == {};
    PruneShrinks(env, c, ps, live);
    PrunedTidy(env, c, c1, ps, live);
  }

  lemma {:induction false} NoPending(env: Env, c: Cache, ps: seq<Placement>, live: set<SourceKey>)
    requires Chores(env, c, ps, live) == {}
    ensures forall task | Pending(env, c, ps, live, task) :: task.Show?
  {
    hide Pending;
    forall task | Pending(env, c, ps, live, task) ensures task.Show? {
      assert task !in Chores(env, c, ps, live);
    }
  }

  lemma {:induction false} PrunedTidy(env: Env, c: Cache, d: Cache, ps: seq<Placement>, live: set<SourceKey>)
    requires forall task | Pending(env, c, ps, live, task) :: task.Show?
    requires Shrinks(env, c, d, ps, live) && AllKept(d, ps, live)
    ensures Tidy(env, d, ps, live)
  {
    hide Pending, Good;
  }

  /** A call with deletions pending leaves fewer, or nothing but placements to show. */
  lemma {:induction false} ChoresShrink(env: Env, c: Cache, ps: seq<Placement>, live: set<SourceKey>)
    requires LayerScene(env, ps, live) && Inv(env, c) && Chores(env, c, ps, live) != {}
    ensures var r := Incremental(env, c, ps, live, None).cache;
            Inv(env, r) && |Chores(env, r, ps, live)| < |Chores(env, c, ps, live)|
  {
    LayerSceneIsSteady(env, c, ps, live);
    HomeSlotsAreDesired(env, c, ps);
    DeletionsProgress(env, c, ps, live);
    var s := Deletions(c, HomeSlots(env, ps), DesiredKeys(ps), live);
    var r := Incremental(env, c, ps, live, None);
    IncrementalProgress(env, c, ps, live, None);
    hide Deletions, Serve, Steady, HomeSlots, DesiredSlots, ResolveSlot, DesiredKeys, Pending, Inv, Unobstructed, Chores,
         LayerScene, StartIndex, Removes, Shrinks, Tidy;
    if s.stopped {
      assert r.cache == s.cache;
      FewerChores(env, c, s, ps, live);
    } else {
      ServeProgress(env, c, s, ps, live, StartIndex(c, ps), 0, None);
      var served := Serve(env, s, ps, StartIndex(c, ps), 0, None);
      GoodOf(env, c, served, ps, live);
      SettleFinishes(env, served.cache, ps, live);
      assert r.cache == if served.stopped then served.cache else Settle(served.cache);
      TidyHasNoChores(env, r.cache, ps, live);
    }
  }

  lemma {:induction false} TidyHasNoChores(env: Env, c: Cache, ps: seq<Placement>, live: set<SourceKey>)
    requires Tidy(env, c, ps, live)
    ensures Chores(env, c, ps, live) == {}
  {
    hide Pending, AllKept;
  }

  lemma {:induction false} FewerChores(env: Env, c: Cache, s: Pass, ps: seq<Placement>, live: set<SourceKey>)
    requires Steady(env, ps, live) && Good(env, c, ps)
    requires s == Deletions(c, HomeSlots(env, ps), DesiredKeys(ps), live) && s.stopped
    requires Progress(env, c, s, ps, live)
    ensures |Chores(env, s.cache, ps, live)| < |Chores(env, c, ps, live)|
  {
    var task := RemovedTask(env, c, s, ps, live);
    if task.Show? {
      ShownByNoDeletion(env, c, ps, live, task.index);
    }
    hide Deletions, Pending, Steady, Good, HomeSlots, DesiredKeys, Removes;
    var before, after := Chores(env, c, ps, live), Chores(env, s.cache, ps, live);
    assert task in before && task !in after && after <= before;
    SmallerSize(after, before);
  }

  lemma {:induction false} RemovedTask(env: Env, c: Cache, s: Pass, ps: seq<Placement>, live: set<SourceKey>) returns (task: Task)
    requires Progress(env, c, s, ps, live) && s.stopped
    ensures Pending(env, c, ps, live, task) && !Pending(env, s.cache, ps, live, task)
  {
    hide Pending, Shrinks;
    task :| Pending(env, c, ps, live, task) && !Pending(env, s.cache, ps, live, task);
  }

  /** The deletion phases bring no placement up to date. */
  lemma {:induction false} ShownByNoDeletion(env: Env, c: Cache, ps: seq<Placement>, live: set<SourceKey>, i: nat)
    requires Steady(env, ps, live) && Pending(env, c, ps, live, Show(i))
    ensures Pending(env, Deletions(c, HomeSlots(env, ps), DesiredKeys(ps), live).cache, ps, live, Show(i))
  {
    assert ps[i] in ps;
    DeletionsSame(env, c, ps, live);
    DeletionsReplay(c, HomeSlots(env, ps), DesiredKeys(ps), live);
    hide Deletions, HomeSlots, DesiredKeys, HomeImage, HomeSlot, Steady;
  }

  /** One call serves layer j, or resumes strictly closer to it next time; deletions stay unnecessary. */
  lemma {:induction false} CallReaches(env: Env, c: Cache, ps: seq<Placement>, live: set<SourceKey>, j: nat)
    requires LayerScene(env, ps, live) && Inv(env, c) && Chores(env, c, ps, live) == {} && Fed(env, c, ps)
    requires j < |ps| && ps[j].clip.Some?
    ensures var r := Incremental(env, c, ps, live, None).cache;
            && Inv(env, r) && Tidy(env, r, ps, live)
            && ServedOrCloser(env, r, ps, StartIndex(c, ps), 0, j)
  {
    var s := Deletions(c, HomeSlots(env, ps), DesiredKeys(ps), live);
    var start := StartIndex(c, ps);
    LayerSceneIsSteady(env, c, ps, live);
    HomeSlotsAreDesired(env, c, ps);
    PassBegins(env, c, ps, live);
    hide Deletions, Serve, Steady, HomeSlots, DesiredSlots, ResolveSlot, DesiredKeys, Pending, Inv, Unobstructed,
         Current, ServeOne, LayerScene, StartIndex, ServedOrCloser, Removes, Supplied, Fed, Chores, Shrinks, Tidy, Progress;
    ServeReaches(env, c, s, ps, live, start, 0, j);
    ServeProgress(env, c, s, ps, live, start, 0, None);
    var served := Serve(env, s, ps, start, 0, None);
    GoodOf(env, c, served, ps, live);
    if !served.stopped {
      SettleIsHarmless(env, served.cache, ps, live, start, j);
    }
  }

  /** With nothing to delete the placement pass begins with nothing emitted and every layer supplied. */
  lemma {:induction false} PassBegins(env: Env, c: Cache, ps: seq<Placement>, live: set<SourceKey>)
    requires LayerScene(env, ps, live) && Inv(env, c) && Chores(env, c, ps, live) == {} && Fed(env, c, ps)
    ensures var s := Deletions(c, HomeSlots(env, ps), DesiredKeys(ps), live);
            && Progress(env, c, s, ps, live) && Tidy(env, s.cache, ps, live) && !s.stopped && !s.emitted
            && Supplied(env, s.cache, ps, None)
  {
    LayerSceneIsSteady(env, c, ps, live);
    NoChores(env, c, ps, live);
    FedIsSupplied(env, c, ps, live);
    DeletionsSame(env, c, ps, live);
    hide Deletions, HomeSlots, DesiredKeys, Prune, Shrinks, Removes, Tidy, Supplied, SameForScene, Good, Steady, Chores;
    StaysSupplied(env, c, Deletions(c, HomeSlots(env, ps), DesiredKeys(ps), live).cache, ps, None);
  }

  lemma {:induction false} SettleIsHarmless(env: Env, c: Cache, ps: seq<Placement>, live: set<SourceKey>, start: nat, j: nat)
    requires Good(env, c, ps) && Tidy(env, c, ps, live) && start < |ps| && j < |ps| && ps[j].clip.Some?
    requires ServedOrCloser(env, c, ps, start, 0, j)
    ensures Good(env, Settle(c), ps) && Tidy(env, Settle(c), ps, live)
    ensures ServedOrCloser(env, Settle(c), ps, start, 0, j)
  {
    SameWork(env, c, Settle(c), ps, live);
    TidyThen(env, c, Settle(c), ps, live);
    if !Current(env, c, ps[j]) {
      var k: nat :| k < Distance(|ps|, start, j) && ResumesAfter(c, ps, start, k);
      assert ResumesAfter(Settle(c), ps, start, k);
    }
  }

  lemma {:induction false} OneLayerOneIndex(env: Env, ps: seq<Placement>, live: set<SourceKey>, i: nat, j: nat)
    requires LayerScene(env, ps, live) && i < |ps| && j < |ps|
    ensures ps[i].key == ps[j].key ==> i == j
  {
  }

  /** The next call starts right after the layer served last. */
  lemma {:induction false} StartsAfter(env: Env, c: Cache, ps: seq<Placement>, qs: seq<Placement>, live: set<SourceKey>, start: nat, k: nat)
    requires LayerScene(env, ps, live) && LayerScene(env, qs, live) && SameLayers(ps, qs) && ps != []
    requires ResumesAfter(c, ps, start, k)
    ensures StartIndex(c, qs) == IndexAfter(|qs|, start, k)
  {
    var index := (start + k) % |ps|;
    var found := IndexOf(qs, Source(ps[index]));
    assert ps[index] in ps && qs[index] in qs;
    assert Source(qs[index]) == Source(ps[index]);
    assert found.Some?;
    OneLayerOneIndex(env, qs, live, found.value, index);
  }

  lemma {:induction false} NextCallIsCloser(
    env: Env, c: Cache, ps: seq<Placement>, qs: seq<Placement>, live: set<SourceKey>, start: nat, j: nat)
    requires LayerScene(env, ps, live) && LayerScene(env, qs, live) && SameLayers(ps, qs)
    requires start < |ps| && j < |ps| && ServedOrCloser(env, c, ps, start, 0, j) && !Current(env, c, ps[j])
    ensures Distance(|qs|, StartIndex(c, qs), j) < Distance(|ps|, start, j)
  {
    hide Current;
    var m: nat :| m < Distance(|ps|, start, j) && ResumesAfter(c, ps, start, m);
    StartsAfter(env, c, ps, qs, live, start, m);
    Closer(|ps|, start, m, j);
    hide IndexAfter, Distance, StartIndex, LayerScene;
  }

  /** The cache after the calls for scenes 0 .. k. */
  function CacheAfter(env: Env, c: Cache, scenes: seq<seq<Placement>>, live: set<SourceKey>, k: nat): Cache
    requires k <= |scenes|
  {
    if k == 0 then c else Incremental(env, CacheAfter(env, c, scenes, live, k - 1), scenes[k - 1], live, None).cache
  }

  lemma {:induction false} CacheAfterTail(
    env: Env, c: Cache, scenes: seq<seq<Placement>>, live: set<SourceKey>, k: nat)
    requires 1 <= k <= |scenes|
    ensures CacheAfter(env, c, scenes, live, k)
         == CacheAfter(env, Incremental(env, c, scenes[0], live, None).cache, scenes[1..], live, k - 1)
    decreases k
  {
    hide Incremental;
    if k > 1 {
      CacheAfterTail(env, c, scenes, live, k - 1);
    }
  }

  ghost predicate AllLayerScenes(env: Env, scenes: seq<seq<Placement>>, live: set<SourceKey>) {
    && (forall ps | ps in scenes :: LayerScene(env, ps, live))
    && (forall ps, qs | ps in scenes && qs in scenes :: SameLayers(ps, qs))
  }

  /** Every call is made with a scene collected for the cache it finds. */
  ghost predicate AllFed(env: Env, c: Cache, scenes: seq<seq<Placement>>, live: set<SourceKey>) {
    forall k | 0 <= k < |scenes| :: Fed(env, CacheAfter(env, c, scenes, live, k), scenes[k])
  }

  lemma {:induction false} TailFed(env: Env, c: Cache, scenes: seq<seq<Placement>>, live: set<SourceKey>)
    requires scenes != [] && AllFed(env, c, scenes, live)
    ensures Fed(env, c, scenes[0])
    ensures AllFed(env, Incremental(env, c, scenes[0], live, None).cache, scenes[1..], live)
  {
    hide Incremental, Fed;
    assert CacheAfter(env, c, scenes, live, 0) == c;
    var d := Incremental(env, c, scenes[0], live, None).cache;
    forall k | 0 <= k < |scenes[1..]| ensures Fed(env, CacheAfter(env, d, scenes[1..], live, k), scenes[1..][k]) {
      CacheAfterTail(env, c, scenes, live, k + 1);
      assert Fed(env, CacheAfter(env, c, scenes, live, k + 1), scenes[k + 1]);
    }
  }

  lemma {:induction false} ServedWithinDistance(
    env: Env, c: Cache, scenes: seq<seq<Placement>>, live: set<SourceKey>, j: nat)
    returns (k: nat)
    requires scenes != [] && AllLayerScenes(env, scenes, live)
    requires Inv(env, c) && Chores(env, c, scenes[0], live) == {} && AllFed(env, c, scenes, live) && j < |scenes[0]|
    requires Distance(|scenes[0]|, StartIndex(c, scenes[0]), j) < |scenes|
    ensures k < |scenes| && |scenes[k]| == |scenes[0]| && scenes[k][j].clip.Some?
    ensures Current(env, CacheAfter(env, c, scenes, live, k + 1), scenes[k][j])
    decreases |scenes|
  {
    hide Incremental, Inv, Tidy, Current, AllFed, Fed, Chores;
    TailFed(env, c, scenes, live);
    var ps := scenes[0];
    assert LayerScene(env, ps, live) && ps[j] in ps;
    CallReaches(env, c, ps, live, j);
    var r := Incremental(env, c, ps, live, None).cache;
    CacheAfterTail(env, c, scenes, live, 1);
    if Current(env, r, ps[j]) {
      k := 0;
    } else {
      var rest := scenes[1..];
      TailScenes(env, scenes, live);
      TidyHasNoChores(env, r, ps, live);
      SameLayersSameChores(env, r, ps, rest[0], live);
      NextCallIsCloser(env, r, ps, rest[0], live, StartIndex(c, ps), j);
      hide LayerScene, SameLayers, Distance, StartIndex, ServedOrCloser;
      var i := ServedWithinDistance(env, r, rest, live, j);
      k := i + 1;
      CacheAfterTail(env, c, scenes, live, k + 1);
    }
  }

  lemma {:induction false} TailScenes(env: Env, scenes: seq<seq<Placement>>, live: set<SourceKey>)
    requires |scenes| > 1 && AllLayerScenes(env, scenes, live)
    ensures AllLayerScenes(env, scenes[1..], live)
    ensures LayerScene(env, scenes[1], live) && SameLayers(scenes[0], scenes[1]) && |scenes[1]| == |scenes[0]|
  {
    assert forall x | x in scenes[1..] :: x in scenes;
    assert scenes[0] in scenes && scenes[1] in scenes;
  }

  lemma {:induction false} Closer(n: nat, start: nat, m: nat, j: nat)
    requires start < n && j < n && m < Distance(n, start, j)
    ensures Distance(n, IndexAfter(n, start, m), j) < Distance(n, start, j)
  {
    Wrap(n, start + m);
    Wrap(n, (start + m) % n + 1);
  }

  /** First the pending deletions, one or more a call, and then the cycle. */
  lemma {:induction false} ServedAfterChores(
    env: Env, c: Cache, scenes: seq<seq<Placement>>, live: set<SourceKey>, j: nat)
    returns (k: nat)
    requires scenes != [] && AllLayerScenes(env, scenes, live) && j < |scenes[0]|
    requires |scenes| >= |scenes[0]| + |Chores(env, c, scenes[0], live)|
    requires Inv(env, c) && AllFed(env, c, scenes, live)
    ensures k < |scenes| && |scenes[k]| == |scenes[0]| && scenes[k][j].clip.Some?
    ensures Current(env, CacheAfter(env, c, scenes, live, k + 1), scenes[k][j])
    decreases |scenes|
  {
    hide Incremental, Inv, Tidy, Current, AllFed, Fed, Chores;
    var ps := scenes[0];
    assert LayerScene(env, ps, live);
    if Chores(env, c, ps, live) == {} {
      k := ServedWithinDistance(env, c, scenes, live, j);
    } else {
      var r := Incremental(env, c, ps, live, None).cache;
      var rest := scenes[1..];
      TailFed(env, c, scenes, live);
      ChoresShrink(env, c, ps, live);
      TailScenes(env, scenes, live);
      SameLayersSameChores(env, r, ps, rest[0], live);
      hide LayerScene, SameLayers;
      var i := ServedAfterChores(env, r, rest, live, j);
      k := i + 1;
      CacheAfterTail(env, c, scenes, live, k + 1);
    }
  }

  /**
   Round-robin service: over any n calls, and one more for each pending deletion, for the same n visible layers, with
   content and geometry changing freely between them and pixels passed only for images that are not there, each layer
   is up to date right after one of the calls.
   */
  lemma {:induction false} EveryLayerIsServed(env: Env, c: Cache, scenes: seq<seq<Placement>>, live: set<SourceKey>, j: nat)
    requires scenes != [] && AllLayerScenes(env, scenes, live) && j < |scenes[0]|
    requires |scenes| >= |scenes[0]| + |Chores(env, c, scenes[0], live)|
    requires Inv(env, c) && AllFed(env, c, scenes, live)
    ensures exists k ::
              && 0 <= k < |scenes| && j < |scenes[k]| && scenes[k][j].clip.Some?
              && Current(env, CacheAfter(env, c, scenes, live, k + 1), scenes[k][j])
  {
    hide Incremental, Inv, Tidy, Current, AllFed, Chores;
    var k := ServedAfterChores(env, c, scenes, live, j);
  }
}
