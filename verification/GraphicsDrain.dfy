/**
 Repeating the incremental call with a fixed scene ends, ends in the right state, and then
 emits nothing more. The measure is the set of things still to do, which every call that
 reports `incomplete` strictly shrinks.
 */
module GraphicsDrain {
  import opened Common
  import opened HostGraphics
  import opened GraphicsStep
  import opened GraphicsAgreement

  // --- Where a placement goes when nothing else holds its hashed ids ---

  function HomeImage(env: Env, p: Placement): nat {
    if p.hostImage.Some? then p.hostImage.value else ImageStart(env, p)
  }

  function HomeSlot(env: Env, p: Placement): Slot {
    Slot(HomeImage(env, p), PlacementStart(env, Source(p)))
  }

  function HomeSlots(env: Env, ps: seq<Placement>): set<Slot> {
    set i | 0 <= i < |ps| && ps[i].clip.Some? :: HomeSlot(env, ps[i])
  }

  /** A fixed scene: distinct identities, one image per source, no two ids alike. */
  ghost predicate Steady(env: Env, ps: seq<Placement>, live: set<SourceKey>) {
    && AllWellFormed(env, ps)
    && (forall p | p in ps && p.key.PaneLayer? :: p.key in live)
    && (forall i, j | 0 <= i < j < |ps| :: Source(ps[i]) != Source(ps[j]))
    && (forall i, j | 0 <= i < |ps| && 0 <= j < |ps| && ps[i].key == ps[j].key ::
          ps[i].sig == ps[j].sig && ps[i].hostImage == ps[j].hostImage)
    && (forall i, j | 0 <= i < |ps| && 0 <= j < |ps| && HomeImage(env, ps[i]) == HomeImage(env, ps[j]) ::
          ps[i].sig == ps[j].sig)
    && (forall i, j | 0 <= i < j < |ps| :: HomeSlot(env, ps[i]) != HomeSlot(env, ps[j]))
  }

  /** No probe collision with what the cache holds. */
  ghost predicate Unobstructed(env: Env, c: Cache, ps: seq<Placement>) {
    forall p | p in ps ::
      && (p.key.Terminal? && HomeImage(env, p) in c.images ==> c.images[HomeImage(env, p)] == p.sig)
      && (HomeSlot(env, p) in c.placements ==> c.placements[HomeSlot(env, p)].source == Source(p))
  }

  ghost predicate Good(env: Env, c: Cache, ps: seq<Placement>) {
    Inv(env, c) && Unobstructed(env, c, ps)
  }

  // --- Which placements can be shown ---

  /**
   The image a placement wants is there and will stay: a source of the scene that wants it uses it,
   or no visible placement of the scene will move its source away from it.
   */
  ghost predicate Anchored(env: Env, c: Cache, ps: seq<Placement>, p: Placement) {
    var image := HomeImage(env, p);
    && ImageCurrent(c, p, image)
    && ((exists q | q in ps :: HomeImage(env, q) == image && Maps(c, q.key, image))
        || (forall q | q in ps && q.clip.Some? :: Maps(c, q.key, image) ==> HomeImage(env, q) == image))
  }

  /** The image is not there, and sending it would break the budget. */
  predicate Oversized(env: Env, c: Cache, p: Placement, budget: Option<nat>) {
    !ImageCurrent(c, p, HomeImage(env, p)) && !TransactionFits(p.sig.dataLen, budget)
  }

  /** Set aside by an earlier budgeted call. */
  predicate Quarantined(c: Cache, p: Placement, budget: Option<nat>) {
    budget.Some? && p.key in c.oversized && c.oversized[p.key] == p.sig
  }

  /** The image is there or can be sent. */
  predicate Sendable(env: Env, c: Cache, p: Placement, budget: Option<nat>) {
    ImageCurrent(c, p, HomeImage(env, p)) || (p.data != [] && TransactionFits(p.sig.dataLen, budget))
  }

  /** Every visible placement can be sent, is anchored, or is too large; only what is too large was set aside. */
  ghost predicate Supplied(env: Env, c: Cache, ps: seq<Placement>, budget: Option<nat>) {
    forall p | p in ps && p.clip.Some? ::
      && ((p.data != [] && TransactionFits(p.sig.dataLen, budget)) || Anchored(env, c, ps, p) || Oversized(env, c, p, budget))
      && (Quarantined(c, p, budget) ==> Oversized(env, c, p, budget))
  }

  /** Images, records and sources of the scene are as they were, and nothing more was set aside. */
  ghost predicate SameForScene(env: Env, c: Cache, d: Cache, ps: seq<Placement>) {
    && (forall p | p in ps && p.clip.Some? ::
          && (HomeImage(env, p) in c.images <==> HomeImage(env, p) in d.images)
          && (HomeImage(env, p) in c.images ==> d.images[HomeImage(env, p)] == c.images[HomeImage(env, p)])
          && (HomeSlot(env, p) in c.placements <==> HomeSlot(env, p) in d.placements)
          && (HomeSlot(env, p) in c.placements ==> d.placements[HomeSlot(env, p)] == c.placements[HomeSlot(env, p)]))
    && (forall q | q in ps :: (q.key in c.sources <==> q.key in d.sources)
                              && (q.key in c.sources ==> d.sources[q.key] == c.sources[q.key]))
    && (forall k | k in d.oversized :: k in c.oversized && d.oversized[k] == c.oversized[k])
  }

  lemma {:induction false} SameForSceneThen(env: Env, a: Cache, b: Cache, c: Cache, ps: seq<Placement>)
    requires SameForScene(env, a, b, ps) && SameForScene(env, b, c, ps)
    ensures SameForScene(env, a, c, ps)
  {
    hide HomeImage, HomeSlot;
  }

  lemma {:induction false} StaysSupplied(env: Env, c: Cache, d: Cache, ps: seq<Placement>, budget: Option<nat>)
    requires Supplied(env, c, ps, budget) && SameForScene(env, c, d, ps)
    ensures Supplied(env, d, ps, budget)
  {
    hide HomeImage, TransactionFits;
    forall p | p in ps && p.clip.Some?
      ensures (p.data != [] && TransactionFits(p.sig.dataLen, budget)) || Anchored(env, d, ps, p) || Oversized(env, d, p, budget)
      ensures Quarantined(d, p, budget) ==> Oversized(env, d, p, budget)
    {
      if Anchored(env, c, ps, p) {
        StaysAnchored(env, c, d, ps, p);
      }
    }
  }

  lemma {:induction false} StaysAnchored(env: Env, c: Cache, d: Cache, ps: seq<Placement>, p: Placement)
    requires p in ps && p.clip.Some? && Anchored(env, c, ps, p) && SameForScene(env, c, d, ps)
    ensures Anchored(env, d, ps, p)
  {
    hide HomeImage;
    var image := HomeImage(env, p);
    if q :| q in ps && HomeImage(env, q) == image && Maps(c, q.key, image) {
      assert Maps(d, q.key, image);
    }
  }

  lemma {:induction false} HomeResolves(env: Env, c: Cache, ps: seq<Placement>, p: Placement)
    requires Unobstructed(env, c, ps) && p in ps && WellFormed(env, p)
    ensures ResolveImage(env, p, c.images) == Some(HomeImage(env, p))
    ensures ResolveSlot(env, c, p) == if p.clip.Some? then Some(HomeSlot(env, p)) else None
  {
  }

  lemma {:induction false} HomeSlotsAreDesired(env: Env, c: Cache, ps: seq<Placement>)
    requires AllWellFormed(env, ps) && Unobstructed(env, c, ps)
    ensures DesiredSlots(env, c, ps) == HomeSlots(env, ps)
  {
    forall i | 0 <= i < |ps| ensures ResolveSlot(env, c, ps[i]) == if ps[i].clip.Some? then Some(HomeSlot(env, ps[i])) else None {
      HomeResolves(env, c, ps, ps[i]);
    }
    hide ResolveSlot, HomeSlot;
    var desired := DesiredSlots(env, c, ps);
    forall s | s in HomeSlots(env, ps) ensures s in desired {
      var i :| 0 <= i < |ps| && ps[i].clip.Some? && HomeSlot(env, ps[i]) == s;
      assert ResolveSlot(env, c, ps[i]).Some? && ResolveSlot(env, c, ps[i]).value == s;
    }
  }

  predicate Current(env: Env, c: Cache, p: Placement)
    requires p.clip.Some?
  {
    && ImageCurrent(c, p, HomeImage(env, p))
    && PlacementCurrent(c, p, HomeSlot(env, p))
    && Maps(c, p.key, HomeImage(env, p))
  }

  /** Image and record are as wanted; a pending replay counts as wanting. */
  predicate Drawn(env: Env, c: Cache, p: Placement)
    requires p.clip.Some?
  {
    ImageCurrent(c, p, HomeImage(env, p)) && PlacementCurrent(c, p, HomeSlot(env, p))
  }

  /** A record that matches its placement is also the one its source uses. */
  ghost predicate MatchingIsMapped(env: Env, c: Cache, ps: seq<Placement>) {
    forall p | p in ps && p.clip.Some? && Drawn(env, c, p) :: Maps(c, p.key, HomeImage(env, p))
  }

  // --- What is left to do ---

  datatype Task =
    | DropSource(key: SourceKey)
    | DropOrphan(image: nat)
    | DropStale(slot: Slot)
    | Show(index: nat)

  predicate Kept(ps: seq<Placement>, live: set<SourceKey>, key: SourceKey) {
    if key.PaneLayer? then key in live else key in DesiredKeys(ps)
  }

  predicate KeptReference(c: Cache, ps: seq<Placement>, live: set<SourceKey>, image: nat) {
    exists k | k in c.sources :: Kept(ps, live, k) && c.sources[k] == image
  }

  predicate Pending(env: Env, c: Cache, ps: seq<Placement>, live: set<SourceKey>, task: Task) {
    match task
    case DropSource(key) => key in DeadSources(c, live)
    case DropOrphan(image) =>
      live != {} && image in c.images && image !in DesiredImages(HomeSlots(env, ps))
      && !KeptReference(c, ps, live, image)
    case DropStale(slot) => slot in c.placements && slot !in HomeSlots(env, ps)
    case Show(index) => index < |ps| && ps[index].clip.Some? && !Current(env, c, ps[index])
  }

  function Work(env: Env, c: Cache, ps: seq<Placement>, live: set<SourceKey>): (w: set<Task>)
    ensures forall task :: task in w <==> Pending(env, c, ps, live, task)
  {
    (set k | k in c.sources && Pending(env, c, ps, live, DropSource(k)) :: DropSource(k))
    + (set id | id in c.images && Pending(env, c, ps, live, DropOrphan(id)) :: DropOrphan(id))
    + (set s | s in c.placements && Pending(env, c, ps, live, DropStale(s)) :: DropStale(s))
    + (set i | 0 <= i < |ps| && Pending(env, c, ps, live, Show(i)) :: Show(i))
  }

  /** From c to c': still good, and nothing new to do. */
  ghost predicate Shrinks(env: Env, c: Cache, c': Cache, ps: seq<Placement>, live: set<SourceKey>) {
    Good(env, c', ps) && forall task | Pending(env, c', ps, live, task) :: Pending(env, c, ps, live, task)
  }

  ghost predicate Removes(env: Env, c: Cache, c': Cache, ps: seq<Placement>, live: set<SourceKey>) {
    exists task :: Pending(env, c, ps, live, task) && !Pending(env, c', ps, live, task)
  }

  lemma {:induction false} ShrinksThen(env: Env, a: Cache, b: Cache, c: Cache, ps: seq<Placement>, live: set<SourceKey>)
    requires Shrinks(env, a, b, ps, live) && Shrinks(env, b, c, ps, live)
    ensures Shrinks(env, a, c, ps, live)
    ensures Removes(env, a, b, ps, live) || Removes(env, b, c, ps, live) ==> Removes(env, a, c, ps, live)
  {
    hide Pending, Good;
  }

  /** Shrinking without dropping anything can only come from a removed task. */
  lemma {:induction false} WorkShrinks(env: Env, c: Cache, c': Cache, ps: seq<Placement>, live: set<SourceKey>)
    requires Shrinks(env, c, c', ps, live)
    ensures Work(env, c', ps, live) <= Work(env, c, ps, live)
    ensures Removes(env, c, c', ps, live) ==> Work(env, c', ps, live) < Work(env, c, ps, live)
  {
    hide Pending, Good;
    if Removes(env, c, c', ps, live) {
      var task :| Pending(env, c, ps, live, task) && !Pending(env, c', ps, live, task);
      assert task in Work(env, c, ps, live) && task !in Work(env, c', ps, live);
    }
  }

  // --- Each operation shrinks the work ---

  /** Fields other than images, placements, sources and the replay marks do not matter. */
  lemma {:induction false} SameWork(env: Env, c: Cache, c': Cache, ps: seq<Placement>, live: set<SourceKey>)
    requires Good(env, c, ps)
    requires c'.images == c.images && c'.placements == c.placements && c'.sources == c.sources
    requires !c'.replay || (c.replay && c.replayed == c'.replayed)
    ensures Shrinks(env, c, c', ps, live)
  {
    SameRecords(env, Screen(map[], map[]), c, c');
    forall task | Pending(env, c', ps, live, task) ensures Pending(env, c, ps, live, task) {
      match task
      case DropSource(_) =>
      case DropOrphan(image) =>
        assert KeptReference(c, ps, live, image) ==> KeptReference(c', ps, live, image);
      case DropStale(_) =>
      case Show(_) =>
    }
  }

  lemma {:induction false} SameReferences(c: Cache, c': Cache, ps: seq<Placement>, live: set<SourceKey>, image: nat)
    requires forall k | k in c.sources && Kept(ps, live, k) :: k in c'.sources && c'.sources[k] == c.sources[k]
    ensures KeptReference(c, ps, live, image) ==> KeptReference(c', ps, live, image)
  {
  }

  lemma {:induction false} DropDeadSource(env: Env, c: Cache, key: SourceKey, ps: seq<Placement>, live: set<SourceKey>)
    requires Good(env, c, ps) && Steady(env, ps, live) && key in DeadSources(c, live)
    ensures var c' := c.(sources := c.sources - {key});
            Shrinks(env, c, c', ps, live) && Removes(env, c, c', ps, live)
  {
    var c' := c.(sources := c.sources - {key});
    assert Inv(env, c');
    hide Inv;
    forall task | Pending(env, c', ps, live, task) ensures Pending(env, c, ps, live, task) {
      match task
      case DropSource(_) =>
      case DropOrphan(image) =>
        SameReferences(c, c', ps, live, image);
      case DropStale(_) =>
      case Show(i) => assert ps[i] in ps;
    }
    assert Pending(env, c, ps, live, DropSource(key)) && !Pending(env, c', ps, live, DropSource(key));
  }

  lemma {:induction false} DropImageShrinks(env: Env, c: Cache, image: nat, ps: seq<Placement>, live: set<SourceKey>)
    requires Good(env, c, ps) && Steady(env, ps, live)
    requires !Referenced(c, image) && image !in DesiredImages(HomeSlots(env, ps))
    ensures var c' := DropImage(c, image);
            && Shrinks(env, c, c', ps, live)
            && (image in c.images && live != {} ==> Removes(env, c, c', ps, live))
  {
    var c' := DropImage(c, image);
    assert Inv(env, c');
    hide Inv;
    forall task | Pending(env, c', ps, live, task) ensures Pending(env, c, ps, live, task) {
      match task
      case DropSource(_) =>
      case DropOrphan(other) =>
        assert KeptReference(c, ps, live, other) ==> KeptReference(c', ps, live, other);
      case DropStale(_) =>
      case Show(i) =>
        assert HomeSlot(env, ps[i]) in HomeSlots(env, ps);
        assert HomeImage(env, ps[i]) != image;
    }
    if image in c.images && live != {} {
      assert Pending(env, c, ps, live, DropOrphan(image)) && !Pending(env, c', ps, live, DropOrphan(image));
    }
  }

  lemma {:induction false} DropStaleShrinks(env: Env, c: Cache, slot: Slot, ps: seq<Placement>, live: set<SourceKey>)
    requires Good(env, c, ps)
    requires slot in c.placements && slot !in HomeSlots(env, ps)
    ensures Shrinks(env, c, DropSlot(c, slot), ps, live) && Removes(env, c, DropSlot(c, slot), ps, live)
  {
    var c' := DropSlot(c, slot);
    assert Inv(env, c');
    hide Inv;
    forall task | Pending(env, c', ps, live, task) ensures Pending(env, c, ps, live, task) {
      match task
      case DropSource(_) =>
      case DropOrphan(image) =>
        assert KeptReference(c, ps, live, image) ==> KeptReference(c', ps, live, image);
      case DropStale(_) =>
      case Show(i) => assert HomeSlot(env, ps[i]) in HomeSlots(env, ps);
    }
    assert Pending(env, c, ps, live, DropStale(slot)) && !Pending(env, c', ps, live, DropStale(slot));
  }

  ghost predicate AllKept(c: Cache, ps: seq<Placement>, live: set<SourceKey>) {
    forall k | k in c.sources :: Kept(ps, live, k)
  }

  lemma {:induction false} PruneShrinks(env: Env, c: Cache, ps: seq<Placement>, live: set<SourceKey>)
    requires Good(env, c, ps)
    ensures var c' := Prune(c, DesiredKeys(ps), live);
            && Shrinks(env, c, c', ps, live)
            && (DeadSources(c, live) == {} ==> AllKept(c', ps, live))
  {
    var c' := Prune(c, DesiredKeys(ps), live);
    assert Inv(env, c');
    hide Inv;
    forall task | Pending(env, c', ps, live, task) ensures Pending(env, c, ps, live, task) {
      match task
      case DropSource(_) =>
      case DropOrphan(image) =>
        SameReferences(c, c', ps, live, image);
      case DropStale(_) =>
      case Show(i) => assert ps[i].key in DesiredKeys(ps);
    }
    if DeadSources(c, live) == {} {
      forall k | k in c'.sources ensures Kept(ps, live, k) {
        assert k.PaneLayer? && k !in live ==> k in DeadSources(c, live);
      }
    }
  }

  // --- One placement update ---

  /** What pointing `key` at `image` does: at most the image it used before goes, with what it drew. */
  ghost predicate Released(c: Cache, d: Cache, key: SourceKey, image: nat) {
    && d.sources == c.sources[key := image]
    && d.replay == c.replay
    && (forall id | id in d.images :: id in c.images && d.images[id] == c.images[id])
    && (forall id | id in c.images && id !in d.images :: Maps(c, key, id) && id != image && !Referenced(d, id))
    && (forall id | Maps(c, key, id) && id in d.images && id != image :: Referenced(d, id))
    && (forall s | s in d.placements :: s in c.placements && d.placements[s] == c.placements[s])
    && (forall s | s in c.placements && s !in d.placements :: s.image !in d.images && s.image != image)
    && (forall s | s in c.replayed && s !in d.replayed :: s.image !in d.images && s.image != image)
    && d.replayed <= c.replayed
  }

  lemma {:induction false} ReleaseEffect(c: Cache, key: SourceKey, image: nat)
    ensures Released(c, Release(c, key, image).cache, key, image)
  {
    var d := Release(c, key, image).cache;
    var c1 := c.(sources := c.sources[key := image]);
    if key in c.sources && c.sources[key] != image {
      var previous := c.sources[key];
      assert Referenced(c1, previous) <==> Referenced(d, previous);
    }
  }

  /** The records an update leaves; everything it touches is its own, and only a dropped image takes others along. */
  ghost predicate Replaces(c: Cache, d: Cache, p: Placement, slot: Slot)
    requires p.clip.Some?
  {
    && slot in d.placements && d.placements[slot] == Sig(p)
    && ImageCurrent(d, p, slot.image)
    && d.sources == c.sources[p.key := slot.image]
    && d.replay == c.replay && (d.replay ==> slot in d.replayed)
    && d.replayed <= c.replayed + {slot}
    && (forall id | id in d.images && id != slot.image :: id in c.images && d.images[id] == c.images[id])
    && (forall id | id in c.images && id !in d.images :: Maps(c, p.key, id) && id != slot.image && !Referenced(d, id))
    && (forall id | Maps(c, p.key, id) && id in d.images && id != slot.image :: Referenced(d, id))
    && (forall s | s in d.placements && s != slot :: s in c.placements && d.placements[s] == c.placements[s])
    && (forall s | s in c.placements && s !in d.placements :: s.image !in d.images)
    && (forall s | s in c.replayed && s !in d.replayed :: s.image !in d.images)
  }

  lemma {:induction false} UpdateAtReplaces(c: Cache, p: Placement, slot: Slot)
    requires p.clip.Some? && (p.data != [] || ImageCurrent(c, p, slot.image))
    requires p.key.Terminal? && slot.image in c.images ==> c.images[slot.image] == p.sig
    requires forall k | k in c.sources :: c.sources[k] in c.images
    ensures UpdateAt(c, p, slot).Some? && Replaces(c, UpdateAt(c, p, slot).value.cache, p, slot)
  {
    TransmitEffect(c, p, slot);
    var sent := Transmit(c, p, slot).value.cache;
    ReleaseEffect(sent, p.key, slot.image);
    var released := Release(sent, p.key, slot.image).cache;
    hide Release, Transmit, Released, Replaces;
    ReleasedReplaces(c, sent, released, UpdateAt(c, p, slot).value.cache, p, slot);
  }

  lemma {:induction false} ReleasedReplaces(c: Cache, sent: Cache, released: Cache, d: Cache, p: Placement, slot: Slot)
    requires p.clip.Some?
    requires forall k | k in c.sources :: c.sources[k] in c.images
    requires sent == c.(images := c.images[slot.image := p.sig])
    requires Released(sent, released, p.key, slot.image)
    requires d == released.(placements := released.placements[slot := Sig(p)],
                            replayed := if released.replay then released.replayed + {slot} else released.replayed)
    ensures Replaces(c, d, p, slot)
  {
    SameReferenced(released, d);
    hide Referenced;
  }

  lemma {:induction false} SameReferenced(c: Cache, d: Cache)
    requires c.sources == d.sources
    ensures forall id :: Referenced(c, id) <==> Referenced(d, id)
  {
  }

  lemma {:induction false} TransmitEffect(c: Cache, p: Placement, slot: Slot)
    requires p.clip.Some? && (p.data != [] || ImageCurrent(c, p, slot.image))
    requires p.key.Terminal? && slot.image in c.images ==> c.images[slot.image] == p.sig
    ensures Transmit(c, p, slot).Some?
    ensures Transmit(c, p, slot).value.cache == c.(images := c.images[slot.image := p.sig])
  {
  }

  /** An update that has something to do succeeds, at the placement's home slot. */
  lemma {:induction false} UpdateEffect(env: Env, c: Cache, ps: seq<Placement>, p: Placement)
    requires Good(env, c, ps) && p in ps && WellFormed(env, p)
    requires p.clip.Some? && !Current(env, c, p) && (p.data != [] || ImageCurrent(c, p, HomeImage(env, p)))
    ensures Update(env, c, p) == UpdateAt(c, p, HomeSlot(env, p))
    ensures Update(env, c, p).Some? && Replaces(c, Update(env, c, p).value.cache, p, HomeSlot(env, p))
  {
    HomeResolves(env, c, ps, p);
    ResolvedFits(env, c, p, HomeSlot(env, p));
    UpdateAtReplaces(c, p, HomeSlot(env, p));
  }

  lemma {:induction false} UpdateUnneeded(env: Env, c: Cache, ps: seq<Placement>, p: Placement)
    requires Unobstructed(env, c, ps) && p in ps && WellFormed(env, p)
    requires p.clip.None? || Current(env, c, p)
    ensures Update(env, c, p).None?
  {
    HomeResolves(env, c, ps, p);
  }

  /** Two placements of a steady scene do not get in each other's way. */
  lemma {:induction false} Apart(env: Env, ps: seq<Placement>, live: set<SourceKey>, i: nat, j: nat)
    requires Steady(env, ps, live) && i < |ps| && j < |ps| && i != j
    ensures HomeSlot(env, ps[i]) != HomeSlot(env, ps[j])
    ensures HomeImage(env, ps[i]) == HomeImage(env, ps[j]) ==> ps[i].sig == ps[j].sig
    ensures ps[i].key == ps[j].key ==> HomeImage(env, ps[i]) == HomeImage(env, ps[j])
  {
    assert ps[i] in ps && ps[j] in ps;
  }

  lemma {:induction false} UpdateShrinks(env: Env, c: Cache, d: Cache, ps: seq<Placement>, live: set<SourceKey>, i: nat)
    requires Good(env, c, ps) && Steady(env, ps, live) && AllKept(c, ps, live)
    requires i < |ps| && ps[i].clip.Some? && !Current(env, c, ps[i])
    requires ps[i].data != [] || ImageCurrent(c, ps[i], HomeImage(env, ps[i]))
    requires d == Update(env, c, ps[i]).value.cache
    ensures Shrinks(env, c, d, ps, live) && AllKept(d, ps, live)
    ensures Current(env, d, ps[i]) && Removes(env, c, d, ps, live)
  {
    hide *;
    SteadyMember(env, ps, live, i);
    GoodParts(env, c, ps);
    UpdateEffect(env, c, ps, ps[i]);
    UpdateKeepsInv(env, c, ps[i]);
    UpdateUnobstructed(env, c, d, ps, live, i);
    forall task | Pending(env, d, ps, live, task) ensures Pending(env, c, ps, live, task) {
      UpdateTask(env, c, d, ps, live, i, task);
    }
    GoodParts(env, d, ps);
    ShrinksMeans(env, c, d, ps, live);
    ShownIsRemoved(env, c, d, ps, live, i);
  }

  lemma {:induction false} SteadyMember(env: Env, ps: seq<Placement>, live: set<SourceKey>, i: nat)
    requires Steady(env, ps, live) && i < |ps|
    ensures ps[i] in ps && WellFormed(env, ps[i])
  {
    assert ps[i] in ps;
    hide WellFormed;
  }

  lemma {:induction false} GoodParts(env: Env, c: Cache, ps: seq<Placement>)
    ensures Good(env, c, ps) <==> Inv(env, c) && Unobstructed(env, c, ps)
  {
    hide Inv, Unobstructed;
  }

  lemma {:induction false} ShrinksMeans(env: Env, c: Cache, d: Cache, ps: seq<Placement>, live: set<SourceKey>)
    requires Good(env, d, ps) && forall task | Pending(env, d, ps, live, task) :: Pending(env, c, ps, live, task)
    ensures Shrinks(env, c, d, ps, live)
  {
    hide Good, Pending;
  }

  lemma {:induction false} ShownIsRemoved(env: Env, c: Cache, d: Cache, ps: seq<Placement>, live: set<SourceKey>, i: nat)
    requires i < |ps| && ps[i].clip.Some? && !Current(env, c, ps[i]) && Current(env, d, ps[i])
    ensures Removes(env, c, d, ps, live)
  {
    hide Current;
    assert Pending(env, c, ps, live, Show(i)) && !Pending(env, d, ps, live, Show(i));
  }

  lemma {:induction false} UpdateUnobstructed(env: Env, c: Cache, d: Cache, ps: seq<Placement>, live: set<SourceKey>, i: nat)
    requires Unobstructed(env, c, ps) && Steady(env, ps, live) && AllKept(c, ps, live)
    requires i < |ps| && ps[i].clip.Some?
    requires Replaces(c, d, ps[i], HomeSlot(env, ps[i]))
    ensures Unobstructed(env, d, ps) && AllKept(d, ps, live) && Current(env, d, ps[i])
  {
    assert ps[i] in ps && ps[i].key in DesiredKeys(ps);
    forall q | q in ps
      ensures q.key.Terminal? && HomeImage(env, q) in d.images ==> d.images[HomeImage(env, q)] == q.sig
      ensures HomeSlot(env, q) in d.placements ==> d.placements[HomeSlot(env, q)].source == Source(q)
    {
      var j :| 0 <= j < |ps| && ps[j] == q;
      if i != j {
        Apart(env, ps, live, i, j);
      }
    }
  }

  /** An update takes no image away that the scene counts on, and never makes room for one that is too large. */
  lemma {:induction false} UpdateSupplied(
    env: Env, c: Cache, d: Cache, ps: seq<Placement>, live: set<SourceKey>, i: nat, budget: Option<nat>)
    requires Supplied(env, c, ps, budget) && Steady(env, ps, live) && i < |ps| && ps[i].clip.Some?
    requires Sendable(env, c, ps[i], budget) && d.oversized == c.oversized
    requires Replaces(c, d, ps[i], HomeSlot(env, ps[i]))
    ensures Supplied(env, d, ps, budget)
  {
    assert ps[i] in ps;
    hide TransactionFits, Replaces, Steady, HomeImage;
    forall p | p in ps && p.clip.Some?
      ensures (p.data != [] && TransactionFits(p.sig.dataLen, budget)) || Anchored(env, d, ps, p) || Oversized(env, d, p, budget)
      ensures Quarantined(d, p, budget) ==> Oversized(env, d, p, budget)
    {
      if Anchored(env, c, ps, p) {
        AnchorHolds(env, c, d, ps, live, i, p);
      }
      if Oversized(env, c, p, budget) {
        SameKeySameHome(env, ps, live, p, ps[i]);
        StaysOversized(env, c, d, ps[i], p, budget);
      }
    }
  }

  lemma {:induction false} StaysOversized(env: Env, c: Cache, d: Cache, q: Placement, p: Placement, budget: Option<nat>)
    requires q.clip.Some? && Replaces(c, d, q, HomeSlot(env, q)) && Sendable(env, c, q, budget)
    requires HomeImage(env, p) == HomeImage(env, q) ==> p.sig == q.sig
    requires Oversized(env, c, p, budget)
    ensures Oversized(env, d, p, budget)
  {
    hide TransactionFits, HomeImage;
  }

  lemma {:induction false} SameKeySameHome(env: Env, ps: seq<Placement>, live: set<SourceKey>, p: Placement, q: Placement)
    requires Steady(env, ps, live) && p in ps && q in ps
    ensures p.key == q.key ==> HomeImage(env, p) == HomeImage(env, q)
    ensures HomeImage(env, p) == HomeImage(env, q) ==> p.sig == q.sig
  {
    var i :| 0 <= i < |ps| && ps[i] == p;
    var j :| 0 <= j < |ps| && ps[j] == q;
    if i != j {
      Apart(env, ps, live, i, j);
    }
  }

  lemma {:induction false} AnchorHolds(env: Env, c: Cache, d: Cache, ps: seq<Placement>, live: set<SourceKey>, i: nat, p: Placement)
    requires Steady(env, ps, live) && i < |ps| && ps[i].clip.Some? && p in ps
    requires Replaces(c, d, ps[i], HomeSlot(env, ps[i])) && Anchored(env, c, ps, p)
    ensures Anchored(env, d, ps, p)
  {
    var image := HomeImage(env, p);
    assert ps[i] in ps;
    SameKeySameHome(env, ps, live, ps[i], p);
    forall q | q in ps ensures q.key == ps[i].key ==> HomeImage(env, q) == HomeImage(env, ps[i]) {
      SameKeySameHome(env, ps, live, q, ps[i]);
    }
    hide Steady, HomeImage;
    if q :| q in ps && HomeImage(env, q) == image && Maps(c, q.key, image) {
      assert Maps(d, q.key, image);
      assert Referenced(d, image);
    } else {
      assert image != HomeImage(env, ps[i]) ==> !Maps(c, ps[i].key, image);
    }
  }

  lemma {:induction false} ReferencesSurvive(c: Cache, d: Cache, ps: seq<Placement>, live: set<SourceKey>, p: Placement, slot: Slot, image: nat)
    requires p.clip.Some? && Replaces(c, d, p, slot) && AllKept(d, ps, live)
    requires image in d.images && image != slot.image
    ensures KeptReference(c, ps, live, image) ==> KeptReference(d, ps, live, image)
  {
    if KeptReference(c, ps, live, image) {
      var k :| k in c.sources && Kept(ps, live, k) && c.sources[k] == image;
      if k != p.key {
        assert d.sources[k] == image;
      } else {
        assert Referenced(d, image);
      }
    }
  }

  lemma {:induction false} UpdateTask(env: Env, c: Cache, d: Cache, ps: seq<Placement>, live: set<SourceKey>, i: nat, task: Task)
    requires Good(env, c, ps) && Steady(env, ps, live) && AllKept(c, ps, live)
    requires i < |ps| && ps[i].clip.Some?
    requires Replaces(c, d, ps[i], HomeSlot(env, ps[i])) && AllKept(d, ps, live)
    requires Pending(env, d, ps, live, task)
    ensures Pending(env, c, ps, live, task)
  {
    var p := ps[i];
    var slot := HomeSlot(env, p);
    match task
    case DropSource(key) =>
    case DropOrphan(image) =>
      assert slot in HomeSlots(env, ps);
      ReferencesSurvive(c, d, ps, live, p, slot, image);
    case DropStale(other) => assert slot in HomeSlots(env, ps);
    case Show(j) =>
      if i != j {
        Apart(env, ps, live, i, j);
        if Current(env, c, ps[j]) {
          StaysCurrent(env, c, d, ps, live, i, j);
        }
      }
  }

  lemma {:induction false} StaysCurrent(env: Env, c: Cache, d: Cache, ps: seq<Placement>, live: set<SourceKey>, i: nat, j: nat)
    requires Steady(env, ps, live) && i < |ps| && j < |ps| && i != j
    requires ps[i].clip.Some? && ps[j].clip.Some?
    requires Replaces(c, d, ps[i], HomeSlot(env, ps[i])) && Current(env, c, ps[j])
    ensures Current(env, d, ps[j])
  {
    Apart(env, ps, live, i, j);
    var home := HomeImage(env, ps[j]);
    assert d.sources[ps[j].key] == home;
    assert Referenced(d, home);
    assert home in d.images;
  }
}
