/**
 Operations that change the cache from outside a frame: clearing it one command at a time, a layer the
 terminal received or lost by another route, and a change of view.
 */
module GraphicsClearing {
  import opened Common
  import opened HostGraphics
  import opened GraphicsStep
  import opened GraphicsAgreement
  import opened GraphicsRuns
  import opened GraphicsDrain

  // --- Clearing step by step ---

  predicate Emptied(c: Cache) {
    c.images == map[] && c.placements == map[]
  }

  /** What is still recorded. */
  function Recorded(c: Cache): nat {
    |c.images.Keys| + |c.placements.Keys|
  }

  function ClearTimes(c: Cache, n: nat): Cache
    decreases n
  {
    if n == 0 then c else ClearTimes(ClearNext(c).cache, n - 1)
  }

  lemma {:induction false} SmallerWithout<T>(s: set<T>, x: T)
    requires x in s
    ensures |s - {x}| == |s| - 1
  {
  }

  lemma {:induction false} SubsetSize<T>(a: set<T>, b: set<T>)
    requires a <= b
    ensures |a| <= |b|
    decreases b
  {
    if x :| x in b {
      SubsetSize(a - {x}, b - {x});
      if x in a {
        SmallerWithout(a, x);
      }
      SmallerWithout(b, x);
    }
  }

  /**
   One step deletes one thing while there is any, and says it is not done while anything is left; with nothing
   left it forgets all the rest.
   */
  lemma {:induction false} ClearNextStep(c: Cache)
    ensures var r := ClearNext(c);
            && (r.incomplete <==> !Emptied(r.cache))
            && (if Emptied(c) then r.cmds == [] && r.cache == EMPTY_CACHE
                else |r.cmds| == 1 && (r.cmds[0].DeleteImage? || r.cmds[0].DeletePlacement?)
                     && Recorded(r.cache) < Recorded(c))
  {
    var ids := Sort(c.images.Keys, IdLess);
    var slots := Sort(c.placements.Keys, SlotLess);
    assert forall id :: id in c.images <==> id in ids;
    assert forall s :: s in c.placements <==> s in slots;
    if ids != [] {
      ClearsImage(c, ids[0]);
    } else if slots != [] {
      NoKeysNoEntries(c);
      ClearsPlacement(c, slots[0]);
    } else {
      NoKeysNoEntries(c);
    }
  }

  lemma {:induction false} NoKeysNoEntries(c: Cache)
    ensures (forall id :: id !in c.images) ==> c.images == map[]
    ensures (forall s :: s !in c.placements) ==> c.placements == map[]
  {
  }

  lemma {:induction false} ClearsImage(c: Cache, id: nat)
    requires var ids := Sort(c.images.Keys, IdLess); ids != [] && id == ids[0] && id in c.images
    ensures var r := ClearNext(c);
            r.cmds == [DeleteImage(id)] && Recorded(r.cache) < Recorded(c) && (r.incomplete <==> !Emptied(r.cache))
  {
    var r := ClearNext(c);
    assert r.cache.images == c.images - {id} && r.cache.placements == WithoutImage(c.placements, id);
    assert r.incomplete <==> !Emptied(r.cache);
    hide ClearNext, Sort;
    assert r.cache.images.Keys == c.images.Keys - {id};
    SmallerWithout(c.images.Keys, id);
    SubsetSize(r.cache.placements.Keys, c.placements.Keys);
  }

  lemma {:induction false} ClearsPlacement(c: Cache, slot: Slot)
    requires Sort(c.images.Keys, IdLess) == []
    requires var slots := Sort(c.placements.Keys, SlotLess); slots != [] && slot == slots[0] && slot in c.placements
    ensures var r := ClearNext(c);
            r.cmds == [DeletePlacement(slot)] && Recorded(r.cache) < Recorded(c) && (r.incomplete <==> !Emptied(r.cache))
  {
    var r := ClearNext(c);
    assert r.cache.images == c.images && r.cache.placements == c.placements - {slot};
    assert r.incomplete <==> !Emptied(r.cache);
    hide ClearNext, Sort;
    assert r.cache.placements.Keys == c.placements.Keys - {slot};
    SmallerWithout(c.placements.Keys, slot);
  }

  /** Clearing ends: as many calls as there are records leave none, and one more leaves an empty cache. */
  lemma {:induction false} ClearingEnds(c: Cache, n: nat)
    requires n >= Recorded(c)
    ensures Emptied(ClearTimes(c, n)) && ClearTimes(c, n + 1) == EMPTY_CACHE
    decreases n
  {
    ClearNextStep(c);
    hide ClearNext;
    if n > 0 {
      if Emptied(c) {
        assert Recorded(EMPTY_CACHE) == 0;
      }
      ClearingEnds(ClearNext(c).cache, n - 1);
    } else {
      assert c.images.Keys == {} && c.placements.Keys == {};
      assert ClearTimes(ClearNext(c).cache, 0) == EMPTY_CACHE;
    }
  }

  /** When a step says it is done, cache and terminal are both empty and no source is left. */
  lemma {:induction false} DoneMeansEmpty(env: Env, t: Screen, c: Cache)
    requires Inv(env, c) && Mirrors(t, c) && !ClearNext(c).incomplete
    ensures var r := ClearNext(c);
            ExecuteAll(t, r.cmds) == Screen(map[], map[]) && Emptied(r.cache) && r.cache.sources == map[]
  {
    ClearNextKeeps(env, t, c);
    ClearNextStep(c);
    hide ClearNext, ExecuteAll, Belongs, SlotFits;
    var r := ClearNext(c);
    var t' := ExecuteAll(t, r.cmds);
    assert forall s :: s !in t'.placements;
    assert forall k :: k !in r.cache.sources;
    assert t'.placements == map[] && r.cache.sources == map[];
  }

  // --- Layers the terminal received or lost by another route ---

  /** The commands of an update that sends no pixels and deletes nothing. */
  predicate OnlyDisplays(cmds: seq<Cmd>, slot: Slot, g: Geometry) {
    cmds == [] || cmds == [Display(slot, g)]
  }

  /** What is trusted is not sent again: the layer's next update at most displays it. */
  lemma {:induction false} TrustedIsNotSent(env: Env, c: Cache, p: Placement)
    requires WellFormed(env, p) && p.key.PaneLayer? && p.clip.Some?
    ensures var d := Trust(c, p.key, p.hostImage.value, p.sig);
            && Maps(d, p.key, p.hostImage.value) && ImageCurrent(d, p, p.hostImage.value) && p.key !in d.oversized
            && (Update(env, d, p).Some? ==>
                  ResolveSlot(env, d, p).Some?
                  && OnlyDisplays(Update(env, d, p).value.cmds, ResolveSlot(env, d, p).value, Sig(p).geometry))
  {
    hide ProbePlacement;
  }

  /** What is forgotten leaves no trace, and is sent again with its pixels and displayed by the layer's next update. */
  lemma {:induction false} ForgottenIsSentAgain(env: Env, c: Cache, p: Placement)
    requires WellFormed(env, p) && p.key.PaneLayer? && p.clip.Some? && p.data != [] && Inv(env, c)
    ensures var d := Forget(c, p.key, p.hostImage.value);
            && Inv(env, d) && Unused(d, p.hostImage.value)
            && p.key !in d.sources && p.key !in d.oversized
            && Update(env, d, p).Some?
            && Update(env, d, p).value.cmds ==
                 [Upload(p.hostImage.value, p.sig, p.data), Display(HomeSlot(env, p), Sig(p).geometry)]
  {
    var image := p.hostImage.value;
    var d := Forget(c, p.key, image);
    assert forall k | k in d.sources :: d.sources[k] != image;
    assert image !in d.images;
    assert forall s | s in d.placements :: s.image != image;
    assert ResolveSlot(env, d, p) == Some(HomeSlot(env, p));
    hide ResolveSlot, Inv, Belongs, PlacementStart;
    var slot := HomeSlot(env, p);
    var sent := Transmit(d, p, slot);
    assert sent == Some(Delta(d.(images := d.images[image := p.sig]), [Upload(image, p.sig, p.data)]));
    assert Release(sent.value.cache, p.key, image).cmds == [];
    assert slot !in d.placements;
  }

  // --- A change of view ---

  /** Another view starts with its first placement; the same view goes on where it was, and nothing else changes. */
  lemma {:induction false} ViewRestarts(c: Cache, view: Option<View>, ps: seq<Placement>)
    ensures var d := UpdateView(c, view);
            && d.view == view && d == c.(view := d.view, continuation := d.continuation)
            && (if c.view == view then d == c else StartIndex(d, ps) == 0)
  {
  }
}
