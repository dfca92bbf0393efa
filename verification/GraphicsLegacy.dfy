/**
 The terminal-only update, read off the scene it is given: which of the images it deletes are there again,
 and used, when it ends.
 */
module GraphicsLegacy {
  import opened Common
  import opened HostGraphics
  import opened GraphicsStep
  import opened GraphicsAgreement
  import opened GraphicsRuns
  import opened GraphicsDrain

  /** A scene of terminal images with distinct identities, and no id alike. */
  ghost predicate TerminalScene(env: Env, ps: seq<Placement>) {
    Steady(env, ps, {}) && forall p | p in ps :: p.key.Terminal?
  }

  /** What an update that places p does to images and sources; `home` is the image p wants. */
  ghost predicate Places(c: Cache, d: Cache, p: Placement, home: nat) {
    && d.sources == c.sources[p.key := home] && home in d.images && d.images[home] == p.sig
    && (forall id | id in d.images && id != home :: id in c.images && d.images[id] == c.images[id])
    && (forall id | id in c.images && id !in d.images :: id != home && !Referenced(d, id))
    && (forall s | s in d.placements && s in c.placements && s.image != home :: d.placements[s] == c.placements[s])
  }

  /** A placement that is visible and whose image is there or can be sent. */
  predicate Placeable(env: Env, c: Cache, p: Placement) {
    p.clip.Some? && (p.data != [] || ImageCurrent(c, p, HomeImage(env, p)))
  }

  lemma {:induction false} ReleasePlaces(c: Cache, p: Placement, home: nat)
    requires home in c.images && c.images[home] == p.sig
    ensures var r := Release(c, p.key, home);
            && Places(c, r.cache, p, home)
            && (forall s | s in r.cache.placements :: s in c.placements && r.cache.placements[s] == c.placements[s])
            && (forall id | DeleteImage(id) in r.cmds :: id !in r.cache.images)
  {
    ReleaseEffect(c, p.key, home);
    hide Referenced;
  }

  /** One placement of the update: nothing, or its image and source as wanted, at its home slot. */
  lemma {:induction false} LegacyOneEffect(env: Env, s: LegacyPass, ps: seq<Placement>, p: Placement, viewChanged: bool)
    requires TerminalScene(env, ps) && Unobstructed(env, s.cache, ps) && p in ps
    ensures var r := LegacyOne(env, s, p, viewChanged);
            && (!Placeable(env, s.cache, p) ==> r.cache == s.cache && r.cmds == s.cmds)
            && (Placeable(env, s.cache, p) ==> Places(s.cache, r.cache, p, HomeImage(env, p)))
            && (forall x | x in r.cache.placements ::
                  || (x in s.cache.placements && r.cache.placements[x] == s.cache.placements[x])
                  || (p.clip.Some? && x == HomeSlot(env, p) && r.cache.placements[x].source == Source(p)))
            && (forall id | DeleteImage(id) in r.cmds :: DeleteImage(id) in s.cmds || id !in r.cache.images)
  {
    var i :| 0 <= i < |ps| && ps[i] == p;
    SteadyMember(env, ps, {}, i);
    HomeResolves(env, s.cache, ps, p);
    var home := HomeImage(env, p);
    hide HomeImage, ResolveSlot, WellFormed, Steady;
    if Placeable(env, s.cache, p) {
      var c2 := if ImageCurrent(s.cache, p, home) then s.cache else s.cache.(images := s.cache.images[home := p.sig]);
      ReleasePlaces(c2, p, home);
      hide Release, Referenced;
      PlacesThrough(s.cache, c2, Release(c2, p.key, home).cache, LegacyOne(env, s, p, viewChanged).cache, p, home);
    }
  }

  lemma {:induction false} PlacesThrough(c: Cache, c2: Cache, d2: Cache, d: Cache, p: Placement, home: nat)
    requires c2 == c.(images := c.images[home := p.sig]) || (c2 == c && home in c.images && c.images[home] == p.sig)
    requires Places(c2, d2, p, home)
    requires d.images == d2.images && d.sources == d2.sources
    requires forall s | s in d.placements && s.image != home :: s in d2.placements && d.placements[s] == d2.placements[s]
    ensures Places(c, d, p, home)
  {
    SameReferenced(d2, d);
    hide Referenced;
  }

  lemma {:induction false} StaysUnobstructed(env: Env, s: LegacyPass, ps: seq<Placement>, i: nat, viewChanged: bool)
    requires TerminalScene(env, ps) && Unobstructed(env, s.cache, ps) && i < |ps|
    ensures Unobstructed(env, LegacyOne(env, s, ps[i], viewChanged).cache, ps)
  {
    LegacyOneEffect(env, s, ps, ps[i], viewChanged);
    var r := LegacyOne(env, s, ps[i], viewChanged);
    hide LegacyOne, HomeImage, HomeSlot;
    forall q | q in ps
      ensures q.key.Terminal? && HomeImage(env, q) in r.cache.images ==> r.cache.images[HomeImage(env, q)] == q.sig
      ensures HomeSlot(env, q) in r.cache.placements ==> r.cache.placements[HomeSlot(env, q)].source == Source(q)
    {
      var j :| 0 <= j < |ps| && ps[j] == q;
      if i != j {
        Apart(env, ps, {}, i, j);
      }
      hide Steady;
    }
  }

  /** An image that is not there and that no later placement can send stays away. */
  lemma {:induction false} StaysGone(env: Env, s: LegacyPass, ps: seq<Placement>, i: nat, viewChanged: bool, a: nat)
    requires TerminalScene(env, ps) && Unobstructed(env, s.cache, ps) && i <= |ps| && a !in s.cache.images
    requires forall j | i <= j < |ps| :: !(ps[j].clip.Some? && ps[j].data != [] && HomeImage(env, ps[j]) == a)
    ensures a !in LegacyAll(env, s, ps[i..], viewChanged).cache.images
    decreases |ps| - i
  {
    hide LegacyOne, HomeImage, Unobstructed, TerminalScene;
    if i < |ps| {
      var r := LegacyOne(env, s, ps[i], viewChanged);
      assert ps[i..][0] == ps[i] && ps[i..][1..] == ps[i + 1..];
      LegacyOneEffect(env, s, ps, ps[i], viewChanged);
      StaysUnobstructed(env, s, ps, i, viewChanged);
      StaysGone(env, r, ps, i + 1, viewChanged, a);
    }
  }

  /** A source of the scene that uses the image it wants goes on using it. */
  lemma {:induction false} StaysMapped(env: Env, s: LegacyPass, ps: seq<Placement>, i: nat, viewChanged: bool, j: nat)
    requires TerminalScene(env, ps) && Unobstructed(env, s.cache, ps) && i <= |ps| && j < |ps|
    requires Maps(s.cache, ps[j].key, HomeImage(env, ps[j])) && HomeImage(env, ps[j]) in s.cache.images
    ensures var d := LegacyAll(env, s, ps[i..], viewChanged).cache;
            Maps(d, ps[j].key, HomeImage(env, ps[j])) && HomeImage(env, ps[j]) in d.images
    decreases |ps| - i
  {
    hide LegacyOne, HomeImage, Unobstructed, Placeable, Referenced;
    if i < |ps| {
      var r := LegacyOne(env, s, ps[i], viewChanged);
      assert ps[i..][0] == ps[i] && ps[i..][1..] == ps[i + 1..];
      LegacyOneEffect(env, s, ps, ps[i], viewChanged);
      StaysUnobstructed(env, s, ps, i, viewChanged);
      if i != j {
        Apart(env, ps, {}, i, j);
      }
      hide TerminalScene, Steady;
      KeepsMapping(s.cache, r.cache, ps[i], HomeImage(env, ps[i]), ps[j].key, HomeImage(env, ps[j]));
      StaysMapped(env, r, ps, i + 1, viewChanged, j);
    }
  }

  lemma {:induction false} KeepsMapping(c: Cache, d: Cache, p: Placement, home: nat, key: SourceKey, image: nat)
    requires d == c || Places(c, d, p, home)
    requires Maps(c, key, image) && image in c.images && (p.key == key ==> home == image)
    ensures Maps(d, key, image) && image in d.images
  {
    assert Maps(d, key, image);
    assert Referenced(d, image);
  }

  /** Once the j-th placement, visible and with pixels, had its turn, its source uses the image it wants to the end. */
  lemma {:induction false} MappedAtLast(env: Env, s: LegacyPass, ps: seq<Placement>, i: nat, viewChanged: bool, j: nat)
    requires TerminalScene(env, ps) && Unobstructed(env, s.cache, ps) && i <= j < |ps|
    requires ps[j].clip.Some? && ps[j].data != []
    ensures var d := LegacyAll(env, s, ps[i..], viewChanged).cache;
            Maps(d, ps[j].key, HomeImage(env, ps[j])) && HomeImage(env, ps[j]) in d.images
    decreases j - i
  {
    hide LegacyOne, HomeImage, Unobstructed, TerminalScene;
    var r := LegacyOne(env, s, ps[i], viewChanged);
    assert ps[i..][0] == ps[i] && ps[i..][1..] == ps[i + 1..];
    StaysUnobstructed(env, s, ps, i, viewChanged);
    if i == j {
      LegacyOneEffect(env, s, ps, ps[i], viewChanged);
      StaysMapped(env, r, ps, i + 1, viewChanged, j);
    } else {
      MappedAtLast(env, r, ps, i + 1, viewChanged, j);
    }
  }

  /** The pass as it starts: only terminal sources of the scene are kept. */
  function Started(c: Cache, ps: seq<Placement>): LegacyPass {
    var keys := set i | 0 <= i < |ps| && ps[i].key.Terminal? :: ps[i].key;
    LegacyPass(c.(sources := map k | k in c.sources && k in keys :: c.sources[k]), {}, [])
  }

  /** The pass before the i-th placement has its turn. */
  function Before(env: Env, c: Cache, ps: seq<Placement>, viewChanged: bool, i: nat): LegacyPass
    requires i <= |ps|
  {
    if i == 0 then Started(c, ps) else LegacyOne(env, Before(env, c, ps, viewChanged, i - 1), ps[i - 1], viewChanged)
  }

  /** The i-th placement, when it has its turn, makes the update delete the image. */
  predicate DeletesAt(env: Env, c: Cache, ps: seq<Placement>, viewChanged: bool, i: nat, a: nat)
    requires i < |ps|
  {
    DeleteImage(a) in LegacyOne(env, Before(env, c, ps, viewChanged, i).(cmds := []), ps[i], viewChanged).cmds
  }

  lemma {:induction false} CommandsIrrelevant(env: Env, s: LegacyPass, p: Placement, viewChanged: bool)
    ensures LegacyOne(env, s.(cmds := []), p, viewChanged).cache == LegacyOne(env, s, p, viewChanged).cache
  {
    hide ResolveSlot, Release, ImageCurrent;
  }

  lemma {:induction false} BeforeIsReached(env: Env, c: Cache, ps: seq<Placement>, viewChanged: bool, i: nat)
    requires TerminalScene(env, ps) && Unobstructed(env, c, ps) && i <= |ps|
    ensures Unobstructed(env, Before(env, c, ps, viewChanged, i).cache, ps)
    ensures LegacyPlace(env, c, ps, viewChanged) == LegacyAll(env, Before(env, c, ps, viewChanged, i), ps[i..], viewChanged)
    decreases i
  {
    hide LegacyOne, TerminalScene;
    if i == 0 {
      assert ps[0..] == ps;
    } else {
      hide Unobstructed;
      BeforeIsReached(env, c, ps, viewChanged, i - 1);
      StaysUnobstructed(env, Before(env, c, ps, viewChanged, i - 1), ps, i - 1, viewChanged);
      assert ps[i - 1..][0] == ps[i - 1] && ps[i - 1..][1..] == ps[i..];
    }
  }

  lemma {:induction false} DropSlotsKeepImages(c: Cache, order: seq<Slot>)
    ensures DropSlots(c, order).cache.images == c.images && DropSlots(c, order).cache.sources == c.sources
    decreases |order|
  {
    if order != [] {
      DropSlotsKeepImages(c.(placements := c.placements - {order[0]}), order[1..]);
    }
  }

  /** A visible placement after the i-th that has pixels and wants the image. */
  predicate WantedLater(env: Env, ps: seq<Placement>, i: nat, a: nat) {
    exists j :: i < j < |ps| && ps[j].clip.Some? && ps[j].data != [] && HomeImage(env, ps[j]) == a
  }

  /**
   Of an image that is deleted when the i-th placement has its turn, the terminal-only update leaves nothing, and no
   source uses it, unless a later visible placement that has its pixels wants it; then it is there and used.
   */
  lemma {:induction false} LegacyMapsAgainIff(
    env: Env, c: Cache, ps: seq<Placement>, viewChanged: bool, order: seq<Slot>, i: nat, a: nat)
    requires TerminalScene(env, ps) && Inv(env, c) && Unobstructed(env, c, ps)
    requires i < |ps| && DeletesAt(env, c, ps, viewChanged, i, a)
    ensures var d := Legacy(env, c, ps, viewChanged, order).cache;
            && (a in d.images <==> WantedLater(env, ps, i, a))
            && ((exists k :: Maps(d, k, a)) <==> WantedLater(env, ps, i, a))
  {
    hide *;
    var d := Legacy(env, c, ps, viewChanged, order).cache;
    var r := Before(env, c, ps, viewChanged, i + 1);
    BeforeIsReached(env, c, ps, viewChanged, i + 1);
    DeletedHere(env, c, ps, viewChanged, i, a);
    LegacyKeepsPlaced(env, c, ps, viewChanged, order);
    WantedMeans(env, ps, i, a);
    SceneIsTerminal(env, ps);
    KeptIntegrity(env, c, ps, viewChanged, order);
    MappedIsThere(env, d, a);
    if WantedLater(env, ps, i, a) {
      var j :| i < j < |ps| && ps[j].clip.Some? && ps[j].data != [] && HomeImage(env, ps[j]) == a;
      MappedAtLast(env, r, ps, i + 1, viewChanged, j);
      SameMaps(LegacyPlace(env, c, ps, viewChanged).cache, d, ps[j].key, a);
      assert Maps(d, ps[j].key, a);
    } else {
      StaysGone(env, r, ps, i + 1, viewChanged, a);
    }
  }

  lemma {:induction false} DeletedHere(env: Env, c: Cache, ps: seq<Placement>, viewChanged: bool, i: nat, a: nat)
    requires TerminalScene(env, ps) && Unobstructed(env, c, ps) && i < |ps| && DeletesAt(env, c, ps, viewChanged, i, a)
    ensures a !in Before(env, c, ps, viewChanged, i + 1).cache.images
  {
    var s := Before(env, c, ps, viewChanged, i);
    BeforeIsReached(env, c, ps, viewChanged, i);
    assert Unobstructed(env, s.(cmds := []).cache, ps);
    LegacyOneEffect(env, s.(cmds := []), ps, ps[i], viewChanged);
    CommandsIrrelevant(env, s, ps[i], viewChanged);
    hide LegacyOne, TerminalScene, Unobstructed, HomeImage, Places;
  }

  lemma {:induction false} LegacyKeepsPlaced(env: Env, c: Cache, ps: seq<Placement>, viewChanged: bool, order: seq<Slot>)
    ensures var d, placed := Legacy(env, c, ps, viewChanged, order).cache, LegacyPlace(env, c, ps, viewChanged).cache;
            d.images == placed.images && d.sources == placed.sources
  {
    DropSlotsKeepImages(LegacyPlace(env, c, ps, viewChanged).cache, order);
    hide LegacyPlace, DropSlots;
  }

  lemma {:induction false} WantedMeans(env: Env, ps: seq<Placement>, i: nat, a: nat)
    ensures WantedLater(env, ps, i, a) <==>
            exists j :: i < j < |ps| && ps[j].clip.Some? && ps[j].data != [] && HomeImage(env, ps[j]) == a
  {
    hide HomeImage;
  }

  lemma {:induction false} KeptIntegrity(env: Env, c: Cache, ps: seq<Placement>, viewChanged: bool, order: seq<Slot>)
    requires Inv(env, c) && forall p | p in ps :: WellFormed(env, p) && p.key.Terminal?
    ensures Inv(env, Legacy(env, c, ps, viewChanged, order).cache)
  {
    LegacyKeeps(env, Screen(c.images, map[]), c, ps, viewChanged, order);
    hide Legacy, Inv, WellFormed;
  }

  lemma {:induction false} MappedIsThere(env: Env, c: Cache, a: nat)
    requires Inv(env, c)
    ensures (exists k :: Maps(c, k, a)) ==> a in c.images
  {
    hide Belongs, SlotFits;
  }

  lemma {:induction false} SameMaps(c: Cache, d: Cache, key: SourceKey, image: nat)
    requires d.sources == c.sources
    ensures Maps(c, key, image) ==> Maps(d, key, image)
  {
  }

  lemma {:induction false} SceneIsTerminal(env: Env, ps: seq<Placement>)
    requires TerminalScene(env, ps)
    ensures forall p | p in ps :: WellFormed(env, p) && p.key.Terminal?
  {
    hide WellFormed;
  }
}
