/**
 What the terminal-only update leaves on screen: exactly the visible placements whose image was there or could be
 sent when they had their turn, whatever the terminal had lost if the view changed, and nothing to do a second time.
 */
module GraphicsLegacyScene {
  import opened Common
  import opened HostGraphics
  import opened GraphicsStep
  import opened GraphicsAgreement
  import opened GraphicsRuns
  import opened GraphicsDrain
  import opened GraphicsLegacy

  /** Recorded as wanted, with its image, and used by its source. */
  predicate Shown(env: Env, c: Cache, p: Placement) {
    && p.clip.Some? && ImageCurrent(c, p, HomeImage(env, p)) && Maps(c, p.key, HomeImage(env, p))
    && HomeSlot(env, p) in c.placements && c.placements[HomeSlot(env, p)] == Sig(p)
  }

  /** One placement's turn: it is shown if it can be, and takes nothing away but placements of a dropped image. */
  ghost predicate Turned(env: Env, s: LegacyPass, r: LegacyPass, p: Placement) {
    var slot := HomeSlot(env, p);
    && (Placeable(env, s.cache, p) ==> Shown(env, r.cache, p) && slot in r.current)
    && (forall x | x in s.cache.placements && x != slot && x.image in r.cache.images ::
          x in r.cache.placements && r.cache.placements[x] == s.cache.placements[x])
    && (forall x | x in r.cache.placements :: x in s.cache.placements || (x == slot && Placeable(env, s.cache, p)))
    && (forall x | x in s.current && x in s.cache.placements && x.image in r.cache.images :: x in r.current)
    && (forall x | x in r.current :: x in s.current || (x == slot && p.clip.Some?))
  }

  lemma {:induction false} ReleaseKeepsSlots(s: LegacyPass, key: SourceKey, image: nat)
    requires image in s.cache.images
    ensures var r := LegacyRelease(s, key, image);
            && image in r.cache.images && r.cache.images[image] == s.cache.images[image]
            && r.cache.sources == s.cache.sources[key := image]
            && (forall x | x in s.cache.placements && x.image in r.cache.images ::
                  x in r.cache.placements && r.cache.placements[x] == s.cache.placements[x])
            && (forall x | x in r.cache.placements :: x in s.cache.placements)
            && (forall x | x in s.current && (x.image in r.cache.images || x !in s.cache.placements) :: x in r.current)
            && r.current <= s.current
  {
    hide Referenced;
  }

  /** The pass once the image is there: the slot is wanted and the image, if it was not there, was sent. */
  function Sent(env: Env, s: LegacyPass, p: Placement): LegacyPass {
    var home := HomeImage(env, p);
    var s1 := s.(current := s.current + {HomeSlot(env, p)});
    if ImageCurrent(s.cache, p, home) then s1
    else s1.(cache := s.cache.(images := s.cache.images[home := p.sig]), cmds := s.cmds + [Upload(home, p.sig, p.data)])
  }

  /** What a turn comes to: nothing for a hidden placement, a wanted slot without an image, or the release and the record. */
  lemma {:induction false} TurnIs(env: Env, s: LegacyPass, p: Placement, viewChanged: bool)
    requires ResolveSlot(env, s.cache, p) == if p.clip.Some? then Some(HomeSlot(env, p)) else None
    ensures var r := LegacyOne(env, s, p, viewChanged);
            if !p.clip.Some? then r == s
            else if !Placeable(env, s.cache, p) then r == s.(current := s.current + {HomeSlot(env, p)})
            else
              var released := LegacyRelease(Sent(env, s, p), p.key, HomeImage(env, p));
              && r.current == released.current
              && r.cache == released.cache.(placements := released.cache.placements[HomeSlot(env, p) := Sig(p)])
  {
    hide ResolveSlot, LegacyRelease, ImageCurrent, HomeImage;
    assert HomeSlot(env, p).image == HomeImage(env, p);
    hide HomeSlot;
    if p.clip.Some? && Placeable(env, s.cache, p) {
      var released := LegacyRelease(Sent(env, s, p), p.key, HomeImage(env, p));
      var shown := released.cache.placements;
      assert HomeSlot(env, p) in shown && shown[HomeSlot(env, p)] == Sig(p) ==> shown[HomeSlot(env, p) := Sig(p)] == shown;
    }
  }

  lemma {:induction false} LegacyTurn(env: Env, s: LegacyPass, ps: seq<Placement>, p: Placement, viewChanged: bool)
    requires TerminalScene(env, ps) && Unobstructed(env, s.cache, ps) && p in ps
    ensures Turned(env, s, LegacyOne(env, s, p, viewChanged), p)
  {
    SceneIsTerminal(env, ps);
    HomeResolves(env, s.cache, ps, p);
    hide *;
    TurnIs(env, s, p, viewChanged);
    if Placeable(env, s.cache, p) {
      SentHasImage(env, s, p);
      ReleaseKeepsSlots(Sent(env, s, p), p.key, HomeImage(env, p));
      PlacedTurned(env, s, LegacyRelease(Sent(env, s, p), p.key, HomeImage(env, p)), LegacyOne(env, s, p, viewChanged), p);
    } else {
      IdleTurned(env, s, LegacyOne(env, s, p, viewChanged), p);
    }
  }

  lemma {:induction false} SentHasImage(env: Env, s: LegacyPass, p: Placement)
    ensures var sent := Sent(env, s, p);
            && HomeImage(env, p) in sent.cache.images && sent.cache.images[HomeImage(env, p)] == p.sig
            && sent.cache.placements == s.cache.placements && sent.cache.sources == s.cache.sources
            && sent.current == s.current + {HomeSlot(env, p)}
  {
    hide HomeImage, HomeSlot;
  }

  lemma {:induction false} IdleTurned(env: Env, s: LegacyPass, r: LegacyPass, p: Placement)
    requires !Placeable(env, s.cache, p) && r.cache == s.cache
    requires r.current == s.current || (p.clip.Some? && r.current == s.current + {HomeSlot(env, p)})
    ensures Turned(env, s, r, p)
  {
    hide Placeable, Shown, HomeSlot;
  }

  lemma {:induction false} PlacedTurned(env: Env, s: LegacyPass, m: LegacyPass, r: LegacyPass, p: Placement)
    requires Placeable(env, s.cache, p) && p.clip.Some?
    requires HomeImage(env, p) in m.cache.images && m.cache.images[HomeImage(env, p)] == p.sig
    requires m.cache.sources == s.cache.sources[p.key := HomeImage(env, p)]
    requires forall x | x in s.cache.placements && x.image in m.cache.images ::
               x in m.cache.placements && m.cache.placements[x] == s.cache.placements[x]
    requires forall x | x in m.cache.placements :: x in s.cache.placements
    requires var sent := s.current + {HomeSlot(env, p)};
             && (forall x | x in sent && (x.image in m.cache.images || x !in s.cache.placements) :: x in m.current)
             && m.current <= sent
    requires r.current == m.current && r.cache == m.cache.(placements := m.cache.placements[HomeSlot(env, p) := Sig(p)])
    ensures Turned(env, s, r, p)
  {
    assert HomeSlot(env, p).image == HomeImage(env, p);
    hide Placeable, HomeImage, HomeSlot;
  }

  // --- Over the whole pass ---

  lemma {:induction false} StaysShown(env: Env, s: LegacyPass, ps: seq<Placement>, i: nat, viewChanged: bool, j: nat)
    requires TerminalScene(env, ps) && Unobstructed(env, s.cache, ps) && j < i <= |ps|
    requires Shown(env, s.cache, ps[j]) && HomeSlot(env, ps[j]) in s.current
    ensures var r := LegacyAll(env, s, ps[i..], viewChanged);
            Shown(env, r.cache, ps[j]) && HomeSlot(env, ps[j]) in r.current
    decreases |ps| - i
  {
    hide *;
    if i < |ps| {
      LegacyAllStep(env, s, ps, i, viewChanged);
      ShownTurn(env, s, ps, i, viewChanged, j);
      StaysUnobstructed(env, s, ps, i, viewChanged);
      StaysShown(env, LegacyOne(env, s, ps[i], viewChanged), ps, i + 1, viewChanged, j);
    } else {
      assert ps[i..] == [];
      NobodyLeft(env, s, viewChanged);
    }
  }

  lemma {:induction false} NobodyLeft(env: Env, s: LegacyPass, viewChanged: bool)
    ensures LegacyAll(env, s, [], viewChanged) == s
  {
  }

  lemma {:induction false} ShownTurn(env: Env, s: LegacyPass, ps: seq<Placement>, i: nat, viewChanged: bool, j: nat)
    requires TerminalScene(env, ps) && Unobstructed(env, s.cache, ps) && j < i < |ps|
    requires Shown(env, s.cache, ps[j]) && HomeSlot(env, ps[j]) in s.current
    ensures var r := LegacyOne(env, s, ps[i], viewChanged);
            Shown(env, r.cache, ps[j]) && HomeSlot(env, ps[j]) in r.current
  {
    SceneIsSteady(env, ps);
    hide *;
    var p := ps[i];
    assert p in ps;
    LegacyTurn(env, s, ps, p, viewChanged);
    LegacyOneEffect(env, s, ps, p, viewChanged);
    Apart(env, ps, {}, i, j);
    ShownAfter(env, s, LegacyOne(env, s, p, viewChanged), p, ps[j]);
  }

  lemma {:induction false} SceneIsSteady(env: Env, ps: seq<Placement>)
    requires TerminalScene(env, ps)
    ensures Steady(env, ps, {})
  {
    hide Steady;
  }

  lemma {:induction false} LegacyAllStep(env: Env, s: LegacyPass, ps: seq<Placement>, i: nat, viewChanged: bool)
    requires i < |ps|
    ensures LegacyAll(env, s, ps[i..], viewChanged)
         == LegacyAll(env, LegacyOne(env, s, ps[i], viewChanged), ps[i + 1..], viewChanged)
  {
    hide LegacyOne;
    assert ps[i..][0] == ps[i] && ps[i..][1..] == ps[i + 1..];
  }

  lemma {:induction false} ShownAfter(env: Env, s: LegacyPass, r: LegacyPass, p: Placement, q: Placement)
    requires Turned(env, s, r, p) && Shown(env, s.cache, q) && HomeSlot(env, q) in s.current
    requires if Placeable(env, s.cache, p) then Places(s.cache, r.cache, p, HomeImage(env, p)) else r.cache == s.cache
    requires HomeSlot(env, p) != HomeSlot(env, q)
    requires HomeImage(env, p) == HomeImage(env, q) ==> p.sig == q.sig
    requires p.key == q.key ==> HomeImage(env, p) == HomeImage(env, q)
    ensures Shown(env, r.cache, q) && HomeSlot(env, q) in r.current
  {
    var home, image := HomeImage(env, p), HomeImage(env, q);
    assert HomeSlot(env, q).image == image;
    hide Placeable, HomeImage;
    if r.cache != s.cache {
      KeepsMapping(s.cache, r.cache, p, home, q.key, image);
    }
    assert image in r.cache.images && r.cache.images[image] == q.sig;
  }

  /** A slot nobody after takes stays free. */
  lemma {:induction false} StaysFree(env: Env, s: LegacyPass, ps: seq<Placement>, i: nat, viewChanged: bool, x: Slot)
    requires TerminalScene(env, ps) && Unobstructed(env, s.cache, ps) && i <= |ps|
    requires x !in s.cache.placements && forall k | i <= k < |ps| :: HomeSlot(env, ps[k]) != x
    ensures x !in LegacyAll(env, s, ps[i..], viewChanged).cache.placements
    decreases |ps| - i
  {
    if i < |ps| {
      assert ps[i..][0] == ps[i] && ps[i..][1..] == ps[i + 1..];
      LegacyTurn(env, s, ps, ps[i], viewChanged);
      StaysUnobstructed(env, s, ps, i, viewChanged);
      hide LegacyOne, Unobstructed, TerminalScene;
      StaysFree(env, LegacyOne(env, s, ps[i], viewChanged), ps, i + 1, viewChanged, x);
    }
  }

  lemma {:induction false} CurrentIsScene(env: Env, s: LegacyPass, ps: seq<Placement>, i: nat, viewChanged: bool)
    requires TerminalScene(env, ps) && Unobstructed(env, s.cache, ps) && i <= |ps|
    ensures LegacyAll(env, s, ps[i..], viewChanged).current <= s.current + HomeSlots(env, ps)
    decreases |ps| - i
  {
    if i < |ps| {
      assert ps[i..][0] == ps[i] && ps[i..][1..] == ps[i + 1..];
      LegacyTurn(env, s, ps, ps[i], viewChanged);
      StaysUnobstructed(env, s, ps, i, viewChanged);
      hide LegacyOne, Unobstructed, TerminalScene;
      CurrentIsScene(env, LegacyOne(env, s, ps[i], viewChanged), ps, i + 1, viewChanged);
      if ps[i].clip.Some? {
        assert HomeSlot(env, ps[i]) in HomeSlots(env, ps);
      }
    }
  }

  /** A terminal that holds the images and shows nothing mirrors the cache. */
  lemma {:induction false} EmptyMirrors(c: Cache)
    ensures Mirrors(Screen(c.images, map[]), c)
  {
  }

  lemma {:induction false} TurnKeepsInv(env: Env, s: LegacyPass, p: Placement, viewChanged: bool)
    requires WellFormed(env, p) && p.key.Terminal? && Inv(env, s.cache)
    ensures Inv(env, LegacyOne(env, s, p, viewChanged).cache)
  {
    hide *;
    EmptyMirrors(s.cache);
    TurnKeeps(env, Screen(s.cache.images, map[]), s, p, viewChanged);
  }

  lemma {:induction false} StartedKeepsInv(env: Env, c: Cache, ps: seq<Placement>, viewChanged: bool)
    requires Inv(env, c)
    ensures Inv(env, Before(env, c, ps, viewChanged, 0).cache)
  {
    hide Belongs, SlotFits;
  }

  lemma {:induction false} BeforeKeepsInv(env: Env, c: Cache, ps: seq<Placement>, viewChanged: bool, i: nat)
    requires TerminalScene(env, ps) && Inv(env, c) && i <= |ps|
    ensures Inv(env, Before(env, c, ps, viewChanged, i).cache)
    decreases i
  {
    hide *;
    if i > 0 {
      BeforeKeepsInv(env, c, ps, viewChanged, i - 1);
      BeforeNext(env, c, ps, viewChanged, i - 1);
      MemberIsTerminal(env, ps, i - 1);
      TurnKeepsInv(env, Before(env, c, ps, viewChanged, i - 1), ps[i - 1], viewChanged);
    } else {
      StartedKeepsInv(env, c, ps, viewChanged);
    }
  }

  lemma {:induction false} MemberIsTerminal(env: Env, ps: seq<Placement>, i: nat)
    requires TerminalScene(env, ps) && i < |ps|
    ensures WellFormed(env, ps[i]) && ps[i].key.Terminal?
  {
    SceneIsTerminal(env, ps);
    hide TerminalScene, WellFormed;
  }

  /** A pass with what it emitted so far set aside. */
  function Fresh(s: LegacyPass): LegacyPass {
    s.(cmds := [])
  }

  /** Releasing only appends to what was emitted. */
  lemma {:induction false} ReleaseAppends(s: LegacyPass, before: seq<Cmd>, key: SourceKey, image: nat)
    ensures var r := LegacyRelease(s, key, image);
            LegacyRelease(s.(cmds := before + s.cmds), key, image) == r.(cmds := before + r.cmds)
  {
    var released := Release(s.cache, key, image);
    assert before + s.cmds + released.cmds == before + (s.cmds + released.cmds);
    hide Release;
  }

  lemma {:induction false} FreshTurn(env: Env, s: LegacyPass, p: Placement, viewChanged: bool)
    ensures var r, f := LegacyOne(env, s, p, viewChanged), LegacyOne(env, Fresh(s), p, viewChanged);
            r.cache == f.cache && r.current == f.current && r.cmds == s.cmds + f.cmds
  {
    var resolved := ResolveSlot(env, s.cache, p);
    assert resolved.Some? ==> p.clip.Some?;
    hide ResolveSlot, LegacyRelease, ImageCurrent;
    assert s.cmds + [] == s.cmds;
    if resolved.Some? {
      var slot := resolved.value;
      var wanted := s.current + {slot};
      if ImageCurrent(s.cache, p, slot.image) {
        ReleaseAppends(LegacyPass(s.cache, wanted, []), s.cmds, p.key, slot.image);
        DisplayAppends(s.cmds, LegacyRelease(LegacyPass(s.cache, wanted, []), p.key, slot.image).cmds, slot, Sig(p).geometry);
      } else if p.data != [] {
        var sent := s.cache.(images := s.cache.images[slot.image := p.sig]);
        var upload := [Upload(slot.image, p.sig, p.data)];
        assert [] + upload == upload;
        ReleaseAppends(LegacyPass(sent, wanted, upload), s.cmds, p.key, slot.image);
        DisplayAppends(s.cmds, LegacyRelease(LegacyPass(sent, wanted, upload), p.key, slot.image).cmds, slot, Sig(p).geometry);
      }
    }
  }

  lemma {:induction false} DisplayAppends(before: seq<Cmd>, cmds: seq<Cmd>, slot: Slot, g: Geometry)
    ensures (before + cmds) + [Display(slot, g)] == before + (cmds + [Display(slot, g)])
  {
  }

  /** One turn keeps both sides in step. */
  lemma {:induction false} TurnKeeps(env: Env, t: Screen, s: LegacyPass, p: Placement, viewChanged: bool)
    requires WellFormed(env, p) && p.key.Terminal? && Inv(env, s.cache) && Mirrors(t, s.cache)
    ensures var f := LegacyOne(env, Fresh(s), p, viewChanged);
            var t' := ExecuteAll(t, f.cmds);
            && f.cache == LegacyOne(env, s, p, viewChanged).cache
            && Inv(env, f.cache) && Mirrors(t', f.cache) && Missing(t', f.cache) <= Missing(t, s.cache)
  {
    FreshTurn(env, s, p, viewChanged);
    hide LegacyOne, Inv, Mirrors, WellFormed;
    LegacyOneKeeps(env, t, s.cache, Fresh(s), p, viewChanged);
  }

  lemma {:induction false} DropSlotsRemoves(c: Cache, order: seq<Slot>)
    ensures var d := DropSlots(c, order).cache;
            && d == c.(placements := d.placements)
            && (forall x :: x in d.placements <==> x in c.placements && x !in order)
            && (forall x | x in d.placements :: d.placements[x] == c.placements[x])
    decreases |order|
  {
    if order != [] {
      DropSlotsRemoves(c.(placements := c.placements - {order[0]}), order[1..]);
    }
  }

  /** What the update ends with: the placing pass without its stale placements. */
  lemma {:induction false} StaleGoes(env: Env, c: Cache, ps: seq<Placement>, viewChanged: bool, order: seq<Slot>)
    requires Enumerates(order, LegacyStale(LegacyPlace(env, c, ps, viewChanged)))
    ensures var s, d := LegacyPlace(env, c, ps, viewChanged), Legacy(env, c, ps, viewChanged, order).cache;
            && d == s.cache.(placements := d.placements)
            && (forall x :: x in d.placements <==> x in s.cache.placements && x in s.current)
            && (forall x | x in d.placements :: d.placements[x] == s.cache.placements[x])
  {
    DropSlotsRemoves(LegacyPlace(env, c, ps, viewChanged).cache, order);
    hide LegacyPlace, DropSlots;
  }

  // --- The laws ---

  /**
   A visible placement is shown in the end if and only if its image was there, or its pixels were, when it had its
   turn; then it is recorded as wanted, its image is its own, and its source uses that image.
   */
  lemma {:induction false} LegacyShowsIff(
    env: Env, c: Cache, ps: seq<Placement>, viewChanged: bool, order: seq<Slot>, j: nat)
    requires TerminalScene(env, ps) && Inv(env, c) && Unobstructed(env, c, ps)
    requires Enumerates(order, LegacyStale(LegacyPlace(env, c, ps, viewChanged)))
    requires j < |ps| && ps[j].clip.Some?
    ensures var d := Legacy(env, c, ps, viewChanged, order).cache;
            var here := Before(env, c, ps, viewChanged, j).cache;
            && (HomeSlot(env, ps[j]) in d.placements <==> Placeable(env, here, ps[j]))
            && (Placeable(env, here, ps[j]) ==> Shown(env, d, ps[j]))
  {
    hide *;
    var s := Before(env, c, ps, viewChanged, j);
    var r := Before(env, c, ps, viewChanged, j + 1);
    BeforeIsReached(env, c, ps, viewChanged, j);
    BeforeIsReached(env, c, ps, viewChanged, j + 1);
    BeforeNext(env, c, ps, viewChanged, j);
    LegacyTurn(env, s, ps, ps[j], viewChanged);
    StaleGoes(env, c, ps, viewChanged, order);
    if Placeable(env, s.cache, ps[j]) {
      TurnedShows(env, s, r, ps[j]);
      StaysShown(env, r, ps, j + 1, viewChanged, j);
      ShownWithoutStale(env, LegacyPlace(env, c, ps, viewChanged), Legacy(env, c, ps, viewChanged, order).cache, ps[j]);
    } else {
      BeforeKeepsInv(env, c, ps, viewChanged, j);
      NotPlaceableIsFree(env, s, r, ps, ps[j]);
      OthersApart(env, ps, j);
      StaysFree(env, r, ps, j + 1, viewChanged, HomeSlot(env, ps[j]));
    }
  }

  lemma {:induction false} BeforeNext(env: Env, c: Cache, ps: seq<Placement>, viewChanged: bool, j: nat)
    requires j < |ps|
    ensures Before(env, c, ps, viewChanged, j + 1) == LegacyOne(env, Before(env, c, ps, viewChanged, j), ps[j], viewChanged)
  {
    hide LegacyOne;
  }

  lemma {:induction false} TurnedShows(env: Env, s: LegacyPass, r: LegacyPass, p: Placement)
    requires Turned(env, s, r, p) && Placeable(env, s.cache, p)
    ensures Shown(env, r.cache, p) && HomeSlot(env, p) in r.current
  {
    hide Shown, Placeable, HomeImage;
  }

  lemma {:induction false} ShownWithoutStale(env: Env, s: LegacyPass, d: Cache, p: Placement)
    requires Shown(env, s.cache, p) && HomeSlot(env, p) in s.current
    requires d == s.cache.(placements := d.placements)
    requires forall x :: x in d.placements <==> x in s.cache.placements && x in s.current
    requires forall x | x in d.placements :: d.placements[x] == s.cache.placements[x]
    ensures Shown(env, d, p) && HomeSlot(env, p) in d.placements
  {
    hide HomeImage;
  }

  lemma {:induction false} NotPlaceableIsFree(env: Env, s: LegacyPass, r: LegacyPass, ps: seq<Placement>, p: Placement)
    requires Turned(env, s, r, p) && !Placeable(env, s.cache, p) && p.clip.Some? && p in ps
    requires TerminalScene(env, ps) && Unobstructed(env, s.cache, ps) && Inv(env, s.cache)
    ensures HomeSlot(env, p) !in r.cache.placements
  {
    assert HomeSlot(env, p).image == HomeImage(env, p);
    hide HomeImage, Steady, Belongs, SlotFits;
  }

  lemma {:induction false} OthersApart(env: Env, ps: seq<Placement>, j: nat)
    requires TerminalScene(env, ps) && j < |ps|
    ensures forall k | j < k < |ps| :: HomeSlot(env, ps[k]) != HomeSlot(env, ps[j])
  {
    forall k | j < k < |ps| ensures HomeSlot(env, ps[k]) != HomeSlot(env, ps[j]) {
      Apart(env, ps, {}, k, j);
    }
  }

  /** Nothing else is left: every slot in use at the end is that of a visible placement that was shown. */
  lemma {:induction false} LegacyLeavesTheScene(
    env: Env, c: Cache, ps: seq<Placement>, viewChanged: bool, order: seq<Slot>)
    requires TerminalScene(env, ps) && Inv(env, c) && Unobstructed(env, c, ps)
    requires Enumerates(order, LegacyStale(LegacyPlace(env, c, ps, viewChanged)))
    ensures var d := Legacy(env, c, ps, viewChanged, order).cache;
            forall x | x in d.placements ::
              exists j :: 0 <= j < |ps| && ps[j].clip.Some? && HomeSlot(env, ps[j]) == x
                          && Placeable(env, Before(env, c, ps, viewChanged, j).cache, ps[j])
  {
    hide *;
    var d := Legacy(env, c, ps, viewChanged, order).cache;
    BeforeIsReached(env, c, ps, viewChanged, 0);
    CurrentIsScene(env, Before(env, c, ps, viewChanged, 0), ps, 0, viewChanged);
    StartsEmpty(env, c, ps, viewChanged);
    StaleGoes(env, c, ps, viewChanged, order);
    forall x | x in d.placements
      ensures exists j :: 0 <= j < |ps| && ps[j].clip.Some? && HomeSlot(env, ps[j]) == x
                          && Placeable(env, Before(env, c, ps, viewChanged, j).cache, ps[j])
    {
      assert x in HomeSlots(env, ps);
      var j := SlotOfScene(env, ps, x);
      LegacyShowsIff(env, c, ps, viewChanged, order, j);
    }
  }

  lemma {:induction false} StartsEmpty(env: Env, c: Cache, ps: seq<Placement>, viewChanged: bool)
    ensures Before(env, c, ps, viewChanged, 0).current == {}
  {
  }

  lemma {:induction false} SlotOfScene(env: Env, ps: seq<Placement>, x: Slot) returns (j: nat)
    requires x in HomeSlots(env, ps)
    ensures j < |ps| && ps[j].clip.Some? && HomeSlot(env, ps[j]) == x
  {
    hide HomeSlot;
    j :| 0 <= j < |ps| && ps[j].clip.Some? && HomeSlot(env, ps[j]) == x;
  }

  // --- The terminal ---

  /** A change of view draws a placement again whatever was there. */
  lemma {:induction false} TurnRedraws(env: Env, t: Screen, s: LegacyPass, ps: seq<Placement>, p: Placement)
    requires TerminalScene(env, ps) && Unobstructed(env, s.cache, ps) && p in ps && Placeable(env, s.cache, p)
    requires Inv(env, s.cache) && Mirrors(t, s.cache)
    ensures var f := LegacyOne(env, Fresh(s), p, true);
            HomeSlot(env, p) !in Missing(ExecuteAll(t, f.cmds), f.cache)
  {
    SceneIsTerminal(env, ps);
    TurnKeeps(env, t, s, p, true);
    EndsWithDisplay(env, s, ps, p);
    var f := LegacyOne(env, Fresh(s), p, true);
    var slot := HomeSlot(env, p);
    hide LegacyOne, TerminalScene, Unobstructed, WellFormed, Placeable, Inv;
    var show := Display(slot, Sig(p).geometry);
    ExecuteAllAppend(t, f.cmds[..|f.cmds| - 1], [show]);
    assert f.cmds == f.cmds[..|f.cmds| - 1] + [show];
    var t1 := ExecuteAll(t, f.cmds[..|f.cmds| - 1]);
    One(t1, show);
    assert Execute(t1, show).images == t1.images;
  }

  lemma {:induction false} EndsWithDisplay(env: Env, s: LegacyPass, ps: seq<Placement>, p: Placement)
    requires TerminalScene(env, ps) && Unobstructed(env, s.cache, ps) && p in ps && Placeable(env, s.cache, p)
    ensures var f := LegacyOne(env, Fresh(s), p, true);
            && f.cmds != [] && f.cmds[|f.cmds| - 1] == Display(HomeSlot(env, p), Sig(p).geometry)
            && HomeSlot(env, p).image in f.cache.images
  {
    SceneIsTerminal(env, ps);
    HomeResolves(env, s.cache, ps, p);
    LegacyOneEffect(env, Fresh(s), ps, p, true);
    assert HomeSlot(env, p).image == HomeImage(env, p);
    hide ResolveSlot, HomeImage, HomeSlot, TerminalScene, Unobstructed, WellFormed, Release, Referenced;
  }

  lemma {:induction false} PassRedraws(env: Env, t: Screen, s: LegacyPass, ps: seq<Placement>, i: nat, viewChanged: bool)
    requires TerminalScene(env, ps) && Unobstructed(env, s.cache, ps) && i <= |ps|
    requires Inv(env, s.cache) && Mirrors(t, s.cache)
    ensures var r := LegacyAll(env, Fresh(s), ps[i..], viewChanged);
            var t' := ExecuteAll(t, r.cmds);
            && Inv(env, r.cache) && Mirrors(t', r.cache) && Missing(t', r.cache) <= Missing(t, s.cache)
    decreases |ps| - i
  {
    if i < |ps| {
      assert ps[i..][0] == ps[i] && ps[i..][1..] == ps[i + 1..];
      SceneIsTerminal(env, ps);
      StaysUnobstructed(env, Fresh(s), ps, i, viewChanged);
      TurnKeeps(env, t, s, ps[i], viewChanged);
      hide LegacyOne, Unobstructed, TerminalScene, WellFormed, Inv, Mirrors;
      var f := LegacyOne(env, Fresh(s), ps[i], viewChanged);
      PassRedraws(env, ExecuteAll(t, f.cmds), f, ps, i + 1, viewChanged);
      FreshPass(env, f, ps[i + 1..], viewChanged);
      ExecuteAllAppend(t, f.cmds, LegacyAll(env, Fresh(f), ps[i + 1..], viewChanged).cmds);
    }
  }

  lemma {:induction false} FreshPass(env: Env, s: LegacyPass, ps: seq<Placement>, viewChanged: bool)
    ensures var r, f := LegacyAll(env, s, ps, viewChanged), LegacyAll(env, Fresh(s), ps, viewChanged);
            r.cache == f.cache && r.current == f.current && r.cmds == s.cmds + f.cmds
    decreases |ps|
  {
    hide LegacyOne;
    if ps != [] {
      var r, f := LegacyOne(env, s, ps[0], viewChanged), LegacyOne(env, Fresh(s), ps[0], viewChanged);
      FreshTurn(env, s, ps[0], viewChanged);
      FreshPass(env, r, ps[1..], viewChanged);
      FreshPass(env, f, ps[1..], viewChanged);
      var more := LegacyAll(env, Fresh(r), ps[1..], viewChanged).cmds;
      assert Fresh(r) == Fresh(f);
      assert (s.cmds + f.cmds) + more == s.cmds + (f.cmds + more);
    }
  }

  /** After a change of view nothing placed from the i-th on is missing, whatever the terminal had lost. */
  lemma {:induction false} NothingMissingAfter(env: Env, t: Screen, s: LegacyPass, ps: seq<Placement>, i: nat, j: nat)
    requires TerminalScene(env, ps) && Unobstructed(env, s.cache, ps) && i <= j < |ps|
    requires Inv(env, s.cache) && Mirrors(t, s.cache)
    requires Placeable(env, Passed(env, s, ps, i, j).cache, ps[j])
    ensures var r := LegacyAll(env, Fresh(s), ps[i..], true);
            HomeSlot(env, ps[j]) !in Missing(ExecuteAll(t, r.cmds), r.cache)
    decreases |ps| - i
  {
    assert ps[i..][0] == ps[i] && ps[i..][1..] == ps[i + 1..];
    SceneIsTerminal(env, ps);
    StaysUnobstructed(env, Fresh(s), ps, i, true);
    TurnKeeps(env, t, s, ps[i], true);
    var f := LegacyOne(env, Fresh(s), ps[i], true);
    var t1 := ExecuteAll(t, f.cmds);
    if i == j {
      PassedNone(env, s, ps, i);
      TurnRedraws(env, t, s, ps, ps[i]);
    }
    hide LegacyOne, Unobstructed, TerminalScene, WellFormed, Inv, Mirrors, Placeable;
    FreshPass(env, f, ps[i + 1..], true);
    ExecuteAllAppend(t, f.cmds, LegacyAll(env, Fresh(f), ps[i + 1..], true).cmds);
    if i == j {
      PassRedraws(env, t1, f, ps, i + 1, true);
    } else {
      PassedOne(env, s, ps, i, j);
      NothingMissingAfter(env, t1, f, ps, i + 1, j);
    }
  }

  /** The pass, from before the i-th placement to before the j-th, when the view changed. */
  function Passed(env: Env, s: LegacyPass, ps: seq<Placement>, i: nat, j: nat): LegacyPass
    requires i <= j <= |ps|
  {
    LegacyAll(env, s, ps[i..j], true)
  }

  lemma {:induction false} PassedNone(env: Env, s: LegacyPass, ps: seq<Placement>, i: nat)
    requires i <= |ps|
    ensures Passed(env, s, ps, i, i) == s
  {
    assert ps[i..i] == [];
  }

  lemma {:induction false} PassedOne(env: Env, s: LegacyPass, ps: seq<Placement>, i: nat, j: nat)
    requires i < j <= |ps|
    ensures Passed(env, s, ps, i, j).cache == Passed(env, LegacyOne(env, Fresh(s), ps[i], true), ps, i + 1, j).cache
  {
    hide LegacyOne;
    assert ps[i..j][0] == ps[i] && ps[i..j][1..] == ps[i + 1..j];
    var r, f := LegacyOne(env, s, ps[i], true), LegacyOne(env, Fresh(s), ps[i], true);
    FreshTurn(env, s, ps[i], true);
    FreshPass(env, r, ps[i + 1..j], true);
    FreshPass(env, f, ps[i + 1..j], true);
    assert Fresh(r) == Fresh(f);
  }

  lemma {:induction false} PassedIsBefore(env: Env, c: Cache, ps: seq<Placement>, j: nat)
    requires j <= |ps|
    ensures Passed(env, Started(c, ps), ps, 0, j) == Before(env, c, ps, true, j)
    decreases j
  {
    hide LegacyOne;
    if j == 0 {
      PassedNone(env, Started(c, ps), ps, 0);
    } else {
      PassedIsBefore(env, c, ps, j - 1);
      assert ps[0..j] == ps[0..j - 1] + [ps[j - 1]];
      PassAppends(env, Started(c, ps), ps[0..j - 1], ps[j - 1]);
    }
  }

  lemma {:induction false} PassAppends(env: Env, s: LegacyPass, ps: seq<Placement>, p: Placement)
    ensures LegacyAll(env, s, ps + [p], true) == LegacyOne(env, LegacyAll(env, s, ps, true), p, true)
    decreases |ps|
  {
    hide LegacyOne;
    if ps == [] {
      assert ps + [p] == [p] && [p][1..] == [];
      assert LegacyAll(env, LegacyOne(env, s, p, true), [], true) == LegacyOne(env, s, p, true);
    } else {
      assert (ps + [p])[1..] == ps[1..] + [p];
      PassAppends(env, LegacyOne(env, s, ps[0], true), ps[1..], p);
    }
  }

  /**
   The terminal shows what the cache records after the update, if both agreed before or if the view changed: then
   everything is drawn again, so nothing the terminal had lost stays missing.
   */
  lemma {:induction false} LegacyShowsTheScene(
    env: Env, t: Screen, c: Cache, ps: seq<Placement>, viewChanged: bool, order: seq<Slot>)
    requires TerminalScene(env, ps) && Inv(env, c) && Unobstructed(env, c, ps) && Mirrors(t, c)
    requires Enumerates(order, LegacyStale(LegacyPlace(env, c, ps, viewChanged)))
    requires viewChanged || Agree(t, c)
    ensures var d := Legacy(env, c, ps, viewChanged, order); Agree(ExecuteAll(t, d.cmds), d.cache)
  {
    SceneIsTerminal(env, ps);
    hide *;
    var d := Legacy(env, c, ps, viewChanged, order);
    var t' := ExecuteAll(t, d.cmds);
    LegacyInStep(env, t, c, ps, viewChanged, order);
    if viewChanged {
      forall x | x in d.cache.placements ensures x !in Missing(t', d.cache) {
        LegacyLeavesTheScene(env, c, ps, viewChanged, order);
        var j: nat :| j < |ps| && ps[j].clip.Some? && HomeSlot(env, ps[j]) == x
                      && Placeable(env, Before(env, c, ps, viewChanged, j).cache, ps[j]);
        NotMissing(env, t, c, ps, order, j);
      }
    }
    AgreesWhenNothingMissing(t, c, t', d.cache, viewChanged);
  }

  lemma {:induction false} AgreesWhenNothingMissing(t: Screen, c: Cache, t': Screen, d: Cache, viewChanged: bool)
    requires Mirrors(t', d) && Missing(t', d) <= Missing(t, c)
    requires if viewChanged then forall x | x in d.placements :: x !in Missing(t', d) else Agree(t, c)
    ensures Agree(t', d)
  {
  }

  lemma {:induction false} LegacyInStep(env: Env, t: Screen, c: Cache, ps: seq<Placement>, viewChanged: bool, order: seq<Slot>)
    requires (forall p | p in ps :: WellFormed(env, p) && p.key.Terminal?) && Inv(env, c) && Mirrors(t, c)
    ensures var d := Legacy(env, c, ps, viewChanged, order);
            var t' := ExecuteAll(t, d.cmds);
            Inv(env, d.cache) && Mirrors(t', d.cache) && Missing(t', d.cache) <= Missing(t, c)
  {
    LegacyKeeps(env, t, c, ps, viewChanged, order);
    hide Legacy, Inv, Mirrors, WellFormed;
  }

  lemma {:induction false} NotMissing(env: Env, t: Screen, c: Cache, ps: seq<Placement>, order: seq<Slot>, j: nat)
    requires TerminalScene(env, ps) && Inv(env, c) && Unobstructed(env, c, ps) && Mirrors(t, c)
    requires j < |ps| && Placeable(env, Before(env, c, ps, true, j).cache, ps[j])
    ensures var d := Legacy(env, c, ps, true, order);
            HomeSlot(env, ps[j]) !in Missing(ExecuteAll(t, d.cmds), d.cache)
  {
    hide *;
    var s0 := Before(env, c, ps, true, 0);
    BeforeIsReached(env, c, ps, true, 0);
    StartedMeans(env, t, c, ps);
    PassedIsBefore(env, c, ps, j);
    assert ps[0..] == ps;
    NothingMissingAfter(env, t, s0, ps, 0, j);
    PassRedraws(env, t, s0, ps, 0, true);
    var s := LegacyPlace(env, c, ps, true);
    var t1 := ExecuteAll(t, s.cmds);
    DropSlotsKeeps(env, t1, s.cache, order);
    DroppedKeeps(env, t, t1, s, order);
    LegacyIs(env, c, ps, order);
  }

  lemma {:induction false} LegacyIs(env: Env, c: Cache, ps: seq<Placement>, order: seq<Slot>)
    ensures var s, d := LegacyPlace(env, c, ps, true), Legacy(env, c, ps, true, order);
            d.cache == DropSlots(s.cache, order).cache && d.cmds == s.cmds + DropSlots(s.cache, order).cmds
  {
    hide LegacyPlace, DropSlots;
  }

  lemma {:induction false} StartedMeans(env: Env, t: Screen, c: Cache, ps: seq<Placement>)
    requires Inv(env, c) && Mirrors(t, c)
    ensures var s := Started(c, ps);
            && Before(env, c, ps, true, 0) == s && Fresh(s) == s
            && Inv(env, s.cache) && Mirrors(t, s.cache)
  {
  }

  lemma {:induction false} DroppedKeeps(env: Env, t: Screen, t1: Screen, s: LegacyPass, order: seq<Slot>)
    requires t1 == ExecuteAll(t, s.cmds) && Inv(env, s.cache) && Mirrors(t1, s.cache)
    requires var d := DropSlots(s.cache, order); Keeps(env, t1, s.cache, ExecuteAll(t1, d.cmds), d.cache)
    ensures var d := DropSlots(s.cache, order);
            Missing(ExecuteAll(t, s.cmds + d.cmds), d.cache) <= Missing(t1, s.cache)
  {
    hide DropSlots, Inv, Mirrors;
    ExecuteAllAppend(t, s.cmds, DropSlots(s.cache, order).cmds);
  }

  // --- A second time ---

  /** The scene is on screen as wanted, and nothing else is recorded. */
  ghost predicate SceneSettled(env: Env, d: Cache, ps: seq<Placement>) {
    && (forall p | p in ps && p.clip.Some? :: Shown(env, d, p))
    && d.placements.Keys == HomeSlots(env, ps)
    && (forall k | k in d.sources :: k in DesiredKeys(ps))
  }

  /** When every visible placement could be shown, the update leaves the scene settled. */
  lemma {:induction false} LegacySettles(env: Env, c: Cache, ps: seq<Placement>, viewChanged: bool, order: seq<Slot>)
    requires TerminalScene(env, ps) && Inv(env, c) && Unobstructed(env, c, ps)
    requires Enumerates(order, LegacyStale(LegacyPlace(env, c, ps, viewChanged)))
    requires forall j | 0 <= j < |ps| && ps[j].clip.Some? :: Placeable(env, Before(env, c, ps, viewChanged, j).cache, ps[j])
    ensures SceneSettled(env, Legacy(env, c, ps, viewChanged, order).cache, ps)
  {
    hide *;
    var d := Legacy(env, c, ps, viewChanged, order).cache;
    forall p | p in ps && p.clip.Some? ensures Shown(env, d, p) && HomeSlot(env, p) in d.placements {
      var j :| 0 <= j < |ps| && ps[j] == p;
      LegacyShowsIff(env, c, ps, viewChanged, order, j);
    }
    forall x | x in HomeSlots(env, ps) ensures x in d.placements {
      var j := SlotOfScene(env, ps, x);
    }
    LegacyLeavesTheScene(env, c, ps, viewChanged, order);
    OnlySceneSlots(env, d, ps);
    SourcesOfScene(env, c, ps, viewChanged, order);
    SceneSettledMeans(env, d, ps);
  }

  lemma {:induction false} OnlySceneSlots(env: Env, d: Cache, ps: seq<Placement>)
    requires forall x | x in d.placements :: exists j :: 0 <= j < |ps| && ps[j].clip.Some? && HomeSlot(env, ps[j]) == x
    ensures forall x | x in d.placements :: x in HomeSlots(env, ps)
  {
    hide HomeSlot;
  }

  lemma {:induction false} SceneSettledMeans(env: Env, d: Cache, ps: seq<Placement>)
    requires forall p | p in ps && p.clip.Some? :: Shown(env, d, p)
    requires forall x | x in HomeSlots(env, ps) :: x in d.placements
    requires forall x | x in d.placements :: x in HomeSlots(env, ps)
    requires forall k | k in d.sources :: k in DesiredKeys(ps)
    ensures SceneSettled(env, d, ps)
  {
    hide Shown, HomeSlots;
  }

  lemma {:induction false} LegacySources(env: Env, s: LegacyPass, ps: seq<Placement>, i: nat, viewChanged: bool)
    requires TerminalScene(env, ps) && Unobstructed(env, s.cache, ps) && i <= |ps|
    requires forall k | k in s.cache.sources :: k in DesiredKeys(ps)
    ensures forall k | k in LegacyAll(env, s, ps[i..], viewChanged).cache.sources :: k in DesiredKeys(ps)
    decreases |ps| - i
  {
    if i < |ps| {
      assert ps[i..][0] == ps[i] && ps[i..][1..] == ps[i + 1..];
      LegacyOneEffect(env, s, ps, ps[i], viewChanged);
      StaysUnobstructed(env, s, ps, i, viewChanged);
      hide LegacyOne, Unobstructed, TerminalScene, HomeImage, Referenced;
      assert ps[i].key in DesiredKeys(ps);
      LegacySources(env, LegacyOne(env, s, ps[i], viewChanged), ps, i + 1, viewChanged);
    }
  }

  lemma {:induction false} SourcesOfScene(env: Env, c: Cache, ps: seq<Placement>, viewChanged: bool, order: seq<Slot>)
    requires TerminalScene(env, ps) && Unobstructed(env, c, ps)
    requires Enumerates(order, LegacyStale(LegacyPlace(env, c, ps, viewChanged)))
    ensures forall k | k in Legacy(env, c, ps, viewChanged, order).cache.sources :: k in DesiredKeys(ps)
  {
    StaleGoes(env, c, ps, viewChanged, order);
    BeforeIsReached(env, c, ps, viewChanged, 0);
    var s := Started(c, ps);
    assert Before(env, c, ps, viewChanged, 0) == s;
    assert forall k | k in s.cache.sources :: k in DesiredKeys(ps);
    hide Started, LegacyPlace, Legacy, TerminalScene, Unobstructed;
    LegacySources(env, s, ps, 0, viewChanged);
  }

  lemma {:induction false} TurnIdles(env: Env, d: Cache, current: set<Slot>, ps: seq<Placement>, p: Placement)
    requires TerminalScene(env, ps) && Unobstructed(env, d, ps) && p in ps && (p.clip.Some? ==> Shown(env, d, p))
    ensures LegacyOne(env, LegacyPass(d, current, []), p, false)
         == LegacyPass(d, if p.clip.Some? then current + {HomeSlot(env, p)} else current, [])
  {
    SceneIsTerminal(env, ps);
    HomeResolves(env, d, ps, p);
    hide ResolveSlot, HomeImage, TerminalScene, Unobstructed, WellFormed;
    if p.clip.Some? {
      var slot := HomeSlot(env, p);
      assert d.sources[p.key := slot.image] == d.sources;
      var s1 := LegacyPass(d, current + {slot}, []);
      assert LegacyRelease(s1, p.key, slot.image) == s1;
      hide LegacyRelease;
    }
  }

  lemma {:induction false} PassIdles(env: Env, d: Cache, current: set<Slot>, ps: seq<Placement>, i: nat)
    requires TerminalScene(env, ps) && Unobstructed(env, d, ps) && i <= |ps|
    requires forall p | p in ps && p.clip.Some? :: Shown(env, d, p)
    ensures var r := LegacyAll(env, LegacyPass(d, current, []), ps[i..], false);
            && r.cache == d && r.cmds == [] && current <= r.current
            && (forall k | i <= k < |ps| && ps[k].clip.Some? :: HomeSlot(env, ps[k]) in r.current)
    decreases |ps| - i
  {
    if i < |ps| {
      assert ps[i..][0] == ps[i] && ps[i..][1..] == ps[i + 1..];
      TurnIdles(env, d, current, ps, ps[i]);
      hide LegacyOne, Unobstructed, TerminalScene, HomeSlot, Shown;
      PassIdles(env, d, if ps[i].clip.Some? then current + {HomeSlot(env, ps[i])} else current, ps, i + 1);
    }
  }

  lemma {:induction false} SourcesStay(env: Env, d: Cache, ps: seq<Placement>)
    requires (forall p | p in ps :: p.key.Terminal?) && forall k | k in d.sources :: k in DesiredKeys(ps)
    ensures Started(d, ps) == LegacyPass(d, {}, [])
  {
    var keys := set i | 0 <= i < |ps| && ps[i].key.Terminal? :: ps[i].key;
    forall k | k in d.sources ensures k in keys {
      var i :| 0 <= i < |ps| && ps[i].key == k;
    }
    assert (map k | k in d.sources && k in keys :: d.sources[k]) == d.sources;
  }

  lemma {:induction false} SettledParts(env: Env, d: Cache, ps: seq<Placement>)
    requires SceneSettled(env, d, ps)
    ensures forall p | p in ps && p.clip.Some? :: Shown(env, d, p)
    ensures d.placements.Keys == HomeSlots(env, ps)
    ensures forall k | k in d.sources :: k in DesiredKeys(ps)
  {
    hide Shown, HomeSlots, DesiredKeys;
  }

  lemma {:induction false} NothingStaleIn(env: Env, s: LegacyPass, ps: seq<Placement>)
    requires s.cache.placements.Keys == HomeSlots(env, ps)
    requires forall k | 0 <= k < |ps| && ps[k].clip.Some? :: HomeSlot(env, ps[k]) in s.current
    ensures LegacyStale(s) == {}
  {
    hide HomeSlot;
  }

  lemma {:induction false} LegacyOfIdle(env: Env, d: Cache, ps: seq<Placement>)
    requires var s := LegacyPlace(env, d, ps, false); s.cache == d && s.cmds == []
    ensures Legacy(env, d, ps, false, []) == Delta(d, [])
  {
    hide LegacyPlace;
  }

  /** A settled scene is left alone: nothing is stale, nothing is sent and nothing changes. */
  lemma {:induction false} LegacyIsQuiescent(env: Env, d: Cache, ps: seq<Placement>)
    requires TerminalScene(env, ps) && Unobstructed(env, d, ps) && SceneSettled(env, d, ps)
    ensures LegacyStale(LegacyPlace(env, d, ps, false)) == {}
    ensures Legacy(env, d, ps, false, []) == Delta(d, [])
  {
    SceneIsTerminal(env, ps);
    hide *;
    SettledParts(env, d, ps);
    SourcesStay(env, d, ps);
    PassIdles(env, d, {}, ps, 0);
    assert ps[0..] == ps;
    BeforeIsReached(env, d, ps, false, 0);
    StartsSo(env, d, ps, false);
    NothingStaleIn(env, LegacyPlace(env, d, ps, false), ps);
    LegacyOfIdle(env, d, ps);
  }

  lemma {:induction false} StartsSo(env: Env, c: Cache, ps: seq<Placement>, viewChanged: bool)
    ensures Before(env, c, ps, viewChanged, 0) == Started(c, ps)
  {
  }
}
