/**
 What each cache operation does, as a function from cache to cache and emitted commands.
 The class in `GraphicsCache` runs the loops; these functions are what it is proved against.
 */
module GraphicsStep {
  import opened Common
  import opened HostGraphics

  datatype Delta = Delta(cache: Cache, cmds: seq<Cmd>)

  /** State of one incremental call between phases; `stopped` is an early `incomplete` return. */
  datatype Pass = Pass(cache: Cache, cmds: seq<Cmd>, emitted: bool, stopped: bool, skipped: bool)

  datatype Encoded = Encoded(cache: Cache, cmds: seq<Cmd>, incomplete: bool, skippedOversized: bool)

  // --- Shared pieces ---

  /** Forget an image and everything drawn from it; `sources` is not touched. */
  function DropImage(c: Cache, id: nat): Cache {
    c.(images := c.images - {id},
       placements := WithoutImage(c.placements, id),
       replayed := WithoutSlots(c.replayed, id))
  }

  predicate Referenced(c: Cache, id: nat) {
    exists k | k in c.sources :: c.sources[k] == id
  }

  predicate ImageCurrent(c: Cache, p: Placement, image: nat) {
    image in c.images && c.images[image] == p.sig
  }

  predicate PlacementCurrent(c: Cache, p: Placement, slot: Slot)
    requires p.clip.Some?
  {
    slot in c.placements && c.placements[slot] == Sig(p) && (!c.replay || slot in c.replayed)
  }

  predicate Maps(c: Cache, key: SourceKey, image: nat) {
    key in c.sources && c.sources[key] == image
  }

  /** Point `key` at `image`, deleting the image it used before if nothing else uses it. */
  function Release(c: Cache, key: SourceKey, image: nat): Delta {
    var c1 := c.(sources := c.sources[key := image]);
    if key !in c.sources || c.sources[key] == image || Referenced(c1, c.sources[key]) then Delta(c1, [])
    else Delta(DropImage(c1, c.sources[key]), [DeleteImage(c.sources[key])])
  }

  /** Make the terminal hold the placement's pixels; fails when there are none to send. */
  function Transmit(c: Cache, p: Placement, slot: Slot): Option<Delta>
    requires p.clip.Some?
  {
    if ImageCurrent(c, p, slot.image) then Some(Delta(c, []))
    else if p.data == [] then None
    else if slot.image in c.images && p.key.PaneLayer? then
      Some(Delta(c.(images := c.images[slot.image := p.sig]),
                 [TransmitAndDisplay(slot, p.sig, Sig(p).geometry, p.data)]))
    else if slot.image in c.images then
      var c1 := c.(placements := WithoutImage(c.placements, slot.image),
                   replayed := WithoutSlots(c.replayed, slot.image),
                   images := c.images[slot.image := p.sig]);
      Some(Delta(c1, [DeleteImage(slot.image), Upload(slot.image, p.sig, p.data)]))
    else
      Some(Delta(c.(images := c.images[slot.image := p.sig]), [Upload(slot.image, p.sig, p.data)]))
  }

  predicate ReplacesInPlace(c: Cache, p: Placement, slot: Slot) {
    !ImageCurrent(c, p, slot.image) && slot.image in c.images && p.key.PaneLayer?
  }

  /** `encode_placement_update` once the slot is known and something is out of date. */
  function UpdateAt(c: Cache, p: Placement, slot: Slot): Option<Delta>
    requires p.clip.Some?
  {
    var sent := Transmit(c, p, slot);
    if sent.None? then None
    else
      var released := Release(sent.value.cache, p.key, slot.image);
      var shown :=
        if !ReplacesInPlace(c, p, slot) && !PlacementCurrent(c, p, slot)
        then [Display(slot, Sig(p).geometry)] else [];
      var c1 := released.cache;
      Some(Delta(
        c1.(placements := c1.placements[slot := Sig(p)],
            replayed := if c1.replay then c1.replayed + {slot} else c1.replayed),
        sent.value.cmds + released.cmds + shown))
  }

  /** `encode_placement_update`: nothing when the placement is hidden, unplaceable, current or unsendable. */
  function Update(env: Env, c: Cache, p: Placement): Option<Delta> {
    var slot := ResolveSlot(env, c, p);
    if slot.None? then None
    else if ImageCurrent(c, p, slot.value.image) && PlacementCurrent(c, p, slot.value)
            && Maps(c, p.key, slot.value.image) then None
    else UpdateAt(c, p, slot.value)
  }

  // --- The incremental call ---

  function DesiredKeys(ps: seq<Placement>): set<SourceKey> {
    set i | 0 <= i < |ps| :: ps[i].key
  }

  function DesiredSlots(env: Env, c: Cache, ps: seq<Placement>): set<Slot> {
    set i | 0 <= i < |ps| && ResolveSlot(env, c, ps[i]).Some? :: ResolveSlot(env, c, ps[i]).value
  }

  function DesiredImages(slots: set<Slot>): set<nat> {
    set s | s in slots :: s.image
  }

  function IndexOf(ps: seq<Placement>, source: PlacementSource): (r: Option<nat>)
    ensures r.Some? ==> r.value < |ps| && Source(ps[r.value]) == source
    ensures r.None? ==> forall i | 0 <= i < |ps| :: Source(ps[i]) != source
  {
    if ps == [] then None
    else if Source(ps[0]) == source then Some(0)
    else
      var rest := IndexOf(ps[1..], source);
      if rest.None? then None else Some(rest.value + 1)
  }

  /** Where the placement pass resumes: after the placement served last, else at the saved index. */
  function StartIndex(c: Cache, ps: seq<Placement>): (r: nat)
    ensures ps != [] ==> r < |ps|
  {
    var n := if ps == [] then 1 else |ps|;
    if c.continuation.None? then 0
    else
      var found := IndexOf(ps, c.continuation.value.source);
      (if found.Some? then found.value + 1 else c.continuation.value.index) % n
  }

  function DeadSources(c: Cache, live: set<SourceKey>): set<SourceKey> {
    set k | k in c.sources && k.PaneLayer? && k !in live
  }

  predicate LastReference(c: Cache, key: SourceKey, desired: set<nat>)
    requires key in c.sources
  {
    (forall k | k in c.sources && k != key :: c.sources[k] != c.sources[key]) && c.sources[key] !in desired
  }

  function SweepDead(s: Pass, dead: seq<SourceKey>, desired: set<nat>): Pass
    requires forall k | k in dead :: k in s.cache.sources
    requires forall i, j | 0 <= i < j < |dead| :: dead[i] != dead[j]
    decreases |dead|
  {
    if dead == [] then s
    else
      var key := dead[0];
      var image := s.cache.sources[key];
      var last := LastReference(s.cache, key, desired);
      if s.emitted && last then s.(stopped := true)
      else
        var c1 := s.cache.(sources := s.cache.sources - {key});
        var next :=
          if last
          then s.(cache := DropImage(c1, image), cmds := s.cmds + [DeleteImage(image)], emitted := true)
          else s.(cache := c1);
        SweepDead(next, dead[1..], desired)
  }

  /** Drop terminal sources and oversized marks nobody asks for any more. */
  function Prune(c: Cache, keys: set<SourceKey>, live: set<SourceKey>): Cache {
    c.(sources := map k | k in c.sources && (k.PaneLayer? || k in keys) :: c.sources[k],
       oversized := map k | k in c.oversized && (k in live || k in keys) :: c.oversized[k])
  }

  function OrphanImages(c: Cache, live: set<SourceKey>, desired: set<nat>): set<nat> {
    if live == {} then {}
    else set id | id in c.images && !Referenced(c, id) && id !in desired
  }

  function SweepOrphans(s: Pass, orphans: seq<nat>): Pass
    decreases |orphans|
  {
    if orphans == [] then s
    else if s.emitted then s.(stopped := true)
    else
      SweepOrphans(
        s.(cache := DropImage(s.cache, orphans[0]), cmds := s.cmds + [DeleteImage(orphans[0])], emitted := true),
        orphans[1..])
  }

  function StaleSlots(c: Cache, desired: set<Slot>): set<Slot> {
    set s | s in c.placements && s !in desired
  }

  function DropSlot(c: Cache, slot: Slot): Cache {
    c.(placements := c.placements - {slot}, replayed := c.replayed - {slot})
  }

  function SweepStale(s: Pass, stale: seq<Slot>): Pass
    decreases |stale|
  {
    if stale == [] then s
    else if s.emitted then s.(stopped := true)
    else
      SweepStale(
        s.(cache := DropSlot(s.cache, stale[0]), cmds := s.cmds + [DeletePlacement(stale[0])], emitted := true),
        stale[1..])
  }

  const KITTY_CHUNK_BYTES: nat := 3072
  const USIZE_MAX: nat := 0xFFFF_FFFF_FFFF_FFFF

  function DivCeil(a: nat, b: nat): nat
    requires b > 0
  {
    if a % b == 0 then a / b else a / b + 1
  }

  function Saturate(n: nat): nat {
    if n > USIZE_MAX then USIZE_MAX else n
  }

  /** `image_transaction_fits`: the size estimate made before an upload is encoded. */
  predicate TransactionFits(dataLen: nat, budget: Option<nat>) {
    budget.None? ||
    Saturate(Saturate(DivCeil(dataLen, 3) * 4) + (Saturate(DivCeil(dataLen, KITTY_CHUNK_BYTES) * 16) + 1024))
      <= budget.value
  }

  /** What becomes of an update tried on a copy of `c`: dropped, taken over silently, sent, or put off. */
  function Commit(s: Pass, c: Cache, cursor: Cursor, update: Option<Delta>): Pass {
    if update.None? then s.(cache := c)
    else if update.value.cmds == [] then s.(cache := update.value.cache)
    else if s.emitted then s.(cache := c, stopped := true)
    else
      s.(cache := update.value.cache.(continuation := Some(cursor)), cmds := update.value.cmds, emitted := true)
  }

  /** One placement of the placement pass: what it leaves, and whether the call stops here. */
  function ServeOne(env: Env, s: Pass, ps: seq<Placement>, index: nat, budget: Option<nat>): Pass
    requires index < |ps|
  {
    var p := ps[index];
    if budget.Some? && p.key in s.cache.oversized && s.cache.oversized[p.key] == p.sig then
      s.(skipped := true)
    else
      var c1 := s.cache.(oversized := s.cache.oversized - {p.key});
      var image := ResolveImage(env, p, c1.images);
      if image.None? then s.(cache := c1)
      else if !ImageCurrent(c1, p, image.value) && !TransactionFits(p.sig.dataLen, budget) then
        s.(cache := c1.(oversized := c1.oversized[p.key := p.sig]), skipped := true)
      else
        Commit(s, c1, Cursor(Source(p), (index + 1) % |ps|), Update(env, c1, p))
  }

  function Serve(env: Env, s: Pass, ps: seq<Placement>, start: nat, offset: nat, budget: Option<nat>): Pass
    requires offset <= |ps|
    decreases |ps| - offset
  {
    if offset == |ps| then s
    else
      var next := ServeOne(env, s, ps, (start + offset) % |ps|, budget);
      if next.stopped then next else Serve(env, next, ps, start, offset + 1, budget)
  }

  /** The deletion phases of a call: dead sources, then orphan images, then stale placements. */
  function Deletions(c: Cache, slots: set<Slot>, keys: set<SourceKey>, live: set<SourceKey>): Pass {
    var images := DesiredImages(slots);
    LayerLessTotal(DeadSources(c, live));
    SortDistinct(DeadSources(c, live), LayerLess);
    var s1 := SweepDead(Pass(c, [], false, false, false), Sort(DeadSources(c, live), LayerLess), images);
    if s1.stopped then s1
    else
      var s2 := s1.(cache := Prune(s1.cache, keys, live));
      var s3 := SweepOrphans(s2, Sort(OrphanImages(s2.cache, live, images), IdLess));
      if s3.stopped then s3
      else SweepStale(s3, Sort(StaleSlots(s3.cache, slots), SlotLess))
  }

  function Settle(c: Cache): Cache {
    c.(replay := false, replayed := {})
  }

  /** `encode_graphics_update_incremental`. */
  function Incremental(
    env: Env, c: Cache, ps: seq<Placement>, live: set<SourceKey>, budget: Option<nat>
  ): Encoded {
    var slots := DesiredSlots(env, c, ps);
    var start := StartIndex(c, ps);
    var deleted := Deletions(c, slots, DesiredKeys(ps), live);
    if deleted.stopped then Encoded(deleted.cache, deleted.cmds, true, false)
    else
      var served := Serve(env, deleted, ps, start, 0, budget);
      if served.stopped then Encoded(served.cache, served.cmds, true, served.skipped)
      else Encoded(Settle(served.cache), served.cmds, false, served.skipped)
  }

  // --- The terminal-only update, clearing, and out-of-band changes ---

  datatype LegacyPass = LegacyPass(cache: Cache, current: set<Slot>, cmds: seq<Cmd>)

  /** `release_superseded_terminal_image_legacy`: also forgets the deleted slots as current. */
  function LegacyRelease(s: LegacyPass, key: SourceKey, image: nat): LegacyPass {
    var released := Release(s.cache, key, image);
    LegacyPass(
      // the replayed set is not part of this path
      released.cache.(replayed := s.cache.replayed),
      (set x | x in s.current && (x in s.cache.placements ==> x in released.cache.placements)),
      s.cmds + released.cmds)
  }

  function LegacyOne(env: Env, s: LegacyPass, p: Placement, viewChanged: bool): LegacyPass {
    var resolved := ResolveSlot(env, s.cache, p);
    if resolved.None? then s
    else
      var slot := resolved.value;
      var s1 := s.(current := s.current + {slot});
      if !ImageCurrent(s.cache, p, slot.image) && p.data == [] then s1
      else
        var s2 :=
          if ImageCurrent(s.cache, p, slot.image) then s1
          else s1.(cache := s1.cache.(images := s1.cache.images[slot.image := p.sig]),
                   cmds := s1.cmds + [Upload(slot.image, p.sig, p.data)]);
        var s3 := LegacyRelease(s2, p.key, slot.image);
        if slot in s3.cache.placements && !viewChanged && s3.cache.placements[slot] == Sig(p) then s3
        else
          s3.(cache := s3.cache.(placements := s3.cache.placements[slot := Sig(p)]),
              cmds := s3.cmds + [Display(slot, Sig(p).geometry)])
  }

  function LegacyAll(env: Env, s: LegacyPass, ps: seq<Placement>, viewChanged: bool): LegacyPass
    decreases |ps|
  {
    if ps == [] then s else LegacyAll(env, LegacyOne(env, s, ps[0], viewChanged), ps[1..], viewChanged)
  }

  /** `order` lists the elements of `s` once each: the order some hash map happens to iterate in. */
  ghost predicate Enumerates<T(!new)>(order: seq<T>, s: set<T>) {
    && (forall x :: x in order <==> x in s)
    && (forall i, j | 0 <= i < j < |order| :: order[i] != order[j])
  }

  function DropSlots(c: Cache, order: seq<Slot>): Delta
    decreases |order|
  {
    if order == [] then Delta(c, [])
    else
      var rest := DropSlots(c.(placements := c.placements - {order[0]}), order[1..]);
      Delta(rest.cache, [DeletePlacement(order[0])] + rest.cmds)
  }

  /** The placing half of `encode_terminal_graphics_update_legacy`. */
  function LegacyPlace(env: Env, c: Cache, ps: seq<Placement>, viewChanged: bool): LegacyPass {
    var keys := set i | 0 <= i < |ps| && ps[i].key.Terminal? :: ps[i].key;
    var c1 := c.(sources := map k | k in c.sources && k in keys :: c.sources[k]);
    LegacyAll(env, LegacyPass(c1, {}, []), ps, viewChanged)
  }

  function LegacyStale(s: LegacyPass): set<Slot> {
    StaleSlots(s.cache, s.current)
  }

  /** `encode_terminal_graphics_update_legacy`, with stale placements deleted in the given order. */
  function Legacy(env: Env, c: Cache, ps: seq<Placement>, viewChanged: bool, order: seq<Slot>): Delta {
    var s := LegacyPlace(env, c, ps, viewChanged);
    var dropped := DropSlots(s.cache, order);
    Delta(dropped.cache, s.cmds + dropped.cmds)
  }

  function ResetIncremental(c: Cache): Cache {
    c.(oversized := map[], continuation := None, replay := false, replayed := {})
  }

  function DropImages(c: Cache, ids: seq<nat>): Delta
    decreases |ids|
  {
    if ids == [] then Delta(c, [])
    else if Referenced(c, ids[0]) then DropImages(c, ids[1..])
    else
      var rest := DropImages(DropImage(c, ids[0]), ids[1..]);
      Delta(rest.cache, [DeleteImage(ids[0])] + rest.cmds)
  }

  function PaneSourceImages(c: Cache): set<nat> {
    set k | k in c.sources && k.PaneLayer? :: c.sources[k]
  }

  /** `clear_pane_sources`, visiting the removed images in the given order. */
  function ClearPaneSources(c: Cache, order: seq<nat>): Delta {
    var c1 := c.(sources := map k | k in c.sources && !k.PaneLayer? :: c.sources[k]);
    var dropped := DropImages(c1, order);
    Delta(ResetIncremental(dropped.cache), dropped.cmds)
  }

  function DeleteAll(order: seq<nat>): seq<Cmd> {
    if order == [] then [] else [DeleteImage(order[0])] + DeleteAll(order[1..])
  }

  /** `clear_bytes`, deleting the images in the given order. */
  function ClearAll(order: seq<nat>): Delta {
    Delta(EMPTY_CACHE, DeleteAll(order))
  }

  /** `clear_next`: one deletion per call. */
  function ClearNext(c: Cache): Encoded {
    var c0 := c.(continuation := None);
    var ids := Sort(c.images.Keys, IdLess);
    var slots := Sort(c.placements.Keys, SlotLess);
    var d :=
      if ids != [] then
        var c1 := DropImage(c0, ids[0]);
        Delta(c1.(sources := map k | k in c1.sources && c1.sources[k] != ids[0] :: c1.sources[k]),
              [DeleteImage(ids[0])])
      else if slots != [] then Delta(DropSlot(c0, slots[0]), [DeletePlacement(slots[0])])
      else Delta(c0.(sources := map[], oversized := map[], view := None, replay := false, replayed := {}), []);
    Encoded(d.cache, d.cmds, !(d.cache.images == map[] && d.cache.placements == map[]), false)
  }

  function UpdateView(c: Cache, view: Option<View>): Cache {
    if c.view == view then c else c.(view := view, continuation := None)
  }

  function RequestReplay(c: Cache): Cache {
    if c.replay then c else c.(replay := true, replayed := {})
  }

  /** `trust_pane_layer`: the terminal received this layer by another route. */
  function Trust(c: Cache, key: SourceKey, image: nat, sig: Signature): Cache {
    c.(oversized := c.oversized - {key}, sources := c.sources[key := image], images := c.images[image := sig])
  }

  /** `forget_pane_layer`. */
  function Forget(c: Cache, key: SourceKey, image: nat): Cache {
    DropImage(c.(sources := c.sources - {key}, oversized := c.oversized - {key}), image)
  }
}
