/**
 The data the Kitty-graphics cache works on: signatures, placements, the cache itself,
 the commands it emits, the terminal that executes them, and id probing.
 */
module HostGraphics {
  import opened Common

  const HOST_IMAGE_ID_BASE: nat := 10_000
  const HOST_IMAGE_ID_SPAN: nat := 900_000
  const HOST_PLACEMENT_ID_BASE: nat := 1
  const HOST_PLACEMENT_ID_SPAN: nat := 900_000

  newtype byte = x: int | 0 <= x < 256

  datatype SourceKey =
    | Terminal(pane: nat, image: nat)
    | PaneLayer(pane: nat, layer: string)

  datatype Signature = Signature(width: nat, height: nat, format: nat, dataLen: nat, fingerprint: nat)

  datatype PlacementSource = PlacementSource(key: SourceKey, id: nat)

  datatype Clipped = Clipped(
    x: nat, y: nat, cols: nat, rows: nat,
    sourceX: nat, sourceY: nat, sourceWidth: nat, sourceHeight: nat,
    xOffset: nat, yOffset: nat)

  /** What the terminal is told about a placement: where and how it is drawn. */
  datatype Geometry = Geometry(clip: Clipped, z: int)

  datatype PlacementSig = PlacementSig(source: PlacementSource, geometry: Geometry, scrollback: nat)

  datatype Slot = Slot(image: nat, placement: nat)

  /** A placement the app wants on screen. `clip` is what clipping it to its pane leaves, if anything. */
  datatype Placement = Placement(
    pane: nat, hostImage: Option<nat>, key: SourceKey, placementId: nat,
    sig: Signature, clip: Option<Clipped>, z: int, scrollback: nat, data: seq<byte>)

  datatype Cursor = Cursor(source: PlacementSource, index: nat)

  datatype View = View(workspace: nat, tab: nat)

  datatype Cache = Cache(
    images: map<nat, Signature>,
    placements: map<Slot, PlacementSig>,
    sources: map<SourceKey, nat>,
    oversized: map<SourceKey, Signature>,
    continuation: Option<Cursor>,
    view: Option<View>,
    replay: bool,
    replayed: set<Slot>)

  const EMPTY_CACHE: Cache := Cache(map[], map[], map[], map[], None, None, false, {})

  /** The hashes, and which source each reserved pane-layer id was handed to. */
  datatype Env = Env(
    imageHash: (nat, Signature) -> nat,
    placementHash: PlacementSource -> nat,
    owner: nat -> SourceKey)

  // --- The outer terminal ---

  datatype Cmd =
    | DeleteImage(id: nat)
    | DeletePlacement(slot: Slot)
    | Upload(id: nat, sig: Signature, data: seq<byte>)
    | Display(slot: Slot, geometry: Geometry)
    | TransmitAndDisplay(slot: Slot, sig: Signature, geometry: Geometry, data: seq<byte>)

  datatype Screen = Screen(images: map<nat, Signature>, placements: map<Slot, Geometry>)

  /**
   One Kitty graphics command. Transmitting under an id that is in use drops the old image
   and every placement of it; displaying an image the terminal does not hold does nothing.
   */
  function Execute(t: Screen, cmd: Cmd): Screen {
    match cmd
    case DeleteImage(id) => Screen(t.images - {id}, WithoutImage(t.placements, id))
    case DeletePlacement(slot) => t.(placements := t.placements - {slot})
    case Upload(id, sig, _) => Screen(t.images[id := sig], WithoutImage(t.placements, id))
    case Display(slot, geometry) =>
      if slot.image in t.images then t.(placements := t.placements[slot := geometry]) else t
    case TransmitAndDisplay(slot, sig, geometry, _) =>
      Screen(t.images[slot.image := sig], WithoutImage(t.placements, slot.image)[slot := geometry])
  }

  function ExecuteAll(t: Screen, cmds: seq<Cmd>): Screen
    decreases |cmds|
  {
    if cmds == [] then t else ExecuteAll(Execute(t, cmds[0]), cmds[1..])
  }

  lemma {:induction false} ExecuteAllAppend(t: Screen, a: seq<Cmd>, b: seq<Cmd>)
    ensures ExecuteAll(t, a + b) == ExecuteAll(ExecuteAll(t, a), b)
    decreases |a|
  {
    if a == [] {
      assert a + b == b;
    } else {
      ExecuteAllAppend(Execute(t, a[0]), a[1..], b);
      assert (a + b)[1..] == a[1..] + b;
    }
  }

  function WithoutImage<V>(m: map<Slot, V>, id: nat): map<Slot, V> {
    map s | s in m && s.image != id :: m[s]
  }

  function WithoutSlots(s: set<Slot>, id: nat): set<Slot> {
    set x | x in s && x.image != id
  }

  // --- Id probing ---

  predicate InTerminalSpan(id: nat) {
    HOST_IMAGE_ID_BASE <= id < HOST_IMAGE_ID_BASE + HOST_IMAGE_ID_SPAN
  }

  function Source(p: Placement): PlacementSource {
    PlacementSource(p.key, p.placementId)
  }

  function Sig(p: Placement): PlacementSig
    requires p.clip.Some?
  {
    PlacementSig(Source(p), Geometry(p.clip.value, p.z), p.scrollback)
  }

  function ImageCandidate(start: nat, step: nat): (id: nat)
    ensures InTerminalSpan(id)
  {
    HOST_IMAGE_ID_BASE + (start + step) % HOST_IMAGE_ID_SPAN
  }

  /** The slot a terminal image with this signature hashes to. */
  function ImageStart(env: Env, p: Placement): (id: nat)
    ensures InTerminalSpan(id)
  {
    ImageCandidate(env.imageHash(p.pane, p.sig) % HOST_IMAGE_ID_SPAN, 0)
  }

  /** Linear probing for an id that is free or already holds `sig`. */
  function ProbeImage(start: nat, step: nat, sig: Signature, images: map<nat, Signature>): (r: Option<nat>)
    ensures r.Some? ==> InTerminalSpan(r.value) && (r.value in images ==> images[r.value] == sig)
    decreases HOST_IMAGE_ID_SPAN - step
  {
    if step >= HOST_IMAGE_ID_SPAN then None
    else
      var id := ImageCandidate(start, step);
      if id in images && images[id] != sig then ProbeImage(start, step + 1, sig, images)
      else Some(id)
  }

  function ResolveImage(env: Env, p: Placement, images: map<nat, Signature>): Option<nat> {
    if p.hostImage.Some? then p.hostImage
    else ProbeImage(env.imageHash(p.pane, p.sig) % HOST_IMAGE_ID_SPAN, 0, p.sig, images)
  }

  function PlacementCandidate(start: nat, step: nat): (id: nat)
    ensures HOST_PLACEMENT_ID_BASE <= id < HOST_PLACEMENT_ID_BASE + HOST_PLACEMENT_ID_SPAN
  {
    HOST_PLACEMENT_ID_BASE + (start + step) % HOST_PLACEMENT_ID_SPAN
  }

  function PlacementStart(env: Env, source: PlacementSource): nat {
    PlacementCandidate(env.placementHash(source) % HOST_PLACEMENT_ID_SPAN, 0)
  }

  /** Linear probing for a placement id of `image` that is free or already belongs to `source`. */
  function ProbePlacement(
    start: nat, step: nat, source: PlacementSource, image: nat, placements: map<Slot, PlacementSig>
  ): (r: Option<nat>)
    ensures r.Some? ==> HOST_PLACEMENT_ID_BASE <= r.value < HOST_PLACEMENT_ID_BASE + HOST_PLACEMENT_ID_SPAN
    ensures r.Some? ==>
      (Slot(image, r.value) in placements ==> placements[Slot(image, r.value)].source == source)
    decreases HOST_PLACEMENT_ID_SPAN - step
  {
    if step >= HOST_PLACEMENT_ID_SPAN then None
    else
      var slot := Slot(image, PlacementCandidate(start, step));
      if slot in placements && placements[slot].source != source
      then ProbePlacement(start, step + 1, source, image, placements)
      else Some(slot.placement)
  }

  function ResolvePlacement(
    env: Env, source: PlacementSource, image: nat, placements: map<Slot, PlacementSig>
  ): Option<nat> {
    ProbePlacement(env.placementHash(source) % HOST_PLACEMENT_ID_SPAN, 0, source, image, placements)
  }

  /** The slot a placement resolves to, when it is visible and probing finds room. */
  function ResolveSlot(env: Env, c: Cache, p: Placement): Option<Slot> {
    var image := ResolveImage(env, p, c.images);
    if p.clip.None? || image.None? then None
    else
      var id := ResolvePlacement(env, Source(p), image.value, c.placements);
      if id.None? then None else Some(Slot(image.value, id.value))
  }

  // Probing tries every candidate: it fails exactly when each id of the span holds something else.

  lemma {:induction false} ProbeImageSkips(start: nat, step: nat, sig: Signature, images: map<nat, Signature>, k: nat)
    requires step <= k < HOST_IMAGE_ID_SPAN
    requires ProbeImage(start, step, sig, images).None?
    ensures ImageCandidate(start, k) in images && images[ImageCandidate(start, k)] != sig
    decreases HOST_IMAGE_ID_SPAN - step
  {
    if step < k {
      ProbeImageSkips(start, step + 1, sig, images, k);
    }
  }

  lemma {:induction false} CandidateFor(start: nat, id: nat) returns (k: nat)
    requires start < HOST_IMAGE_ID_SPAN && InTerminalSpan(id)
    ensures k < HOST_IMAGE_ID_SPAN && ImageCandidate(start, k) == id
  {
    var offset := id - HOST_IMAGE_ID_BASE;
    k := if start <= offset then offset - start else offset + HOST_IMAGE_ID_SPAN - start;
  }

  /** Terminal probing fails if and only if every id of the span holds another signature. */
  lemma {:induction false} ProbeImageComplete(env: Env, p: Placement, images: map<nat, Signature>)
    requires p.hostImage.None?
    ensures ResolveImage(env, p, images).None? <==>
            forall id | InTerminalSpan(id) :: id in images && images[id] != p.sig
  {
    var start := env.imageHash(p.pane, p.sig) % HOST_IMAGE_ID_SPAN;
    if ResolveImage(env, p, images).None? {
      forall id | InTerminalSpan(id) ensures id in images && images[id] != p.sig {
        var k := CandidateFor(start, id);
        ProbeImageSkips(start, 0, p.sig, images, k);
      }
    }
  }

  predicate InPlacementSpan(id: nat) {
    HOST_PLACEMENT_ID_BASE <= id < HOST_PLACEMENT_ID_BASE + HOST_PLACEMENT_ID_SPAN
  }

  lemma {:induction false} ProbePlacementSkips(
    start: nat, step: nat, source: PlacementSource, image: nat, placements: map<Slot, PlacementSig>, k: nat)
    requires step <= k < HOST_PLACEMENT_ID_SPAN
    requires ProbePlacement(start, step, source, image, placements).None?
    ensures var slot := Slot(image, PlacementCandidate(start, k)); slot in placements && placements[slot].source != source
    decreases HOST_PLACEMENT_ID_SPAN - step
  {
    if step < k {
      ProbePlacementSkips(start, step + 1, source, image, placements, k);
    }
  }

  lemma {:induction false} PlacementCandidateFor(start: nat, id: nat) returns (k: nat)
    requires start < HOST_PLACEMENT_ID_SPAN && InPlacementSpan(id)
    ensures k < HOST_PLACEMENT_ID_SPAN && PlacementCandidate(start, k) == id
  {
    var offset := id - HOST_PLACEMENT_ID_BASE;
    k := if start <= offset then offset - start else offset + HOST_PLACEMENT_ID_SPAN - start;
  }

  /** Probing for a placement fails if and only if every id of the span shows something else of that image. */
  lemma {:induction false} ProbePlacementComplete(
    env: Env, source: PlacementSource, image: nat, placements: map<Slot, PlacementSig>)
    ensures ResolvePlacement(env, source, image, placements).None? <==>
            forall id | InPlacementSpan(id) :: Slot(image, id) in placements && placements[Slot(image, id)].source != source
  {
    var start := env.placementHash(source) % HOST_PLACEMENT_ID_SPAN;
    if ResolvePlacement(env, source, image, placements).None? {
      forall id | InPlacementSpan(id) ensures Slot(image, id) in placements && placements[Slot(image, id)].source != source {
        var k := PlacementCandidateFor(start, id);
        ProbePlacementSkips(start, 0, source, image, placements, k);
      }
    }
  }

  /** An image already uploaded for a terminal source is found again where probing left it. */
  lemma {:induction false} ProbeFindsUploaded(env: Env, p: Placement, images: map<nat, Signature>, id: nat)
    requires p.hostImage.None? && ResolveImage(env, p, images) == Some(id)
    ensures ResolveImage(env, p, images[id := p.sig]) == Some(id)
  {
    ProbeAfterUpload(env.imageHash(p.pane, p.sig) % HOST_IMAGE_ID_SPAN, 0, p.sig, images, id);
  }

  lemma {:induction false} ProbeAfterUpload(
    start: nat, step: nat, sig: Signature, images: map<nat, Signature>, id: nat)
    requires ProbeImage(start, step, sig, images) == Some(id)
    ensures ProbeImage(start, step, sig, images[id := sig]) == Some(id)
    decreases HOST_IMAGE_ID_SPAN - step
  {
    var here := ImageCandidate(start, step);
    if here in images && images[here] != sig {
      ProbeAfterUpload(start, step + 1, sig, images, id);
    }
  }

  // --- The order deletions are made in ---

  predicate LayerLess(a: SourceKey, b: SourceKey) {
    a.PaneLayer? && b.PaneLayer? && (a.pane < b.pane || (a.pane == b.pane && StringLess(a.layer, b.layer)))
  }

  predicate SlotLess(a: Slot, b: Slot) {
    a.image < b.image || (a.image == b.image && a.placement < b.placement)
  }

  predicate IdLess(a: nat, b: nat) { a < b }

  lemma {:induction false} LayerLessTotal(s: set<SourceKey>)
    requires forall k | k in s :: k.PaneLayer?
    ensures StrictTotalOn(LayerLess, s)
  {
    forall x, y | x in s && y in s
      ensures !LayerLess(x, x)
      ensures x != y ==> LayerLess(x, y) || LayerLess(y, x)
    {
      StringLessTotal(x.layer, y.layer);
      StringLessTotal(x.layer, x.layer);
    }
    forall x, y, z | x in s && y in s && z in s && LayerLess(x, y) && LayerLess(y, z)
      ensures LayerLess(x, z)
    {
      if x.pane == y.pane == z.pane {
        StringLessTransitive(x.layer, y.layer, z.layer);
      }
    }
  }
}
