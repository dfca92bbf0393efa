/**
 The pixels. Every command that transmits an image carries exactly the signature and pixels of a placement that
 was asked for, under the image id it resolves to; so where equal signatures mean equal pixels, the terminal
 holds, image by image, the pixels the cache says it holds.
 */
module GraphicsPixels {
  import opened Common
  import opened HostGraphics
  import opened GraphicsStep
  import opened GraphicsAgreement
  import opened GraphicsRuns
  import opened GraphicsDrain
  import opened GraphicsConvergence
  import opened GraphicsDrainLoop
  import opened GraphicsReplay
  import opened GraphicsElision
  import opened GraphicsCuts
  import opened GraphicsFrames

  // --- What a transmission carries ---

  /** This command transmits the placement's image: its id, size and format, and all its pixels. */
  predicate TransmitsFor(env: Env, cmd: Cmd, p: Placement, id: nat) {
    match cmd
    case Upload(image, sig, data) => image == id && sig == p.sig && data == p.data && data != []
    case TransmitAndDisplay(slot, sig, _, data) => slot.image == id && sig == p.sig && data == p.data && data != []
    case _ => false
  }

  predicate IsTransmission(cmd: Cmd) {
    cmd.Upload? || cmd.TransmitAndDisplay?
  }

  /** Probing from what some cache held led this placement to this image id. */
  ghost predicate ResolvesTo(env: Env, p: Placement, id: nat) {
    exists c: Cache :: ResolveImage(env, p, c.images) == Some(id)
  }

  ghost predicate Carried(env: Env, ps: seq<Placement>, cmd: Cmd) {
    exists p, id :: p in ps && TransmitsFor(env, cmd, p, id) && ResolvesTo(env, p, id)
  }

  /** Every transmission of the batch is that of a placement in the list. */
  ghost predicate AllCarried(env: Env, ps: seq<Placement>, cmds: seq<Cmd>) {
    forall cmd | cmd in cmds && IsTransmission(cmd) :: Carried(env, ps, cmd)
  }

  lemma {:induction false} CarriedTogether(env: Env, ps: seq<Placement>, a: seq<Cmd>, b: seq<Cmd>)
    requires AllCarried(env, ps, a) && AllCarried(env, ps, b)
    ensures AllCarried(env, ps, a + b)
  {
    hide Carried;
  }

  lemma {:induction false} OnlyDeletesCarry(env: Env, ps: seq<Placement>, cmds: seq<Cmd>)
    requires forall cmd | cmd in cmds :: !IsTransmission(cmd)
    ensures AllCarried(env, ps, cmds)
  {
  }

  lemma {:induction false} UpdateCarries(env: Env, c: Cache, ps: seq<Placement>, p: Placement)
    requires p in ps && Update(env, c, p).Some?
    ensures AllCarried(env, ps, Update(env, c, p).value.cmds)
  {
    var slot := ResolveSlot(env, c, p).value;
    var sent := Transmit(c, p, slot).value;
    var released := Release(sent.cache, p.key, slot.image);
    var cmds := Update(env, c, p).value.cmds;
    assert ResolveImage(env, p, c.images) == Some(slot.image);
    assert ResolvesTo(env, p, slot.image);
    hide ResolveSlot, ResolveImage, ResolvesTo;
    assert forall cmd | cmd in released.cmds :: !IsTransmission(cmd);
    assert forall cmd | cmd in cmds && IsTransmission(cmd) :: cmd in sent.cmds;
    forall cmd | cmd in sent.cmds && IsTransmission(cmd) ensures Carried(env, ps, cmd) {
      assert TransmitsFor(env, cmd, p, slot.image);
    }
  }

  lemma {:induction false} CommitCarries(env: Env, ps: seq<Placement>, s: Pass, c: Cache, cursor: Cursor, update: Option<Delta>)
    requires AllCarried(env, ps, s.cmds) && (update.Some? ==> AllCarried(env, ps, update.value.cmds))
    ensures AllCarried(env, ps, Commit(s, c, cursor, update).cmds)
  {
    hide AllCarried;
  }

  lemma {:induction false} ServeCarries(
    env: Env, s: Pass, ps: seq<Placement>, start: nat, offset: nat, budget: Option<nat>)
    requires offset <= |ps| && AllCarried(env, ps, s.cmds)
    ensures AllCarried(env, ps, Serve(env, s, ps, start, offset, budget).cmds)
    decreases |ps| - offset
  {
    hide AllCarried, Commit, Update, ResolveImage, ImageCurrent, TransactionFits;
    if offset < |ps| {
      var index := (start + offset) % |ps|;
      var p := ps[index];
      var c1 := s.cache.(oversized := s.cache.oversized - {p.key});
      if Update(env, c1, p).Some? {
        UpdateCarries(env, c1, ps, p);
      }
      CommitCarries(env, ps, s, c1, Cursor(Source(p), (index + 1) % |ps|), Update(env, c1, p));
      var next := ServeOne(env, s, ps, index, budget);
      if !next.stopped {
        ServeCarries(env, next, ps, start, offset + 1, budget);
      }
    }
  }

  /** The incremental call transmits nothing but what it was given. */
  lemma {:induction false} IncrementalCarries(
    env: Env, c: Cache, ps: seq<Placement>, live: set<SourceKey>, budget: Option<nat>)
    ensures AllCarried(env, ps, Incremental(env, c, ps, live, budget).cmds)
  {
    var slots := DesiredSlots(env, c, ps);
    DeletionsOnce(c, slots, DesiredKeys(ps), live);
    hide Deletions, Serve, DesiredSlots, DesiredKeys, StartIndex, AllCarried;
    var s := Deletions(c, slots, DesiredKeys(ps), live);
    OnlyDeletesCarry(env, ps, s.cmds);
    ServeCarries(env, s, ps, StartIndex(c, ps), 0, budget);
  }

  lemma {:induction false} LegacyOneCarries(env: Env, s: LegacyPass, ps: seq<Placement>, p: Placement, viewChanged: bool)
    requires p in ps && AllCarried(env, ps, s.cmds)
    ensures AllCarried(env, ps, LegacyOne(env, s, p, viewChanged).cmds)
  {
    var r := LegacyOne(env, s, p, viewChanged);
    var resolved := ResolveSlot(env, s.cache, p);
    if resolved.Some? {
      var id := resolved.value.image;
      assert ResolveImage(env, p, s.cache.images) == Some(id);
      assert ResolvesTo(env, p, id);
      hide ResolveSlot, ResolveImage, ResolvesTo, Carried, PlacementCurrent;
      forall cmd | cmd in r.cmds && IsTransmission(cmd) ensures Carried(env, ps, cmd) {
        if cmd !in s.cmds {
          assert TransmitsFor(env, cmd, p, id);
          CarriedFor(env, ps, cmd, p, id);
        }
      }
    }
  }

  lemma {:induction false} CarriedFor(env: Env, ps: seq<Placement>, cmd: Cmd, p: Placement, id: nat)
    requires p in ps && TransmitsFor(env, cmd, p, id) && ResolvesTo(env, p, id)
    ensures Carried(env, ps, cmd)
  {
  }

  lemma {:induction false} LegacyAllCarries(
    env: Env, s: LegacyPass, ps: seq<Placement>, rest: seq<Placement>, viewChanged: bool)
    requires (forall p | p in rest :: p in ps) && AllCarried(env, ps, s.cmds)
    ensures AllCarried(env, ps, LegacyAll(env, s, rest, viewChanged).cmds)
    decreases |rest|
  {
    hide AllCarried, LegacyOne;
    if rest != [] {
      LegacyOneCarries(env, s, ps, rest[0], viewChanged);
      LegacyAllCarries(env, LegacyOne(env, s, rest[0], viewChanged), ps, rest[1..], viewChanged);
    }
  }

  lemma {:induction false} DropSlotsOnlyDelete(c: Cache, order: seq<Slot>)
    ensures forall cmd | cmd in DropSlots(c, order).cmds :: cmd.DeletePlacement?
    decreases |order|
  {
    if order != [] {
      DropSlotsOnlyDelete(c.(placements := c.placements - {order[0]}), order[1..]);
    }
  }

  lemma {:induction false} LegacyCarries(env: Env, c: Cache, ps: seq<Placement>, viewChanged: bool, order: seq<Slot>)
    ensures AllCarried(env, ps, Legacy(env, c, ps, viewChanged, order).cmds)
  {
    var s := LegacyPlace(env, c, ps, viewChanged);
    DropSlotsOnlyDelete(s.cache, order);
    OnlyDeletesCarry(env, ps, []);
    OnlyDeletesCarry(env, ps, DropSlots(s.cache, order).cmds);
    hide AllCarried, LegacyAll, DropSlots;
    var keys := set i | 0 <= i < |ps| && ps[i].key.Terminal? :: ps[i].key;
    LegacyAllCarries(
      env, LegacyPass(c.(sources := map k | k in c.sources && k in keys :: c.sources[k]), {}, []), ps, ps, viewChanged);
    CarriedTogether(env, ps, s.cmds, DropSlots(s.cache, order).cmds);
  }

  lemma {:induction false} DeleteAllOnlyDeletes(order: seq<nat>)
    ensures forall cmd | cmd in DeleteAll(order) :: cmd.DeleteImage?
    decreases |order|
  {
    if order != [] {
      DeleteAllOnlyDeletes(order[1..]);
    }
  }

  /** A whole frame, in either mode, transmits nothing but what was collected for it. */
  lemma {:induction false} EncodeLocalCarries(
    env: Env, c: Cache, scene: Scene, budget: Option<nat>, replay: bool, orders: Orders)
    ensures AllCarried(env, scene.placements, EncodeLocal(env, c, scene, budget, replay, orders).cmds)
  {
    var ps := scene.placements;
    var cleared := ClearPaneSources(c, orders.paneImages);
    DropImagesOnlyDelete(c.(sources := map k | k in c.sources && !k.PaneLayer? :: c.sources[k]), orders.paneImages);
    OnlyDeletesCarry(env, ps, cleared.cmds);
    DeleteAllOnlyDeletes(orders.images);
    OnlyDeletesCarry(env, ps, DeleteAll(orders.images));
    hide Incremental, Legacy, ClearPaneSources;
    if scene.hasSlots {
      var asked := Asked(c, scene, replay);
      IncrementalCarries(env, asked, if scene.visible then ps else [], scene.live, budget);
    } else if scene.visible {
      var viewed := ResetIncremental(UpdateView(cleared.cache, scene.view));
      var changed := cleared.cache.view != scene.view;
      LegacyCarries(env, viewed, ps, changed, orders.stale);
      CarriedTogether(env, ps, cleared.cmds, Legacy(env, viewed, ps, changed, orders.stale).cmds);
    } else {
      CarriedTogether(env, ps, cleared.cmds, DeleteAll(orders.images));
    }
  }

  // --- What the terminal holds ---

  /** The pixels a terminal holds after a command, image by image. */
  function Hold(held: map<nat, seq<byte>>, cmd: Cmd): map<nat, seq<byte>> {
    match cmd
    case DeleteImage(id) => held - {id}
    case Upload(id, _, data) => held[id := data]
    case TransmitAndDisplay(slot, _, _, data) => held[slot.image := data]
    case _ => held
  }

  function HoldAll(held: map<nat, seq<byte>>, cmds: seq<Cmd>): map<nat, seq<byte>>
    decreases |cmds|
  {
    if cmds == [] then held else HoldAll(Hold(held, cmds[0]), cmds[1..])
  }

  lemma {:induction false} HoldAllAppend(held: map<nat, seq<byte>>, a: seq<Cmd>, b: seq<Cmd>)
    ensures HoldAll(held, a + b) == HoldAll(HoldAll(held, a), b)
    decreases |a|
  {
    if a == [] {
      assert a + b == b;
    } else {
      HoldAllAppend(Hold(held, a[0]), a[1..], b);
      assert (a + b)[1..] == a[1..] + b;
    }
  }

  /** `content` gives the pixels of every signature that is ever asked for: equal signatures mean equal pixels. */
  ghost predicate Honest(content: Signature -> seq<byte>, ps: seq<Placement>) {
    forall p | p in ps && p.data != [] :: p.data == content(p.sig)
  }

  /** The terminal holds the pixels of the signatures recorded, image by image. */
  ghost predicate Holds(content: Signature -> seq<byte>, held: map<nat, seq<byte>>, images: map<nat, Signature>) {
    held.Keys == images.Keys && forall id | id in images :: held[id] == content(images[id])
  }

  lemma {:induction false} HoldKeeps(content: Signature -> seq<byte>, held: map<nat, seq<byte>>, t: Screen, cmd: Cmd)
    requires Holds(content, held, t.images)
    requires IsTransmission(cmd) ==> cmd.data == content(cmd.sig)
    ensures Holds(content, Hold(held, cmd), Execute(t, cmd).images)
  {
  }

  lemma {:induction false} HoldAllKeeps(
    env: Env, content: Signature -> seq<byte>, held: map<nat, seq<byte>>, t: Screen, ps: seq<Placement>, cmds: seq<Cmd>)
    requires Holds(content, held, t.images) && Honest(content, ps) && AllCarried(env, ps, cmds)
    ensures Holds(content, HoldAll(held, cmds), ExecuteAll(t, cmds).images)
    decreases |cmds|
  {
    if cmds != [] {
      var cmd := cmds[0];
      assert cmd in cmds;
      if IsTransmission(cmd) {
        var p, id :| p in ps && TransmitsFor(env, cmd, p, id) && ResolvesTo(env, p, id);
        assert cmd.data == content(cmd.sig);
      }
      HoldKeeps(content, held, t, cmd);
      hide Holds, Honest, Carried, Hold, Execute;
      HoldAllKeeps(env, content, Hold(held, cmd), Execute(t, cmd), ps, cmds[1..]);
    }
  }

  // --- Runs ---

  /** The pixels the terminal holds after a run that began with an empty terminal. */
  function HeldAfter(env: Env, events: seq<Event>): map<nat, seq<byte>> {
    if events == [] then map[]
    else
      var before := events[..|events| - 1];
      HoldAll(HeldAfter(env, before), GraphicsRuns.Sends(env, Run(env, before).cache, events[|events| - 1]).cmds)
  }

  ghost predicate HonestEvent(content: Signature -> seq<byte>, e: Event) {
    e.Encode? ==> Honest(content, e.scene.placements)
  }

  lemma {:induction false} EventCarries(env: Env, c: Cache, e: Event)
    ensures AllCarried(env, if e.Encode? then e.scene.placements else [], GraphicsRuns.Sends(env, c, e).cmds)
  {
    match e
    case Encode(scene, budget, replay, orders) => EncodeLocalCarries(env, c, scene, budget, replay, orders);
    case ClearBytes(order) => DeleteAllOnlyDeletes(order);
    case _ =>
  }

  /**
   Over every run of frames, clears and blits the terminal holds, under every image id the cache records, exactly
   the pixels of the signature recorded, and nothing else.
   */
  lemma {:induction false} RunHoldsPixels(env: Env, content: Signature -> seq<byte>, events: seq<Event>)
    requires RunFits(env, events) && forall e | e in events :: !OutOfBand(e) && HonestEvent(content, e)
    ensures Holds(content, HeldAfter(env, events), Run(env, events).cache.images)
    decreases |events|
  {
    RunStaysInStep(env, events);
    if events != [] {
      var before, e := events[..|events| - 1], events[|events| - 1];
      var w := Run(env, before);
      RunStaysInStep(env, before);
      RunHoldsPixels(env, content, before);
      assert e in events;
      var d := GraphicsRuns.Sends(env, w.cache, e);
      var t := if e.Blit? then w.screen.(placements := w.screen.placements - e.lost) else w.screen;
      EventCarries(env, w.cache, e);
      HoldAllKeeps(env, content, HeldAfter(env, before), t, if e.Encode? then e.scene.placements else [], d.cmds);
      hide Holds, AllCarried, Honest, GraphicsRuns.Sends;
    }
  }

  /** What was asked for is what is there: a placement whose signature is recorded has its own pixels on the terminal. */
  lemma {:induction false} HeldIsOwn(content: Signature -> seq<byte>, held: map<nat, seq<byte>>, images: map<nat, Signature>, p: Placement, id: nat)
    requires Holds(content, held, images) && Honest(content, [p]) && p.data != []
    requires id in images && images[id] == p.sig
    ensures id in held && held[id] == p.data
  {
    assert p in [p];
  }

  // --- The drain and the frame ---

  lemma {:induction false} DrainCarries(env: Env, c: Cache, ps: seq<Placement>, live: set<SourceKey>, budget: Option<nat>)
    requires Steady(env, ps, live) && Good(env, c, ps)
    ensures AllCarried(env, ps, Drain(env, c, ps, live, budget).cmds)
    decreases Work(env, c, ps, live)
  {
    hide *;
    DrainUnfolds(env, c, ps, live, budget);
    IncrementalProgress(env, c, ps, live, budget);
    IncrementalCarries(env, c, ps, live, budget);
    var r := Incremental(env, c, ps, live, budget);
    if r.incomplete {
      DrainCarries(env, r.cache, ps, live, budget);
      CarriedTogether(env, ps, r.cmds, Drain(env, r.cache, ps, live, budget).cmds);
    }
  }

  /** From a terminal in step the drain ends with every visible placement's own pixels under its image id. */
  lemma {:induction false} DrainShowsPixels(
    env: Env, content: Signature -> seq<byte>, held: map<nat, seq<byte>>, t: Screen, c: Cache, ps: seq<Placement>,
    live: set<SourceKey>)
    requires Steady(env, ps, live) && Good(env, c, ps) && Supplied(env, c, ps, None) && Agree(t, c)
    requires Holds(content, held, t.images) && Honest(content, ps)
    ensures var held' := HoldAll(held, Drain(env, c, ps, live, None).cmds);
            forall p | p in ps && p.clip.Some? ::
              && HomeImage(env, p) in held' && held'[HomeImage(env, p)] == content(p.sig)
              && (p.data != [] ==> held'[HomeImage(env, p)] == p.data)
  {
    DrainShowsTheScene(env, t, c, ps, live);
    DrainCarries(env, c, ps, live, None);
    var cmds := Drain(env, c, ps, live, None).cmds;
    HoldAllKeeps(env, content, held, t, ps, cmds);
    hide HomeImage, HomeSlot, HomeSlots, Drain, HoldAll, ExecuteAll, AllCarried;
  }

  lemma {:induction false} CollectedCarries(env: Env, c: Cache, full: seq<Placement>, cmds: seq<Cmd>)
    requires AllCarried(env, Collect(env, c, full), cmds)
    ensures AllCarried(env, full, cmds)
  {
    var ps := Collect(env, c, full);
    forall cmd | cmd in cmds && IsTransmission(cmd) ensures Carried(env, full, cmd) {
      assert Carried(env, ps, cmd);
      var p, id :| p in ps && TransmitsFor(env, cmd, p, id) && ResolvesTo(env, p, id);
      var i :| 0 <= i < |ps| && ps[i] == p;
      assert p.data != [] && p == full[i];
      assert full[i] in full;
    }
  }

  lemma {:induction false} FrameCarries(env: Env, c: Cache, full: seq<Placement>, live: set<SourceKey>)
    requires Steady(env, full, live) && Good(env, c, full) && AllPixels(full)
    ensures AllCarried(env, full, FrameDrain(env, c, full, live).cmds)
    decreases Work(env, c, full, live)
  {
    hide *;
    FrameUnfolds(env, c, full, live);
    FrameProgress(env, c, full, live);
    var ps := Collect(env, c, full);
    IncrementalCarries(env, c, ps, live, None);
    var r := Incremental(env, c, ps, live, None);
    CollectedCarries(env, c, full, r.cmds);
    if r.incomplete {
      FrameCarries(env, r.cache, full, live);
      CarriedTogether(env, full, r.cmds, FrameDrain(env, r.cache, full, live).cmds);
    }
  }

  /** Each visible placement is on screen with its geometry and its own pixels, and nothing else is on screen. */
  ghost predicate Displays(env: Env, t: Screen, held: map<nat, seq<byte>>, ps: seq<Placement>) {
    OnScreen(env, t, ps)
    && forall p | p in ps && p.clip.Some? :: HomeImage(env, p) in held && held[HomeImage(env, p)] == p.data
  }

  /**
   What the user sees, down to the pixels: whatever a blit took, the terminal displays exactly the scene after a
   frame if and only if no placement is a cut when it begins.
   */
  lemma {:induction false} FrameDisplaysIff(
    env: Env, content: Signature -> seq<byte>, held: map<nat, seq<byte>>, t: Screen, c: Cache, full: seq<Placement>,
    live: set<SourceKey>)
    requires Steady(env, full, live) && Good(env, c, full) && AllPixels(full) && Mirrors(t, c) && !c.replay
    requires Holds(content, held, t.images) && Honest(content, full)
    ensures var asked := RequestReplay(c);
            && Good(env, asked, full)
            && var cmds := FrameDrain(env, asked, full, live).cmds;
            && Holds(content, HoldAll(held, cmds), ExecuteAll(t, cmds).images)
            && (Displays(env, ExecuteAll(t, cmds), HoldAll(held, cmds), full) <==> Uncut(env, asked, full))
  {
    hide *;
    FrameOnScreenIff(env, t, c, full, live);
    var asked := RequestReplay(c);
    FrameCarries(env, asked, full, live);
    var cmds := FrameDrain(env, asked, full, live).cmds;
    HoldAllKeeps(env, content, held, t, full, cmds);
    OwnPixels(env, content, HoldAll(held, cmds), ExecuteAll(t, cmds), full);
  }

  lemma {:induction false} OwnPixels(env: Env, content: Signature -> seq<byte>, held: map<nat, seq<byte>>, t: Screen, ps: seq<Placement>)
    requires Holds(content, held, t.images) && Honest(content, ps) && AllPixels(ps)
    ensures Displays(env, t, held, ps) <==> OnScreen(env, t, ps)
  {
    hide HomeImage, HomeSlot, HomeSlots;
  }
}
