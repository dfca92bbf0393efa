/**
 The bytes of a graphics transaction: chunked base64 payloads, and the size promise behind the
 transaction budget.
 */
module KittyWire {
  import opened Common
  import opened HostGraphics
  import opened GraphicsStep
  import opened Base64

  /** One escape sequence of a chunked transfer; the control string is empty after the first. */
  datatype Frame = Frame(control: string, more: bool, payload: string)

  /** `data.chunks(KITTY_CHUNK_BYTES)`. */
  function Chunks(data: seq<byte>): (cs: seq<seq<byte>>)
    ensures data != [] ==> cs != []
    decreases |data|
  {
    if data == [] then []
    else if |data| <= KITTY_CHUNK_BYTES then [data]
    else [data[..KITTY_CHUNK_BYTES]] + Chunks(data[KITTY_CHUNK_BYTES..])
  }

  function FramesOf(control: string, chunks: seq<seq<byte>>): seq<Frame>
    decreases |chunks|
  {
    if chunks == [] then []
    else [Frame(control, |chunks| > 1, Encode(chunks[0]))] + FramesOf("", chunks[1..])
  }

  function Payloads(frames: seq<Frame>): string {
    if frames == [] then "" else frames[0].payload + Payloads(frames[1..])
  }

  const ESCAPE: string := "\U{001B}_G"
  const TERMINATOR: string := "\U{001B}\\"

  function RenderFrame(f: Frame): string {
    ESCAPE + f.control + (if f.control == "" then "" else ",") + "m=" + (if f.more then "1" else "0")
    + ";" + f.payload + TERMINATOR
  }

  function RenderFrames(frames: seq<Frame>): string {
    if frames == [] then "" else RenderFrame(frames[0]) + RenderFrames(frames[1..])
  }

  /** `encode_kitty_data`, as the frames it writes. */
  function KittyData(control: string, data: seq<byte>): seq<Frame> {
    FramesOf(control, Chunks(data))
  }

  function FirstChunk(data: seq<byte>): (n: nat)
    ensures n <= |data| && (data != [] ==> n > 0) && (n < |data| ==> n % 3 == 0)
  {
    if |data| <= KITTY_CHUNK_BYTES then |data| else KITTY_CHUNK_BYTES
  }

  lemma {:induction false} NextChunk(data: seq<byte>)
    requires data != []
    ensures var n := FirstChunk(data);
            Chunks(data) == [data[..n]] + Chunks(data[n..]) && Chunks(data)[1..] == Chunks(data[n..])
  {
    if |data| <= KITTY_CHUNK_BYTES {
      assert data[..|data|] == data && data[|data|..] == [];
    }
  }

  /** Chunks are a whole number of base64 groups, so joining their encodings encodes the whole. */
  lemma {:induction false} PayloadsJoin(control: string, data: seq<byte>)
    ensures Payloads(KittyData(control, data)) == Encode(data)
    decreases |data|
  {
    if data != [] {
      hide Encode;
      var n := FirstChunk(data);
      var head, rest := data[..n], data[n..];
      NextFrame(control, data);
      var f := Frame(control, rest != [], Encode(head));
      assert ([f] + KittyData("", rest))[1..] == KittyData("", rest);
      PayloadsJoin("", rest);
      assert data == head + rest;
      if rest == [] {
        assert Encode(head) + Payloads(KittyData("", rest)) == Encode(data) by { assert head == data; }
      } else {
        EncodeAppend(head, rest);
      }
    }
  }

  /**
   The receiver's view: joining the payloads and decoding them gives the pixels, the control
   string is in the first frame only, and only the last frame says that nothing follows.
   */
  lemma {:induction false} TransferDecodes(control: string, data: seq<byte>)
    requires data != []
    ensures var frames := KittyData(control, data);
            && frames != []
            && Decode(Payloads(frames)) == Some(data)
            && frames[0].control == control
            && (forall i | 0 < i < |frames| :: frames[i].control == "")
            && (forall i | 0 <= i < |frames| :: frames[i].more <==> i < |frames| - 1)
  {
    PayloadsJoin(control, data);
    DecodeEncode(data);
    FrameFlags(control, Chunks(data));
  }

  lemma {:induction false} FrameFlags(control: string, chunks: seq<seq<byte>>)
    ensures var frames := FramesOf(control, chunks);
            && |frames| == |chunks|
            && (frames != [] ==> frames[0].control == control)
            && (forall i | 0 < i < |frames| :: frames[i].control == "")
            && (forall i | 0 <= i < |frames| :: frames[i].more <==> i < |frames| - 1)
    decreases |chunks|
  {
    if chunks != [] {
      FrameFlags("", chunks[1..]);
    }
  }

  /** The loop that writes the frames, against what they should be. */
  method EncodeKittyData(control: string, data: seq<byte>) returns (out: string)
    ensures out == RenderFrames(KittyData(control, data))
  {
    out := "";
    var rest := data;
    var first := control;
    ghost var all := RenderFrames(KittyData(control, data));
    while rest != []
      invariant out + RenderFrames(KittyData(first, rest)) == all
      decreases |rest|
    {
      var chunk := rest[..FirstChunk(rest)];
      var after := rest[FirstChunk(rest)..];
      var frame := Frame(first, after != [], Encode(chunk));
      NextFrame(first, rest);
      ghost var tail := RenderFrames(KittyData("", after));
      assert out + (RenderFrame(frame) + tail) == out + RenderFrame(frame) + tail;
      out := out + RenderFrame(frame);
      rest := after;
      first := "";
    }
  }

  lemma {:induction false} NextFrame(control: string, data: seq<byte>)
    requires data != []
    ensures var n := FirstChunk(data);
            var frame := Frame(control, data[n..] != [], Encode(data[..n]));
            && KittyData(control, data) == [frame] + KittyData("", data[n..])
            && RenderFrames(KittyData(control, data)) == RenderFrame(frame) + RenderFrames(KittyData("", data[n..]))
  {
    hide Encode, RenderFrame;
    var n := FirstChunk(data);
    NextChunk(data);
    assert Chunks(data)[0] == data[..n];
    assert |Chunks(data)| > 1 <==> data[n..] != [];
    var frame := Frame(control, data[n..] != [], Encode(data[..n]));
    assert ([frame] + KittyData("", data[n..]))[1..] == KittyData("", data[n..]);
  }

  // --- Commands as text ---

  function Decimal(n: nat): (s: string)
    ensures s != ""
  {
    if n < 10 then [Digit(52 + n)] else Decimal(n / 10) + [Digit(52 + n % 10)]
  }

  function SignedDecimal(n: int): string {
    if n < 0 then "-" + Decimal(-n) else Decimal(n)
  }

  function Optionally(name: string, n: nat): string {
    if n > 0 then name + Decimal(n) else ""
  }

  /** `append_placement_controls`. */
  function PlacementControls(clip: Clipped): string {
    Optionally(",x=", clip.sourceX) + Optionally(",y=", clip.sourceY)
    + Optionally(",w=", clip.sourceWidth) + Optionally(",h=", clip.sourceHeight)
    + Optionally(",X=", clip.xOffset) + Optionally(",Y=", clip.yOffset)
  }

  function MoveCursor(clip: Clipped): string {
    "\U{001B}[" + Decimal(clip.y + 1) + ";" + Decimal(clip.x + 1) + "H"
  }

  function SizeControls(g: Geometry): string {
    ",c=" + Decimal(g.clip.cols) + ",r=" + Decimal(g.clip.rows) + ",z=" + SignedDecimal(g.z) + ",C=1,q=2"
    + PlacementControls(g.clip)
  }

  function UploadControl(id: nat, sig: Signature): string {
    "a=t,t=d,f=" + Decimal(sig.format) + ",s=" + Decimal(sig.width) + ",v=" + Decimal(sig.height)
    + ",i=" + Decimal(id) + ",q=2"
  }

  function TransmitControl(slot: Slot, sig: Signature, g: Geometry): string {
    "a=T,t=d,f=" + Decimal(sig.format) + ",s=" + Decimal(sig.width) + ",v=" + Decimal(sig.height)
    + ",i=" + Decimal(slot.image) + ",p=" + Decimal(slot.placement) + SizeControls(g)
  }

  function RenderCmd(cmd: Cmd): string {
    match cmd
    case DeleteImage(id) => ESCAPE + "a=d,d=I,i=" + Decimal(id) + ",q=2;" + TERMINATOR
    case DeletePlacement(slot) =>
      ESCAPE + "a=d,d=i,i=" + Decimal(slot.image) + ",p=" + Decimal(slot.placement) + ",q=2;" + TERMINATOR
    case Upload(id, sig, data) => RenderFrames(KittyData(UploadControl(id, sig), data))
    case Display(slot, g) =>
      MoveCursor(g.clip) + ESCAPE + "a=p,i=" + Decimal(slot.image) + ",p=" + Decimal(slot.placement)
      + SizeControls(g) + ";" + TERMINATOR
    case TransmitAndDisplay(slot, sig, g, data) =>
      MoveCursor(g.clip) + RenderFrames(KittyData(TransmitControl(slot, sig, g), data))
  }

  function RenderAll(cmds: seq<Cmd>): string {
    if cmds == [] then "" else RenderCmd(cmds[0]) + RenderAll(cmds[1..])
  }

  // --- How long they get ---

  const U32: nat := 0x1_0000_0000
  const ISIZE_MAX: nat := 0x7FFF_FFFF_FFFF_FFFF

  predicate ClipInRange(c: Clipped) {
    c.x < U32 && c.y < U32 && c.cols < U32 && c.rows < U32 && c.sourceX < U32 && c.sourceY < U32
    && c.sourceWidth < U32 && c.sourceHeight < U32 && c.xOffset < U32 && c.yOffset < U32
  }

  predicate GeometryInRange(g: Geometry) {
    ClipInRange(g.clip) && -0x8000_0000 <= g.z < 0x8000_0000
  }

  predicate SigInRange(sig: Signature) {
    sig.width < U32 && sig.height < U32 && sig.format < U32
  }

  /** The numbers of a command are the 32-bit ones of the source. */
  predicate InRange(cmd: Cmd) {
    match cmd
    case DeleteImage(id) => id < U32
    case DeletePlacement(slot) => slot.image < U32 && slot.placement < U32
    case Upload(id, sig, _) => id < U32 && SigInRange(sig)
    case Display(slot, g) => slot.image < U32 && slot.placement < U32 && GeometryInRange(g)
    case TransmitAndDisplay(slot, sig, g, _) =>
      slot.image < U32 && slot.placement < U32 && SigInRange(sig) && GeometryInRange(g)
  }

  function Pow10(k: nat): nat {
    if k == 0 then 1 else 10 * Pow10(k - 1)
  }

  lemma {:induction false} DecimalLength(n: nat, k: nat)
    requires n < Pow10(k) && k > 0
    ensures |Decimal(n)| <= k
    decreases k
  {
    if n >= 10 {
      assert k > 1;
      DecimalLength(n / 10, k - 1);
    }
  }

  lemma {:induction false} DecimalShort(n: nat)
    requires n <= U32
    ensures |Decimal(n)| <= 10
  {
    assert Pow10(5) == 100_000;
    assert Pow10(10) == 100_000 * 100_000 by {
      assert Pow10(7) == 10_000_000;
      assert Pow10(9) == 1_000_000_000;
    }
    DecimalLength(n, 10);
  }

  lemma {:induction false} CeilSteps(len: nat, n: nat)
    requires n == if len <= KITTY_CHUNK_BYTES then len else KITTY_CHUNK_BYTES
    requires len > 0
    ensures DivCeil(len, 3) == (n + 2) / 3 + DivCeil(len - n, 3)
    ensures DivCeil(len, KITTY_CHUNK_BYTES) == 1 + DivCeil(len - n, KITTY_CHUNK_BYTES)
  {
  }

  lemma {:induction false} FramesLength(data: seq<byte>)
    ensures |RenderFrames(KittyData("", data))| == DivCeil(|data|, 3) * 4 + DivCeil(|data|, KITTY_CHUNK_BYTES) * 9
    decreases |data|
  {
    if data != [] {
      var n := FirstChunk(data);
      NextFrame("", data);
      EncodeLength(data[..n]);
      FramesLength(data[n..]);
      CeilSteps(|data|, n);
      hide Encode, RenderFrames, KittyData;
    }
  }

  /** A transfer costs its base64 text, nine bytes a chunk, and its control string with a comma. */
  lemma {:induction false} TransferLength(control: string, data: seq<byte>)
    requires control != "" && data != []
    ensures |RenderFrames(KittyData(control, data))|
         == DivCeil(|data|, 3) * 4 + DivCeil(|data|, KITTY_CHUNK_BYTES) * 9 + |control| + 1
  {
    NextFrame(control, data);
    NextFrame("", data);
    FramesLength(data);
  }

  lemma {:induction false} SizeControlsShort(g: Geometry)
    requires GeometryInRange(g)
    ensures |SizeControls(g)| <= 130
  {
    var c := g.clip;
    DecimalShort(c.cols);
    DecimalShort(c.rows);
    DecimalShort(if g.z < 0 then -g.z else g.z);
    PlacementControlsShort(c);
    hide Decimal, PlacementControls;
  }

  lemma {:induction false} PlacementControlsShort(c: Clipped)
    requires ClipInRange(c)
    ensures |PlacementControls(c)| <= 78
  {
    DecimalShort(c.sourceX);
    DecimalShort(c.sourceY);
    DecimalShort(c.sourceWidth);
    DecimalShort(c.sourceHeight);
    DecimalShort(c.xOffset);
    DecimalShort(c.yOffset);
    hide Decimal;
  }

  lemma {:induction false} MoveCursorShort(c: Clipped)
    requires ClipInRange(c)
    ensures |MoveCursor(c)| <= 24
  {
    DecimalShort(c.x + 1);
    DecimalShort(c.y + 1);
    hide Decimal;
  }

  lemma {:induction false} DeleteImageShort(id: nat)
    requires id < U32
    ensures |RenderCmd(DeleteImage(id))| <= 40
  {
    DecimalShort(id);
    hide Decimal;
  }

  lemma {:induction false} DisplayShort(slot: Slot, g: Geometry)
    requires InRange(Display(slot, g))
    ensures |RenderCmd(Display(slot, g))| <= 200
  {
    DecimalShort(slot.image);
    DecimalShort(slot.placement);
    SizeControlsShort(g);
    MoveCursorShort(g.clip);
    hide Decimal, SizeControls, MoveCursor;
  }

  lemma {:induction false} UploadControlShort(id: nat, sig: Signature)
    requires id < U32 && SigInRange(sig)
    ensures 0 < |UploadControl(id, sig)| <= 70
  {
    DecimalShort(sig.format);
    DecimalShort(sig.width);
    DecimalShort(sig.height);
    DecimalShort(id);
    hide Decimal;
  }

  lemma {:induction false} TransmitControlShort(slot: Slot, sig: Signature, g: Geometry)
    requires InRange(TransmitAndDisplay(slot, sig, g, []))
    ensures 0 < |TransmitControl(slot, sig, g)| <= 210
  {
    DecimalShort(sig.format);
    DecimalShort(sig.width);
    DecimalShort(sig.height);
    DecimalShort(slot.image);
    DecimalShort(slot.placement);
    SizeControlsShort(g);
    hide Decimal, SizeControls;
  }

  function TransferCost(n: nat): nat {
    DivCeil(n, 3) * 4 + DivCeil(n, KITTY_CHUNK_BYTES) * 9
  }

  /** What a command adds beyond the transfer of its pixels. */
  function Pixels(cmd: Cmd): seq<byte> {
    match cmd
    case Upload(_, _, data) => data
    case TransmitAndDisplay(_, _, _, data) => data
    case _ => []
  }

  lemma {:induction false} CmdLength(cmd: Cmd)
    requires InRange(cmd) && !cmd.DeletePlacement?
    requires cmd.Upload? || cmd.TransmitAndDisplay? ==> Pixels(cmd) != []
    ensures |RenderCmd(cmd)| <= TransferCost(|Pixels(cmd)|) + 240
  {
    match cmd
    case DeleteImage(id) => DeleteImageShort(id);
    case Upload(id, sig, data) =>
      UploadControlShort(id, sig);
      hide UploadControl;
      TransferLength(UploadControl(id, sig), data);
    case Display(slot, g) => DisplayShort(slot, g);
    case TransmitAndDisplay(slot, sig, g, data) =>
      TransmitControlShort(slot, sig, g);
      MoveCursorShort(g.clip);
      hide TransmitControl, MoveCursor;
      TransferLength(TransmitControl(slot, sig, g), data);
    case DeletePlacement(_) =>
  }

  lemma {:induction false} RenderAllAppend(a: seq<Cmd>, b: seq<Cmd>)
    ensures RenderAll(a + b) == RenderAll(a) + RenderAll(b)
    decreases |a|
  {
    hide RenderCmd;
    if a == [] {
      assert a + b == b;
    } else {
      RenderAllAppend(a[1..], b);
      assert (a + b)[1..] == a[1..] + b;
    }
  }

  lemma {:induction false} RenderOne(cmd: Cmd)
    ensures RenderAll([cmd]) == RenderCmd(cmd)
  {
    assert RenderAll([cmd]) == RenderCmd(cmd) + RenderAll([cmd][1..]);
  }

  // --- The budget ---

  /** Everything a placement's update prints is a 32-bit number, and the data length is the true one. */
  predicate Measured(env: Env, c: Cache, p: Placement) {
    && p.sig.dataLen == |p.data| <= ISIZE_MAX
    && SigInRange(p.sig) && p.clip.Some? && GeometryInRange(Geometry(p.clip.value, p.z))
    && (p.hostImage.Some? ==> p.hostImage.value < U32)
    && (forall k | k in c.sources :: c.sources[k] < U32)
  }

  lemma {:induction false} PieceLength(cmds: seq<Cmd>)
    requires |cmds| <= 1 && forall cmd | cmd in cmds :: InRange(cmd) && (cmd.DeleteImage? || cmd.Display?)
    ensures |RenderAll(cmds)| <= 240
  {
    if cmds != [] {
      assert cmds == [cmds[0]];
      RenderOne(cmds[0]);
      CmdLength(cmds[0]);
      hide RenderCmd;
    }
  }

  lemma {:induction false} TransmitLength(c: Cache, p: Placement, slot: Slot)
    requires p.clip.Some? && SigInRange(p.sig) && GeometryInRange(Geometry(p.clip.value, p.z))
    requires slot.image < U32 && slot.placement < U32
    requires !ImageCurrent(c, p, slot.image) && Transmit(c, p, slot).Some?
    ensures |RenderAll(Transmit(c, p, slot).value.cmds)| <= TransferCost(|p.data|) + 480
  {
    var cmds := Transmit(c, p, slot).value.cmds;
    if slot.image in c.images && !p.key.PaneLayer? {
      RenderAllAppend([cmds[0]], [cmds[1]]);
      assert [cmds[0]] + [cmds[1]] == cmds;
      RenderOne(cmds[0]);
      RenderOne(cmds[1]);
      CmdLength(cmds[0]);
      CmdLength(cmds[1]);
    } else {
      assert cmds == [cmds[0]];
      RenderOne(cmds[0]);
      CmdLength(cmds[0]);
    }
  }

  lemma {:induction false} FitsMeans(n: nat, budget: nat)
    requires n <= ISIZE_MAX && TransactionFits(n, Some(budget))
    ensures TransferCost(n) + 1024 <= budget
  {
    assert DivCeil(n, 3) <= n / 3 + 1 && DivCeil(n, KITTY_CHUNK_BYTES) <= n / 3072 + 1;
  }

  /**
   An upload the size check lets through stays within the budget: the whole transaction, with the
   superseded image's deletion and the display command, is no longer than the budget.
   */
  lemma {:induction false} AcceptedTransactionFits(env: Env, c: Cache, p: Placement, budget: nat)
    requires Measured(env, c, p) && ResolveSlot(env, c, p).Some?
    requires !ImageCurrent(c, p, ResolveSlot(env, c, p).value.image)
    requires TransactionFits(p.sig.dataLen, Some(budget)) && Update(env, c, p).Some?
    ensures |RenderAll(Update(env, c, p).value.cmds)| <= budget
  {
    var slot := ResolveSlot(env, c, p).value;
    assert slot.image < U32 && slot.placement < U32;
    UpdatePieces(env, c, p, slot);
    hide ResolveSlot, Update;
    var sent := Transmit(c, p, slot).value;
    var released := Release(sent.cache, p.key, slot.image).cmds;
    var shown := Shown(c, p, slot);
    TransmitLength(c, p, slot);
    PieceLength(released);
    PieceLength(shown);
    hide RenderAll, Transmit, Release, TransferCost, Shown;
    RenderAllAppend(sent.cmds + released, shown);
    RenderAllAppend(sent.cmds, released);
    FitsMeans(|p.data|, budget);
  }

  function Shown(c: Cache, p: Placement, slot: Slot): seq<Cmd>
    requires p.clip.Some?
  {
    if !ReplacesInPlace(c, p, slot) && !PlacementCurrent(c, p, slot) then [Display(slot, Sig(p).geometry)] else []
  }

  lemma {:induction false} UpdatePieces(env: Env, c: Cache, p: Placement, slot: Slot)
    requires Measured(env, c, p) && ResolveSlot(env, c, p) == Some(slot) && slot.image < U32 && slot.placement < U32
    requires !ImageCurrent(c, p, slot.image) && Update(env, c, p).Some?
    ensures var sent := Transmit(c, p, slot);
            && sent.Some?
            && var released := Release(sent.value.cache, p.key, slot.image).cmds;
            && Update(env, c, p).value.cmds == sent.value.cmds + released + Shown(c, p, slot)
            && |released| <= 1 && (forall cmd | cmd in released :: InRange(cmd) && cmd.DeleteImage?)
            && |Shown(c, p, slot)| <= 1 && (forall cmd | cmd in Shown(c, p, slot) :: InRange(cmd) && cmd.Display?)
  {
    hide ResolveSlot;
  }

  // --- What the size check turns away, and how full the chunks are ---

  /** The check adds to the exact length of the transfer seven bytes a chunk and a kilobyte, and nothing else. */
  lemma {:induction false} FitsExactly(n: nat, budget: nat)
    requires n <= ISIZE_MAX
    ensures TransactionFits(n, Some(budget)) <==> TransferCost(n) + DivCeil(n, 3072) * 7 + 1024 <= budget
  {
    assert DivCeil(n, 3) <= n / 3 + 1 && DivCeil(n, KITTY_CHUNK_BYTES) <= n / 3072 + 1;
  }

  lemma {:induction false} CmdAtLeast(cmd: Cmd)
    requires (cmd.Upload? || cmd.TransmitAndDisplay?) && Pixels(cmd) != []
    ensures |RenderCmd(cmd)| >= TransferCost(|Pixels(cmd)|)
  {
    hide UploadControl, TransmitControl, MoveCursor, Decimal, SizeControls;
    match cmd
    case Upload(id, sig, data) =>
      assert UploadControl(id, sig) != "" by { UploadControlSaysSomething(id, sig); }
      TransferLength(UploadControl(id, sig), data);
    case TransmitAndDisplay(slot, sig, g, data) =>
      assert TransmitControl(slot, sig, g) != "" by { TransmitControlSaysSomething(slot, sig, g); }
      TransferLength(TransmitControl(slot, sig, g), data);
  }

  lemma {:induction false} UploadControlSaysSomething(id: nat, sig: Signature)
    ensures UploadControl(id, sig) != ""
  {
    hide Decimal;
  }

  lemma {:induction false} TransmitControlSaysSomething(slot: Slot, sig: Signature, g: Geometry)
    ensures TransmitControl(slot, sig, g) != ""
  {
    hide Decimal, SizeControls;
  }

  lemma {:induction false} RenderAllAtLeast(cmds: seq<Cmd>, i: nat)
    requires i < |cmds|
    ensures |RenderAll(cmds)| >= |RenderCmd(cmds[i])|
    decreases |cmds|
  {
    hide RenderCmd;
    if i > 0 {
      RenderAllAtLeast(cmds[1..], i - 1);
    }
  }

  lemma {:induction false} TransmitsPixels(env: Env, c: Cache, p: Placement) returns (i: nat)
    requires ResolveSlot(env, c, p).Some? && !ImageCurrent(c, p, ResolveSlot(env, c, p).value.image)
    requires Update(env, c, p).Some?
    ensures var cmds := Update(env, c, p).value.cmds;
            i < |cmds| && (cmds[i].Upload? || cmds[i].TransmitAndDisplay?) && Pixels(cmds[i]) == p.data && p.data != []
  {
    assert p.clip.Some?;
    hide ResolveSlot, Release;
    var slot := ResolveSlot(env, c, p).value;
    var sent := Transmit(c, p, slot).value.cmds;
    i := |sent| - 1;
    assert Update(env, c, p).value.cmds[i] == sent[i];
  }

  /**
   An upload is turned away only when the text of its transaction, with seven bytes a chunk and a kilobyte to
   spare, is longer than the budget.
   */
  lemma {:induction false} RefusedTransactionIsLarge(env: Env, c: Cache, p: Placement, budget: nat)
    requires ResolveSlot(env, c, p).Some? && p.sig.dataLen == |p.data| <= ISIZE_MAX
    requires !ImageCurrent(c, p, ResolveSlot(env, c, p).value.image)
    requires !TransactionFits(p.sig.dataLen, Some(budget)) && Update(env, c, p).Some?
    ensures |RenderAll(Update(env, c, p).value.cmds)| + DivCeil(|p.data|, 3072) * 7 + 1024 > budget
  {
    var i := TransmitsPixels(env, c, p);
    var cmds := Update(env, c, p).value.cmds;
    hide *;
    CmdAtLeast(cmds[i]);
    RenderAllAtLeast(cmds, i);
    FitsExactly(|p.data|, budget);
  }

  lemma {:induction false} FirstPayloadLength(data: seq<byte>)
    requires data != []
    ensures var n := FirstChunk(data);
            if data[n..] != [] then |Encode(data[..n])| == 4096 else 0 < |Encode(data[..n])| <= 4096
  {
    EncodeLength(data[..FirstChunk(data)]);
    hide Encode;
  }

  /** Every chunk but the last is 4096 characters of base64, and the last is no longer and not empty. */
  lemma {:induction false} PayloadsAreFull(control: string, data: seq<byte>, i: nat)
    requires i < |KittyData(control, data)|
    ensures var frames := KittyData(control, data);
            if i < |frames| - 1 then |frames[i].payload| == 4096 else 0 < |frames[i].payload| <= 4096
    decreases |data|
  {
    NextFrame(control, data);
    FirstPayloadLength(data);
    var n := FirstChunk(data);
    hide *;
    if data[n..] == [] {
      NoFrames("");
    } else {
      NextFrame("", data[n..]);
    }
    if i > 0 {
      PayloadsAreFull("", data[n..], i - 1);
    }
  }

  lemma {:induction false} NoFrames(control: string)
    ensures KittyData(control, []) == []
  {
  }
}
