/**
 The receiver's side of the graphics protocol, written apart from the encoder: from the text of a transaction
 to cursor moves and escape sequences, and from these to commands.
 */
module KittyReader {
  import opened Common
  import opened HostGraphics
  import opened Base64

  const ESC: char := '\U{001B}'

  // --- Numbers ---

  predicate IsDigit(ch: char) {
    '0' <= ch <= '9'
  }

  function DigitsValue(s: string): nat
    requires forall ch | ch in s :: IsDigit(ch)
  {
    if s == "" then 0
    else
      var last := s[|s| - 1];
      assert last in s && IsDigit(last);
      DigitsValue(s[..|s| - 1]) * 10 + (last as nat - '0' as nat)
  }

  function ReadNat(s: string): Option<nat> {
    if s != "" && forall ch | ch in s :: IsDigit(ch) then Some(DigitsValue(s)) else None
  }

  function ReadInt(s: string): Option<int> {
    if s != "" && s[0] == '-' then
      var n := ReadNat(s[1..]);
      if n.None? then None
      else
        var size: int := n.value;
        Some(-size)
    else ReadNat(s)
  }

  // --- Escape sequences ---

  /** What comes before the first `stop`, and what comes after it. */
  function Until(s: string, stop: char): (r: Option<(string, string)>)
    ensures r.Some? ==> s == r.value.0 + [stop] + r.value.1
  {
    if s == "" then None
    else if s[0] == stop then Some(("", s[1..]))
    else
      var rest := Until(s[1..], stop);
      if rest.None? then None else Some(([s[0]] + rest.value.0, rest.value.1))
  }

  type Field = (char, string)

  /** A control key and its value. */
  function ReadField(s: string): Option<Field> {
    if |s| >= 2 && s[1] == '=' then Some((s[0], s[2..])) else None
  }

  function ReadFields(s: string): Option<seq<Field>>
    decreases |s|
  {
    var split := Until(s, ',');
    if split.None? then
      var field := ReadField(s);
      if field.None? then None else Some([field.value])
    else
      var field, rest := ReadField(split.value.0), ReadFields(split.value.1);
      if field.None? || rest.None? then None else Some([field.value] + rest.value)
  }

  datatype Piece =
    | CursorTo(row: nat, column: nat)
    | Escape(fields: seq<Field>, payload: string)

  /** One cursor move or graphics escape at the front of the text. */
  function ReadPiece(s: string): (r: Option<(Piece, string)>)
    ensures r.Some? ==> |r.value.1| < |s|
  {
    if |s| >= 2 && s[0] == ESC && s[1] == '[' then
      var move := Until(s[2..], 'H');
      if move.None? then None
      else
        var numbers := Until(move.value.0, ';');
        if numbers.None? then None
        else
          var row, column := ReadNat(numbers.value.0), ReadNat(numbers.value.1);
          if row.None? || column.None? then None else Some((CursorTo(row.value, column.value), move.value.1))
    else if |s| >= 3 && s[0] == ESC && s[1] == '_' && s[2] == 'G' then
      var body := Until(s[3..], ESC);
      if body.None? || body.value.1 == "" || body.value.1[0] != '\\' then None
      else
        var parts := Until(body.value.0, ';');
        if parts.None? then None
        else
          var fields := ReadFields(parts.value.0);
          if fields.None? then None else Some((Escape(fields.value, parts.value.1), body.value.1[1..]))
    else None
  }

  function ReadPieces(s: string): Option<seq<Piece>>
    decreases |s|
  {
    if s == "" then Some([])
    else
      var first := ReadPiece(s);
      if first.None? then None
      else
        var rest := ReadPieces(first.value.1);
        if rest.None? then None else Some([first.value.0] + rest.value)
  }

  // --- Commands ---

  /** The value of a key, if it is given. */
  function Lookup(fields: seq<Field>, key: char): Option<string> {
    if fields == [] then None
    else if fields[0].0 == key then Some(fields[0].1)
    else Lookup(fields[1..], key)
  }

  predicate Says(fields: seq<Field>, key: char, value: string) {
    Lookup(fields, key) == Some(value)
  }

  function NatField(fields: seq<Field>, key: char): Option<nat> {
    var text := Lookup(fields, key);
    if text.None? then None else ReadNat(text.value)
  }

  /** A key that stands for zero when it is left out. */
  function NatOrZero(fields: seq<Field>, key: char): Option<nat> {
    if Lookup(fields, key).None? then Some(0) else NatField(fields, key)
  }

  function ReadSlot(fields: seq<Field>): Option<Slot> {
    var image, placement := NatField(fields, 'i'), NatField(fields, 'p');
    if image.None? || placement.None? then None else Some(Slot(image.value, placement.value))
  }

  /** Where and how to draw: at the cursor, which counts from one and must not move. */
  function ReadGeometry(fields: seq<Field>, cursor: Option<(nat, nat)>): Option<Geometry> {
    var cols, rows := NatField(fields, 'c'), NatField(fields, 'r');
    var x, y, w, h := NatOrZero(fields, 'x'), NatOrZero(fields, 'y'), NatOrZero(fields, 'w'), NatOrZero(fields, 'h');
    var xOffset, yOffset := NatOrZero(fields, 'X'), NatOrZero(fields, 'Y');
    var z := if Lookup(fields, 'z').None? then None else ReadInt(Lookup(fields, 'z').value);
    if cursor.None? || cursor.value.0 == 0 || cursor.value.1 == 0 || !Says(fields, 'C', "1")
       || cols.None? || rows.None? || x.None? || y.None? || w.None? || h.None? || xOffset.None? || yOffset.None? || z.None?
    then None
    else
      Some(Geometry(
        Clipped(cursor.value.1 - 1, cursor.value.0 - 1, cols.value, rows.value,
                x.value, y.value, w.value, h.value, xOffset.value, yOffset.value), z.value))
  }

  /** The payload of a transfer in one or more escapes, and what follows; only the last one says that nothing follows. */
  function Gather(pieces: seq<Piece>): (r: Option<(string, seq<Piece>)>)
    requires pieces != [] && pieces[0].Escape?
    ensures r.Some? ==> |r.value.1| < |pieces|
    decreases |pieces|
  {
    var p := pieces[0];
    if Says(p.fields, 'm', "0") then Some((p.payload, pieces[1..]))
    else if Says(p.fields, 'm', "1") && |pieces| > 1 && pieces[1].Escape? && |pieces[1].fields| == 1 then
      var rest := Gather(pieces[1..]);
      if rest.None? then None else Some((p.payload + rest.value.0, rest.value.1))
    else None
  }

  /** What the sender tells of an image: its size, its format and its pixels. */
  function Told(width: nat, height: nat, format: nat, data: seq<byte>): Signature {
    Signature(width, height, format, |data|, 0)
  }

  function ReadTransfer(fields: seq<Field>, payload: string): Option<(Signature, seq<byte>)> {
    var format, width, height := NatField(fields, 'f'), NatField(fields, 's'), NatField(fields, 'v');
    var data := Decode(payload);
    if !Says(fields, 't', "d") || format.None? || width.None? || height.None? || data.None? then None
    else Some((Told(width.value, height.value, format.value, data.value), data.value))
  }

  /** The commands a sequence of pieces gives, with the cursor where it was left. */
  function Understand(pieces: seq<Piece>, cursor: Option<(nat, nat)>): Option<seq<Cmd>>
    decreases |pieces|
  {
    if pieces == [] then Some([])
    else
      match pieces[0]
      case CursorTo(row, column) => Understand(pieces[1..], Some((row, column)))
      case Escape(fields, payload) =>
        if !Says(fields, 'q', "2") then None
        else if Says(fields, 'a', "t") || Says(fields, 'a', "T") then
          var gathered := Gather(pieces);
          if gathered.None? then None
          else
            var transfer := ReadTransfer(fields, gathered.value.0);
            var cmd := ReadTransmission(fields, transfer, cursor);
            Prepended(cmd, Understand(gathered.value.1, cursor))
        else Prepended(ReadShort(fields, payload, cursor), Understand(pieces[1..], cursor))
  }

  function ReadTransmission(
    fields: seq<Field>, transfer: Option<(Signature, seq<byte>)>, cursor: Option<(nat, nat)>): Option<Cmd>
  {
    if transfer.None? then None
    else if Says(fields, 'a', "t") then
      var id := NatField(fields, 'i');
      if id.None? then None else Some(Upload(id.value, transfer.value.0, transfer.value.1))
    else
      var slot, geometry := ReadSlot(fields), ReadGeometry(fields, cursor);
      if slot.None? || geometry.None? then None
      else Some(TransmitAndDisplay(slot.value, transfer.value.0, geometry.value, transfer.value.1))
  }

  /** A command without pixels. */
  function ReadShort(fields: seq<Field>, payload: string, cursor: Option<(nat, nat)>): Option<Cmd> {
    if payload != "" then None
    else if Says(fields, 'a', "p") then
      var slot, geometry := ReadSlot(fields), ReadGeometry(fields, cursor);
      if slot.None? || geometry.None? then None else Some(Display(slot.value, geometry.value))
    else if Says(fields, 'a', "d") && Says(fields, 'd', "I") then
      var id := NatField(fields, 'i');
      if id.None? then None else Some(DeleteImage(id.value))
    else if Says(fields, 'a', "d") && Says(fields, 'd', "i") then
      var slot := ReadSlot(fields);
      if slot.None? then None else Some(DeletePlacement(slot.value))
    else None
  }

  function Prepended(cmd: Option<Cmd>, rest: Option<seq<Cmd>>): Option<seq<Cmd>> {
    if cmd.None? || rest.None? then None else Some([cmd.value] + rest.value)
  }

  /** A whole transaction as the receiver takes it. */
  function Read(text: string): Option<seq<Cmd>> {
    var pieces := ReadPieces(text);
    if pieces.None? then None else Understand(pieces.value, None)
  }
}
