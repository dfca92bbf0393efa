/** Reading a rendered transaction back gives its commands: the encoder against the reader. */
module KittyRoundTrip {
  import opened Common
  import opened HostGraphics
  import opened GraphicsStep
  import opened Base64
  import opened KittyReader
  import opened KittyWire

  // --- Numbers ---

  lemma {:induction false} DecimalReads(n: nat)
    ensures (forall ch | ch in Decimal(n) :: IsDigit(ch)) && DigitsValue(Decimal(n)) == n
    decreases n
  {
    if n < 10 {
      assert Decimal(n) == [Digit(52 + n)];
      assert Decimal(n)[..0] == "";
    } else {
      DecimalReads(n / 10);
      var s := Decimal(n);
      assert s[..|s| - 1] == Decimal(n / 10) && s[|s| - 1] == Digit(52 + n % 10);
    }
  }

  lemma {:induction false} NatReads(n: nat)
    ensures ReadNat(Decimal(n)) == Some(n)
  {
    DecimalReads(n);
  }

  lemma {:induction false} IntReads(n: int)
    ensures ReadInt(SignedDecimal(n)) == Some(n)
  {
    if n < 0 {
      DecimalReads(-n);
      assert SignedDecimal(n)[1..] == Decimal(-n);
    } else {
      DecimalReads(n);
      assert Decimal(n)[0] in Decimal(n);
    }
  }

  // --- Fields ---

  /** Free of the characters that end a field, a control part or an escape. */
  predicate Clean(s: string) {
    forall ch | ch in s :: ch != ',' && ch != ';' && ch != ESC
  }

  ghost predicate CleanFields(fields: seq<Field>) {
    forall f | f in fields :: Clean(f.1) && Clean([f.0])
  }

  function One(f: Field): string {
    [f.0] + "=" + f.1
  }

  /** The fields with a comma before each. */
  function Tail(fields: seq<Field>): string {
    if fields == [] then "" else "," + One(fields[0]) + Tail(fields[1..])
  }

  function Joined(fields: seq<Field>): string
    requires fields != []
  {
    One(fields[0]) + Tail(fields[1..])
  }

  lemma {:induction false} UntilFirst(a: string, stop: char, b: string)
    requires stop !in a
    ensures Until(a + [stop] + b, stop) == Some((a, b))
    decreases |a|
  {
    var s := a + [stop] + b;
    if a == "" {
      assert s[1..] == b;
    } else {
      assert s[1..] == a[1..] + [stop] + b;
      UntilFirst(a[1..], stop, b);
      assert [a[0]] + a[1..] == a;
    }
  }

  lemma {:induction false} UntilNever(a: string, stop: char)
    requires stop !in a
    ensures Until(a, stop) == None
    decreases |a|
  {
    if a != "" {
      UntilNever(a[1..], stop);
    }
  }

  lemma {:induction false} OneReads(f: Field)
    requires Clean(f.1) && Clean([f.0])
    ensures ReadField(One(f)) == Some(f) && Clean(One(f))
  {
    assert One(f)[2..] == f.1;
    assert f.0 in [f.0];
  }

  /** One field in front of a text that reads as the others. */
  lemma {:induction false} FieldThenRest(f: Field, text: string, rest: seq<Field>)
    requires Clean(f.1) && Clean([f.0]) && ReadFields(text) == Some(rest)
    ensures ReadFields(One(f) + [','] + text) == Some([f] + rest)
  {
    OneReads(f);
    UntilFirst(One(f), ',', text);
    hide One, ReadField, Until;
  }

  lemma {:induction false} OneFieldReads(f: Field)
    requires Clean(f.1) && Clean([f.0])
    ensures ReadFields(One(f)) == Some([f])
  {
    OneReads(f);
    UntilNever(One(f), ',');
    hide One, ReadField, Until;
  }

  lemma {:induction false} JoinedStep(fields: seq<Field>)
    requires fields != []
    ensures Joined(fields) == if |fields| == 1 then One(fields[0]) else One(fields[0]) + [','] + Joined(fields[1..])
  {
    hide One;
    if |fields| == 1 {
      assert Tail(fields[1..]) == "";
    } else {
      var rest := fields[1..];
      assert Tail(rest) == "," + One(rest[0]) + Tail(rest[1..]);
      assert "," + One(rest[0]) + Tail(rest[1..]) == [','] + (One(rest[0]) + Tail(rest[1..]));
    }
  }

  lemma {:induction false} JoinedReads(fields: seq<Field>)
    requires fields != [] && CleanFields(fields)
    ensures ReadFields(Joined(fields)) == Some(fields)
    ensures ';' !in Joined(fields) && ESC !in Joined(fields)
    decreases |fields|
  {
    var f := fields[0];
    assert f in fields;
    OneReads(f);
    JoinedStep(fields);
    assert ';' !in One(f) && ESC !in One(f);
    hide One, Joined, ReadFields, Clean;
    if |fields| == 1 {
      OneFieldReads(f);
      assert [f] == fields;
    } else {
      var rest := fields[1..];
      assert forall x | x in rest :: x in fields;
      JoinedReads(rest);
      FieldThenRest(f, Joined(rest), rest);
      assert [f] + rest == fields;
    }
  }

  lemma {:induction false} TailStep(f: Field, rest: seq<Field>)
    ensures Tail([f] + rest) == "," + One(f) + Tail(rest)
  {
    hide One;
    assert ([f] + rest)[1..] == rest;
  }

  lemma {:induction false} TextGrouped(a: string, b: string, c: string)
    ensures a + (b + c) == a + b + c
  {
  }

  lemma {:induction false} TailAppend(a: seq<Field>, b: seq<Field>)
    ensures Tail(a + b) == Tail(a) + Tail(b)
    decreases |a|
  {
    if a == [] {
      assert a + b == b && Tail(a) == "" && "" + Tail(b) == Tail(b);
    } else {
      hide *;
      var f, rest := a[0], a[1..];
      TailAppend(rest, b);
      assert a == [f] + rest && a + b == [f] + (rest + b);
      TailStep(f, rest);
      TailStep(f, rest + b);
      TextGrouped("," + One(f), Tail(rest), Tail(b));
    }
  }

  // --- Escapes ---

  function Escaped(fields: seq<Field>, payload: string): string
    requires fields != []
  {
    ESCAPE + Joined(fields) + ";" + payload + TERMINATOR
  }

  lemma {:induction false} EscapedReads(fields: seq<Field>, payload: string, rest: string)
    requires fields != [] && CleanFields(fields) && ESC !in payload
    ensures ReadPiece(Escaped(fields, payload) + rest) == Some((Escape(fields, payload), rest))
  {
    JoinedReads(fields);
    var controls := Joined(fields);
    var body := controls + [';'] + payload;
    var s := Escaped(fields, payload) + rest;
    hide Joined, ReadFields;
    assert ESCAPE == [ESC, '_', 'G'] && TERMINATOR == [ESC] + "\\";
    assert s[3..] == body + [ESC] + ("\\" + rest);
    UntilFirst(body, ESC, "\\" + rest);
    UntilFirst(controls, ';', payload);
    assert ("\\" + rest)[1..] == rest;
  }

  lemma {:induction false} DigitsAreNoStops(s: string)
    requires ReadNat(s).Some?
    ensures 'H' !in s && ';' !in s
  {
  }

  lemma {:induction false} MoveTextReads(row: string, column: string, rest: string)
    requires ReadNat(row).Some? && ReadNat(column).Some?
    ensures ReadPiece([ESC, '['] + row + ";" + column + "H" + rest)
         == Some((CursorTo(ReadNat(row).value, ReadNat(column).value), rest))
  {
    DigitsAreNoStops(row);
    DigitsAreNoStops(column);
    hide ReadNat;
    var inner := row + [';'] + column;
    var s := [ESC, '['] + row + ";" + column + "H" + rest;
    assert s[2..] == inner + ['H'] + rest;
    UntilFirst(inner, 'H', rest);
    UntilFirst(row, ';', column);
  }

  lemma {:induction false} MoveReads(clip: Clipped, rest: string)
    ensures ReadPiece(MoveCursor(clip) + rest) == Some((CursorTo(clip.y + 1, clip.x + 1), rest))
  {
    var row, column := Decimal(clip.y + 1), Decimal(clip.x + 1);
    NatReads(clip.y + 1);
    NatReads(clip.x + 1);
    hide ReadPiece, ReadNat, Decimal;
    MoveTextReads(row, column, rest);
    assert MoveCursor(clip) + rest == [ESC, '['] + row + ";" + column + "H" + rest;
  }

  lemma {:induction false} PieceThenRest(s: string, piece: Piece, rest: string)
    requires ReadPiece(s) == Some((piece, rest)) && ReadPieces(rest).Some?
    ensures ReadPieces(s) == Some([piece] + ReadPieces(rest).value)
  {
  }

  // --- What each command says ---

  function PlacementFields(clip: Clipped): seq<Field> {
    Given('x', clip.sourceX) + Given('y', clip.sourceY) + Given('w', clip.sourceWidth) + Given('h', clip.sourceHeight)
    + Given('X', clip.xOffset) + Given('Y', clip.yOffset)
  }

  function Given(key: char, n: nat): seq<Field> {
    if n > 0 then [(key, Decimal(n))] else []
  }

  function SizeFields(g: Geometry): seq<Field> {
    [('c', Decimal(g.clip.cols)), ('r', Decimal(g.clip.rows)), ('z', SignedDecimal(g.z)), ('C', "1"), ('q', "2")]
    + PlacementFields(g.clip)
  }

  function UploadFields(id: nat, sig: Signature): seq<Field> {
    [('a', "t"), ('t', "d"), ('f', Decimal(sig.format)), ('s', Decimal(sig.width)), ('v', Decimal(sig.height)),
     ('i', Decimal(id)), ('q', "2")]
  }

  function TransmitFields(slot: Slot, sig: Signature, g: Geometry): seq<Field> {
    [('a', "T"), ('t', "d"), ('f', Decimal(sig.format)), ('s', Decimal(sig.width)), ('v', Decimal(sig.height)),
     ('i', Decimal(slot.image)), ('p', Decimal(slot.placement))] + SizeFields(g)
  }

  function DisplayFields(slot: Slot, g: Geometry): seq<Field> {
    [('a', "p"), ('i', Decimal(slot.image)), ('p', Decimal(slot.placement))] + SizeFields(g)
  }

  lemma {:induction false} GivenTail(key: char, n: nat)
    ensures Tail(Given(key, n)) == Optionally([',', key, '='], n)
  {
    if n > 0 {
      var f := (key, Decimal(n));
      assert Given(key, n)[1..] == [];
      assert "," + One(f) == [',', key, '='] + Decimal(n);
    }
  }

  lemma {:induction false} PlacementTail(clip: Clipped)
    ensures PlacementControls(clip) == Tail(PlacementFields(clip))
  {
    GivenTail('x', clip.sourceX);
    GivenTail('y', clip.sourceY);
    GivenTail('w', clip.sourceWidth);
    GivenTail('h', clip.sourceHeight);
    GivenTail('X', clip.xOffset);
    GivenTail('Y', clip.yOffset);
    hide Tail, Given, Optionally;
    var a := Given('x', clip.sourceX);
    var b := a + Given('y', clip.sourceY);
    var c := b + Given('w', clip.sourceWidth);
    var d := c + Given('h', clip.sourceHeight);
    var e := d + Given('X', clip.xOffset);
    TailAppend(a, Given('y', clip.sourceY));
    TailAppend(b, Given('w', clip.sourceWidth));
    TailAppend(c, Given('h', clip.sourceHeight));
    TailAppend(d, Given('X', clip.xOffset));
    TailAppend(e, Given('Y', clip.yOffset));
  }

  lemma {:induction false} TailOne(f: Field, fields: seq<Field>)
    ensures Tail([f] + fields) == [',', f.0, '='] + f.1 + Tail(fields)
  {
    assert ([f] + fields)[1..] == fields;
    assert "," + One(f) == [',', f.0, '='] + f.1;
  }

  lemma {:induction false} SizeTail(g: Geometry)
    ensures SizeControls(g) == Tail(SizeFields(g))
  {
    var rest := PlacementFields(g.clip);
    var cols, rows, z := Decimal(g.clip.cols), Decimal(g.clip.rows), SignedDecimal(g.z);
    PlacementTail(g.clip);
    hide Tail, PlacementFields, Decimal, SignedDecimal, PlacementControls;
    var q: seq<Field> := [('q', "2")] + rest;
    var c: seq<Field> := [('C', "1")] + q;
    var zs: seq<Field> := [('z', z)] + c;
    var rs: seq<Field> := [('r', rows)] + zs;
    TailOne(('q', "2"), rest);
    TailOne(('C', "1"), q);
    TailOne(('z', z), c);
    TailOne(('r', rows), zs);
    TailOne(('c', cols), rs);
    assert SizeFields(g) == [('c', cols)] + rs;
    assert Tail(c) == ",C=1,q=2" + Tail(rest);
  }

  lemma {:induction false} JoinedTail(f: Field, fields: seq<Field>)
    ensures Joined([f] + fields) == [f.0, '='] + f.1 + Tail(fields)
  {
    assert ([f] + fields)[1..] == fields;
  }

  lemma {:induction false} SizedTail(format: string, width: string, height: string, rest: seq<Field>)
    ensures Tail([('t', "d"), ('f', format), ('s', width), ('v', height)] + rest)
         == ",t=d,f=" + format + ",s=" + width + ",v=" + height + Tail(rest)
  {
    hide Tail;
    var v: seq<Field> := [('v', height)] + rest;
    var s: seq<Field> := [('s', width)] + v;
    var f: seq<Field> := [('f', format)] + s;
    TailOne(('v', height), rest);
    TailOne(('s', width), v);
    TailOne(('f', format), s);
    TailOne(('t', "d"), f);
    assert [('t', "d"), ('f', format), ('s', width), ('v', height)] + rest == [('t', "d")] + f;
    assert ",t=" + "d" + ",f=" == ",t=d,f=";
  }

  lemma {:induction false} UploadJoined(id: nat, sig: Signature)
    ensures UploadControl(id, sig) == Joined(UploadFields(id, sig))
  {
    var format, width, height, image := Decimal(sig.format), Decimal(sig.width), Decimal(sig.height), Decimal(id);
    hide Decimal, Tail, Joined;
    var rest: seq<Field> := [('i', image), ('q', "2")];
    var fields: seq<Field> := [('t', "d"), ('f', format), ('s', width), ('v', height)] + rest;
    SizedTail(format, width, height, rest);
    assert Tail(rest) == ",i=" + image + ",q=2" by {
      TailOne(('i', image), [('q', "2")]);
      TailOne(('q', "2"), []);
      assert rest == [('i', image)] + [('q', "2")] && [('q', "2")] + [] == [('q', "2")];
      assert Tail([]) == "" by { EmptyTail(); }
    }
    JoinedTail(('a', "t"), fields);
    assert UploadFields(id, sig) == [('a', "t")] + fields;
    assert "a=" + "t" + ",t=d,f=" == "a=t,t=d,f=";
  }

  lemma {:induction false} EmptyTail()
    ensures Tail([]) == ""
  {
  }

  lemma {:induction false} TransmitJoined(slot: Slot, sig: Signature, g: Geometry)
    ensures TransmitControl(slot, sig, g) == Joined(TransmitFields(slot, sig, g))
  {
    var format, width, height := Decimal(sig.format), Decimal(sig.width), Decimal(sig.height);
    var image, placement := Decimal(slot.image), Decimal(slot.placement);
    SizeTail(g);
    hide Decimal, Tail, Joined, SizeFields, SizeControls;
    var ps: seq<Field> := [('p', placement)] + SizeFields(g);
    var rest: seq<Field> := [('i', image)] + ps;
    var fields: seq<Field> := [('t', "d"), ('f', format), ('s', width), ('v', height)] + rest;
    TailOne(('p', placement), SizeFields(g));
    TailOne(('i', image), ps);
    SizedTail(format, width, height, rest);
    JoinedTail(('a', "T"), fields);
    assert TransmitFields(slot, sig, g) == [('a', "T")] + fields;
    assert "a=" + "T" + ",t=d,f=" == "a=T,t=d,f=";
  }

  lemma {:induction false} DisplayJoined(slot: Slot, g: Geometry)
    ensures "a=p,i=" + Decimal(slot.image) + ",p=" + Decimal(slot.placement) + SizeControls(g) == Joined(DisplayFields(slot, g))
  {
    var image, placement := Decimal(slot.image), Decimal(slot.placement);
    SizeTail(g);
    hide Decimal, Tail, Joined, SizeFields, SizeControls;
    var ps: seq<Field> := [('p', placement)] + SizeFields(g);
    var rest: seq<Field> := [('i', image)] + ps;
    TailOne(('p', placement), SizeFields(g));
    TailOne(('i', image), ps);
    JoinedTail(('a', "p"), rest);
    assert DisplayFields(slot, g) == [('a', "p")] + rest;
    assert "a=" + "p" + ",i=" == "a=p,i=";
  }

  // --- Clean values ---

  lemma {:induction false} DecimalClean(n: nat)
    ensures Clean(Decimal(n))
  {
    DecimalReads(n);
  }

  lemma {:induction false} SignedClean(n: int)
    ensures Clean(SignedDecimal(n))
  {
    DecimalClean(if n < 0 then -n else n);
    hide Decimal;
  }

  lemma {:induction false} GivenClean(key: char, n: nat)
    requires Clean([key])
    ensures CleanFields(Given(key, n))
  {
    DecimalClean(n);
    hide Decimal, Clean;
  }

  lemma {:induction false} CleanTogether(a: seq<Field>, b: seq<Field>)
    requires CleanFields(a) && CleanFields(b)
    ensures CleanFields(a + b)
  {
    hide Clean;
  }

  lemma {:induction false} SizeClean(g: Geometry)
    ensures CleanFields(SizeFields(g))
  {
    var c := g.clip;
    DecimalClean(c.cols);
    DecimalClean(c.rows);
    SignedClean(g.z);
    GivenClean('x', c.sourceX);
    GivenClean('y', c.sourceY);
    GivenClean('w', c.sourceWidth);
    GivenClean('h', c.sourceHeight);
    GivenClean('X', c.xOffset);
    GivenClean('Y', c.yOffset);
    hide Decimal, SignedDecimal, Given;
  }

  // --- Looking keys up ---

  lemma {:induction false} LookupAppend(a: seq<Field>, b: seq<Field>, key: char)
    ensures Lookup(a + b, key) == if Lookup(a, key).Some? then Lookup(a, key) else Lookup(b, key)
    decreases |a|
  {
    if a == [] {
      assert a + b == b;
    } else {
      LookupAppend(a[1..], b, key);
      assert (a + b)[1..] == a[1..] + b;
    }
  }

  lemma {:induction false} LookupAt(fields: seq<Field>, key: char, i: nat)
    requires i < |fields| && fields[i].0 == key && forall j | 0 <= j < i :: fields[j].0 != key
    ensures Lookup(fields, key) == Some(fields[i].1)
    decreases i
  {
    if i > 0 {
      LookupAt(fields[1..], key, i - 1);
    }
  }

  lemma {:induction false} LookupAbsent(fields: seq<Field>, key: char)
    requires forall f | f in fields :: f.0 != key
    ensures Lookup(fields, key) == None
    decreases |fields|
  {
    if fields != [] {
      LookupAbsent(fields[1..], key);
    }
  }

  function Written(n: nat): Option<string> {
    if n > 0 then Some(Decimal(n)) else None
  }

  lemma {:induction false} GivenLookup(k: char, n: nat, key: char)
    ensures Lookup(Given(k, n), key) == if k == key then Written(n) else None
  {
    if n > 0 {
      assert Given(k, n)[1..] == [];
    }
  }

  lemma {:induction false} PlacementLookup(c: Clipped, key: char)
    ensures Lookup(PlacementFields(c), key) ==
      if key == 'x' then Written(c.sourceX) else if key == 'y' then Written(c.sourceY)
      else if key == 'w' then Written(c.sourceWidth) else if key == 'h' then Written(c.sourceHeight)
      else if key == 'X' then Written(c.xOffset) else if key == 'Y' then Written(c.yOffset) else None
  {
    GivenLookup('x', c.sourceX, key);
    GivenLookup('y', c.sourceY, key);
    GivenLookup('w', c.sourceWidth, key);
    GivenLookup('h', c.sourceHeight, key);
    GivenLookup('X', c.xOffset, key);
    GivenLookup('Y', c.yOffset, key);
    hide Lookup, Given, Written;
    var x := Given('x', c.sourceX);
    var y := x + Given('y', c.sourceY);
    var w := y + Given('w', c.sourceWidth);
    var h := w + Given('h', c.sourceHeight);
    var xo := h + Given('X', c.xOffset);
    LookupAppend(x, Given('y', c.sourceY), key);
    LookupAppend(y, Given('w', c.sourceWidth), key);
    LookupAppend(w, Given('h', c.sourceHeight), key);
    LookupAppend(h, Given('X', c.xOffset), key);
    LookupAppend(xo, Given('Y', c.yOffset), key);
  }

  /** The keys of a drawing command that say how to draw, between the keys that name it and the chunk flag. */
  lemma {:induction false} SizeLookup(pre: seq<Field>, g: Geometry, post: seq<Field>, key: char)
    requires forall f | f in pre :: f.0 != key
    requires forall f | f in post :: f.0 != key
    ensures Lookup(pre + SizeFields(g) + post, key) ==
              (if key == 'c' then Some(Decimal(g.clip.cols)) else if key == 'r' then Some(Decimal(g.clip.rows))
               else if key == 'z' then Some(SignedDecimal(g.z)) else if key == 'C' then Some("1")
               else if key == 'q' then Some("2") else Lookup(PlacementFields(g.clip), key))
  {
    var fixed: seq<Field> :=
      [('c', Decimal(g.clip.cols)), ('r', Decimal(g.clip.rows)), ('z', SignedDecimal(g.z)), ('C', "1"), ('q', "2")];
    LookupAbsent(pre, key);
    LookupAbsent(post, key);
    LookupAppend(pre + SizeFields(g), post, key);
    LookupAppend(pre, SizeFields(g), key);
    LookupAppend(fixed, PlacementFields(g.clip), key);
    hide Decimal, SignedDecimal, PlacementFields;
    if key == 'c' {
      LookupAt(fixed, key, 0);
    } else if key == 'r' {
      LookupAt(fixed, key, 1);
    } else if key == 'z' {
      LookupAt(fixed, key, 2);
    } else if key == 'C' {
      LookupAt(fixed, key, 3);
    } else if key == 'q' {
      LookupAt(fixed, key, 4);
    } else {
      LookupAbsent(fixed, key);
    }
  }

  predicate NamesOnly(fields: seq<Field>) {
    forall f | f in fields :: f.0 in {'a', 't', 'f', 's', 'v', 'i', 'p'}
  }

  predicate FlagOnly(fields: seq<Field>) {
    forall f | f in fields :: f.0 == 'm'
  }

  predicate DrawingKey(key: char) {
    key in {'c', 'r', 'z', 'C', 'q', 'x', 'y', 'w', 'h', 'X', 'Y'}
  }

  lemma {:induction false} DrawingLookup(pre: seq<Field>, g: Geometry, post: seq<Field>, key: char)
    requires NamesOnly(pre) && FlagOnly(post) && DrawingKey(key)
    ensures Lookup(pre + SizeFields(g) + post, key) ==
              (if key == 'c' then Some(Decimal(g.clip.cols)) else if key == 'r' then Some(Decimal(g.clip.rows))
               else if key == 'z' then Some(SignedDecimal(g.z)) else if key == 'C' then Some("1")
               else if key == 'q' then Some("2") else Lookup(PlacementFields(g.clip), key))
  {
    hide Lookup, SizeFields, PlacementFields, Decimal, SignedDecimal;
    SizeLookup(pre, g, post, key);
  }

  lemma {:induction false} ZeroReads(pre: seq<Field>, g: Geometry, post: seq<Field>, key: char, n: nat)
    requires NamesOnly(pre) && FlagOnly(post) && key in {'x', 'y', 'w', 'h', 'X', 'Y'}
    requires Lookup(PlacementFields(g.clip), key) == Written(n)
    ensures NatOrZero(pre + SizeFields(g) + post, key) == Some(n)
  {
    DrawingLookup(pre, g, post, key);
    NatReads(n);
    hide Lookup, SizeFields, PlacementFields, Decimal, ReadNat;
  }

  lemma {:induction false} PartsRead(pre: seq<Field>, g: Geometry, post: seq<Field>)
    requires NamesOnly(pre) && FlagOnly(post)
    ensures var fields, c := pre + SizeFields(g) + post, g.clip;
            && NatOrZero(fields, 'x') == Some(c.sourceX) && NatOrZero(fields, 'y') == Some(c.sourceY)
            && NatOrZero(fields, 'w') == Some(c.sourceWidth) && NatOrZero(fields, 'h') == Some(c.sourceHeight)
            && NatOrZero(fields, 'X') == Some(c.xOffset) && NatOrZero(fields, 'Y') == Some(c.yOffset)
  {
    hide Lookup, SizeFields, PlacementFields, Written, NatOrZero;
    var c := g.clip;
    PlacementLookup(c, 'x');
    PlacementLookup(c, 'y');
    PlacementLookup(c, 'w');
    PlacementLookup(c, 'h');
    PlacementLookup(c, 'X');
    PlacementLookup(c, 'Y');
    ZeroReads(pre, g, post, 'x', c.sourceX);
    ZeroReads(pre, g, post, 'y', c.sourceY);
    ZeroReads(pre, g, post, 'w', c.sourceWidth);
    ZeroReads(pre, g, post, 'h', c.sourceHeight);
    ZeroReads(pre, g, post, 'X', c.xOffset);
    ZeroReads(pre, g, post, 'Y', c.yOffset);
  }

  /** The geometry reads back, at the cursor the move set. */
  lemma {:induction false} GeometryReads(pre: seq<Field>, g: Geometry, post: seq<Field>)
    requires NamesOnly(pre) && FlagOnly(post)
    ensures ReadGeometry(pre + SizeFields(g) + post, Some((g.clip.y + 1, g.clip.x + 1))) == Some(g)
    ensures Says(pre + SizeFields(g) + post, 'q', "2")
  {
    var c := g.clip;
    hide Lookup, SizeFields, PlacementFields, NatOrZero, Decimal, SignedDecimal, ReadNat, ReadInt, NamesOnly, FlagOnly;
    DrawingLookup(pre, g, post, 'c');
    DrawingLookup(pre, g, post, 'r');
    DrawingLookup(pre, g, post, 'z');
    DrawingLookup(pre, g, post, 'C');
    DrawingLookup(pre, g, post, 'q');
    PartsRead(pre, g, post);
    NatReads(c.cols);
    NatReads(c.rows);
    IntReads(g.z);
  }

  // --- Transfers ---

  function Flag(more: bool): Field {
    ('m', if more then "1" else "0")
  }

  /** The pieces of a chunked transfer. */
  function TransferPieces(fields: seq<Field>, data: seq<byte>): seq<Piece>
    decreases |data|
  {
    if data == [] then []
    else
      var n := FirstChunk(data);
      [Escape(fields + [Flag(data[n..] != [])], Encode(data[..n]))] + TransferPieces([], data[n..])
  }

  function ControlOf(fields: seq<Field>): string {
    if fields == [] then "" else Joined(fields)
  }

  lemma {:induction false} EncodeHasNoEscape(data: seq<byte>)
    ensures ESC !in Encode(data)
    decreases |data|
  {
    if |data| >= 3 {
      EncodeHasNoEscape(data[3..]);
    }
  }

  lemma {:induction false} FlagTail(more: bool)
    ensures Tail([Flag(more)]) == ",m=" + (if more then "1" else "0")
    ensures Joined([Flag(more)]) == "m=" + (if more then "1" else "0")
  {
    var f := Flag(more);
    assert [f][1..] == [] && Tail([]) == "";
    assert One(f) == "m=" + (if more then "1" else "0");
  }

  lemma {:induction false} JoinedAppend(fields: seq<Field>, f: Field)
    requires fields != []
    ensures Joined(fields + [f]) == Joined(fields) + Tail([f])
  {
    assert (fields + [f])[1..] == fields[1..] + [f] && (fields + [f])[0] == fields[0];
    TailAppend(fields[1..], [f]);
    hide Tail, One;
    TextGrouped(One(fields[0]), Tail(fields[1..]), Tail([f]));
  }

  lemma {:induction false} FlaggedText(fields: seq<Field>, more: bool)
    ensures Joined(fields + [Flag(more)])
         == ControlOf(fields) + (if fields == [] then "" else ",") + "m=" + (if more then "1" else "0")
  {
    var value := if more then "1" else "0";
    FlagTail(more);
    hide Joined, Tail, Flag;
    if fields == [] {
      assert fields + [Flag(more)] == [Flag(more)];
    } else {
      JoinedAppend(fields, Flag(more));
      CommaGrouped(Joined(fields), value);
    }
  }

  lemma {:induction false} CommaGrouped(head: string, value: string)
    ensures head + (",m=" + value) == head + "," + "m=" + value
  {
  }

  lemma {:induction false} Regroup(x: string, a: string, b: string, c: string, d: string)
    ensures x + a + b + c + d == x + (a + b + c + d)
  {
  }

  lemma {:induction false} RenderedFrame(fields: seq<Field>, more: bool, payload: string)
    ensures RenderFrame(Frame(ControlOf(fields), more, payload)) == Escaped(fields + [Flag(more)], payload)
  {
    var separator, value := if fields == [] then "" else ",", if more then "1" else "0";
    FlaggedText(fields, more);
    assert ControlOf(fields) == "" <==> fields == [];
    Regroup(ESCAPE, ControlOf(fields), separator, "m=", value);
    hide Joined, ControlOf, Flag;
  }

  lemma {:induction false} FlagClean(fields: seq<Field>, more: bool)
    requires CleanFields(fields)
    ensures CleanFields(fields + [Flag(more)])
  {
  }

  lemma {:induction false} NothingToTransfer(fields: seq<Field>, rest: string)
    requires ReadPieces(rest).Some?
    ensures ReadPieces(RenderFrames(KittyData(ControlOf(fields), [])) + rest)
         == Some(TransferPieces(fields, []) + ReadPieces(rest).value)
  {
    hide ReadPieces;
    assert RenderFrames(KittyData(ControlOf(fields), [])) == "" && "" + rest == rest;
    assert [] + ReadPieces(rest).value == ReadPieces(rest).value;
  }

  lemma {:induction false} PiecesStep(fields: seq<Field>, data: seq<byte>)
    requires data != []
    ensures var n := FirstChunk(data);
            TransferPieces(fields, data)
            == [Escape(fields + [Flag(data[n..] != [])], Encode(data[..n]))] + TransferPieces([], data[n..])
  {
    hide Encode, FirstChunk;
  }

  lemma {:induction false} PiecesGrouped(piece: Piece, more: seq<Piece>, rest: seq<Piece>)
    ensures [piece] + (more + rest) == [piece] + more + rest
  {
  }

  /** The text of a transfer reads as its pieces. */
  lemma {:induction false} TransferReads(fields: seq<Field>, data: seq<byte>, rest: string)
    requires CleanFields(fields) && ReadPieces(rest).Some?
    ensures ReadPieces(RenderFrames(KittyData(ControlOf(fields), data)) + rest)
         == Some(TransferPieces(fields, data) + ReadPieces(rest).value)
    decreases |data|
  {
    if data == [] {
      NothingToTransfer(fields, rest);
    } else {
      var n := FirstChunk(data);
      NothingIsClean();
      hide *;
      var more, payload := data[n..] != [], Encode(data[..n]);
      var tail := RenderFrames(KittyData("", data[n..]));
      NextFrame(ControlOf(fields), data);
      TransferReads([], data[n..], rest);
      RenderedFrame(fields, more, payload);
      FlagClean(fields, more);
      EncodeHasNoEscape(data[..n]);
      EscapeThenRest(fields + [Flag(more)], payload, tail, rest);
      PiecesStep(fields, data);
      PiecesGrouped(Escape(fields + [Flag(more)], payload), TransferPieces([], data[n..]), ReadPieces(rest).value);
    }
  }

  lemma {:induction false} NothingIsClean()
    ensures CleanFields([]) && ControlOf([]) == ""
  {
  }

  lemma {:induction false} EscapeThenRest(fields: seq<Field>, payload: string, tail: string, rest: string)
    requires fields != [] && CleanFields(fields) && ESC !in payload && ReadPieces(tail + rest).Some?
    ensures ReadPieces(Escaped(fields, payload) + tail + rest)
         == Some([Escape(fields, payload)] + ReadPieces(tail + rest).value)
  {
    hide Escaped, ReadPieces, ReadPiece, CleanFields;
    EscapedReads(fields, payload, tail + rest);
    assert Escaped(fields, payload) + (tail + rest) == Escaped(fields, payload) + tail + rest;
    PieceThenRest(Escaped(fields, payload) + tail + rest, Escape(fields, payload), tail + rest);
  }

  predicate Unflagged(fields: seq<Field>) {
    forall f | f in fields :: f.0 != 'm'
  }

  lemma {:induction false} FlagReads(fields: seq<Field>, more: bool)
    requires Unflagged(fields)
    ensures Lookup(fields + [Flag(more)], 'm') == Some(if more then "1" else "0")
  {
    LookupAbsent(fields, 'm');
    LookupAppend(fields, [Flag(more)], 'm');
    LookupAt([Flag(more)], 'm', 0);
    hide Lookup;
  }

  /** Gathering a transfer gives the encoding of all the data, and what follows it. */
  lemma {:induction false} TransferGathers(fields: seq<Field>, data: seq<byte>, rest: seq<Piece>)
    requires data != [] && Unflagged(fields)
    ensures Gather(TransferPieces(fields, data) + rest) == Some((Encode(data), rest))
    decreases |data|
  {
    var n := FirstChunk(data);
    var head, after := data[..n], data[n..];
    var first := Escape(fields + [Flag(after != [])], Encode(head));
    var pieces := TransferPieces(fields, data) + rest;
    assert data == head + after;
    FlagReads(fields, after != []);
    assert pieces[0] == first;
    assert pieces[1..] == TransferPieces([], after) + rest;
    if after == [] {
      assert head == data && TransferPieces([], after) + rest == rest;
    } else {
      EncodeAppend(head, after);
      TransferGathers([], after, rest);
      assert TransferPieces([], after)[0].fields == [] + [Flag(after[FirstChunk(after)..] != [])];
      hide Encode, Lookup;
    }
  }

  // --- Commands ---

  function DeleteImageFields(id: nat): seq<Field> {
    [('a', "d"), ('d', "I"), ('i', Decimal(id)), ('q', "2")]
  }

  function DeletePlacementFields(slot: Slot): seq<Field> {
    [('a', "d"), ('d', "i"), ('i', Decimal(slot.image)), ('p', Decimal(slot.placement)), ('q', "2")]
  }

  /** What the text of a command consists of. */
  function PiecesOf(cmd: Cmd): seq<Piece> {
    match cmd
    case DeleteImage(id) => [Escape(DeleteImageFields(id), "")]
    case DeletePlacement(slot) => [Escape(DeletePlacementFields(slot), "")]
    case Upload(id, sig, data) => TransferPieces(UploadFields(id, sig), data)
    case Display(slot, g) => [CursorTo(g.clip.y + 1, g.clip.x + 1), Escape(DisplayFields(slot, g), "")]
    case TransmitAndDisplay(slot, sig, g, data) =>
      [CursorTo(g.clip.y + 1, g.clip.x + 1)] + TransferPieces(TransmitFields(slot, sig, g), data)
  }

  lemma {:induction false} DeleteImageText(id: nat)
    ensures RenderCmd(DeleteImage(id)) == Escaped(DeleteImageFields(id), "") && CleanFields(DeleteImageFields(id))
  {
    DecimalClean(id);
    var n := Decimal(id);
    assert RenderCmd(DeleteImage(id)) == ESCAPE + "a=d,d=I,i=" + n + ",q=2;" + TERMINATOR;
    hide Decimal, RenderCmd, Joined;
    DeleteImageJoined(n);
    Regroup(ESCAPE, "a=d,d=I,i=", n, "", "");
    DeletionGrouped("a=d,d=I,i=" + n);
  }

  lemma {:induction false} DeleteImageJoined(n: string)
    ensures Joined([('a', "d"), ('d', "I"), ('i', n), ('q', "2")]) == "a=d,d=I,i=" + n + ",q=2"
  {
    var q: seq<Field> := [('q', "2")];
    var i: seq<Field> := [('i', n)] + q;
    var d: seq<Field> := [('d', "I")] + i;
    QuietTail();
    TailOne(('i', n), q);
    TailOne(('d', "I"), i);
    JoinedTail(('a', "d"), d);
    hide Joined, Tail;
    assert [('a', "d"), ('d', "I"), ('i', n), ('q', "2")] == [('a', "d")] + d;
    Glued("I", [',', 'i', '='] + n + ",q=2");
    NumberGlued("a=d,d=I", n, ",q=2");
  }

  lemma {:induction false} QuietTail()
    ensures Tail([('q', "2")]) == ",q=2"
  {
    TailOne(('q', "2"), []);
    assert [('q', "2")] + [] == [('q', "2")];
  }

  /** The start of a deletion, written field by field. */
  lemma {:induction false} Glued(what: string, rest: string)
    ensures ['a', '='] + "d" + ([',', 'd', '='] + what + rest) == "a=d,d=" + what + rest
  {
  }

  lemma {:induction false} NumberGlued(head: string, n: string, rest: string)
    ensures head + ([',', 'i', '='] + n + rest) == head + ",i=" + n + rest
  {
  }

  lemma {:induction false} DeletePlacementText(slot: Slot)
    ensures RenderCmd(DeletePlacement(slot)) == Escaped(DeletePlacementFields(slot), "")
    ensures CleanFields(DeletePlacementFields(slot))
  {
    DecimalClean(slot.image);
    DecimalClean(slot.placement);
    var n, m := Decimal(slot.image), Decimal(slot.placement);
    assert RenderCmd(DeletePlacement(slot)) == ESCAPE + "a=d,d=i,i=" + n + ",p=" + m + ",q=2;" + TERMINATOR;
    hide Decimal, RenderCmd, Joined;
    DeletePlacementJoined(n, m);
    Regroup(ESCAPE, "a=d,d=i,i=", n, ",p=", m);
    DeletionGrouped("a=d,d=i,i=" + n + ",p=" + m);
  }

  lemma {:induction false} DeletionGrouped(named: string)
    ensures ESCAPE + named + ",q=2;" + TERMINATOR == ESCAPE + (named + ",q=2") + ";" + "" + TERMINATOR
  {
  }

  lemma {:induction false} DeletePlacementJoined(n: string, m: string)
    ensures Joined([('a', "d"), ('d', "i"), ('i', n), ('p', m), ('q', "2")]) == "a=d,d=i,i=" + n + ",p=" + m + ",q=2"
  {
    var q: seq<Field> := [('q', "2")];
    var p: seq<Field> := [('p', m)] + q;
    var i: seq<Field> := [('i', n)] + p;
    var d: seq<Field> := [('d', "i")] + i;
    QuietTail();
    TailOne(('p', m), q);
    TailOne(('i', n), p);
    TailOne(('d', "i"), i);
    JoinedTail(('a', "d"), d);
    hide Joined, Tail;
    assert [('a', "d"), ('d', "i"), ('i', n), ('p', m), ('q', "2")] == [('a', "d")] + d;
    var last := [',', 'p', '='] + m + ",q=2";
    Glued("i", [',', 'i', '='] + n + last);
    NumberGlued("a=d,d=i", n, last);
    PlacementGlued("a=d,d=i,i=" + n, m);
  }

  lemma {:induction false} PlacementGlued(head: string, m: string)
    ensures head + ([',', 'p', '='] + m + ",q=2") == head + ",p=" + m + ",q=2"
  {
  }

  lemma {:induction false} NamedClean(slot: Slot, sig: Signature, g: Geometry)
    ensures CleanFields(UploadFields(slot.image, sig)) && CleanFields(TransmitFields(slot, sig, g))
    ensures CleanFields(DisplayFields(slot, g))
  {
    DecimalClean(slot.image);
    DecimalClean(slot.placement);
    DecimalClean(sig.format);
    DecimalClean(sig.width);
    DecimalClean(sig.height);
    SizeClean(g);
    hide Decimal, SizeFields;
  }

  lemma {:induction false} DisplayText(slot: Slot, g: Geometry)
    ensures RenderCmd(Display(slot, g)) == MoveCursor(g.clip) + Escaped(DisplayFields(slot, g), "")
  {
    DisplayJoined(slot, g);
    hide Joined, Decimal, SizeControls, MoveCursor;
    DisplayGrouped(MoveCursor(g.clip), "a=p,i=" + Decimal(slot.image) + ",p=" + Decimal(slot.placement), SizeControls(g));
    assert "a=p,i=" + Decimal(slot.image) + ",p=" + Decimal(slot.placement) + SizeControls(g) == Joined(DisplayFields(slot, g));
    assert MoveCursor(g.clip) + ESCAPE + "a=p,i=" + Decimal(slot.image) + ",p=" + Decimal(slot.placement)
        == MoveCursor(g.clip) + ESCAPE + ("a=p,i=" + Decimal(slot.image) + ",p=" + Decimal(slot.placement));
  }

  lemma {:induction false} DisplayGrouped(move: string, named: string, sizes: string)
    ensures move + ESCAPE + named + sizes + ";" + TERMINATOR == move + (ESCAPE + (named + sizes) + ";" + "" + TERMINATOR)
  {
  }

  lemma {:induction false} MoveThenRest(clip: Clipped, tail: string)
    requires ReadPieces(tail).Some?
    ensures ReadPieces(MoveCursor(clip) + tail) == Some([CursorTo(clip.y + 1, clip.x + 1)] + ReadPieces(tail).value)
  {
    MoveReads(clip, tail);
    hide MoveCursor, ReadPiece, ReadPieces;
    PieceThenRest(MoveCursor(clip) + tail, CursorTo(clip.y + 1, clip.x + 1), tail);
  }

  lemma {:induction false} ShortReads(fields: seq<Field>, rest: string)
    requires fields != [] && CleanFields(fields) && ReadPieces(rest).Some?
    ensures ReadPieces(Escaped(fields, "") + rest) == Some([Escape(fields, "")] + ReadPieces(rest).value)
  {
    hide ReadPieces, Escaped, CleanFields;
    assert "" + rest == rest;
    EscapeThenRest(fields, "", "", rest);
    assert Escaped(fields, "") + "" + rest == Escaped(fields, "") + rest;
  }

  lemma {:induction false} DeleteImageReads(id: nat, rest: string)
    requires ReadPieces(rest).Some?
    ensures ReadPieces(RenderCmd(DeleteImage(id)) + rest) == Some(PiecesOf(DeleteImage(id)) + ReadPieces(rest).value)
  {
    DeleteImageText(id);
    hide RenderCmd, Escaped, ReadPieces, Decimal, CleanFields;
    ShortReads(DeleteImageFields(id), rest);
  }

  lemma {:induction false} DeletePlacementReads(slot: Slot, rest: string)
    requires ReadPieces(rest).Some?
    ensures ReadPieces(RenderCmd(DeletePlacement(slot)) + rest) == Some(PiecesOf(DeletePlacement(slot)) + ReadPieces(rest).value)
  {
    DeletePlacementText(slot);
    hide RenderCmd, Escaped, ReadPieces, Decimal, CleanFields;
    ShortReads(DeletePlacementFields(slot), rest);
  }

  lemma {:induction false} UploadReads(id: nat, sig: Signature, data: seq<byte>, rest: string)
    requires ReadPieces(rest).Some?
    ensures ReadPieces(RenderCmd(Upload(id, sig, data)) + rest) == Some(PiecesOf(Upload(id, sig, data)) + ReadPieces(rest).value)
  {
    UploadJoined(id, sig);
    NamedClean(Slot(id, 0), sig, Geometry(Clipped(0, 0, 0, 0, 0, 0, 0, 0, 0, 0), 0));
    var fields := UploadFields(id, sig);
    assert ControlOf(fields) == UploadControl(id, sig);
    hide RenderFrames, KittyData, ReadPieces, CleanFields, TransferPieces, UploadFields, UploadControl, Joined;
    TransferReads(fields, data, rest);
  }

  lemma {:induction false} Regrouped(a: string, b: string, c: string)
    ensures a + (b + c) == a + b + c
  {
  }

  /** A cursor move in front of some text that reads as these pieces. */
  lemma {:induction false} MovedReads(clip: Clipped, text: string, pieces: seq<Piece>, rest: string)
    requires ReadPieces(rest).Some? && ReadPieces(text + rest) == Some(pieces + ReadPieces(rest).value)
    ensures ReadPieces(MoveCursor(clip) + text + rest)
         == Some([CursorTo(clip.y + 1, clip.x + 1)] + pieces + ReadPieces(rest).value)
  {
    hide MoveCursor, ReadPieces;
    var tail := ReadPieces(rest).value;
    MoveThenRest(clip, text + rest);
    Regrouped(MoveCursor(clip), text, rest);
    assert [CursorTo(clip.y + 1, clip.x + 1)] + (pieces + tail) == [CursorTo(clip.y + 1, clip.x + 1)] + pieces + tail;
  }

  lemma {:induction false} DisplayPieces(slot: Slot, g: Geometry)
    ensures DisplayFields(slot, g) != []
    ensures PiecesOf(Display(slot, g)) == [CursorTo(g.clip.y + 1, g.clip.x + 1)] + [Escape(DisplayFields(slot, g), "")]
  {
    assert |DisplayFields(slot, g)| >= 3;
    hide DisplayFields;
  }

  lemma {:induction false} DisplayReads(slot: Slot, g: Geometry, rest: string)
    requires ReadPieces(rest).Some?
    ensures ReadPieces(RenderCmd(Display(slot, g)) + rest) == Some(PiecesOf(Display(slot, g)) + ReadPieces(rest).value)
  {
    hide *;
    var fields := DisplayFields(slot, g);
    DisplayText(slot, g);
    NamedClean(slot, Signature(0, 0, 0, 0, 0), g);
    DisplayPieces(slot, g);
    ShortReads(fields, rest);
    MovedReads(g.clip, Escaped(fields, ""), [Escape(fields, "")], rest);
  }

  lemma {:induction false} TransmitIs(slot: Slot, sig: Signature, g: Geometry, data: seq<byte>)
    ensures RenderCmd(TransmitAndDisplay(slot, sig, g, data))
         == MoveCursor(g.clip) + RenderFrames(KittyData(TransmitControl(slot, sig, g), data))
    ensures TransmitFields(slot, sig, g) != []
    ensures PiecesOf(TransmitAndDisplay(slot, sig, g, data))
         == [CursorTo(g.clip.y + 1, g.clip.x + 1)] + TransferPieces(TransmitFields(slot, sig, g), data)
  {
    assert |TransmitFields(slot, sig, g)| >= 7;
    hide MoveCursor, RenderFrames, KittyData, TransmitControl, TransmitFields, TransferPieces;
  }

  lemma {:induction false} ControlIsJoined(fields: seq<Field>)
    requires fields != []
    ensures ControlOf(fields) == Joined(fields)
  {
    hide Joined;
  }

  lemma {:induction false} TransmitReads(slot: Slot, sig: Signature, g: Geometry, data: seq<byte>, rest: string)
    requires ReadPieces(rest).Some?
    ensures ReadPieces(RenderCmd(TransmitAndDisplay(slot, sig, g, data)) + rest)
         == Some(PiecesOf(TransmitAndDisplay(slot, sig, g, data)) + ReadPieces(rest).value)
  {
    hide *;
    var fields := TransmitFields(slot, sig, g);
    TransmitIs(slot, sig, g, data);
    ControlIsJoined(fields);
    TransmitJoined(slot, sig, g);
    NamedClean(slot, sig, g);
    TransferReads(fields, data, rest);
    MovedReads(g.clip, RenderFrames(KittyData(ControlOf(fields), data)), TransferPieces(fields, data), rest);
  }

  /** The text of a command reads as its pieces. */
  lemma {:induction false} CmdReads(cmd: Cmd, rest: string)
    requires ReadPieces(rest).Some?
    ensures ReadPieces(RenderCmd(cmd) + rest) == Some(PiecesOf(cmd) + ReadPieces(rest).value)
  {
    hide RenderCmd, ReadPieces, PiecesOf;
    match cmd
    case DeleteImage(id) => DeleteImageReads(id, rest);
    case DeletePlacement(slot) => DeletePlacementReads(slot, rest);
    case Upload(id, sig, data) => UploadReads(id, sig, data, rest);
    case Display(slot, g) => DisplayReads(slot, g, rest);
    case TransmitAndDisplay(slot, sig, g, data) => TransmitReads(slot, sig, g, data, rest);
  }

  // --- Understanding ---

  /** The command as far as the text tells it: of a signature, the size and the format. */
  function OnWire(cmd: Cmd): Cmd {
    match cmd
    case Upload(id, sig, data) => Upload(id, Told(sig.width, sig.height, sig.format, data), data)
    case TransmitAndDisplay(slot, sig, g, data) =>
      TransmitAndDisplay(slot, Told(sig.width, sig.height, sig.format, data), g, data)
    case _ => cmd
  }

  /** Where a command leaves the cursor. */
  function CursorAfter(cmd: Cmd, cursor: Option<(nat, nat)>): Option<(nat, nat)> {
    match cmd
    case Display(_, g) => Some((g.clip.y + 1, g.clip.x + 1))
    case TransmitAndDisplay(_, _, g, _) => Some((g.clip.y + 1, g.clip.x + 1))
    case _ => cursor
  }

  lemma {:induction false} DeleteImageUnderstood(id: nat)
    ensures var fields := DeleteImageFields(id);
            && Says(fields, 'q', "2") && Says(fields, 'a', "d")
            && forall cursor :: ReadShort(fields, "", cursor) == Some(DeleteImage(id))
  {
    var fields := DeleteImageFields(id);
    NatReads(id);
    LookupAt(fields, 'a', 0);
    LookupAt(fields, 'd', 1);
    LookupAt(fields, 'i', 2);
    LookupAt(fields, 'q', 3);
    hide Lookup, Decimal, ReadNat;
  }

  lemma {:induction false} DeletePlacementUnderstood(slot: Slot)
    ensures var fields := DeletePlacementFields(slot);
            && Says(fields, 'q', "2") && Says(fields, 'a', "d")
            && forall cursor :: ReadShort(fields, "", cursor) == Some(DeletePlacement(slot))
  {
    var fields := DeletePlacementFields(slot);
    NatReads(slot.image);
    NatReads(slot.placement);
    LookupAt(fields, 'a', 0);
    LookupAt(fields, 'd', 1);
    LookupAt(fields, 'i', 2);
    LookupAt(fields, 'p', 3);
    LookupAt(fields, 'q', 4);
    hide Lookup, Decimal, ReadNat;
  }

  lemma {:induction false} SlotReads(fields: seq<Field>, slot: Slot)
    requires Lookup(fields, 'i') == Some(Decimal(slot.image)) && Lookup(fields, 'p') == Some(Decimal(slot.placement))
    ensures ReadSlot(fields) == Some(slot)
  {
    NatReads(slot.image);
    NatReads(slot.placement);
    hide Lookup, Decimal, ReadNat;
  }

  lemma {:induction false} ShownFieldsRead(fields: seq<Field>, cursor: Option<(nat, nat)>, slot: Slot, g: Geometry)
    requires Says(fields, 'a', "p") && ReadSlot(fields) == Some(slot) && ReadGeometry(fields, cursor) == Some(g)
    ensures ReadShort(fields, "", cursor) == Some(Display(slot, g))
  {
    hide Says, ReadSlot, ReadGeometry;
  }

  lemma {:induction false} NamesAre(slot: Slot, g: Geometry)
    ensures var fields := DisplayFields(slot, g);
            && fields == [('a', "p"), ('i', Decimal(slot.image)), ('p', Decimal(slot.placement))] + SizeFields(g) + []
            && Lookup(fields, 'a') == Some("p") && Lookup(fields, 'i') == Some(Decimal(slot.image))
            && Lookup(fields, 'p') == Some(Decimal(slot.placement))
  {
    var fields := DisplayFields(slot, g);
    LookupAt(fields, 'a', 0);
    LookupAt(fields, 'i', 1);
    LookupAt(fields, 'p', 2);
    hide Lookup, Decimal, SizeFields;
  }

  lemma {:induction false} DisplayUnderstood(slot: Slot, g: Geometry)
    ensures var fields := DisplayFields(slot, g);
            && Says(fields, 'q', "2") && Says(fields, 'a', "p")
            && ReadShort(fields, "", Some((g.clip.y + 1, g.clip.x + 1))) == Some(Display(slot, g))
  {
    var fields := DisplayFields(slot, g);
    NamesAre(slot, g);
    assert Says(fields, 'a', "p");
    hide *;
    GeometryReads([('a', "p"), ('i', Decimal(slot.image)), ('p', Decimal(slot.placement))], g, []);
    SlotReads(fields, slot);
    ShownFieldsRead(fields, Some((g.clip.y + 1, g.clip.x + 1)), slot, g);
  }

  lemma {:induction false} UploadUnderstood(id: nat, sig: Signature, data: seq<byte>, flag: Field)
    requires flag.0 == 'm'
    ensures var fields := UploadFields(id, sig) + [flag];
            && Says(fields, 'q', "2") && Says(fields, 'a', "t")
            && forall cursor ::
                 ReadTransmission(fields, ReadTransfer(fields, Encode(data)), cursor) == Some(OnWire(Upload(id, sig, data)))
  {
    var fields := UploadFields(id, sig) + [flag];
    DecodeEncode(data);
    NatReads(id);
    NatReads(sig.format);
    NatReads(sig.width);
    NatReads(sig.height);
    LookupAt(fields, 'a', 0);
    LookupAt(fields, 't', 1);
    LookupAt(fields, 'f', 2);
    LookupAt(fields, 's', 3);
    LookupAt(fields, 'v', 4);
    LookupAt(fields, 'i', 5);
    LookupAt(fields, 'q', 6);
    hide Lookup, Decimal, ReadNat, Encode, Decode;
  }

  lemma {:induction false} TransmitUnderstood(slot: Slot, sig: Signature, g: Geometry, data: seq<byte>, flag: Field)
    requires flag.0 == 'm'
    ensures var fields := TransmitFields(slot, sig, g) + [flag];
            && Says(fields, 'q', "2") && Says(fields, 'a', "T")
            && ReadTransmission(fields, ReadTransfer(fields, Encode(data)), Some((g.clip.y + 1, g.clip.x + 1)))
               == Some(OnWire(TransmitAndDisplay(slot, sig, g, data)))
  {
    hide *;
    var names := TransmitNames(slot, sig);
    var fields := TransmitFields(slot, sig, g) + [flag];
    NamesFirst(slot, sig, g, flag);
    NamesAreNames(slot, sig);
    NamesLookup(fields, slot, sig);
    JustFlag(flag);
    GeometryReads(names, g, [flag]);
    ReadParts(fields, slot, sig, data);
    SaysMeans(fields);
    TransmissionIs(fields, slot, Told(sig.width, sig.height, sig.format, data), g, data, Some((g.clip.y + 1, g.clip.x + 1)));
    WireIs(slot, sig, g, data);
  }

  lemma {:induction false} WireIs(slot: Slot, sig: Signature, g: Geometry, data: seq<byte>)
    ensures OnWire(TransmitAndDisplay(slot, sig, g, data))
         == TransmitAndDisplay(slot, Told(sig.width, sig.height, sig.format, data), g, data)
  {
  }

  lemma {:induction false} JustFlag(flag: Field)
    requires flag.0 == 'm'
    ensures FlagOnly([flag])
  {
  }

  lemma {:induction false} SaysMeans(fields: seq<Field>)
    requires Lookup(fields, 'a') == Some("T")
    ensures Says(fields, 'a', "T") && !Says(fields, 'a', "t")
  {
    hide Lookup;
  }

  lemma {:induction false} TransmissionIs(
    fields: seq<Field>, slot: Slot, sig: Signature, g: Geometry, data: seq<byte>, cursor: Option<(nat, nat)>)
    requires !Says(fields, 'a', "t") && ReadSlot(fields) == Some(slot) && ReadGeometry(fields, cursor) == Some(g)
    ensures ReadTransmission(fields, Some((sig, data)), cursor) == Some(TransmitAndDisplay(slot, sig, g, data))
  {
    hide Says, ReadSlot, ReadGeometry;
  }

  function TransmitNames(slot: Slot, sig: Signature): seq<Field> {
    [('a', "T"), ('t', "d"), ('f', Decimal(sig.format)), ('s', Decimal(sig.width)), ('v', Decimal(sig.height)),
     ('i', Decimal(slot.image)), ('p', Decimal(slot.placement))]
  }

  lemma {:induction false} NamesFirst(slot: Slot, sig: Signature, g: Geometry, flag: Field)
    ensures var fields := TransmitFields(slot, sig, g) + [flag];
            && fields == TransmitNames(slot, sig) + SizeFields(g) + [flag]
            && |fields| >= 7 && fields[..7] == TransmitNames(slot, sig)
  {
    assert TransmitFields(slot, sig, g) == TransmitNames(slot, sig) + SizeFields(g);
    assert |TransmitNames(slot, sig)| == 7;
    hide TransmitFields, TransmitNames, SizeFields;
  }

  lemma {:induction false} NamesAreNames(slot: Slot, sig: Signature)
    ensures NamesOnly(TransmitNames(slot, sig))
  {
    hide Decimal;
  }

  lemma {:induction false} ReadParts(fields: seq<Field>, slot: Slot, sig: Signature, data: seq<byte>)
    requires Lookup(fields, 't') == Some("d")
    requires Lookup(fields, 'f') == Some(Decimal(sig.format)) && Lookup(fields, 's') == Some(Decimal(sig.width))
    requires Lookup(fields, 'v') == Some(Decimal(sig.height)) && Lookup(fields, 'i') == Some(Decimal(slot.image))
    requires Lookup(fields, 'p') == Some(Decimal(slot.placement))
    ensures ReadSlot(fields) == Some(slot)
    ensures ReadTransfer(fields, Encode(data)) == Some((Told(sig.width, sig.height, sig.format, data), data))
  {
    DecodeEncode(data);
    NatReads(slot.image);
    NatReads(slot.placement);
    NatReads(sig.format);
    NatReads(sig.width);
    NatReads(sig.height);
    hide Lookup, Decimal, ReadNat, Encode, Decode;
  }

  lemma {:induction false} NamesLookup(fields: seq<Field>, slot: Slot, sig: Signature)
    requires |fields| >= 7 && fields[..7] == TransmitNames(slot, sig)
    ensures Lookup(fields, 'a') == Some("T") && Lookup(fields, 't') == Some("d")
    ensures Lookup(fields, 'f') == Some(Decimal(sig.format)) && Lookup(fields, 's') == Some(Decimal(sig.width))
    ensures Lookup(fields, 'v') == Some(Decimal(sig.height)) && Lookup(fields, 'i') == Some(Decimal(slot.image))
    ensures Lookup(fields, 'p') == Some(Decimal(slot.placement))
  {
    hide Lookup, Decimal;
    assert forall i | 0 <= i < 7 :: fields[i] == fields[..7][i];
    LookupAt(fields, 'a', 0);
    LookupAt(fields, 't', 1);
    LookupAt(fields, 'f', 2);
    LookupAt(fields, 's', 3);
    LookupAt(fields, 'v', 4);
    LookupAt(fields, 'i', 5);
    LookupAt(fields, 'p', 6);
  }

  lemma {:induction false} UnflaggedTogether(a: seq<Field>, b: seq<Field>)
    requires Unflagged(a) && Unflagged(b)
    ensures Unflagged(a + b)
  {
  }

  lemma {:induction false} PlacementUnflagged(clip: Clipped)
    ensures Unflagged(PlacementFields(clip))
  {
    hide Decimal;
  }

  lemma {:induction false} NoFlagYet(slot: Slot, sig: Signature, g: Geometry)
    ensures Unflagged(UploadFields(slot.image, sig)) && Unflagged(TransmitFields(slot, sig, g))
  {
    var sizes: seq<Field> :=
      [('c', Decimal(g.clip.cols)), ('r', Decimal(g.clip.rows)), ('z', SignedDecimal(g.z)), ('C', "1"), ('q', "2")];
    var names: seq<Field> :=
      [('a', "T"), ('t', "d"), ('f', Decimal(sig.format)), ('s', Decimal(sig.width)), ('v', Decimal(sig.height)),
       ('i', Decimal(slot.image)), ('p', Decimal(slot.placement))];
    PlacementUnflagged(g.clip);
    hide Decimal, SignedDecimal, PlacementFields;
    assert Unflagged(sizes) && Unflagged(names);
    UnflaggedTogether(sizes, PlacementFields(g.clip));
    UnflaggedTogether(names, SizeFields(g));
  }

  /** A transfer at the front is understood as one command, whatever the number of its chunks. */
  lemma {:induction false} TransferUnderstood(fields: seq<Field>, data: seq<byte>, rest: seq<Piece>, cursor: Option<(nat, nat)>, cmd: Cmd)
    requires data != [] && Unflagged(fields)
    requires forall flag: Field | flag.0 == 'm' ::
               var marked := fields + [flag];
               && Says(marked, 'q', "2") && (Says(marked, 'a', "t") || Says(marked, 'a', "T"))
               && ReadTransmission(marked, ReadTransfer(marked, Encode(data)), cursor) == Some(cmd)
    ensures Understand(TransferPieces(fields, data) + rest, cursor) == Prepended(Some(cmd), Understand(rest, cursor))
  {
    var pieces := TransferPieces(fields, data) + rest;
    var flag := Flag(data[FirstChunk(data)..] != []);
    assert pieces[0] == Escape(fields + [flag], Encode(data[..FirstChunk(data)]));
    TransferGathers(fields, data, rest);
    hide TransferPieces, Gather, ReadTransmission, ReadTransfer, Encode, Lookup, Says;
  }

  lemma {:induction false} ShortUnderstood(fields: seq<Field>, rest: seq<Piece>, cursor: Option<(nat, nat)>, cmd: Cmd)
    requires Says(fields, 'q', "2") && (Says(fields, 'a', "p") || Says(fields, 'a', "d"))
    requires ReadShort(fields, "", cursor) == Some(cmd)
    ensures Understand([Escape(fields, "")] + rest, cursor) == Prepended(Some(cmd), Understand(rest, cursor))
  {
    assert ([Escape(fields, "")] + rest)[1..] == rest;
    hide ReadShort, Lookup;
  }

  lemma {:induction false} MoveUnderstood(row: nat, column: nat, rest: seq<Piece>, cursor: Option<(nat, nat)>)
    ensures Understand([CursorTo(row, column)] + rest, cursor) == Understand(rest, Some((row, column)))
  {
    assert ([CursorTo(row, column)] + rest)[1..] == rest;
  }

  /** A transmission has pixels, as the encoder makes sure. */
  predicate HasPixels(cmd: Cmd) {
    cmd.Upload? || cmd.TransmitAndDisplay? ==> cmd.data != []
  }

  lemma {:induction false} UploadTaken(id: nat, sig: Signature, data: seq<byte>, rest: seq<Piece>, cursor: Option<(nat, nat)>)
    requires data != []
    ensures var cmd := Upload(id, sig, data);
            Understand(PiecesOf(cmd) + rest, cursor) == Prepended(Some(OnWire(cmd)), Understand(rest, cursor))
  {
    NoFlagYet(Slot(id, 0), sig, Geometry(Clipped(0, 0, 0, 0, 0, 0, 0, 0, 0, 0), 0));
    hide Understand, TransferPieces, ReadTransmission, ReadTransfer, Lookup, Encode, UploadFields, Unflagged;
    forall flag: Field | flag.0 == 'm'
      ensures var marked := UploadFields(id, sig) + [flag];
              && Says(marked, 'q', "2") && Says(marked, 'a', "t")
              && ReadTransmission(marked, ReadTransfer(marked, Encode(data)), cursor) == Some(OnWire(Upload(id, sig, data)))
    {
      UploadUnderstood(id, sig, data, flag);
    }
    TransferUnderstood(UploadFields(id, sig), data, rest, cursor, OnWire(Upload(id, sig, data)));
  }

  lemma {:induction false} TransmitTaken(slot: Slot, sig: Signature, g: Geometry, data: seq<byte>, rest: seq<Piece>, cursor: Option<(nat, nat)>)
    requires data != []
    ensures var cmd := TransmitAndDisplay(slot, sig, g, data);
            Understand(PiecesOf(cmd) + rest, cursor) == Prepended(Some(OnWire(cmd)), Understand(rest, CursorAfter(cmd, cursor)))
  {
    var cmd := TransmitAndDisplay(slot, sig, g, data);
    var at := Some((g.clip.y + 1, g.clip.x + 1));
    var fields := TransmitFields(slot, sig, g);
    var transfer := TransferPieces(fields, data);
    NoFlagYet(slot, sig, g);
    hide Understand, TransferPieces, ReadTransmission, ReadTransfer, Lookup, Encode, TransmitFields, Unflagged;
    forall flag: Field | flag.0 == 'm'
      ensures var marked := fields + [flag];
              && Says(marked, 'q', "2") && Says(marked, 'a', "T")
              && ReadTransmission(marked, ReadTransfer(marked, Encode(data)), at) == Some(OnWire(cmd))
    {
      TransmitUnderstood(slot, sig, g, data, flag);
    }
    TransferUnderstood(fields, data, rest, at, OnWire(cmd));
    MoveUnderstood(g.clip.y + 1, g.clip.x + 1, transfer + rest, cursor);
    assert PiecesOf(cmd) + rest == [CursorTo(g.clip.y + 1, g.clip.x + 1)] + (transfer + rest);
  }

  lemma {:induction false} DisplayTaken(slot: Slot, g: Geometry, rest: seq<Piece>, cursor: Option<(nat, nat)>)
    ensures var cmd := Display(slot, g);
            Understand(PiecesOf(cmd) + rest, cursor) == Prepended(Some(cmd), Understand(rest, CursorAfter(cmd, cursor)))
  {
    var shown := Escape(DisplayFields(slot, g), "");
    DisplayUnderstood(slot, g);
    hide Understand, ReadShort, Lookup, DisplayFields;
    MoveUnderstood(g.clip.y + 1, g.clip.x + 1, [shown] + rest, cursor);
    assert PiecesOf(Display(slot, g)) + rest == [CursorTo(g.clip.y + 1, g.clip.x + 1)] + ([shown] + rest);
    ShortUnderstood(DisplayFields(slot, g), rest, Some((g.clip.y + 1, g.clip.x + 1)), Display(slot, g));
  }

  lemma {:induction false} CmdUnderstood(cmd: Cmd, rest: seq<Piece>, cursor: Option<(nat, nat)>)
    requires HasPixels(cmd)
    ensures Understand(PiecesOf(cmd) + rest, cursor)
         == Prepended(Some(OnWire(cmd)), Understand(rest, CursorAfter(cmd, cursor)))
  {
    hide Understand, ReadShort, Lookup, Prepended, DeleteImageFields, DeletePlacementFields, TransferPieces;
    match cmd
    case DeleteImage(id) =>
      DeleteImageUnderstood(id);
      ShortUnderstood(DeleteImageFields(id), rest, cursor, cmd);
    case DeletePlacement(slot) =>
      DeletePlacementUnderstood(slot);
      ShortUnderstood(DeletePlacementFields(slot), rest, cursor, cmd);
    case Upload(id, sig, data) => UploadTaken(id, sig, data, rest, cursor);
    case Display(slot, g) => DisplayTaken(slot, g, rest, cursor);
    case TransmitAndDisplay(slot, sig, g, data) => TransmitTaken(slot, sig, g, data, rest, cursor);
  }

  // --- Transactions ---

  function AllPieces(cmds: seq<Cmd>): seq<Piece> {
    if cmds == [] then [] else PiecesOf(cmds[0]) + AllPieces(cmds[1..])
  }

  function AllOnWire(cmds: seq<Cmd>): seq<Cmd> {
    seq(|cmds|, i requires 0 <= i < |cmds| => OnWire(cmds[i]))
  }

  lemma {:induction false} AllRead(cmds: seq<Cmd>)
    ensures ReadPieces(RenderAll(cmds)) == Some(AllPieces(cmds))
    decreases |cmds|
  {
    hide RenderCmd, PiecesOf;
    if cmds != [] {
      AllRead(cmds[1..]);
      CmdReads(cmds[0], RenderAll(cmds[1..]));
    }
  }

  lemma {:induction false} AllUnderstood(cmds: seq<Cmd>, cursor: Option<(nat, nat)>)
    requires forall cmd | cmd in cmds :: HasPixels(cmd)
    ensures Understand(AllPieces(cmds), cursor) == Some(AllOnWire(cmds))
    decreases |cmds|
  {
    hide PiecesOf, OnWire, CursorAfter;
    if cmds == [] {
      assert AllOnWire(cmds) == [];
    } else {
      hide Understand;
      AllUnderstood(cmds[1..], CursorAfter(cmds[0], cursor));
      CmdUnderstood(cmds[0], AllPieces(cmds[1..]), cursor);
      assert [OnWire(cmds[0])] + AllOnWire(cmds[1..]) == AllOnWire(cmds);
    }
  }

  /**
   Reading the text of a transaction gives its commands in order: every id, row and column, size, source window,
   offset and depth, image size and format, and all the pixels.
   */
  lemma {:induction false} TransactionReadsBack(cmds: seq<Cmd>)
    requires forall cmd | cmd in cmds :: HasPixels(cmd)
    ensures Read(RenderAll(cmds)) == Some(AllOnWire(cmds))
  {
    hide RenderAll, ReadPieces, Understand, AllPieces, AllOnWire;
    AllRead(cmds);
    AllUnderstood(cmds, None);
  }

  /**
   The chunk loop's text, read: the control fields come once, in front; every piece but the last says that more
   follows and the last that nothing does; and the payloads gathered decode to the data.
   */
  lemma {:induction false} TransferReadsBack(fields: seq<Field>, data: seq<byte>)
    requires CleanFields(fields) && data != [] && Unflagged(fields)
    ensures var pieces := ReadPieces(RenderFrames(KittyData(ControlOf(fields), data)));
            && pieces.Some? && pieces.value != [] && pieces.value[0].Escape?
            && pieces.value[0].fields[..|pieces.value[0].fields| - 1] == fields
            && (forall i | 0 <= i < |pieces.value| ::
                  && pieces.value[i].Escape?
                  && pieces.value[i].fields != []
                  && pieces.value[i].fields[|pieces.value[i].fields| - 1] == ('m', if i < |pieces.value| - 1 then "1" else "0")
                  && (i > 0 ==> |pieces.value[i].fields| == 1))
            && var gathered := Gather(pieces.value);
            && gathered.Some? && gathered.value.1 == [] && Decode(gathered.value.0) == Some(data)
  {
    var text := RenderFrames(KittyData(ControlOf(fields), data));
    assert text + "" == text && ReadPieces("") == Some([]);
    TransferReads(fields, data, "");
    var pieces := TransferPieces(fields, data);
    assert pieces + [] == pieces;
    TransferGathers(fields, data, []);
    DecodeEncode(data);
    PiecesMarked(fields, data);
    hide RenderFrames, KittyData, ReadPieces, Encode, Decode, Gather;
  }

  lemma {:induction false} PiecesMarked(fields: seq<Field>, data: seq<byte>)
    ensures var pieces := TransferPieces(fields, data);
            && (data != [] ==> pieces != [])
            && forall i | 0 <= i < |pieces| ::
                 && pieces[i].Escape?
                 && pieces[i].fields == (if i == 0 then fields else []) + [Flag(i < |pieces| - 1)]
    decreases |data|
  {
    if data != [] {
      var n := FirstChunk(data);
      PiecesMarked([], data[n..]);
      hide Encode;
      var rest := TransferPieces([], data[n..]);
      assert rest != [] <==> data[n..] != [];
      forall i | 0 <= i < |rest| ensures TransferPieces(fields, data)[i + 1] == rest[i] {
      }
    }
  }
}
