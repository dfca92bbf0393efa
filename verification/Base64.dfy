/** Base 64 with padding, section 4 of RFC 4648: encoding, strict decoding, and the round trip. */
module Base64 {
  import opened Common
  import opened HostGraphics

  /** The 64-character alphabet by value. */
  function Digit(v: nat): (ch: char)
    requires v < 64
  {
    if v < 26 then 'A' + (v as char)
    else if v < 52 then 'a' + ((v - 26) as char)
    else if v < 62 then '0' + ((v - 52) as char)
    else if v == 62 then '+'
    else '/'
  }

  function Value(ch: char): (v: Option<nat>)
    ensures v.Some? ==> v.value < 64
  {
    if 'A' <= ch <= 'Z' then Some((ch - 'A') as nat)
    else if 'a' <= ch <= 'z' then Some((ch - 'a') as nat + 26)
    else if '0' <= ch <= '9' then Some((ch - '0') as nat + 52)
    else if ch == '+' then Some(62)
    else if ch == '/' then Some(63)
    else None
  }

  lemma {:induction false} DigitValue(v: nat)
    requires v < 64
    ensures Value(Digit(v)) == Some(v) && Digit(v) != '='
  {
  }

  /** Three bytes as four 6-bit digits. */
  function Group(a: byte, b: byte, c: byte): (s: string)
    ensures |s| == 4
  {
    var x, y, z := a as nat, b as nat, c as nat;
    [Digit(x / 4), Digit(x % 4 * 16 + y / 16), Digit(y % 16 * 4 + z / 64), Digit(z % 64)]
  }

  function Encode(data: seq<byte>): string
    decreases |data|
  {
    if data == [] then ""
    else if |data| == 1 then Group(data[0], 0, 0)[..2] + "=="
    else if |data| == 2 then Group(data[0], data[1], 0)[..3] + "="
    else Group(data[0], data[1], data[2]) + Encode(data[3..])
  }

  /** Three bytes from four digit values. */
  function Bytes(p: nat, q: nat, r: nat, s: nat): seq<byte>
    requires p < 64 && q < 64 && r < 64 && s < 64
  {
    [(p * 4 + q / 16) as byte, (q % 16 * 16 + r / 4) as byte, (r % 4 * 64 + s) as byte]
  }

  function DecodeGroup(s: string): Option<seq<byte>>
    requires |s| == 4
  {
    var p, q := Value(s[0]), Value(s[1]);
    if p.None? || q.None? then None
    else if s[2] == '=' then
      if s[3] == '=' && q.value % 16 == 0 then Some(Bytes(p.value, q.value, 0, 0)[..1]) else None
    else
      var r := Value(s[2]);
      if r.None? then None
      else if s[3] == '=' then
        if r.value % 4 == 0 then Some(Bytes(p.value, q.value, r.value, 0)[..2]) else None
      else
        var t := Value(s[3]);
        if t.None? then None else Some(Bytes(p.value, q.value, r.value, t.value))
  }

  /** Strict decoding: whole groups, padding only in the last, unused bits zero. */
  function Decode(s: string): Option<seq<byte>>
    decreases |s|
  {
    if s == "" then Some([])
    else if |s| < 4 then None
    else
      var head := DecodeGroup(s[..4]);
      var tail := Decode(s[4..]);
      if head.None? || tail.None? || (|head.value| < 3 && s[4..] != "") then None
      else Some(head.value + tail.value)
  }

  /** Cutting three bytes into four digits loses nothing, and the unused digits of zero bytes are zero. */
  lemma {:induction false} DigitsRejoin(x: nat, y: nat, z: nat)
    requires x < 256 && y < 256 && z < 256
    ensures var p, q, r, s := x / 4, x % 4 * 16 + y / 16, y % 16 * 4 + z / 64, z % 64;
            && p < 64 && q < 64 && r < 64 && s < 64
            && p * 4 + q / 16 == x && q % 16 * 16 + r / 4 == y && r % 4 * 64 + s == z
            && (z == 0 ==> s == 0 && r % 4 == 0)
            && (y == 0 && z == 0 ==> r == 0 && q % 16 == 0)
  {
  }

  lemma {:induction false} GroupDecodes(a: byte, b: byte, c: byte)
    ensures DecodeGroup(Group(a, b, c)) == Some([a, b, c])
    ensures c == 0 ==> DecodeGroup(Group(a, b, c)[..3] + "=") == Some([a, b])
    ensures b == 0 && c == 0 ==> DecodeGroup(Group(a, b, c)[..2] + "==") == Some([a])
  {
    var x, y, z := a as nat, b as nat, c as nat;
    DigitsRejoin(x, y, z);
    var p, q, r, s := x / 4, x % 4 * 16 + y / 16, y % 16 * 4 + z / 64, z % 64;
    assert Group(a, b, c) == [Digit(p), Digit(q), Digit(r), Digit(s)];
    BytesRejoin(a, b, c, p, q, r, s);
    DigitsGroup(a, b, c, p, q, r, s);
  }

  lemma {:induction false} DigitsGroup(a: byte, b: byte, c: byte, p: nat, q: nat, r: nat, s: nat)
    requires p < 64 && q < 64 && r < 64 && s < 64
    requires Group(a, b, c) == [Digit(p), Digit(q), Digit(r), Digit(s)] && Bytes(p, q, r, s) == [a, b, c]
    requires c == 0 ==> s == 0 && r % 4 == 0
    requires b == 0 && c == 0 ==> r == 0 && q % 16 == 0
    ensures DecodeGroup(Group(a, b, c)) == Some([a, b, c])
    ensures c == 0 ==> DecodeGroup(Group(a, b, c)[..3] + "=") == Some([a, b])
    ensures b == 0 && c == 0 ==> DecodeGroup(Group(a, b, c)[..2] + "==") == Some([a])
  {
    hide Group, Digit, DecodeGroup, Bytes;
    DigitsDecode(p, q, r, s);
    assert Group(a, b, c)[..3] + "=" == [Digit(p), Digit(q), Digit(r), '='];
    assert Group(a, b, c)[..2] + "==" == [Digit(p), Digit(q), '=', '='];
    assert [a, b, c][..2] == [a, b] && [a, b, c][..1] == [a];
  }

  lemma {:induction false} BytesRejoin(a: byte, b: byte, c: byte, p: nat, q: nat, r: nat, s: nat)
    requires p < 64 && q < 64 && r < 64 && s < 64
    requires p * 4 + q / 16 == a as nat && q % 16 * 16 + r / 4 == b as nat && r % 4 * 64 + s == c as nat
    ensures Bytes(p, q, r, s) == [a, b, c]
  {
  }

  lemma {:induction false} DigitsDecode(p: nat, q: nat, r: nat, s: nat)
    requires p < 64 && q < 64 && r < 64 && s < 64
    ensures DecodeGroup([Digit(p), Digit(q), Digit(r), Digit(s)]) == Some(Bytes(p, q, r, s))
    ensures r % 4 == 0 ==> DecodeGroup([Digit(p), Digit(q), Digit(r), '=']) == Some(Bytes(p, q, r, 0)[..2])
    ensures q % 16 == 0 ==> DecodeGroup([Digit(p), Digit(q), '=', '=']) == Some(Bytes(p, q, 0, 0)[..1])
  {
    DigitValue(p);
    DigitValue(q);
    DigitValue(r);
    DigitValue(s);
    hide Digit, Value, Bytes;
  }

  /** Decoding an encoding gives the data back. */
  lemma {:induction false} DecodeEncode(data: seq<byte>)
    ensures Decode(Encode(data)) == Some(data)
    decreases |data|
  {
    hide Group, DecodeGroup;
    if data == [] {
    } else if |data| == 1 {
      GroupDecodes(data[0], 0, 0);
      var s := Group(data[0], 0, 0)[..2] + "==";
      assert s[..4] == s && s[4..] == "" && data == [data[0]];
      assert [data[0]] + [] == data;
      assert Decode(s) == Some([data[0]] + []);
    } else if |data| == 2 {
      GroupDecodes(data[0], data[1], 0);
      var s := Group(data[0], data[1], 0)[..3] + "=";
      assert s[..4] == s && s[4..] == "" && data == [data[0], data[1]];
      assert [data[0], data[1]] + [] == data;
      assert Decode(s) == Some([data[0], data[1]] + []);
    } else {
      GroupDecodes(data[0], data[1], data[2]);
      DecodeEncode(data[3..]);
      var head := Group(data[0], data[1], data[2]);
      var s := head + Encode(data[3..]);
      assert s[..4] == head && s[4..] == Encode(data[3..]);
      assert data == [data[0], data[1], data[2]] + data[3..];
    }
  }

  /** Encodings join when every part but the last is a whole number of groups. */
  lemma {:induction false} EncodeAppend(a: seq<byte>, b: seq<byte>)
    requires |a| % 3 == 0
    ensures Encode(a + b) == Encode(a) + Encode(b)
    decreases |a|
  {
    hide Group;
    if a == [] {
      assert a + b == b;
    } else {
      EncodeAppend(a[3..], b);
      assert (a + b)[3..] == a[3..] + b;
      assert Encode(a) == Group(a[0], a[1], a[2]) + Encode(a[3..]);
    }
  }

  lemma {:induction false} EncodeLength(data: seq<byte>)
    ensures |Encode(data)| == (|data| + 2) / 3 * 4
    decreases |data|
  {
    hide Group;
    if |data| >= 3 {
      EncodeLength(data[3..]);
    }
  }

  /** The alphabet of RFC 4648: upper case, lower case and digits in order, then plus and slash. */
  lemma {:induction false} AlphabetIs(v: nat)
    requires v < 64
    ensures Digit(0) == 'A' && Digit(25) == 'Z' && Digit(26) == 'a' && Digit(51) == 'z'
    ensures Digit(52) == '0' && Digit(61) == '9' && Digit(62) == '+' && Digit(63) == '/'
    ensures v < 63 && v != 25 && v != 51 && v != 61 && v != 62 ==> Digit(v + 1) as nat == Digit(v) as nat + 1
  {
  }

  /** Four digits and three bytes, most significant first, are the same number. */
  lemma {:induction false} GroupIsNumber(a: byte, b: byte, c: byte)
    ensures var g := Group(a, b, c);
            var p, q, r, s := Value(g[0]), Value(g[1]), Value(g[2]), Value(g[3]);
            && p.Some? && q.Some? && r.Some? && s.Some?
            && ((p.value * 64 + q.value) * 64 + r.value) * 64 + s.value == (a as nat * 256 + b as nat) * 256 + c as nat
  {
    var x, y, z := a as nat, b as nat, c as nat;
    DigitsRejoin(x, y, z);
    DigitValue(x / 4);
    DigitValue(x % 4 * 16 + y / 16);
    DigitValue(y % 16 * 4 + z / 64);
    DigitValue(z % 64);
    hide Digit, Value;
  }
}
