// The bytes a text takes, written out: as UTF-8 (section 3 of RFC 3629) and as a JSON string literal
// (section 7 of RFC 8259). The sizes the limits are checked with are the lengths of these.
module JsonText {
  import opened Bytes
  import opened Utf16

  /** A unit below the surrogates or above them. */
  function Utf8Of(u: Unit): Bytes {
    if u < 0x80 then [u]
    else if u < 0x800 then [0xc0 + u / 0x40, 0x80 + u % 0x40]
    else [0xe0 + u / 0x1000, 0x80 + u / 0x40 % 0x40, 0x80 + u % 0x40]
  }

  function CodePoint(high: Unit, low: Unit): nat
    requires 0xd800 <= high <= 0xdbff && 0xdc00 <= low <= 0xdfff
  {
    0x1_0000 + (high - 0xd800) * 0x400 + (low - 0xdc00)
  }

  /** A pair of surrogates is one character of four bytes. */
  function Utf8OfPair(high: Unit, low: Unit): (b: Bytes)
    requires 0xd800 <= high <= 0xdbff && 0xdc00 <= low <= 0xdfff
    ensures |b| == 4
  {
    var c := CodePoint(high, low);
    [0xf0 + c / 0x4_0000, 0x80 + c / 0x1000 % 0x40, 0x80 + c / 0x40 % 0x40, 0x80 + c % 0x40]
  }

  predicate StartsWithPair(s: Text) {
    |s| >= 2 && 0xd800 <= s[0] <= 0xdbff && 0xdc00 <= s[1] <= 0xdfff
  }

  predicate Surrogate(u: Unit) {
    0xd800 <= u <= 0xdfff
  }

  /** The UTF-8 bytes of a text; a lone surrogate becomes U+FFFD. */
  function Utf8Bytes(s: Text): Bytes {
    if s == [] then []
    else if StartsWithPair(s) then Utf8OfPair(s[0], s[1]) + Utf8Bytes(s[2..])
    else (if Surrogate(s[0]) then [0xef, 0xbf, 0xbd] else Utf8Of(s[0])) + Utf8Bytes(s[1..])
  }

  lemma {:induction false} Utf8Length(s: Text)
    ensures |Utf8Bytes(s)| == Size(Utf8, s)
  {
    if s != [] {
      if StartsWithPair(s) {
        Utf8Length(s[2..]);
      } else {
        Utf8Length(s[1..]);
      }
    }
  }

  // ----- JSON -----

  const BACKSLASH: Byte := 0x5c
  const U: Byte := 0x75

  /** The letter of a two character escape. */
  function Letter(u: Unit): Byte {
    match u
    case 8 => 0x62
    case 9 => 0x74
    case 10 => 0x6e
    case 12 => 0x66
    case 13 => 0x72
    case 0x22 => 0x22
    case 0x5c => 0x5c
    case _ => 0
  }

  function LetterMeans(b: Byte): Unit {
    match b
    case 0x62 => 8
    case 0x74 => 9
    case 0x6e => 10
    case 0x66 => 12
    case 0x72 => 13
    case _ => b
  }

  function HexDigit(d: nat): Byte
    requires d < 16
  {
    if d < 10 then 0x30 + d else 0x61 + d - 10
  }

  function HexValue(b: Byte): nat {
    if 0x30 <= b <= 0x39 then b - 0x30 else if 0x61 <= b <= 0x66 then b - 0x61 + 10 else 0
  }

  function Escape(u: Unit): (b: Bytes)
    ensures |b| == 6
  {
    [BACKSLASH, U, HexDigit(u / 0x1000), HexDigit(u / 0x100 % 16), HexDigit(u / 16 % 16), HexDigit(u % 16)]
  }

  /** One unit that is not the first of a pair. */
  function JsonOf(u: Unit): Bytes {
    if Letter(u) != 0 then [BACKSLASH, Letter(u)]
    else if u < 0x20 || Surrogate(u) then Escape(u)
    else Utf8Of(u)
  }

  function JsonBytes(s: Text): Bytes {
    if s == [] then []
    else if StartsWithPair(s) then Utf8OfPair(s[0], s[1]) + JsonBytes(s[2..])
    else JsonOf(s[0]) + JsonBytes(s[1..])
  }

  lemma JsonOfLength(u: Unit)
    ensures |JsonOf(u)| == UnitSize(Json, u)
  {
  }

  /** The size of the literal, without its two quotes. */
  lemma {:induction false} JsonLength(s: Text)
    ensures |JsonBytes(s)| == Size(Json, s)
  {
    if s != [] {
      hide JsonOf, UnitSize;
      if StartsWithPair(s) {
        JsonLength(s[2..]);
      } else {
        JsonOfLength(s[0]);
        JsonLength(s[1..]);
      }
    }
  }

  // ----- A reader, independent of the writer -----

  /** The units of the first character, and how many bytes it takes. */
  datatype Read = Read(units: Text, size: nat)

  function ReadOne(b: Bytes): (r: Read)
    requires b != []
    ensures 1 <= r.size <= |b|
  {
    if b[0] == BACKSLASH && |b| >= 6 && b[1] == U then
      Read([0x1000 * HexValue(b[2]) + 0x100 * HexValue(b[3]) + 16 * HexValue(b[4]) + HexValue(b[5])], 6)
    else if b[0] == BACKSLASH && |b| >= 2 then Read([LetterMeans(b[1])], 2)
    else if 0xc0 <= b[0] < 0xe0 && |b| >= 2 then Read([Bits(b, 0, 0x20) * 0x40 + Bits(b, 1, 0x40)], 2)
    else if 0xe0 <= b[0] < 0xf0 && |b| >= 3 then
      Read([Bits(b, 0, 0x10) * 0x1000 + Bits(b, 1, 0x40) * 0x40 + Bits(b, 2, 0x40)], 3)
    else if 0xf0 <= b[0] < 0xf8 && |b| >= 4 then
      var c := Bits(b, 0, 8) * 0x4_0000 + Bits(b, 1, 0x40) * 0x1000 + Bits(b, 2, 0x40) * 0x40 + Bits(b, 3, 0x40);
      if 0x1_0000 <= c < 0x11_0000
      then Read([0xd800 + (c - 0x1_0000) / 0x400, 0xdc00 + (c - 0x1_0000) % 0x400], 4)
      else Read([b[0]], 1)
    else Read([b[0]], 1)
  }

  /** The low bits of a byte. */
  function Bits(b: Bytes, i: nat, m: nat): (n: nat)
    requires i < |b| && m > 0
    ensures n < m
  {
    (b[i] as nat) % m
  }

  function ReadJson(b: Bytes): Text {
    if b == [] then [] else ReadOne(b).units + ReadJson(b[ReadOne(b).size..])
  }

  lemma ReadsPair(high: Unit, low: Unit, rest: Bytes)
    requires 0xd800 <= high <= 0xdbff && 0xdc00 <= low <= 0xdfff
    ensures ReadOne(Utf8OfPair(high, low) + rest) == Read([high, low], 4)
  {
    hide Bits;
    var c := CodePoint(high, low);
    var b := Utf8OfPair(high, low) + rest;
    BitsOfPair(c, b);
    FourBytes(c);
    Halves(high, low);
  }

  lemma BitsOfPair(c: nat, b: Bytes)
    requires c < 0x11_0000 && |b| >= 4
    requires b[0] == 0xf0 + c / 0x4_0000 && b[1] == 0x80 + c / 0x1000 % 0x40
    requires b[2] == 0x80 + c / 0x40 % 0x40 && b[3] == 0x80 + c % 0x40
    ensures 0xf0 <= b[0] < 0xf8 && Bits(b, 0, 8) == c / 0x4_0000 && Bits(b, 1, 0x40) == c / 0x1000 % 0x40
    ensures Bits(b, 2, 0x40) == c / 0x40 % 0x40 && Bits(b, 3, 0x40) == c % 0x40
  {
  }

  lemma Halves(high: Unit, low: Unit)
    requires 0xd800 <= high <= 0xdbff && 0xdc00 <= low <= 0xdfff
    ensures var c := CodePoint(high, low);
      0x1_0000 <= c < 0x11_0000 && (c - 0x1_0000) / 0x400 == high - 0xd800 && (c - 0x1_0000) % 0x400 == low - 0xdc00
  {
  }

  lemma FourBytes(c: nat)
    requires c < 0x11_0000
    ensures c / 0x4_0000 * 0x4_0000 + c / 0x1000 % 0x40 * 0x1000 + c / 0x40 % 0x40 * 0x40 + c % 0x40 == c
  {
    assert c / 0x1000 == c / 0x40 / 0x40 && c / 0x4_0000 == c / 0x1000 / 0x40;
  }

  lemma ReadsEscape(u: Unit, rest: Bytes)
    ensures ReadOne(Escape(u) + rest) == Read([u], 6)
  {
    var b := Escape(u) + rest;
    assert b[..6] == Escape(u) && forall i :: 0 <= i < 6 ==> b[i] == Escape(u)[i];
    assert u / 0x100 == u / 16 / 16 && u / 0x1000 == u / 0x100 / 16;
  }

  lemma ReadsLetter(u: Unit, rest: Bytes)
    requires Letter(u) != 0
    ensures ReadOne([BACKSLASH, Letter(u)] + rest) == Read([u], 2)
  {
    var b := [BACKSLASH, Letter(u)] + rest;
    assert b[0] == BACKSLASH && b[1] == Letter(u) != U;
  }

  lemma ReadsPlain(u: Unit, rest: Bytes)
    requires u != BACKSLASH as nat
    ensures ReadOne(Utf8Of(u) + rest) == Read([u], |Utf8Of(u)|)
  {
    hide Bits;
    var b := Utf8Of(u) + rest;
    if u < 0x80 {
      assert b[0] == u;
    } else if u < 0x800 {
      assert b[0] == 0xc0 + u / 0x40 && b[1] == 0x80 + u % 0x40;
      TwoBytes(u, b);
    } else {
      assert b[0] == 0xe0 + u / 0x1000 && b[1] == 0x80 + u / 0x40 % 0x40 && b[2] == 0x80 + u % 0x40;
      ThreeBytes(u, b);
    }
  }

  lemma TwoBytes(u: Unit, b: Bytes)
    requires u < 0x800 && |b| >= 2 && b[0] == 0xc0 + u / 0x40 && b[1] == 0x80 + u % 0x40
    ensures 0xc0 <= b[0] < 0xe0 && Bits(b, 0, 0x20) * 0x40 + Bits(b, 1, 0x40) == u
  {
  }

  lemma ThreeBytes(u: Unit, b: Bytes)
    requires |b| >= 3 && b[0] == 0xe0 + u / 0x1000 && b[1] == 0x80 + u / 0x40 % 0x40 && b[2] == 0x80 + u % 0x40
    ensures 0xe0 <= b[0] < 0xf0 && Bits(b, 0, 0x10) * 0x1000 + Bits(b, 1, 0x40) * 0x40 + Bits(b, 2, 0x40) == u
  {
    assert u / 0x1000 == u / 0x40 / 0x40;
  }

  lemma ReadsUnit(u: Unit, rest: Bytes)
    ensures ReadOne(JsonOf(u) + rest) == Read([u], |JsonOf(u)|) && JsonOf(u) != []
  {
    hide ReadOne, Utf8Of, Escape;
    if Letter(u) != 0 {
      ReadsLetter(u, rest);
    } else if u < 0x20 || Surrogate(u) {
      ReadsEscape(u, rest);
    } else {
      ReadsPlain(u, rest);
    }
    PlainIsSome(u);
  }

  lemma PlainIsSome(u: Unit)
    ensures Utf8Of(u) != []
  {
  }

  /** Reading a literal gives back the text, unit for unit, lone surrogates included. */
  lemma {:induction false} JsonRoundTrip(s: Text)
    ensures ReadJson(JsonBytes(s)) == s
  {
    if s != [] {
      hide ReadOne, JsonOf, Utf8OfPair;
      if StartsWithPair(s) {
        var rest := JsonBytes(s[2..]);
        ReadsPair(s[0], s[1], rest);
        JsonRoundTrip(s[2..]);
        assert (Utf8OfPair(s[0], s[1]) + rest)[4..] == rest;
        assert s == [s[0], s[1]] + s[2..];
      } else {
        var rest := JsonBytes(s[1..]);
        ReadsUnit(s[0], rest);
        JsonRoundTrip(s[1..]);
        assert (JsonOf(s[0]) + rest)[|JsonOf(s[0])|..] == rest;
        assert s == [s[0]] + s[1..];
      }
    }
  }
}
