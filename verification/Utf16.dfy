// Strings of UTF-16 code units and the bytes they take, as UTF-8 and inside a JSON string literal.
module Utf16 {
  type Unit = u: nat | u < 65536

  type Text = seq<Unit>

  predicate High(u: Unit) {
    0xd800 <= u <= 0xdbff
  }

  predicate Low(u: Unit) {
    0xdc00 <= u <= 0xdfff
  }

  datatype Coding = Utf8 | Json

  /** A unit that is not half of a pair. A lone surrogate becomes the three bytes of U+FFFD in UTF-8
      and a six character escape in JSON. */
  function UnitSize(k: Coding, u: Unit): (n: nat)
    ensures 1 <= n <= if k.Json? then 6 else 3
    ensures High(u) ==> n == if k.Json? then 6 else 3
  {
    if k.Json? && (u in {0x22, 0x5c, 8, 9, 10, 12, 13}) then 2
    else if k.Json? && (u < 0x20 || High(u) || Low(u)) then 6
    else if u < 0x80 then 1
    else if u < 0x800 then 2
    else 3
  }

  function Size(k: Coding, s: Text): nat {
    if s == [] then 0
    else if |s| >= 2 && High(s[0]) && Low(s[1]) then 4 + Size(k, s[2..])
    else UnitSize(k, s[0]) + Size(k, s[1..])
  }

  predicate EndsHigh(s: Text) {
    s != [] && High(s[|s| - 1])
  }

  function Added(k: Coding, s: Text, u: Unit): int {
    if EndsHigh(s) && Low(u) then 4 - UnitSize(k, s[|s| - 1]) else UnitSize(k, u)
  }

  lemma SizeOfPair(k: Coding, s: Text)
    requires |s| >= 2 && High(s[0]) && Low(s[1])
    ensures Size(k, s) == 4 + Size(k, s[2..])
  {
  }

  lemma SizeOfUnit(k: Coding, s: Text)
    requires s != [] && !(|s| >= 2 && High(s[0]) && Low(s[1]))
    ensures Size(k, s) == UnitSize(k, s[0]) + Size(k, s[1..])
  {
  }

  lemma SizeOfNothing(k: Coding)
    ensures Size(k, []) == 0
  {
  }

  /** One more unit; completing a pair replaces the size of the lone half. */
  lemma {:induction false} SizeSnoc(k: Coding, s: Text, u: Unit)
    ensures Size(k, s + [u]) == Size(k, s) + Added(k, s, u)
    decreases |s|
  {
    hide Size, UnitSize;
    var t := s + [u];
    SizeOfNothing(k);
    if |s| >= 2 && High(s[0]) && Low(s[1]) {
      SizeSnoc(k, s[2..], u);
      SizeOfPair(k, s);
      SizeOfPair(k, t);
      assert t[2..] == s[2..] + [u];
    } else if |s| >= 2 {
      SizeSnoc(k, s[1..], u);
      SizeOfUnit(k, s);
      SizeOfUnit(k, t);
      assert t[1..] == s[1..] + [u];
    } else if s == [] {
      SizeOfUnit(k, t);
      assert t[1..] == [];
    } else {
      SizeOfUnit(k, s);
      assert t[1..] == [u] && t[2..] == [] && [u][1..] == [] && s[1..] == [];
      SizeOfUnit(k, [u]);
      if High(s[0]) && Low(u) {
        SizeOfPair(k, t);
      } else {
        SizeOfUnit(k, t);
      }
    }
  }

  /** UTF-8 never gets shorter by appending. */
  lemma {:induction false} Utf8Grows(s: Text, t: Text)
    ensures Size(Utf8, s) + |t| <= Size(Utf8, s + t)
  {
    if t == [] {
      assert s + t == s;
    } else {
      var front, u := t[..|t| - 1], t[|t| - 1];
      Utf8Grows(s, front);
      assert s + t == (s + front) + [u];
      SizeSnoc(Utf8, s + front, u);
    }
  }

  /** JSON may, but by no more than two bytes. */
  lemma {:induction false} JsonShrinksByTwo(s: Text, t: Text)
    ensures Size(Json, s + t) >= Size(Json, s) - if EndsHigh(s) then 2 else 0
    ensures EndsHigh(s + t) && t != [] ==> Size(Json, s + t) >= Size(Json, s) + 4
  {
    if t == [] {
      assert s + t == s;
    } else {
      var front, u := t[..|t| - 1], t[|t| - 1];
      JsonShrinksByTwo(s, front);
      assert s + t == (s + front) + [u];
      SizeSnoc(Json, s + front, u);
      if front == [] {
        assert s + front == s;
      }
    }
  }
}
