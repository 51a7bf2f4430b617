// Numbers and separated lists as text, with the readers that undo the writers.
module Text {

  // ----- Numbers -----

  const DIGITS: string := "0123456789abcdef"

  function Digit(d: nat): (c: char)
    requires d < 16
  {
    DIGITS[d]
  }

  function DigitValue(c: char): nat {
    if '0' <= c <= '9' then c as nat - '0' as nat
    else if 'a' <= c <= 'f' then c as nat - 'a' as nat + 10
    else 0
  }

  /** `toString(base)`: lower case, no leading zeros. */
  function Digits(n: nat, base: nat): (s: string)
    requires 2 <= base <= 16
    ensures s != [] && forall c :: c in s ==> c in DIGITS
  {
    if n < base then [Digit(n)] else Digits(n / base, base) + [Digit(n % base)]
  }

  function Value(s: string, base: nat): nat {
    if s == [] then 0 else base * Value(s[..|s| - 1], base) + DigitValue(s[|s| - 1])
  }

  lemma DigitRoundTrip(d: nat)
    requires d < 16
    ensures DigitValue(Digit(d)) == d
  {
  }

  lemma ValueSnoc(s: string, c: char, base: nat)
    ensures Value(s + [c], base) == base * Value(s, base) + DigitValue(c)
    ensures Value([c], base) == DigitValue(c)
  {
    assert (s + [c])[..|s|] == s && [c][..0] == [];
  }

  lemma DivMod(n: nat, base: nat)
    requires 2 <= base
    ensures base * (n / base) + n % base == n
  {
  }

  lemma {:induction false} NumberRoundTrip(n: nat, base: nat)
    requires 2 <= base <= 16
    ensures Value(Digits(n, base), base) == n
  {
    hide Value, Digit, DigitValue;
    if n < base {
      DigitRoundTrip(n);
      ValueSnoc([], Digit(n), base);
    } else {
      NumberRoundTrip(n / base, base);
      DigitRoundTrip(n % base);
      ValueSnoc(Digits(n / base, base), Digit(n % base), base);
      DivMod(n, base);
    }
  }

  lemma DigitZero(d: nat)
    requires d < 16
    ensures Digit(d) == '0' <==> d == 0
  {
  }

  /** Only zero itself starts with a zero. */
  lemma {:induction false} NoLeadingZero(n: nat, base: nat)
    requires 2 <= base <= 16
    ensures Digits(n, base)[0] == '0' <==> n == 0
  {
    hide Digit;
    if n < base {
      DigitZero(n);
    } else {
      DivMod(n, base);
      NoLeadingZero(n / base, base);
    }
  }

  // ----- Separated lists -----

  function Join(parts: seq<string>, sep: char): string {
    if parts == [] then []
    else if |parts| == 1 then parts[0]
    else Join(parts[..|parts| - 1], sep) + [sep] + parts[|parts| - 1]
  }

  function Split(s: string, sep: char): (parts: seq<string>)
    ensures |parts| > 0
  {
    if s == [] then [[]]
    else
      var parts, x := Split(s[..|s| - 1], sep), s[|s| - 1];
      if x == sep then parts + [[]] else parts[..|parts| - 1] + [parts[|parts| - 1] + [x]]
  }

  lemma SplitSnoc(s: string, x: char, sep: char)
    ensures var parts := Split(s, sep);
      Split(s + [x], sep)
      == if x == sep then parts + [[]] else parts[..|parts| - 1] + [parts[|parts| - 1] + [x]]
  {
    assert (s + [x])[..|s|] == s;
  }

  lemma {:induction false} SplitAppend(s: string, t: string, sep: char)
    requires sep !in t
    ensures var parts := Split(s, sep);
      Split(s + t, sep) == parts[..|parts| - 1] + [parts[|parts| - 1] + t]
    decreases |t|
  {
    hide Split;
    var parts := Split(s, sep);
    if t == [] {
      assert s + t == s;
      assert parts[|parts| - 1] + t == parts[|parts| - 1];
    } else {
      var t', x := t[..|t| - 1], t[|t| - 1];
      SplitAppend(s, t', sep);
      SplitSnoc(s + t', x, sep);
      assert s + t == (s + t') + [x];
      assert (parts[|parts| - 1] + t') + [x] == parts[|parts| - 1] + t;
    }
  }

  lemma JoinSnoc(front: seq<string>, last: string, sep: char)
    ensures Join(front + [last], sep) == if front == [] then last else Join(front, sep) + [sep] + last
  {
    assert (front + [last])[..|front|] == front;
  }

  lemma {:induction false} SplitJoin(parts: seq<string>, sep: char)
    requires parts != [] && forall p :: p in parts ==> sep !in p
    ensures Split(Join(parts, sep), sep) == parts
  {
    hide Join;
    var front, last := parts[..|parts| - 1], parts[|parts| - 1];
    assert parts == front + [last];
    JoinSnoc(front, last, sep);
    if front == [] {
      SplitAppend([], last, sep);
      assert [] + last == last;
    } else {
      SplitJoin(front, sep);
      SplitSnoc(Join(front, sep), sep, sep);
      SplitAppend(Join(front, sep) + [sep], last, sep);
      assert [] + last == last;
    }
  }
}
