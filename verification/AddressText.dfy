// Addresses as text: dotted decimal for IPv4, and for IPv6 the form of section 4.2 of RFC 5952
// (src/dnsfilter/dns-message.ts).
module AddressText {
  import opened Bytes
  import opened Text

  // ----- IPv4 -----

  function FormatIpv4(a: Bytes): string
    requires |a| == 4
  {
    Join(seq(4, i requires 0 <= i < 4 => Digits(a[i], 10)), '.')
  }

  function ReadIpv4(text: string): seq<nat> {
    var parts := Split(text, '.');
    seq(|parts|, i requires 0 <= i < |parts| => Value(parts[i], 10))
  }

  lemma Ipv4RoundTrip(a: Bytes)
    requires |a| == 4
    ensures ReadIpv4(FormatIpv4(a)) == a
  {
    hide Join, Split, Digits, Value;
    var parts := seq(4, i requires 0 <= i < 4 => Digits(a[i], 10));
    SplitJoin(parts, '.');
    forall i | 0 <= i < 4 ensures Value(parts[i], 10) == a[i] {
      NumberRoundTrip(a[i], 10);
    }
  }

  // ----- The longest run of zero groups -----

  datatype Run = Run(start: nat, length: nat)

  predicate ZeroRun(groups: seq<nat>, from: nat, to: nat) {
    from <= to <= |groups| && forall k :: from <= k < to ==> groups[k] == 0
  }

  /** The runs that may be shortened: at least two groups. */
  predicate Candidate(groups: seq<nat>, run: Run) {
    run.length >= 2 && ZeroRun(groups, run.start, run.start + run.length)
  }

  /** `best` is the first longest candidate among those that start before `index`; no candidate
      when its length is 0. */
  ghost predicate Best(groups: seq<nat>, index: nat, best: Run) {
    && (best.length == 0 || Candidate(groups, best))
    && forall run :: Candidate(groups, run) && run.start < index ==>
         run.length < best.length || (run.length == best.length && best.start <= run.start)
  }

  function ZerosFrom(groups: seq<nat>, i: nat): (n: nat)
    requires i <= |groups|
    ensures i + n <= |groups|
    ensures ZeroRun(groups, i, i + n) && (i + n == |groups| || groups[i + n] != 0)
    decreases |groups| - i
  {
    if i < |groups| && groups[i] == 0 then 1 + ZerosFrom(groups, i + 1) else 0
  }

  function LongestRunBelow(groups: seq<nat>, index: nat): (best: Run)
    requires index <= |groups|
    ensures best.length > 0 ==> Candidate(groups, best)
  {
    if index == 0 then Run(0, 0)
    else
      var best, length := LongestRunBelow(groups, index - 1), ZerosFrom(groups, index - 1);
      if length >= 2 && length > best.length then Run(index - 1, length) else best
  }

  function LongestRun(groups: seq<nat>): (best: Run)
    ensures best.length > 0 ==> Candidate(groups, best)
  {
    LongestRunBelow(groups, |groups|)
  }

  lemma RunStops(groups: seq<nat>, run: Run, end: nat)
    requires Candidate(groups, run) && run.start <= end <= |groups|
    requires end == |groups| || groups[end] != 0
    ensures run.start + run.length <= end
  {
  }

  lemma {:induction false} LongestRunIsBest(groups: seq<nat>, index: nat)
    requires index <= |groups|
    ensures var best := LongestRunBelow(groups, index);
      Best(groups, index, best) && (best.length == 0 || best.start < index)
  {
    if index > 0 {
      LongestRunIsBest(groups, index - 1);
      var length := ZerosFrom(groups, index - 1);
      forall run | Candidate(groups, run) && run.start == index - 1 ensures run.length <= length {
        RunStops(groups, run, index - 1 + length);
      }
    }
  }

  lemma BestIsUnique(groups: seq<nat>, a: Run, b: Run)
    requires Best(groups, |groups|, a) && Best(groups, |groups|, b)
    ensures a.length == b.length && (a.length > 0 ==> a == b)
  {
    assert a.length > 0 ==> Candidate(groups, a);
    assert b.length > 0 ==> Candidate(groups, b);
  }

  // ----- IPv6 -----

  function Groups(a: Bytes): (g: seq<nat>)
    requires |a| == 16
    ensures |g| == 8 && forall i :: 0 <= i < 8 ==> g[i] < 0x1_0000
  {
    seq(8, i requires 0 <= i < 8 => ReadU16(a, 2 * i))
  }

  function Ungroup(groups: seq<nat>): Bytes
    requires forall i :: 0 <= i < |groups| ==> groups[i] < 0x1_0000
  {
    seq(2 * |groups|, i requires 0 <= i < 2 * |groups| =>
      if i % 2 == 0 then groups[i / 2] / 256 else groups[i / 2] % 256)
  }

  function Hex(groups: seq<nat>): (texts: seq<string>)
    ensures |texts| == |groups|
    ensures forall t :: t in texts ==> t != [] && ':' !in t
  {
    seq(|groups|, i requires 0 <= i < |groups| => Digits(groups[i], 16))
  }

  function JoinGroups(groups: seq<nat>): string {
    Join(Hex(groups), ':')
  }

  function FormatGroups(groups: seq<nat>): string {
    var best := LongestRun(groups);
    if best.length == 0 then JoinGroups(groups)
    else JoinGroups(groups[..best.start]) + "::" + JoinGroups(groups[best.start + best.length..])
  }

  function FormatIpv6(a: Bytes): string
    requires |a| == 16
  {
    FormatGroups(Groups(a))
  }

  lemma ZeroText(n: nat)
    ensures Digits(n, 16) == "0" <==> n == 0
  {
    NoLeadingZero(n, 16);
  }

  lemma ZeroTexts(groups: seq<nat>)
    ensures forall i {:trigger groups[i]} {:trigger Hex(groups)[i]} ::
        0 <= i < |groups| ==> (Hex(groups)[i] == "0" <==> groups[i] == 0)
  {
    forall i | 0 <= i < |groups| ensures Hex(groups)[i] == "0" <==> groups[i] == 0 {
      ZeroText(groups[i]);
    }
  }

  /** The nested scan over the group texts, which compares them with "0", finds the first longest run. */
  method LongestZeroRun(texts: seq<string>, ghost groups: seq<nat>) returns (best: Run)
    requires texts == Hex(groups)
    ensures best.length == LongestRun(groups).length
    ensures best.length > 0 ==> best == LongestRun(groups)
  {
    hide Hex, Digits;
    HexSize(groups);
    ZeroTexts(groups);
    best := Run(0, 0);
    var index := 0;
    while index < |texts|
      invariant index <= |groups| && Best(groups, index, best) && (best.length == 0 || best.start < index)
    {
      if texts[index] != "0" {
        assert groups[index] != 0;
        index := index + 1;
        continue;
      }
      var end := index;
      while end < |texts| && texts[end] == "0"
        invariant index <= end <= |groups| && ZeroRun(groups, index, end)
      {
        assert groups[end] == 0;
        end := end + 1;
      }
      assert end < |groups| ==> groups[end] != 0;
      forall run | Candidate(groups, run) && index <= run.start < end
        ensures run.start + run.length <= end
      {
        RunStops(groups, run, end);
      }
      if end - index > best.length && end - index >= 2 {
        best := Run(index, end - index);
      }
      index := end;
    }
    LongestRunIsBest(groups, |groups|);
    BestIsUnique(groups, best, LongestRun(groups));
  }

  lemma HexSize(groups: seq<nat>)
    ensures |Hex(groups)| == |groups|
  {
  }

  /** Joining the texts around the run the scan found gives the text of the address. */
  method FormatIpv6Text(a: Bytes) returns (text: string)
    requires |a| == 16
    ensures text == FormatIpv6(a)
  {
    hide LongestRun, Join;
    ghost var groups := Groups(a);
    var texts := Hex(Groups(a));
    var best := LongestZeroRun(texts, groups);
    if best.length == 0 {
      return Join(texts, ':');
    }
    assert texts[..best.start] == Hex(groups[..best.start]);
    assert texts[best.start + best.length..] == Hex(groups[best.start + best.length..]);
    text := Join(texts[..best.start], ':') + "::" + Join(texts[best.start + best.length..], ':');
  }

  // A reader of the text form (section 2.2 of RFC 4291), independent of the writer.

  function ReadGroups(text: string): seq<nat> {
    if text == [] then []
    else
      var parts := Split(text, ':');
      seq(|parts|, i requires 0 <= i < |parts| => Value(parts[i], 16))
  }

  /** Position of the first "::"; the length of the text when there is none. */
  function FirstGap(text: string): (k: nat)
    ensures k <= |text|
  {
    if |text| < 2 then |text|
    else if text[0] == ':' && text[1] == ':' then 0
    else 1 + FirstGap(text[1..])
  }

  function Zeros(n: nat): seq<nat> {
    seq(n, i => 0)
  }

  function ReadIpv6(text: string): seq<nat> {
    var k := FirstGap(text);
    if k + 2 > |text| then ReadGroups(text)
    else
      var left, right := ReadGroups(text[..k]), ReadGroups(text[k + 2..]);
      left + Zeros(if |left| + |right| < 8 then 8 - |left| - |right| else 0) + right
  }

  // ----- The reader undoes the writer -----

  lemma GroupsRoundTrip(a: Bytes)
    requires |a| == 16
    ensures Ungroup(Groups(a)) == a
  {
    var g := Groups(a);
    forall i | 0 <= i < 16 ensures Ungroup(g)[i] == a[i] {
      assert g[i / 2] == ReadU16(a, 2 * (i / 2));
      assert i == 2 * (i / 2) + i % 2;
    }
  }

  lemma GroupTextRoundTrip(groups: seq<nat>)
    ensures ReadGroups(JoinGroups(groups)) == groups
  {
    hide Join, Split, Digits, Value;
    if groups != [] {
      SplitJoin(Hex(groups), ':');
      JoinShape(Hex(groups));
      forall i | 0 <= i < |groups| ensures Value(Hex(groups)[i], 16) == groups[i] {
        NumberRoundTrip(groups[i], 16);
      }
    } else {
      assert Hex(groups) == [];
      JoinShape(Hex(groups));
    }
  }

  ghost predicate NoGap(s: string) {
    && (forall i :: 0 <= i < |s| - 1 ==> s[i] != ':' || s[i + 1] != ':')
    && (s != [] ==> s[|s| - 1] != ':')
  }

  lemma NoGapConcat(s: string, last: string)
    requires NoGap(s) && last != [] && ':' !in last
    ensures NoGap(last) && (s != [] ==> NoGap(s + [':'] + last))
  {
    assert forall i :: 0 <= i < |last| ==> last[i] in last;
    var whole := s + [':'] + last;
    forall i | 0 <= i < |whole|
      ensures whole[i] == if i < |s| then s[i] else if i == |s| then ':' else last[i - |s| - 1]
    {
    }
  }

  /** Joined groups are empty only when there is none, and hold no "::". */
  lemma {:induction false} JoinShape(parts: seq<string>)
    requires forall p :: p in parts ==> p != [] && ':' !in p
    ensures NoGap(Join(parts, ':')) && (Join(parts, ':') == [] <==> parts == [])
  {
    if parts != [] {
      hide Join, NoGap;
      var front, last := parts[..|parts| - 1], parts[|parts| - 1];
      assert parts == front + [last];
      JoinSnoc(front, last, ':');
      assert forall p :: p in front ==> p in parts;
      JoinShape(front);
      assert last in parts;
      NoGapConcat(Join(front, ':'), last);
    }
  }

  lemma {:induction false} GapAfter(s: string, t: string)
    requires NoGap(s)
    ensures FirstGap(s + "::" + t) == |s|
    decreases |s|
  {
    var whole := s + "::" + t;
    if s != [] {
      assert whole[0] == s[0] && (|s| > 1 ==> whole[1] == s[1]);
      assert whole[1..] == s[1..] + "::" + t;
      GapAfter(s[1..], t);
    }
  }

  lemma {:induction false} NoGapAtAll(s: string)
    requires NoGap(s)
    ensures FirstGap(s) == |s|
    decreases |s|
  {
    if |s| >= 2 {
      NoGapAtAll(s[1..]);
    }
  }

  lemma IPv6GroupsRoundTrip(groups: seq<nat>)
    requires |groups| == 8
    ensures ReadIpv6(FormatGroups(groups)) == groups
  {
    hide LongestRun, FirstGap, ReadGroups, JoinGroups, NoGap;
    var best := LongestRun(groups);
    if best.length == 0 {
      NoGapInGroups(groups);
      NoGapAtAll(JoinGroups(groups));
      GroupTextRoundTrip(groups);
    } else {
      var left, right := groups[..best.start], groups[best.start + best.length..];
      var l, r := JoinGroups(left), JoinGroups(right);
      NoGapInGroups(left);
      GapAfter(l, r);
      var text := l + "::" + r;
      assert text[..|l|] == l && text[|l| + 2..] == r;
      GroupTextRoundTrip(left);
      GroupTextRoundTrip(right);
      assert groups == left + Zeros(best.length) + right;
    }
  }

  lemma NoGapInGroups(groups: seq<nat>)
    ensures NoGap(JoinGroups(groups))
  {
    hide Join, NoGap;
    JoinShape(Hex(groups));
  }

  /** The text of an IPv6 address expands back to its 16 bytes. */
  lemma {:induction false} Ipv6RoundTrip(a: Bytes)
    requires |a| == 16
    ensures ReadIpv6(FormatIpv6(a)) == Groups(a) && Ungroup(Groups(a)) == a
  {
    IPv6GroupsRoundTrip(Groups(a));
    GroupsRoundTrip(a);
  }

  /** Section 4.2 of RFC 5952: the run that is shortened has at least two groups, no run is longer,
      and of equally long runs it is the first; nothing is shortened only if there is no such run. */
  lemma ShortensTheFirstLongestRun(groups: seq<nat>, run: Run)
    requires Candidate(groups, run)
    ensures var best := LongestRun(groups);
      && Candidate(groups, best) && run.length <= best.length
      && (run.length == best.length ==> best.start <= run.start)
  {
    LongestRunIsBest(groups, |groups|);
  }
}
