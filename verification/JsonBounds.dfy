// Control results cut to a JSON-encoded size, so that a response fits one frame
// (src/local-control/protocol.ts).
module JsonBounds {
  import opened Utf16

  const MAX_LINE_BYTES := 65536
  const OUTPUT_JSON_BYTES := 24576
  const COMMAND_JSON_BYTES := 4096
  const ERROR_JSON_BYTES := 4096

  /** `Buffer.byteLength(JSON.stringify(s), 'utf8')`. */
  function Encoded(s: Text): nat {
    2 + Size(Json, s)
  }

  predicate Fits(value: Text, length: nat, max: nat)
    requires length <= |value|
  {
    Encoded(value[..length]) <= max
  }

  // ----- truncateJsonString -----

  /** Where the binary search between `low` and `high` ends. */
  function Search(value: Text, max: nat, low: nat, high: nat): (r: nat)
    requires low <= high <= |value|
    ensures low <= r <= high
    decreases high - low
  {
    if low == high then low
    else
      var middle := (low + high + 1) / 2;
      if Fits(value, middle, max) then Search(value, max, middle, high) else Search(value, max, low, middle - 1)
  }

  datatype Truncation = Truncation(value: Text, truncated: bool)

  function WithoutHigh(s: Text): Text {
    if EndsHigh(s) then s[..|s| - 1] else s
  }

  function Truncate(value: Text, max: nat): Truncation {
    if Encoded(value) <= max then Truncation(value, false)
    else Truncation(WithoutHigh(value[..Search(value, max, 0, |value|)]), true)
  }

  method TruncateJsonString(value: Text, max: nat) returns (r: Truncation)
    ensures r == Truncate(value, max)
  {
    hide Size;
    if Encoded(value) <= max {
      return Truncation(value, false);
    }
    var low: nat, high: nat := 0, |value|;
    while low < high
      invariant low <= high <= |value|
      invariant Search(value, max, low, high) == Search(value, max, 0, |value|)
    {
      var middle := (low + high + 1) / 2;
      if Encoded(value[..middle]) <= max {
        low := middle;
      } else {
        high := middle - 1;
      }
    }
    var bounded := value[..low];
    if bounded != [] && High(bounded[|bounded| - 1]) {
      bounded := bounded[..|bounded| - 1];
    }
    r := Truncation(bounded, true);
  }

  lemma {:induction false} SearchFits(value: Text, max: nat, low: nat, high: nat)
    requires low <= high <= |value| && Fits(value, low, max)
    requires high < |value| ==> !Fits(value, high + 1, max)
    ensures var r := Search(value, max, low, high);
      Fits(value, r, max) && (r < |value| ==> !Fits(value, r + 1, max))
    decreases high - low
  {
    hide Fits;
    if low < high {
      var middle := (low + high + 1) / 2;
      if Fits(value, middle, max) {
        SearchFits(value, max, middle, high);
      } else {
        SearchFits(value, max, low, middle - 1);
      }
    }
  }

  lemma DroppingHighShrinks(s: Text)
    ensures Encoded(WithoutHigh(s)) <= Encoded(s)
  {
    if EndsHigh(s) {
      var front, u := s[..|s| - 1], s[|s| - 1];
      SizeSnoc(Json, front, u);
      assert s == front + [u];
    }
  }

  lemma LongerPrefix(value: Text, m: nat, n: nat)
    requires m <= n <= |value|
    ensures Encoded(value[..n]) >= Encoded(value[..m]) - 2
  {
    assert value[..n] == value[..m] + value[m..n];
    JsonShrinksByTwo(value[..m], value[m..n]);
  }

  /** The result is a prefix that fits; a value that fits is kept whole. One that does not is cut at a
      place from which no further unit fits, and no longer prefix encodes to less than `max - 1`
      bytes: encoded size is not monotone, but it only ever drops by two. */
  lemma TruncationFits(value: Text, max: nat)
    requires max >= 2
    ensures var r := Truncate(value, max);
      && r.value <= value && Encoded(r.value) <= max
      && (r.truncated <==> Encoded(value) > max) && (!r.truncated ==> r.value == value)
      && (r.truncated ==>
           exists cut: nat :: |r.value| <= cut <= |r.value| + 1 && cut < |value| && CutAt(value, max, cut))
  {
    if Encoded(value) > max {
      var cut := Search(value, max, 0, |value|);
      assert value[..0] == [] && value[..|value|] == value;
      SearchFits(value, max, 0, |value|);
      DroppingHighShrinks(value[..cut]);
      forall n: nat | cut < n <= |value| ensures Beyond(value, max, n) {
        LongerPrefix(value, cut + 1, n);
      }
      assert CutAt(value, max, cut);
    }
  }

  predicate Beyond(value: Text, max: nat, n: nat)
    requires n <= |value|
  {
    Encoded(value[..n]) >= max - 1
  }

  ghost predicate CutAt(value: Text, max: nat, cut: nat)
    requires cut < |value|
  {
    Fits(value, cut, max) && !Fits(value, cut + 1, max) && forall n: nat :: cut < n <= |value| ==> Beyond(value, max, n)
  }

  /** The encoded size does drop: completing a pair saves two bytes. */
  lemma EncodedSizeIsNotMonotone()
    ensures var s := [0xd83d, 0xde00]; Encoded(s[..1]) == 8 && Encoded(s) == 6
  {
    var s: Text := [0xd83d, 0xde00];
    assert s[..1] == [0xd83d] && s[..1][1..] == [] && s[2..] == [];
  }

  // ----- Surrogate pairs -----

  /** Every surrogate is half of a pair. */
  predicate WellFormed(s: Text) {
    if s == [] then true
    else if |s| >= 2 && High(s[0]) && Low(s[1]) then WellFormed(s[2..])
    else !High(s[0]) && !Low(s[0]) && WellFormed(s[1..])
  }

  lemma {:induction false} PrefixOfWellFormed(s: Text, n: nat)
    requires WellFormed(s) && n <= |s|
    ensures WellFormed(WithoutHigh(s[..n]))
    decreases |s|
  {
    var p := s[..n];
    if n == 0 {
    } else if |s| >= 2 && High(s[0]) && Low(s[1]) {
      if n >= 2 {
        PrefixOfWellFormed(s[2..], n - 2);
        assert p[2..] == s[2..][..n - 2];
        SkipsHead(p, 2);
      }
    } else {
      PrefixOfWellFormed(s[1..], n - 1);
      assert p[1..] == s[1..][..n - 1];
      SkipsHead(p, 1);
    }
  }

  lemma SkipsHead(p: Text, k: nat)
    requires k <= |p| && (k == |p| ==> !EndsHigh(p))
    ensures k <= |WithoutHigh(p)| && WithoutHigh(p)[k..] == WithoutHigh(p[k..])
  {
  }

  /** No pair is ever split: a string of whole characters stays one. */
  lemma PairsAreNotSplit(value: Text, max: nat)
    requires WellFormed(value)
    ensures WellFormed(Truncate(value, max).value)
  {
    if Encoded(value) > max {
      PrefixOfWellFormed(value, Search(value, max, 0, |value|));
    }
  }

  /** Two high surrogates in a row, followed by something that does not complete the second. */
  predicate TwoHighsAt(value: Text, i: nat)
    requires i + 2 < |value|
  {
    High(value[i]) && High(value[i + 1]) && !Low(value[i + 2])
  }

  lemma PrefixGrows(value: Text, n: nat)
    requires n < |value|
    ensures Encoded(value[..n + 1]) == Encoded(value[..n]) + Added(Json, value[..n], value[n])
  {
    assert value[..n + 1] == value[..n] + [value[n]];
    SizeSnoc(Json, value[..n], value[n]);
  }

  /** If a cut leaves a high surrogate at the end, it was made after two of them. */
  lemma CutAfterTwoHighs(value: Text, max: nat)
    requires max >= 2 && Encoded(value) > max && EndsHigh(Truncate(value, max).value)
    ensures exists i: nat :: i + 2 < |value| && TwoHighsAt(value, i)
  {
    assert value[..0] == [] && value[..|value|] == value;
    SearchFits(value, max, 0, |value|);
    var cut := Search(value, max, 0, |value|);
    PrefixGrows(value, cut);
    assert TwoHighsAt(value, cut - 2);
  }

  /** When exactly the prefixes up to `cut` fit, the search finds `cut`. */
  lemma {:induction false} SearchFinds(value: Text, max: nat, low: nat, high: nat, cut: nat)
    requires low <= cut <= high <= |value|
    requires forall n: nat :: n <= |value| ==> (Fits(value, n, max) <==> n <= cut)
    ensures Search(value, max, low, high) == cut
    decreases high - low
  {
    hide Fits;
    if low < high {
      var middle := (low + high + 1) / 2;
      if middle <= cut {
        SearchFinds(value, max, middle, high, cut);
      } else {
        SearchFinds(value, max, low, middle - 1, cut);
      }
    }
  }

  /** The size of everything up to two such highs is a limit that cuts between them. */
  lemma TwoHighsAreCut(value: Text, i: nat)
    requires i + 2 < |value| && TwoHighsAt(value, i)
    ensures var max := Encoded(value[..i + 2]);
      Encoded(value) > max && EndsHigh(Truncate(value, max).value)
  {
    hide Encoded, Search;
    var cut, max := i + 2, Encoded(value[..i + 2]);
    forall n: nat | n <= |value| ensures Fits(value, n, max) <==> n <= cut {
      if n <= cut {
        PrefixesFit(value, n, cut);
      } else {
        LongerPrefixesDoNotFit(value, cut, n);
      }
    }
    assert value[..|value|] == value && !Fits(value, |value|, max);
    SearchFinds(value, max, 0, |value|, cut);
    assert EndsHigh(value[..cut]) && value[..cut][..cut - 1] == value[..cut - 1];
  }

  lemma PrefixesFit(value: Text, n: nat, cut: nat)
    requires n <= cut <= |value| && EndsHigh(value[..cut])
    ensures Fits(value, n, Encoded(value[..cut]))
  {
    assert value[..cut] == value[..n] + value[n..cut];
    JsonShrinksByTwo(value[..n], value[n..cut]);
    if n == cut {
      assert value[..n] == value[..cut];
    }
  }

  lemma LongerPrefixesDoNotFit(value: Text, cut: nat, n: nat)
    requires cut < n <= |value| && !Low(value[cut])
    ensures !Fits(value, n, Encoded(value[..cut]))
  {
    PrefixGrows(value, cut);
    assert value[..n] == value[..cut + 1] + value[cut + 1..n];
    JsonShrinksByTwo(value[..cut + 1], value[cut + 1..n]);
  }

  /** Some limit cuts a value so that it still ends in a high surrogate if and only if the value holds
      two high surrogates in a row, the second one lone. */
  lemma EndsHighIffTwoHighs(value: Text)
    ensures (exists max: nat {:trigger Truncate(value, max)} ::
              max >= 2 && Encoded(value) > max && EndsHigh(Truncate(value, max).value))
       <==> exists i: nat :: i + 2 < |value| && TwoHighsAt(value, i)
  {
    hide Truncate, Encoded, EndsHigh;
    if max: nat :| max >= 2 && Encoded(value) > max && EndsHigh(Truncate(value, max).value) {
      CutAfterTwoHighs(value, max);
    }
    if i: nat :| i + 2 < |value| && TwoHighsAt(value, i) {
      TwoHighsAreCut(value, i);
      EncodedAtLeastTwo(value[..i + 2]);
    }
  }

  lemma EncodedAtLeastTwo(s: Text)
    ensures Encoded(s) >= 2
  {
  }

  /** Two high surrogates end the longest part that fits this limit. */
  predicate CutAfter(value: Text, max: nat, i: nat)
    requires i + 2 < |value|
  {
    High(value[i]) && High(value[i + 1]) && Fits(value, i + 2, max) && !Fits(value, i + 3, max)
  }

  /** The longest part that fits ends at `last`; a pair may reach it across a part that does not fit. */
  ghost predicate Longest(value: Text, max: nat, last: nat) {
    last <= |value| && Fits(value, last, max) && forall n: nat :: last < n <= |value| ==> !Fits(value, n, max)
  }

  /** The halving of `low..high` asks about `n` before it asks about anything above `n` up to `last`. */
  predicate AsksFirst(low: nat, high: nat, n: nat, last: nat)
    decreases high - low
  {
    low < high
    && var middle := (low + high + 1) / 2;
       middle == n
       || (middle < n && AsksFirst(middle, high, n, last))
       || (middle > n && middle > last && AsksFirst(low, middle - 1, n, last))
  }

  /** For one limit, a cut leaves a high surrogate at the end if and only if two of them end a part that
      fits and the search asks about the next longer part before one that a pair makes fit again. */
  lemma EndsHighAtLimitIff(value: Text, max: nat, last: nat)
    requires max >= 2 && Encoded(value) > max && Longest(value, max, last)
    ensures EndsHigh(Truncate(value, max).value)
       <==> exists i: nat :: i + 2 < |value| && CutAfter(value, max, i) && AsksFirst(0, |value|, i + 3, last)
  {
    hide Encoded, Search, AsksFirst, Longest;
    assert value[..0] == [] && value[..|value|] == value;
    EncodedOfNothing();
    SearchFits(value, max, 0, |value|);
    var cut := Search(value, max, 0, |value|);
    if EndsHigh(Truncate(value, max).value) {
      assert CutAfter(value, max, cut - 2);
      CutWasAsked(value, max, last, 0, |value|, cut);
    }
    if i: nat :| i + 2 < |value| && CutAfter(value, max, i) && AsksFirst(0, |value|, i + 3, last) {
      AskedIsCut(value, max, last, 0, |value|, i + 2);
      assert value[..i + 2][..i + 1] == value[..i + 1];
    }
  }

  lemma EncodedOfNothing()
    ensures Encoded([]) == 2
  {
  }

  /** Behind a part that does not fit, either none does, or a pair and what follows it up to the last. */
  lemma FitsAgain(value: Text, max: nat, last: nat, cut: nat, n: nat)
    requires Longest(value, max, last) && cut < |value| && !Fits(value, cut + 1, max) && cut + 1 < n <= last
    ensures Fits(value, n, max)
  {
    hide Size;
    assert value[..last] == value[..cut + 1] + value[cut + 1..last] == value[..cut + 2] + value[cut + 2..last];
    assert value[..last] == value[..n] + value[n..last] && value[..n] == value[..cut + 2] + value[cut + 2..n];
    JsonShrinksByTwo(value[..cut + 1], value[cut + 1..last]);
    PrefixGrows(value, cut + 1);
    JsonShrinksByTwo(value[..cut + 2], value[cut + 2..last]);
    JsonShrinksByTwo(value[..cut + 2], value[cut + 2..n]);
    JsonShrinksByTwo(value[..n], value[n..last]);
  }

  lemma {:induction false} CutWasAsked(value: Text, max: nat, last: nat, low: nat, high: nat, cut: nat)
    requires low <= cut < high <= |value| && Longest(value, max, last) && !Fits(value, cut + 1, max)
    requires Search(value, max, low, high) == cut
    ensures AsksFirst(low, high, cut + 1, last)
    decreases high - low
  {
    hide Fits, Longest;
    var middle := (low + high + 1) / 2;
    if middle <= cut {
      CutWasAsked(value, max, last, middle, high, cut);
    } else if middle > cut + 1 {
      if middle <= last {
        FitsAgain(value, max, last, cut, middle);
      }
      CutWasAsked(value, max, last, low, middle - 1, cut);
    }
  }

  lemma {:induction false} AskedIsCut(value: Text, max: nat, last: nat, low: nat, high: nat, cut: nat)
    requires low <= cut < high <= |value| && Longest(value, max, last)
    requires EndsHigh(value[..cut]) && Fits(value, cut, max) && !Fits(value, cut + 1, max)
    requires AsksFirst(low, high, cut + 1, last)
    ensures Search(value, max, low, high) == cut
    decreases high - low
  {
    hide Encoded;
    forall n: nat | n <= cut ensures Fits(value, n, max) {
      PrefixesFit(value, n, cut);
    }
    var middle := (low + high + 1) / 2;
    if middle <= cut {
      AskedIsCut(value, max, last, middle, high, cut);
    } else if middle == cut + 1 {
      SearchTop(value, max, low, cut);
    } else {
      AskedIsCut(value, max, last, low, middle - 1, cut);
    }
  }

  lemma {:induction false} SearchTop(value: Text, max: nat, low: nat, high: nat)
    requires low <= high <= |value| && forall n: nat :: n <= high ==> Fits(value, n, max)
    ensures Search(value, max, low, high) == high
    decreases high - low
  {
    hide Fits;
    if low < high {
      SearchTop(value, max, (low + high + 1) / 2, high);
    }
  }

  /** Where a pair lies across the limit, the length of the rest decides: of two values that begin alike,
      one ends in a high surrogate and one does not. */
  lemma RestDecidesAStraddledCut()
    ensures var value: Text := [0xd800, 0xd800, 0xd800, 0xdc00, 97];
      EndsHigh(Truncate(value, 18).value) && !EndsHigh(Truncate(value + [97, 97], 18).value)
  {
    var value: Text := [0xd800, 0xd800, 0xd800, 0xdc00, 97];
    SizesOf(value);
    SizesOf(value + [97, 97]);
    hide Encoded;
    assert Search(value, 18, 0, 5) == 2;
    assert Search(value + [97, 97], 18, 0, 7) == 4;
  }

  lemma SizesOf(value: Text)
    requires |value| >= 5 && value[..5] == [0xd800, 0xd800, 0xd800, 0xdc00, 97]
    requires forall i :: 4 <= i < |value| ==> value[i] == 97
    ensures Encoded(value[..1]) == 8 && Encoded(value[..2]) == 14 && Encoded(value[..3]) == 20
    ensures Encoded(value[..4]) == 18 && forall n: nat :: 5 <= n <= |value| ==> Encoded(value[..n]) > 18
    ensures Encoded(value) > 18
  {
    assert value[..0] == [] && value[..|value|] == value;
    PrefixGrows(value, 0);
    PrefixGrows(value, 1);
    PrefixGrows(value, 2);
    PrefixGrows(value, 3);
    PrefixGrows(value, 4);
    forall n: nat | 5 <= n <= |value| ensures Encoded(value[..n]) > 18 {
      assert value[..n] == value[..5] + value[5..n];
      JsonShrinksByTwo(value[..5], value[5..n]);
    }
  }

  /** The shortest such value: three lone high surrogates, cut to 14 bytes. */
  lemma TwoHighsLeaveOne()
    ensures EndsHigh(Truncate([0xd800, 0xd800, 0xd800], 14).value)
  {
    var s: Text := [0xd800, 0xd800, 0xd800];
    assert s[..2] == [0xd800, 0xd800] && s[..2][1..] == [0xd800] && s[..2][1..][1..] == [];
    assert TwoHighsAt(s, 0);
    TwoHighsAreCut(s, 0);
  }

  // ----- Responses -----

  /** JSON text as far as its size goes: a scalar is known by the length of its literal, and every
      key is plain ASCII. */
  datatype JsonValue = Str(text: Text) | Scalar(length: nat) | Object(fields: Fields)
  datatype Fields = NoFields | Field(key: string, value: JsonValue, rest: Fields)

  function JsonSize(j: JsonValue): nat {
    match j
    case Str(text) => Encoded(text)
    case Scalar(length) => length
    case Object(fields) => 2 + FieldsSize(fields)
  }

  function FieldsSize(f: Fields): nat {
    match f
    case NoFields => 0
    case Field(key, value, rest) => |key| + 3 + JsonSize(value) + (if rest.NoFields? then 0 else 1) + FieldsSize(rest)
  }

  /** `exitCode` is the length of the number's literal. */
  datatype ControlResult = ControlResult(
    ok: bool, stdout: Text, stderr: Text, exitCode: nat, command: Text,
    stdoutTruncated: bool, stderrTruncated: bool, commandTruncated: bool)

  function BoundControlResult(r: ControlResult): ControlResult {
    var stdout := Truncate(r.stdout, OUTPUT_JSON_BYTES);
    var stderr := Truncate(r.stderr, OUTPUT_JSON_BYTES);
    var command := Truncate(r.command, COMMAND_JSON_BYTES);
    r.(stdout := stdout.value, stderr := stderr.value, command := command.value,
       stdoutTruncated := r.stdoutTruncated || stdout.truncated,
       stderrTruncated := r.stderrTruncated || stderr.truncated,
       commandTruncated := r.commandTruncated || command.truncated)
  }

  function BoolSize(b: bool): nat {
    if b then 4 else 5
  }

  function Flag(key: string, raised: bool, rest: Fields): Fields {
    if raised then Field(key, Scalar(4), rest) else rest
  }

  function ControlFields(r: ControlResult): Fields {
    Field("ok", Scalar(BoolSize(r.ok)), Field("stdout", Str(r.stdout), Field("stderr", Str(r.stderr),
      Field("exit_code", Scalar(r.exitCode), Field("command", Str(r.command),
        Flag("stdout_truncated", r.stdoutTruncated, Flag("stderr_truncated", r.stderrTruncated,
          Flag("command_truncated", r.commandTruncated, NoFields))))))))
  }

  function ControlPayload(r: ControlResult): JsonValue {
    Object(Field("kind", Scalar(2 + |"control-result"|), Field("value", Object(ControlFields(r)), NoFields)))
  }

  /** The fallback message is plain ASCII, and stands for an empty one. */
  function BoundedMessage(message: Text): JsonValue {
    var bounded := Truncate(message, ERROR_JSON_BYTES).value;
    if bounded == [] then Scalar(2 + |"local-control operation failed"|) else Str(bounded)
  }

  function FailedFields(id: Text, code: Text, message: JsonValue, payload: JsonValue): Fields {
    Field("protocol_version", Scalar(1), Field("operation_id", Str(id), Field("ok", Scalar(5),
      Field("state", Scalar(2 + |"failed"|), Field("payload", payload,
        Field("error", Object(Field("code", Str(code), Field("message", message, NoFields))), NoFields))))))
  }

  function FailedResponse(id: Text, code: Text, message: Text, payload: JsonValue): JsonValue {
    Object(FailedFields(id, code, BoundedMessage(message), payload))
  }

  function CompletedResponse(id: Text, payload: JsonValue): JsonValue {
    Object(Field("protocol_version", Scalar(1), Field("operation_id", Str(id), Field("ok", Scalar(4),
      Field("state", Scalar(2 + |"completed"|), Field("payload", payload, NoFields))))))
  }

  lemma FieldSize(key: string, value: JsonValue, rest: Fields)
    ensures FieldsSize(Field(key, value, rest)) <= |key| + 4 + JsonSize(value) + FieldsSize(rest)
  {
  }

  lemma FlagSize(key: string, raised: bool, rest: Fields)
    ensures FieldsSize(Flag(key, raised, rest)) <= |key| + 8 + FieldsSize(rest)
  {
  }

  /** Bounding bounds: the three texts take at most their shares, whatever the command printed. */
  lemma BoundedPayload(r: ControlResult)
    requires r.exitCode <= 25
    ensures JsonSize(ControlPayload(BoundControlResult(r))) <= 24576 + 24576 + 4096 + 250
  {
    var b := BoundControlResult(r);
    TruncationFits(r.stdout, OUTPUT_JSON_BYTES);
    TruncationFits(r.stderr, OUTPUT_JSON_BYTES);
    TruncationFits(r.command, COMMAND_JSON_BYTES);
    hide Truncate, Encoded, BoundControlResult;
    PayloadSize(b);
  }

  /** The shortened text is the beginning of the original, within its limit; it is the original, and not
      marked, if that fits. */
  predicate ShortOf(short: Text, raised: bool, original: Text, wasRaised: bool, limit: nat) {
    && short <= original && Encoded(short) <= limit
    && (Encoded(original) <= limit ==> short == original && raised == wasRaised)
    && (Encoded(original) > limit ==> raised)
  }

  /** Each of the three texts is shortened to its own limit, and nothing else of the result changes. */
  lemma EachIsShortened(r: ControlResult)
    ensures var b := BoundControlResult(r);
      && ShortOf(b.stdout, b.stdoutTruncated, r.stdout, r.stdoutTruncated, 24576)
      && ShortOf(b.stderr, b.stderrTruncated, r.stderr, r.stderrTruncated, 24576)
      && ShortOf(b.command, b.commandTruncated, r.command, r.commandTruncated, 4096)
      && b.ok == r.ok && b.exitCode == r.exitCode
  {
    hide Truncate, Encoded;
    TruncationFits(r.stdout, 24576);
    TruncationFits(r.stderr, 24576);
    TruncationFits(r.command, 4096);
  }

  lemma PayloadSize(b: ControlResult)
    requires b.exitCode <= 25
    ensures JsonSize(ControlPayload(b)) <= Encoded(b.stdout) + Encoded(b.stderr) + Encoded(b.command) + 250
  {
    hide Encoded, Flag, FieldsSize;
    var f3 := Flag("command_truncated", b.commandTruncated, NoFields);
    var f2 := Flag("stderr_truncated", b.stderrTruncated, f3);
    var f1 := Flag("stdout_truncated", b.stdoutTruncated, f2);
    var command := Field("command", Str(b.command), f1);
    var exitCode := Field("exit_code", Scalar(b.exitCode), command);
    var stderr := Field("stderr", Str(b.stderr), exitCode);
    var stdout := Field("stdout", Str(b.stdout), stderr);
    NoFieldsSize();
    FlagSize("command_truncated", b.commandTruncated, NoFields);
    FlagSize("stderr_truncated", b.stderrTruncated, f3);
    FlagSize("stdout_truncated", b.stdoutTruncated, f2);
    FieldSize("command", Str(b.command), f1);
    FieldSize("exit_code", Scalar(b.exitCode), command);
    FieldSize("stderr", Str(b.stderr), exitCode);
    FieldSize("stdout", Str(b.stdout), stderr);
    FieldSize("ok", Scalar(BoolSize(b.ok)), stdout);
    FieldSize("value", Object(ControlFields(b)), NoFields);
    FieldSize("kind", Scalar(2 + |"control-result"|), Field("value", Object(ControlFields(b)), NoFields));
  }

  lemma NoFieldsSize()
    ensures FieldsSize(NoFields) == 0
  {
  }

  /** A failed or completed response with a bounded control result, its newline included, fits one
      frame: for an operation id and an error code of at most 128 characters, any message and output. */
  lemma ResponseFitsFrame(id: Text, code: Text, message: Text, r: ControlResult)
    requires |id| <= 128 && |code| <= 128 && r.exitCode <= 25
    ensures var payload := ControlPayload(BoundControlResult(r));
      && JsonSize(FailedResponse(id, code, message, payload)) + 1 <= 65536
      && JsonSize(CompletedResponse(id, payload)) + 1 <= 65536
  {
    BoundedPayload(r);
    SixPerUnit(id);
    SixPerUnit(code);
    MessageSize(message);
    hide BoundControlResult, ControlPayload, Encoded, BoundedMessage, FieldsSize;
    var payload := ControlPayload(BoundControlResult(r));
    FailedSize(id, code, BoundedMessage(message), payload);
    CompletedSize(id, payload);
  }

  lemma FailedSize(id: Text, code: Text, message: JsonValue, payload: JsonValue)
    ensures FieldsSize(FailedFields(id, code, message, payload))
         <= Encoded(id) + Encoded(code) + JsonSize(message) + JsonSize(payload) + 150
  {
    hide Encoded, FieldsSize;
    var text := Field("message", message, NoFields);
    var error := Field("error", Object(Field("code", Str(code), text)), NoFields);
    var body := Field("payload", payload, error);
    var state := Field("state", Scalar(2 + |"failed"|), body);
    var ok := Field("ok", Scalar(5), state);
    var op := Field("operation_id", Str(id), ok);
    NoFieldsSize();
    FieldSize("message", message, NoFields);
    FieldSize("code", Str(code), text);
    FieldSize("error", Object(Field("code", Str(code), text)), NoFields);
    FieldSize("payload", payload, error);
    FieldSize("state", Scalar(2 + |"failed"|), body);
    FieldSize("ok", Scalar(5), state);
    FieldSize("operation_id", Str(id), ok);
    FieldSize("protocol_version", Scalar(1), op);
  }

  lemma CompletedSize(id: Text, payload: JsonValue)
    ensures JsonSize(CompletedResponse(id, payload)) <= Encoded(id) + JsonSize(payload) + 100
  {
    hide Encoded, FieldsSize;
    var body := Field("payload", payload, NoFields);
    var state := Field("state", Scalar(2 + |"completed"|), body);
    var ok := Field("ok", Scalar(4), state);
    var op := Field("operation_id", Str(id), ok);
    NoFieldsSize();
    FieldSize("payload", payload, NoFields);
    FieldSize("state", Scalar(2 + |"completed"|), body);
    FieldSize("ok", Scalar(4), state);
    FieldSize("operation_id", Str(id), ok);
    FieldSize("protocol_version", Scalar(1), op);
  }

  lemma MessageSize(message: Text)
    ensures JsonSize(BoundedMessage(message)) <= ERROR_JSON_BYTES
  {
    TruncationFits(message, ERROR_JSON_BYTES);
  }

  lemma {:induction false} SixPerUnit(s: Text)
    ensures Size(Json, s) <= 6 * |s|
    decreases |s|
  {
    if |s| >= 2 && High(s[0]) && Low(s[1]) {
      SixPerUnit(s[2..]);
    } else if s != [] {
      SixPerUnit(s[1..]);
    }
  }
}
