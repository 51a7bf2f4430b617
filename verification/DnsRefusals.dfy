// Which messages and names the parsers refuse, in terms of the bytes on the wire.
module DnsRefusals {
  import opened Wrappers
  import opened Bytes
  import opened Bits
  import opened DnsMessage
  import opened TestPackets
  import opened DnsRoundTrip

  // ----- Headers -----

  /** A complete header with QR clear; the count says one question. */
  predicate QueryHeader(b: Bytes) {
    |b| >= 12 && b[2] < 128
  }

  predicate OneQuestion(b: Bytes) {
    |b| >= 12 && b[4] == 0 && b[5] == 1
  }

  lemma HeaderBits(b: Bytes)
    requires |b| >= 12
    ensures And(ReadU16(b, 2), 0x8000) == 0 <==> b[2] < 128
    ensures And(ReadU16(b, 2) / 0x800, 0x0f) == b[2] / 8 % 16
    ensures And(ReadU16(b, 2), 0x000f) == b[3] % 16
    ensures ReadU16(b, 4) == 1 <==> OneQuestion(b)
  {
    hide And;
    AndFlagBits(ReadU16(b, 2));
    AndNibble(ReadU16(b, 2) / 0x800);
  }

  /** A query is accepted if and only if its header is that of a query with one question and the question
      can be read; a refused one can be answered if and only if it has such a header. */
  lemma ParsedIff(b: Bytes)
    ensures ParseQuery(b).Parsed? <==>
      && QueryHeader(b) && OneQuestion(b)
      && ReadName(b, 12, false).Some? && ReadName(b, 12, false).value.end + 4 <= |b|
    ensures ParseQuery(b).Malformed? ==>
      && (ParseQuery(b).id.Some? <==> QueryHeader(b))
      && (QueryHeader(b) ==> ParseQuery(b).id == Some(256 * b[0] as nat + b[1] as nat))
    ensures ParseQuery(b).Parsed? ==>
      var q, name := ParseQuery(b).query, ReadName(b, 12, false).value;
      && q.id == 256 * b[0] as nat + b[1] as nat && q.opcode == b[2] / 8 % 16 && q.name == name.name
      && q.qtype == 256 * b[name.end] as nat + b[name.end + 1] as nat
      && q.qclass == 256 * b[name.end + 2] as nat + b[name.end + 3] as nat && q.questionEnd == name.end + 4
  {
    hide And, ReadFrom;
    if |b| >= 12 {
      HeaderBits(b);
    }
  }

  /** A response is accepted if and only if its header is that of a response with this id and one question,
      the question is the one asked, and every record can be read; its code is in the low four bits. */
  lemma AnsweredIff(b: Bytes, query: Query)
    ensures ParseUpstreamResponse(b, query).Answered? <==>
      && |b| >= 12 && query.id == 256 * b[0] as nat + b[1] as nat && b[2] >= 128 && OneQuestion(b)
      && ReadName(b, 12, true).Some?
      && var name := ReadName(b, 12, true).value;
         && name.end + 4 <= |b| && name.name == query.name
         && query.qtype == 256 * b[name.end] as nat + b[name.end + 1] as nat
         && query.qclass == 256 * b[name.end + 2] as nat + b[name.end + 3] as nat
         && ReadRecords(b, name.end + 4, 256 * b[6] as nat + b[7] as nat).Some?
    ensures ParseUpstreamResponse(b, query).Answered? ==> ParseUpstreamResponse(b, query).rcode == b[3] % 16
  {
    hide And, ReadFrom, ReadRecords;
    if |b| >= 12 {
      HeaderBits(b);
    }
  }

  // ----- Long names -----

  lemma {:induction false} TooLong(buffer: Bytes, offset: nat, labels: seq<Bytes>, bytes: nat, done: seq<Bytes>,
                                   allowPointers: bool)
    requires ValidLabels(labels) && bytes <= 255 && bytes + WireBytes(labels) > 255
    requires offset + |EncodeLabels(labels)| <= |buffer|
    requires buffer[offset..offset + |EncodeLabels(labels)|] == EncodeLabels(labels)
    ensures ReadFrom(buffer, offset, None, bytes, 0, done, allowPointers) == None
    decreases |labels|
  {
    hide Lower, Join, And, Or, ReadFrom, EncodeLabels;
    var first, rest := labels[0], labels[1..];
    assert labels == [first] + rest;
    EncodeCons(first, rest);
    CutEncoded(buffer, offset, first, EncodeLabels(rest));
    if bytes + |first| + 1 > 255 {
      LabelPastLimit(buffer, offset, bytes, done, allowPointers);
    } else {
      ReadLabel(buffer, offset, None, bytes, 0, done, allowPointers);
      TooLong(buffer, offset + 1 + |first|, rest, bytes + |first| + 1, done + [first], allowPointers);
    }
  }

  lemma LabelPastLimit(buffer: Bytes, offset: nat, bytes: nat, done: seq<Bytes>, allowPointers: bool)
    requires offset < |buffer| && 1 <= buffer[offset] <= 63 && bytes <= 255 && bytes + buffer[offset] + 1 > 255
    ensures ReadFrom(buffer, offset, None, bytes, 0, done, allowPointers) == None
  {
    hide And, Or, Join, Lower;
    AndLabelBits(buffer[offset]);
  }

  /** A name whose labels hold 1 to 63 bytes is read if and only if its labels with their lengths take at
      most 255 bytes. */
  lemma ReadIffShort(labels: seq<Bytes>, allowPointers: bool)
    requires ValidLabels(labels)
    ensures ReadName(EncodeLabels(labels), 0, allowPointers).Some? <==> WireBytes(labels) <= 255
  {
    hide Lower, Join, And, Or, ReadFrom, EncodeLabels, WireBytes;
    var buffer := EncodeLabels(labels);
    assert buffer[0..|buffer|] == buffer;
    if WireBytes(labels) <= 255 {
      ReadEncoded(buffer, 0, labels, None, 0, 0, [], allowPointers);
    } else {
      TooLong(buffer, 0, labels, 0, [], allowPointers);
    }
  }

  // ----- Pointers -----

  /** `n` pointers, each to the next, and the end of a name. */
  function Chain(n: nat): (b: Bytes)
    requires n <= 100
    ensures |b| == 2 * n + 1
  {
    seq(2 * n + 1, i requires 0 <= i < 2 * n + 1 => if i == 2 * n then 0 else if i % 2 == 0 then 0xc0 else i + 1)
  }

  lemma FollowsPointer(b: Bytes, offset: nat, end: Option<nat>, hops: nat, done: seq<Bytes>)
    requires offset + 1 < |b| && b[offset] == 0xc0 && hops <= MAX_POINTER_HOPS
    ensures ReadFrom(b, offset, end, 0, hops, done, true)
         == ReadFrom(b, b[offset + 1], if end.Some? then end else Some(offset + 2), 0, hops + 1, done, true)
  {
    hide And, Or, Join, Lower;
    AndLabelBits(0xc0);
    OrZero(b[offset + 1]);
  }

  lemma ChainEnds(n: nat, end: Option<nat>)
    requires n <= MAX_POINTER_HOPS && n <= 100
    ensures ReadFrom(Chain(n), 2 * n, end, 0, n, [], true).Some?
  {
    hide Lower, Join;
  }

  lemma TooManyHops(b: Bytes, offset: nat, end: Option<nat>)
    ensures ReadFrom(b, offset, end, 0, MAX_POINTER_HOPS + 1, [], true) == None
  {
  }

  lemma ChainAt(n: nat, i: nat)
    requires i < n <= 100
    ensures Chain(n)[2 * i] == 0xc0 && Chain(n)[2 * i + 1] == 2 * (i + 1)
  {
  }

  lemma {:induction false} ChainFrom(n: nat, i: nat, end: Option<nat>)
    requires i <= n <= 100 && i <= MAX_POINTER_HOPS + 1
    ensures ReadFrom(Chain(n), 2 * i, end, 0, i, [], true).Some? <==> n <= MAX_POINTER_HOPS
    decreases n - i
  {
    hide ReadFrom, Chain;
    if i == MAX_POINTER_HOPS + 1 {
      TooManyHops(Chain(n), 2 * i, end);
    } else if i == n {
      ChainEnds(n, end);
    } else {
      ChainAt(n, i);
      FollowsPointer(Chain(n), 2 * i, end, i, []);
      ChainFrom(n, i + 1, if end.Some? then end else Some(2 * i + 2));
    }
  }

  /** Pointers are followed up to 32 times. */
  lemma ChainIsReadIffShort(n: nat)
    requires n <= 100
    ensures ReadName(Chain(n), 0, true).Some? <==> n <= 32
  {
    hide ReadFrom, Chain;
    ChainFrom(n, 0, None);
  }

  /** A question holds no pointer. */
  lemma NoPointerInAQuestion(b: Bytes, offset: nat)
    requires offset < |b| && b[offset] >= 0xc0
    ensures ReadName(b, offset, false) == None
  {
    hide And, Or, Join, Lower;
    AndLabelBits(b[offset]);
  }

  /** The two reserved kinds of length are refused (section 4.1.4 of RFC 1035). */
  lemma ReservedLengths(b: Bytes, offset: nat, allowPointers: bool)
    requires offset < |b| && 0x40 <= b[offset] < 0xc0
    ensures ReadName(b, offset, allowPointers) == None
  {
    hide And, Or, Join, Lower;
    AndLabelBits(b[offset]);
  }

  // ----- A message byte by byte -----

  const WWW: Bytes := [0x12, 0x34, 0x29, 0x00, 0, 1, 0, 0, 0, 0, 0, 0,
                       3, 87, 119, 119, 2, 69, 120, 0, 0, 28, 0, 1]

  /** Opcode 5, name "Www.Ex", type AAAA, class IN. */
  lemma QueryOnTheWire()
    ensures ParseQuery(WWW) == Parsed(Query(0x1234, 5, [119, 119, 119, 46, 101, 120], 28, 1, 24))
  {
    hide And, Or, ReadFrom;
    HeaderBits(WWW);
    NameOnTheWire();
  }

  lemma NameOnTheWire()
    ensures ReadName(WWW, 12, false) == Some(NameRead([119, 119, 119, 46, 101, 120], 20))
  {
    hide And, Or, Join, Lower, ReadFrom;
    var www, ex := [87, 119, 119], [69, 120];
    assert WWW[13..16] == www && WWW[17..19] == ex;
    ReadLabel(WWW, 12, None, 0, 0, [], false);
    ReadLabel(WWW, 16, None, 4, 0, [www], false);
    ReadTerminator(WWW, 19, None, 7, 0, [www, ex], false);
    assert [] + [www] == [www] && [www] + [ex] == [www, ex];
    JoinSnoc([], www);
    JoinSnoc([www], ex);
    assert www + [DOT] + ex == [87, 119, 119, 46, 69, 120];
    LowerOnTheWire();
  }

  lemma LowerOnTheWire()
    ensures Lower([87, 119, 119, 46, 69, 120]) == [119, 119, 119, 46, 101, 120]
  {
  }
}
