// What is encoded is what is read: queries, answers, and the responses built from queries.
module DnsRoundTrip {
  import opened Wrappers
  import opened Sequences
  import opened Bytes
  import opened Bits
  import opened DnsMessage
  import opened AddressText
  import opened TestPackets

  // ----- Names -----

  function WireBytes(labels: seq<Bytes>): nat {
    if labels == [] then 0 else |labels[0]| + 1 + WireBytes(labels[1..])
  }

  predicate ValidLabels(labels: seq<Bytes>) {
    forall l :: l in labels ==> 1 <= |l| <= 63
  }

  /** A name a question can carry: labels of 1 to 63 bytes, at most 255 bytes as the reader counts. */
  predicate ValidName(name: Bytes) {
    ValidLabels(Labels(name)) && WireBytes(Labels(name)) <= 255
  }

  lemma JoinSnoc(front: seq<Bytes>, last: Bytes)
    ensures Join(front + [last]) == if front == [] then last else Join(front) + [DOT] + last
  {
    assert (front + [last])[..|front|] == front;
  }

  lemma JoinLast(front: seq<Bytes>, last: Bytes, x: Byte)
    ensures Join(front + [last + [x]]) == Join(front + [last]) + [x]
  {
    hide Join;
    JoinSnoc(front, last);
    JoinSnoc(front, last + [x]);
    ConcatAssoc(Join(front) + [DOT], last, [x]);
  }

  lemma JoinEmpty(labels: seq<Bytes>)
    requires labels != []
    ensures Join(labels + [[]]) == Join(labels) + [DOT]
  {
    hide Join;
    JoinSnoc(labels, []);
    assert Join(labels) + [DOT] + [] == Join(labels) + [DOT];
  }

  lemma {:induction false} JoinSplit(s: Bytes)
    ensures Join(Split(s)) == s
  {
    if s != [] {
      hide Join;
      var front := s[..|s| - 1];
      JoinSplit(front);
      var labels := Split(front);
      assert labels == labels[..|labels| - 1] + [labels[|labels| - 1]];
      JoinLast(labels[..|labels| - 1], labels[|labels| - 1], s[|s| - 1]);
      JoinEmpty(labels);
      assert front + [s[|s| - 1]] == s;
    }
  }

  lemma JoinLabels(name: Bytes)
    ensures Join(Labels(name)) == name
  {
    JoinSplit(name);
  }

  lemma ReadLabel(buffer: Bytes, offset: nat, end: Option<nat>, bytes: nat, hops: nat, done: seq<Bytes>,
                  allowPointers: bool)
    requires offset < |buffer| && 1 <= buffer[offset] <= 63 && offset + 1 + buffer[offset] <= |buffer|
    requires bytes + buffer[offset] + 1 <= MAX_NAME_BYTES && hops <= MAX_POINTER_HOPS
    ensures var next := offset + 1 + buffer[offset];
      ReadFrom(buffer, offset, end, bytes, hops, done, allowPointers)
      == ReadFrom(buffer, next, end, bytes + buffer[offset] + 1, hops, done + [buffer[offset + 1..next]], allowPointers)
  {
    hide And, Or, Join, Lower, ReadU16;
    AndLabelBits(buffer[offset]);
  }

  lemma ReadTerminator(buffer: Bytes, offset: nat, end: Option<nat>, bytes: nat, hops: nat, done: seq<Bytes>,
                       allowPointers: bool)
    requires offset < |buffer| && buffer[offset] == 0
    requires bytes <= MAX_NAME_BYTES && hops <= MAX_POINTER_HOPS
    ensures ReadFrom(buffer, offset, end, bytes, hops, done, allowPointers)
         == Some(NameRead(Lower(Join(done)), if end.Some? then end.value else offset + 1))
  {
    hide And, Or, Join, Lower;
  }

  lemma ReadJump(buffer: Bytes, offset: nat)
    requires offset + 2 <= |buffer| && buffer[offset] == 0xc0 && buffer[offset + 1] == HEADER_BYTES
    ensures ReadFrom(buffer, offset, None, 0, 0, [], true)
         == ReadFrom(buffer, HEADER_BYTES, Some(offset + 2), 0, 1, [], true)
  {
    hide And, Or, Join, Lower;
    JumpTarget();
  }

  lemma JumpTarget()
    ensures And(0xc0, 0xc0) == 0xc0 && Or(256 * And(0xc0, 0x3f), 0x0c) == 0x0c
  {
    hide And;
    AndLabelBits(0xc0);
    OrZero(0x0c);
    hide Or;
  }

  lemma OrZero(b: nat)
    ensures Or(0, b) == b
  {
  }

  lemma EncodeCons(first: Bytes, rest: seq<Bytes>)
    requires |first| < 256
    ensures EncodeLabels([first] + rest) == [|first|] + first + EncodeLabels(rest)
    ensures WireBytes([first] + rest) == |first| + 1 + WireBytes(rest)
  {
    assert ([first] + rest)[1..] == rest;
  }

  lemma CutEncoded(buffer: Bytes, offset: nat, first: Bytes, rest: Bytes)
    requires |first| < 256 && offset + 1 + |first| + |rest| <= |buffer|
    requires buffer[offset..offset + 1 + |first| + |rest|] == [|first|] + first + rest
    ensures var next := offset + 1 + |first|;
      buffer[offset] == |first| && buffer[offset + 1..next] == first && buffer[next..next + |rest|] == rest
  {
    var whole := [|first|] + first + rest;
    assert forall i :: 0 <= i < |whole| ==> whole[i] == buffer[offset..offset + |whole|][i] == buffer[offset + i];
    assert whole[0] == |first|;
    forall i | 0 <= i < |first| ensures buffer[offset + 1 + i] == first[i] {
      assert whole[1 + i] == first[i];
    }
    forall i | 0 <= i < |rest| ensures buffer[offset + 1 + |first| + i] == rest[i] {
      assert whole[1 + |first| + i] == rest[i];
    }
  }

  /** An encoded name is read back, with or without pointers allowed, at the question or behind a
      pointer to it. */
  lemma {:induction false} ReadEncoded(buffer: Bytes, offset: nat, labels: seq<Bytes>, end: Option<nat>, bytes: nat,
                                       hops: nat, done: seq<Bytes>, allowPointers: bool)
    requires ValidLabels(labels) && bytes + WireBytes(labels) <= MAX_NAME_BYTES && hops <= MAX_POINTER_HOPS
    requires offset + |EncodeLabels(labels)| <= |buffer|
    requires buffer[offset..offset + |EncodeLabels(labels)|] == EncodeLabels(labels)
    ensures ReadFrom(buffer, offset, end, bytes, hops, done, allowPointers)
         == Some(NameRead(Lower(Join(done + labels)), if end.Some? then end.value else offset + |EncodeLabels(labels)|))
    decreases |labels|
  {
    hide Lower, Join, ReadFrom;
    var encoded := EncodeLabels(labels);
    assert buffer[offset] == encoded[0];
    if labels == [] {
      assert done + labels == done;
      ReadTerminator(buffer, offset, end, bytes, hops, done, allowPointers);
    } else {
      hide EncodeLabels, WireBytes;
      var first, rest := labels[0], labels[1..];
      var next := offset + 1 + |first|;
      assert labels == [first] + rest;
      EncodeCons(first, rest);
      CutEncoded(buffer, offset, first, EncodeLabels(rest));
      ReadLabel(buffer, offset, end, bytes, hops, done, allowPointers);
      assert (done + [first]) + rest == done + labels;
      ReadEncoded(buffer, next, rest, end, bytes + |first| + 1, hops, done + [first], allowPointers);
    }
  }

  lemma ReadEncodedName(buffer: Bytes, offset: nat, name: Bytes, allowPointers: bool)
    requires ValidName(name) && offset + |EncodeName(name)| <= |buffer|
    requires buffer[offset..offset + |EncodeName(name)|] == EncodeName(name)
    ensures ReadName(buffer, offset, allowPointers) == Some(NameRead(Lower(name), offset + |EncodeName(name)|))
  {
    hide And, Or, Lower, Join, Labels, EncodeLabels, ValidLabels, WireBytes, ReadFrom;
    ReadEncoded(buffer, offset, Labels(name), None, 0, 0, [], allowPointers);
    JoinLabels(name);
    assert [] + Labels(name) == Labels(name);
  }

  /** The pointer 0xc00c reads the name of the question. */
  lemma {:induction false} ReadPointer(buffer: Bytes, offset: nat, name: Bytes)
    requires ValidName(name) && HEADER_BYTES + |EncodeName(name)| <= |buffer|
    requires buffer[HEADER_BYTES..HEADER_BYTES + |EncodeName(name)|] == EncodeName(name)
    requires offset + 2 <= |buffer| && buffer[offset] == 0xc0 && buffer[offset + 1] == 0x0c
    ensures ReadName(buffer, offset, true) == Some(NameRead(Lower(name), offset + 2))
  {
    hide And, Or, Lower, Join, Labels, EncodeLabels, ValidLabels, WireBytes, ReadFrom;
    ReadJump(buffer, offset);
    ReadEncoded(buffer, HEADER_BYTES, Labels(name), Some(offset + 2), 0, 1, [], true);
    JoinLabels(name);
    assert [] + Labels(name) == Labels(name);
  }

  // ----- Queries -----

  lemma ReadWritten(buffer: Bytes, at: nat, v: nat)
    requires v < 0x1_0000 && at + 2 <= |buffer| && buffer[at..at + 2] == U16(v)
    ensures ReadU16(buffer, at) == v
  {
    assert buffer[at] == buffer[at..at + 2][0] && buffer[at + 1] == buffer[at..at + 2][1];
  }

  function Packet(header: Bytes, name: Bytes, qtype: nat, tail: Bytes): Bytes
    requires qtype < 0x1_0000
  {
    header + (name + U16(qtype) + U16(1)) + tail
  }

  /** The layout of a packet with one question (section 4.1 of RFC 1035). */
  lemma PacketLayout(id: nat, flags: nat, answers: nat, name: Bytes, qtype: nat, tail: Bytes)
    requires id < 0x1_0000 && flags < 0x1_0000 && answers < 0x1_0000 && qtype < 0x1_0000
    ensures var p, end := Packet(Header(id, flags, 1, answers), name, qtype, tail), 12 + |name|;
      && |p| == end + 4 + |tail| && p[12..end] == name && p[end + 4..] == tail
      && ReadU16(p, 0) == id && ReadU16(p, 2) == flags && ReadU16(p, 4) == 1 && ReadU16(p, 6) == answers
      && ReadU16(p, end) == qtype && ReadU16(p, end + 2) == 1
  {
    hide ReadU16;
    var p, end := Packet(Header(id, flags, 1, answers), name, qtype, tail), 12 + |name|;
    assert p[0..2] == U16(id) && p[2..4] == U16(flags) && p[4..6] == U16(1) && p[6..8] == U16(answers);
    ReadWritten(p, 0, id);
    ReadWritten(p, 2, flags);
    ReadWritten(p, 4, 1);
    ReadWritten(p, 6, answers);
    assert p[end..end + 2] == U16(qtype) && p[end + 2..end + 4] == U16(1);
    ReadWritten(p, end, qtype);
    ReadWritten(p, end + 2, 1);
  }

  /** The parser undoes the encoder of queries. */
  lemma QueryRoundTrip(name: Bytes, qtype: nat, id: nat, opcode: nat)
    requires ValidName(name) && qtype < 0x1_0000 && id < 0x1_0000 && opcode < 16
    ensures var packet := BuildQueryPacket(name, qtype, id, opcode);
      ParseQuery(packet) == Parsed(Query(id, opcode, Lower(name), qtype, 1, |packet|))
  {
    hide Lower, ReadName, EncodeName, And, Or, ValidName, ReadU16, Header, Packet;
    var flags := Or(0x0100, 0x800 * opcode);
    QueryFlagBits(opcode);
    PacketLayout(id, flags, 0, EncodeName(name), qtype, []);
    var packet := BuildQueryPacket(name, qtype, id, opcode);
    QueryIsPacket(name, qtype, id, opcode);
    ReadEncodedName(packet, 12, name, false);
  }

  lemma QueryIsPacket(name: Bytes, qtype: nat, id: nat, opcode: nat)
    requires qtype < 0x1_0000 && id < 0x1_0000 && opcode < 16
    ensures Or(0x0100, 0x800 * opcode) < 0x1_0000
    ensures BuildQueryPacket(name, qtype, id, opcode)
         == Packet(Header(id, Or(0x0100, 0x800 * opcode), 1, 0), EncodeName(name), qtype, [])
  {
    hide And, Or, EncodeName, Header;
    QueryFlagBits(opcode);
  }

  // ----- Answers -----

  /** The addresses of the records, in order. */
  function Addresses(records: seq<TestRecord>): seq<string> {
    if records == [] then [] else AddressOf(records[0].rtype, records[0].rdata) + Addresses(records[1..])
  }

  ghost predicate AskedAt(buffer: Bytes, name: Bytes) {
    && ValidName(name) && HEADER_BYTES + |EncodeName(name)| <= |buffer|
    && buffer[HEADER_BYTES..HEADER_BYTES + |EncodeName(name)|] == EncodeName(name)
  }

  /** The layout of an encoded record (section 4.1.3 of RFC 1035). */
  lemma RecordLayout(buffer: Bytes, offset: nat, record: TestRecord)
    requires Encodable(record) && offset + 12 + |record.rdata| <= |buffer|
    requires buffer[offset..offset + 12 + |record.rdata|] == EncodeRecord(record)
    ensures buffer[offset] == 0xc0 && buffer[offset + 1] == 0x0c
    ensures ReadU16(buffer, offset + 2) == record.rtype && ReadU16(buffer, offset + 10) == |record.rdata|
    ensures buffer[offset + 12..offset + 12 + |record.rdata|] == record.rdata
  {
    var whole := EncodeRecord(record);
    assert forall i :: 0 <= i < |whole| ==> whole[i] == buffer[offset..offset + |whole|][i] == buffer[offset + i];
    assert whole[0] == 0xc0 && whole[1] == 0x0c;
    assert whole[2] == record.rtype / 256 && whole[3] == record.rtype % 256;
    assert whole[10] == |record.rdata| / 256 && whole[11] == |record.rdata| % 256;
    assert buffer[offset + 2] == whole[2] && buffer[offset + 3] == whole[3];
    assert buffer[offset + 10] == whole[10] && buffer[offset + 11] == whole[11];
    forall i | 0 <= i < |record.rdata| ensures buffer[offset + 12 + i] == record.rdata[i] {
      assert whole[12 + i] == record.rdata[i];
    }
  }

  lemma ReadEncodedRecord(buffer: Bytes, offset: nat, name: Bytes, record: TestRecord)
    requires AskedAt(buffer, name)
    requires Encodable(record) && offset + 12 + |record.rdata| <= |buffer|
    requires buffer[offset..offset + 12 + |record.rdata|] == EncodeRecord(record)
    ensures ReadRecord(buffer, offset)
         == Some(RecordRead(AddressOf(record.rtype, record.rdata), offset + 12 + |record.rdata|))
  {
    hide ReadName, EncodeName, AddressOf, ValidName, ReadU16, EncodeRecord;
    RecordLayout(buffer, offset, record);
    ReadPointer(buffer, offset, name);
  }

  lemma {:induction false} ReadEncodedRecords(buffer: Bytes, offset: nat, name: Bytes, records: seq<TestRecord>)
    requires AskedAt(buffer, name)
    requires forall r :: r in records ==> Encodable(r)
    requires offset + |EncodeRecords(records)| <= |buffer|
    requires buffer[offset..offset + |EncodeRecords(records)|] == EncodeRecords(records)
    ensures ReadRecords(buffer, offset, |records|) == Some(Addresses(records))
    decreases |records|
  {
    hide AskedAt, EncodeRecord, ReadRecord, AddressOf;
    if records != [] {
      var record, rest := records[0], records[1..];
      var next := offset + 12 + |record.rdata|;
      var first, others := EncodeRecord(record), EncodeRecords(rest);
      var whole := first + others;
      assert buffer[offset..next] == buffer[offset..offset + |whole|][..|first|] == first;
      assert buffer[next..next + |others|] == buffer[offset..offset + |whole|][|first|..] == others;
      ReadEncodedRecord(buffer, offset, name, record);
      ReadEncodedRecords(buffer, next, name, rest);
    }
  }

  /** Records of type A (1) with four bytes and AAAA (28) with sixteen hold an address. */
  predicate HoldsAddress(r: TestRecord) {
    (r.rtype == 1 && |r.rdata| == 4) || (r.rtype == 28 && |r.rdata| == 16)
  }

  function AddressRecords(records: seq<TestRecord>): (held: seq<TestRecord>)
    ensures forall r :: r in held ==> HoldsAddress(r)
  {
    if records == [] then []
    else (if HoldsAddress(records[0]) then [records[0]] else []) + AddressRecords(records[1..])
  }

  /** The text is an address and reads back to the bytes of the record. */
  predicate Shows(text: string, r: TestRecord)
    requires HoldsAddress(r)
  {
    if |r.rdata| == 4 then text == FormatIpv4(r.rdata) && ReadIpv4(text) == r.rdata
    else
      && text == FormatIpv6(r.rdata) && |ReadIpv6(text)| == 8
      && forall i :: 0 <= i < 8 ==> ReadIpv6(text)[i] == 256 * r.rdata[2 * i] as int + r.rdata[2 * i + 1] as int
  }

  predicate ShowsAll(texts: seq<string>, held: seq<TestRecord>)
    requires forall r :: r in held ==> HoldsAddress(r)
  {
    |texts| == |held| && forall i :: 0 <= i < |held| ==> Shows(texts[i], held[i])
  }

  /** A record of type 1 with four bytes or of type 28 with sixteen gives one address, which reads back
      to its bytes; no other record gives any. */
  lemma AddressOfRecord(rtype: nat, rdata: Bytes)
    ensures var r := TestRecord(rtype, rdata);
      if HoldsAddress(r) then |AddressOf(rtype, rdata)| == 1 && Shows(AddressOf(rtype, rdata)[0], r)
      else AddressOf(rtype, rdata) == []
  {
    hide FormatIpv4, FormatIpv6, ReadIpv4, ReadIpv6;
    if |rdata| == 4 {
      Ipv4RoundTrip(rdata);
    } else if |rdata| == 16 {
      Ipv6RoundTrip(rdata);
    }
  }

  lemma {:induction false} AddressesOfRecords(records: seq<TestRecord>)
    ensures ShowsAll(Addresses(records), AddressRecords(records))
  {
    if records != [] {
      hide AddressOf, Shows, HoldsAddress;
      AddressOfRecord(records[0].rtype, records[0].rdata);
      AddressesOfRecords(records[1..]);
    }
  }

  /** What the parser of responses makes of an encoded answer, asked for or not. */
  lemma {:induction false} ParseEncodedAnswer(name: Bytes, qtype: nat, records: seq<TestRecord>, id: nat, rcode: nat,
                                              query: Query)
    requires ValidName(name) && qtype < 0x1_0000 && id < 0x1_0000 && rcode < 16 && |records| < 0x1_0000
    requires forall r :: r in records ==> Encodable(r)
    ensures ParseUpstreamResponse(BuildResponsePacket(name, qtype, records, id, rcode), query)
         == if id != query.id then Rejected(OtherId)
            else if Lower(name) != query.name || qtype != query.qtype || query.qclass != 1 then Rejected(OtherQuestion)
            else Answered(rcode, Addresses(records))
  {
    hide Lower, ReadName, EncodeName, EncodeRecords, ReadRecords, And, Or, ValidName, ReadU16, Addresses;
    hide Header, Packet, Encodable;
    hide BuildResponsePacket;
    var flags := Or(0x8180, rcode);
    AnswerFlagBits(rcode);
    var answers := EncodeRecords(records);
    PacketLayout(id, flags, |records|, EncodeName(name), qtype, answers);
    var packet := BuildResponsePacket(name, qtype, records, id, rcode);
    AnswerIsPacket(name, qtype, records, id, rcode);
    ReadEncodedName(packet, 12, name, true);
    var end := 12 + |EncodeName(name)|;
    assert packet[end + 4..end + 4 + |answers|] == packet[end + 4..];
    ReadEncodedRecords(packet, end + 4, name, records);
  }

  /** The response parser undoes the encoder of answers: the addresses are those of the A and AAAA
      records, in order, and read back to their bytes. */
  lemma {:induction false} AnswerRoundTrip(name: Bytes, qtype: nat, records: seq<TestRecord>, query: Query, rcode: nat)
    requires ValidName(name) && qtype < 0x1_0000 && query.id < 0x1_0000 && rcode < 16 && |records| < 0x1_0000
    requires forall r :: r in records ==> Encodable(r)
    requires query.name == Lower(name) && query.qtype == qtype && query.qclass == 1
    ensures var answer := ParseUpstreamResponse(BuildResponsePacket(name, qtype, records, query.id, rcode), query);
      answer.Answered? && answer.rcode == rcode && ShowsAll(answer.addresses, AddressRecords(records))
  {
    hide ParseUpstreamResponse, BuildResponsePacket, Addresses, ShowsAll, AddressRecords;
    ParseEncodedAnswer(name, qtype, records, query.id, rcode, query);
    AddressesOfRecords(records);
  }

  /** A response is accepted if and only if it carries the id, the name, the type and the class that were
      asked for. */
  lemma {:induction false} AnsweredIffAsked(name: Bytes, qtype: nat, records: seq<TestRecord>, id: nat, rcode: nat,
                                            query: Query)
    requires ValidName(name) && qtype < 0x1_0000 && id < 0x1_0000 && rcode < 16 && |records| < 0x1_0000
    requires forall r :: r in records ==> Encodable(r)
    ensures ParseUpstreamResponse(BuildResponsePacket(name, qtype, records, id, rcode), query).Answered?
       <==> id == query.id && Lower(name) == query.name && qtype == query.qtype && query.qclass == 1
  {
    hide ParseUpstreamResponse, BuildResponsePacket, Addresses;
    ParseEncodedAnswer(name, qtype, records, id, rcode, query);
  }

  lemma AnswerIsPacket(name: Bytes, qtype: nat, records: seq<TestRecord>, id: nat, rcode: nat)
    requires qtype < 0x1_0000 && id < 0x1_0000 && rcode < 16 && |records| < 0x1_0000
    requires forall r :: r in records ==> Encodable(r)
    ensures Or(0x8180, rcode) < 0x1_0000
    ensures BuildResponsePacket(name, qtype, records, id, rcode)
         == Packet(Header(id, Or(0x8180, rcode), 1, |records|), EncodeName(name), qtype, EncodeRecords(records))
  {
    hide And, Or, EncodeName, Header, EncodeRecords;
    AnswerFlagBits(rcode);
  }

  // ----- Responses built from queries -----

  /** A name read without pointers depends only on its own bytes, and reads the same where
      pointers are allowed. */
  lemma {:induction false} ReadSame(a: Bytes, b: Bytes, offset: nat, bytes: nat, labels: seq<Bytes>)
    requires bytes <= MAX_NAME_BYTES
    requires ReadFrom(a, offset, None, bytes, 0, labels, false).Some?
    requires var end := ReadFrom(a, offset, None, bytes, 0, labels, false).value.end;
      offset < end <= |a| && end <= |b| && a[offset..end] == b[offset..end]
    ensures ReadFrom(b, offset, None, bytes, 0, labels, true) == ReadFrom(a, offset, None, bytes, 0, labels, false)
    decreases MAX_NAME_BYTES - bytes
  {
    hide Lower, Join, And, Or;
    var end := ReadFrom(a, offset, None, bytes, 0, labels, false).value.end;
    SameSlice(a, b, offset, offset, end);
    var length: nat := a[offset];
    if length != 0 {
      var next := offset + 1 + length;
      var labels' := labels + [a[offset + 1..next]];
      ReadFromAdvances(a, next, None, bytes + length + 1, 0, labels', false);
      SameSlice(a, b, offset, next, end);
      ReadSame(a, b, next, bytes + length + 1, labels');
    }
  }

  lemma SameSlice(a: Bytes, b: Bytes, offset: nat, next: nat, end: nat)
    requires offset <= next <= end <= |a| && end <= |b| && offset < end && a[offset..end] == b[offset..end]
    ensures a[offset] == b[offset] && a[next..end] == b[next..end]
    ensures offset < next ==> a[offset + 1..next] == b[offset + 1..next]
  {
    forall i | offset <= i < end ensures a[i] == b[i] {
      assert a[i] == a[offset..end][i - offset] && b[i] == b[offset..end][i - offset];
    }
  }

  lemma ResponseLayout(request: Bytes, query: Query, rcode: nat)
    requires HEADER_BYTES <= query.questionEnd <= |request| && rcode < 16
    ensures var r := Response(request, query, rcode);
      && r[HEADER_BYTES..] == request[HEADER_BYTES..query.questionEnd]
      && ReadU16(r, 0) == ReadU16(request, 0)
      && ReadU16(r, 2) == ResponseFlags(ReadU16(request, 2), rcode)
      && ReadU16(r, 4) == 1 && ReadU16(r, 6) == 0 && ReadU16(r, 8) == 0 && ReadU16(r, 10) == 0
  {
    hide ResponseFlags;
  }

  lemma SliceOfSlice(a: Bytes, b: Bytes, from: nat, mid: nat, to: nat)
    requires from <= mid <= to <= |a| && to == |b| && b[from..] == a[from..to]
    ensures a[from..mid] == b[from..mid]
    ensures forall i :: from <= i < to ==> b[i] == a[i]
  {
    forall i | from <= i < to ensures b[i] == a[i] {
      assert b[i] == b[from..][i - from];
    }
  }

  /** Any query the parser accepts is answered by a response the parser of upstream responses
      accepts for that query, with the same code and no address. */
  lemma OwnResponseIsAccepted(request: Bytes, rcode: nat)
    requires ParseQuery(request).Parsed? && rcode < 16
    ensures var query := ParseQuery(request).query;
      && HEADER_BYTES <= query.questionEnd <= |request|
      && ParseUpstreamResponse(Response(request, query, rcode), query) == Answered(rcode, [])
  {
    hide ResponseFlags, Response, And, Or, ReadFrom;
    var query := ParseQuery(request).query;
    ReadNameAdvances(request, HEADER_BYTES, false);
    var name := ReadName(request, HEADER_BYTES, false).value;
    var response := Response(request, query, rcode);
    ResponseLayout(request, query, rcode);
    ResponseFlagBits(ReadU16(request, 2), rcode);
    SliceOfSlice(request, response, HEADER_BYTES, name.end, query.questionEnd);
    ReadSame(request, response, HEADER_BYTES, 0, []);
  }
}
