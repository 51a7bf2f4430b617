// Reading and answering DNS messages (src/dnsfilter/dns-message.ts), after sections 3.1 and 4.1 of
// RFC 1035. Names are sequences of Latin-1 character codes.
module DnsMessage {
  import opened Wrappers
  import opened Bytes
  import opened Bits
  import opened AddressText

  const HEADER_BYTES := 12
  const TYPE_A := 1
  const TYPE_AAAA := 28
  const MAX_NAME_BYTES := 255
  const MAX_POINTER_HOPS := 32
  const DOT: Byte := 46

  // ----- Names -----

  /** `toLowerCase` on a Latin-1 character. */
  function LowerChar(c: Byte): Byte {
    if 65 <= c <= 90 || (192 <= c <= 222 && c != 215) then c + 32 else c
  }

  function Lower(s: Bytes): (r: Bytes)
    ensures |r| == |s|
  {
    seq(|s|, i requires 0 <= i < |s| => LowerChar(s[i]))
  }

  function Join(labels: seq<Bytes>): Bytes {
    if labels == [] then []
    else if |labels| == 1 then labels[0]
    else Join(labels[..|labels| - 1]) + [DOT] + labels[|labels| - 1]
  }

  datatype NameRead = NameRead(name: Bytes, end: nat)

  /** The read continued at `offset`: `end` is set once a pointer was followed, `bytes` counts the
      labels read so far. */
  function ReadFrom(buffer: Bytes, offset: nat, end: Option<nat>, bytes: nat, hops: nat, labels: seq<Bytes>,
                    allowPointers: bool): Option<NameRead>
    requires bytes <= MAX_NAME_BYTES && hops <= MAX_POINTER_HOPS + 1
    decreases MAX_POINTER_HOPS + 1 - hops, MAX_NAME_BYTES - bytes
  {
    if hops > MAX_POINTER_HOPS || offset >= |buffer| then None
    else
      var length: nat := buffer[offset];
      if length == 0 then
        Some(NameRead(Lower(Join(labels)), if end.Some? then end.value else offset + 1))
      else if And(length, 0xc0) == 0xc0 then
        if !allowPointers || offset + 1 >= |buffer| then None
        else
          var target := Or(256 * And(length, 0x3f), buffer[offset + 1]);
          ReadFrom(buffer, target, if end.Some? then end else Some(offset + 2), bytes, hops + 1, labels, allowPointers)
      else if And(length, 0xc0) != 0 || offset + 1 + length > |buffer| || bytes + length + 1 > MAX_NAME_BYTES then None
      else
        ReadFrom(buffer, offset + 1 + length, end, bytes + length + 1, hops,
                 labels + [buffer[offset + 1..offset + 1 + length]], allowPointers)
  }

  function ReadName(buffer: Bytes, start: nat, allowPointers: bool): Option<NameRead> {
    ReadFrom(buffer, start, None, 0, 0, [], allowPointers)
  }

  method ReadNameLoop(buffer: Bytes, start: nat, allowPointers: bool) returns (r: Option<NameRead>)
    ensures r == ReadName(buffer, start, allowPointers)
  {
    var labels: seq<Bytes>, offset: nat, end: Option<nat>, bytes: nat, hops: nat := [], start, None, 0, 0;
    while hops <= MAX_POINTER_HOPS
      invariant bytes <= MAX_NAME_BYTES && hops <= MAX_POINTER_HOPS + 1
      invariant ReadFrom(buffer, offset, end, bytes, hops, labels, allowPointers)
          == ReadName(buffer, start, allowPointers)
      decreases MAX_POINTER_HOPS + 1 - hops, MAX_NAME_BYTES - bytes
    {
      if offset >= |buffer| {
        return None;
      }
      var length: nat := buffer[offset];
      if length == 0 {
        return Some(NameRead(Lower(Join(labels)), if end.Some? then end.value else offset + 1));
      }
      if And(length, 0xc0) == 0xc0 {
        if !allowPointers || offset + 1 >= |buffer| {
          return None;
        }
        if end.None? {
          end := Some(offset + 2);
        }
        offset := Or(256 * And(length, 0x3f), buffer[offset + 1]);
        hops := hops + 1;
        continue;
      }
      if And(length, 0xc0) != 0 || offset + 1 + length > |buffer| {
        return None;
      }
      if bytes + length + 1 > MAX_NAME_BYTES {
        return None;
      }
      bytes := bytes + length + 1;
      labels := labels + [buffer[offset + 1..offset + 1 + length]];
      offset := offset + 1 + length;
    }
    r := None;
  }

  // ----- Queries -----

  datatype Query = Query(id: nat, opcode: nat, name: Bytes, qtype: nat, qclass: nat, questionEnd: nat)

  datatype Reason = TooShort | NotAQuery | NotAResponse | OtherId | NotOneQuestion | BadQuestion | OtherQuestion
    | BadAnswer

  datatype QueryParse = Parsed(query: Query) | Malformed(id: Option<nat>, reason: Reason)

  function ParseQuery(buffer: Bytes): QueryParse {
    if |buffer| < HEADER_BYTES then Malformed(None, TooShort)
    else
      var id, flags := ReadU16(buffer, 0), ReadU16(buffer, 2);
      if And(flags, 0x8000) != 0 then Malformed(None, NotAQuery)
      else if ReadU16(buffer, 4) != 1 then Malformed(Some(id), NotOneQuestion)
      else match ReadName(buffer, HEADER_BYTES, false)
        case None => Malformed(Some(id), BadQuestion)
        case Some(name) =>
          if name.end + 4 > |buffer| then Malformed(Some(id), BadQuestion)
          else Parsed(Query(id, And(flags / 0x800, 0x0f), name.name, ReadU16(buffer, name.end),
                            ReadU16(buffer, name.end + 2), name.end + 4))
  }

  // ----- Responses built here -----

  function ResponseFlags(requestFlags: nat, rcode: nat): nat {
    Or(Or(Or(Or(0x8000, And(requestFlags, 0x7800)), And(requestFlags, 0x0100)), 0x0080), rcode)
  }

  lemma ResponseFlagBits(requestFlags: nat, rcode: nat)
    requires requestFlags < 0x1_0000 && rcode < 16
    ensures var flags := ResponseFlags(requestFlags, rcode);
      && 0x8000 <= flags < 0x1_0000 && flags % 16 == rcode
      && And(flags, 0x8000) != 0 && And(flags, 0x000f) == rcode
      && And(flags / 0x800, 0x0f) == And(requestFlags / 0x800, 0x0f)
      && And(flags, 0x0100) == And(requestFlags, 0x0100)
      && flags == 0x8000 + 0x800 * (requestFlags / 0x800 % 16) + 0x100 * (requestFlags / 0x100 % 2) + 0x80 + rcode
  {
    hide And, Or;
    var opcode, rd := requestFlags / 0x800 % 16, requestFlags / 0x100 % 2;
    AndFlagBits(requestFlags);
    FieldsDisjoint(opcode, rd, rcode);
    OrDisjoint(0x8000, 0x800 * opcode);
    OrDisjoint(0x8000 + 0x800 * opcode, 0x100 * rd);
    OrDisjoint(0x8000 + 0x800 * opcode + 0x100 * rd, 0x80);
    OrDisjoint(0x8000 + 0x800 * opcode + 0x100 * rd + 0x80, rcode);
    AndNibble(requestFlags / 0x800);
    FlagWord(opcode, rd, rcode);
  }

  lemma FlagWord(opcode: nat, rd: nat, rcode: nat)
    requires opcode < 16 && rd < 2 && rcode < 16
    ensures var flags := 0x8000 + 0x800 * opcode + 0x100 * rd + 0x80 + rcode;
      && flags < 0x1_0000 && flags % 16 == rcode
      && And(flags, 0x8000) == 0x8000 && And(flags, 0x000f) == rcode
      && And(flags / 0x800, 0x0f) == opcode && And(flags, 0x0100) == 0x100 * rd
  {
    hide And;
    var flags := 0x8000 + 0x800 * opcode + 0x100 * rd + 0x80 + rcode;
    AndFlagBits(flags);
    AndNibble(flags / 0x800);
    assert flags / 0x800 == 16 + opcode && flags / 0x100 == 128 + 8 * opcode + rd;
  }

  /** The fields of the flag word occupy different bits. */
  lemma FieldsDisjoint(opcode: nat, rd: nat, rcode: nat)
    requires opcode < 16 && rd < 2 && rcode < 16
    ensures And(0x8000, 0x800 * opcode) == 0
    ensures And(0x8000 + 0x800 * opcode, 0x100 * rd) == 0
    ensures And(0x8000 + 0x800 * opcode + 0x100 * rd, 0x80) == 0
    ensures And(0x8000 + 0x800 * opcode + 0x100 * rd + 0x80, rcode) == 0
  {
    hide And;
    And256(0x8000, 8 * opcode);
    And4(0x80, 2 * opcode);
    AndDouble(0x20, opcode);
    AndHigh16(1, opcode);
    And256(0x8000 + 0x800 * opcode, rd);
    if rd == 0 {
      AndZero(0x80 + 8 * opcode);
    } else {
      AndBit(0x80 + 8 * opcode);
    }
    AndHigh256(0x80 + 8 * opcode + rd, 0x80);
    AndHigh16(0x800 + 0x80 * opcode + 0x10 * rd + 8, rcode);
  }

  function WriteU16(s: Bytes, v: nat, at: nat): (r: Bytes)
    requires at + 2 <= |s| && v < 0x1_0000
    ensures |r| == |s|
  {
    s[at := v / 256][at + 1 := v % 256]
  }

  /** The question is copied, the counts say one question and nothing else. */
  function Response(request: Bytes, query: Query, rcode: nat): (r: Bytes)
    requires HEADER_BYTES <= query.questionEnd <= |request| && rcode < 16
    ensures |r| == query.questionEnd
  {
    var flags := ResponseFlags(ReadU16(request, 2), rcode);
    ResponseFlagBits(ReadU16(request, 2), rcode);
    WriteU16(WriteU16(WriteU16(WriteU16(WriteU16(request[..query.questionEnd], flags, 2), 1, 4), 0, 6), 0, 8), 0, 10)
  }

  method WriteU16InPlace(buffer: array<Byte>, v: nat, at: nat)
    requires at + 2 <= buffer.Length && v < 0x1_0000
    modifies buffer
    ensures buffer[..] == WriteU16(old(buffer[..]), v, at)
  {
    buffer[at], buffer[at + 1] := v / 256, v % 256;
  }

  method BuildResponse(request: Bytes, query: Query, rcode: nat) returns (response: array<Byte>)
    requires HEADER_BYTES <= query.questionEnd <= |request| && rcode < 16
    ensures fresh(response) && response[..] == Response(request, query, rcode)
  {
    response := new Byte[query.questionEnd](i requires 0 <= i < query.questionEnd => request[i]);
    assert response[..] == request[..query.questionEnd];
    var requestFlags := ReadU16(request, 2);
    ResponseFlagBits(requestFlags, rcode);
    var flags := Or(Or(Or(Or(0x8000, And(requestFlags, 0x7800)), And(requestFlags, 0x0100)), 0x0080), rcode);
    WriteU16InPlace(response, flags, 2);
    WriteU16InPlace(response, 1, 4);
    WriteU16InPlace(response, 0, 6);
    WriteU16InPlace(response, 0, 8);
    WriteU16InPlace(response, 0, 10);
  }

  // ----- Upstream responses -----

  datatype AnswerParse = Answered(rcode: nat, addresses: seq<string>) | Rejected(reason: Reason)

  /** One answer record at `offset`: the address it holds, if any, and where the next one begins. */
  datatype RecordRead = RecordRead(addresses: seq<string>, next: nat)

  function ReadRecord(buffer: Bytes, offset: nat): Option<RecordRead> {
    match ReadName(buffer, offset, true)
    case None => None
    case Some(owner) =>
      if owner.end + 10 > |buffer| then None
      else
        var rtype, length, data := ReadU16(buffer, owner.end), ReadU16(buffer, owner.end + 8), owner.end + 10;
        if data + length > |buffer| then None
        else Some(RecordRead(AddressOf(rtype, buffer[data..data + length]), data + length))
  }

  function AddressOf(rtype: nat, rdata: Bytes): seq<string> {
    if rtype == TYPE_A && |rdata| == 4 then [FormatIpv4(rdata)]
    else if rtype == TYPE_AAAA && |rdata| == 16 then [FormatIpv6(rdata)]
    else []
  }

  /** The addresses of `count` records from `offset` on. */
  function ReadRecords(buffer: Bytes, offset: nat, count: nat): Option<seq<string>>
    decreases count
  {
    if count == 0 then Some([])
    else match ReadRecord(buffer, offset)
      case None => None
      case Some(record) => Prepend(record.addresses, ReadRecords(buffer, record.next, count - 1))
  }

  function Prepend(first: seq<string>, rest: Option<seq<string>>): Option<seq<string>> {
    match rest
    case None => None
    case Some(addresses) => Some(first + addresses)
  }

  lemma PrependTwice(a: seq<string>, b: seq<string>, rest: Option<seq<string>>)
    ensures Prepend(a, Prepend(b, rest)) == Prepend(a + b, rest)
    ensures Prepend([], rest) == rest
  {
    match rest
    case None =>
    case Some(c) =>
      assert a + (b + c) == (a + b) + c && [] + c == c;
  }

  function ParseUpstreamResponse(buffer: Bytes, query: Query): AnswerParse {
    if |buffer| < HEADER_BYTES then Rejected(TooShort)
    else if ReadU16(buffer, 0) != query.id then Rejected(OtherId)
    else
      var flags := ReadU16(buffer, 2);
      if And(flags, 0x8000) == 0 then Rejected(NotAResponse)
      else if ReadU16(buffer, 4) != 1 then Rejected(NotOneQuestion)
      else match ReadName(buffer, HEADER_BYTES, true)
        case None => Rejected(BadQuestion)
        case Some(question) =>
          if question.end + 4 > |buffer| then Rejected(BadQuestion)
          else if question.name != query.name || ReadU16(buffer, question.end) != query.qtype
                  || ReadU16(buffer, question.end + 2) != query.qclass then Rejected(OtherQuestion)
          else match ReadRecords(buffer, question.end + 4, ReadU16(buffer, 6))
            case None => Rejected(BadAnswer)
            case Some(addresses) => Answered(And(flags, 0x000f), addresses)
  }

  /** The answer loop: the offset strictly advances and stays inside the message, whatever count
      the header claims. */
  method CollectAnswers(buffer: Bytes, start: nat, count: nat) returns (r: Option<seq<string>>)
    requires start <= |buffer|
    ensures r == ReadRecords(buffer, start, count)
  {
    hide ReadName, ReadFrom, AddressOf, ReadU16, Prepend;
    var addresses: seq<string>, offset: nat, index: nat := [], start, 0;
    PrependTwice([], [], ReadRecords(buffer, start, count));
    while index < count
      invariant index <= count && start + index <= offset <= |buffer|
      invariant ReadRecords(buffer, start, count) == Prepend(addresses, ReadRecords(buffer, offset, count - index))
    {
      var owner := ReadNameLoop(buffer, offset, true);
      if owner.None? || owner.value.end + 10 > |buffer| {
        NothingToPrepend(addresses);
        return None;
      }
      var rtype := ReadU16(buffer, owner.value.end);
      var length := ReadU16(buffer, owner.value.end + 8);
      var data := owner.value.end + 10;
      if data + length > |buffer| {
        NothingToPrepend(addresses);
        return None;
      }
      ReadNameAdvances(buffer, offset, true);
      var found := AddressOf(rtype, buffer[data..data + length]);
      PrependTwice(addresses, found, ReadRecords(buffer, data + length, count - index - 1));
      addresses, offset, index := addresses + found, data + length, index + 1;
    }
    NothingToPrepend(addresses);
    r := Some(addresses);
  }

  lemma NothingToPrepend(addresses: seq<string>)
    ensures Prepend(addresses, None) == None && Prepend(addresses, Some([])) == Some(addresses)
  {
    assert addresses + [] == addresses;
  }

  // ----- Bounds -----

  /** A read, whatever pointers it follows, ends inside the buffer and consumes something. */
  lemma {:induction false} ReadFromAdvances(buffer: Bytes, offset: nat, end: Option<nat>, bytes: nat, hops: nat,
                                            labels: seq<Bytes>, allowPointers: bool)
    requires bytes <= MAX_NAME_BYTES && hops <= MAX_POINTER_HOPS + 1
    ensures var r := ReadFrom(buffer, offset, end, bytes, hops, labels, allowPointers);
      r.Some? ==> if end.Some? then r.value.end == end.value else offset < r.value.end <= |buffer|
    decreases MAX_POINTER_HOPS + 1 - hops, MAX_NAME_BYTES - bytes
  {
    hide Join, Lower, And, Or;
    if hops <= MAX_POINTER_HOPS && offset < |buffer| {
      var length: nat := buffer[offset];
      if length == 0 {
      } else if And(length, 0xc0) == 0xc0 {
        if allowPointers && offset + 1 < |buffer| {
          var target := Or(256 * And(length, 0x3f), buffer[offset + 1]);
          ReadFromAdvances(buffer, target,
            if end.Some? then end else Some(offset + 2), bytes, hops + 1, labels, allowPointers);
        }
      } else if And(length, 0xc0) == 0 && offset + 1 + length <= |buffer| && bytes + length + 1 <= MAX_NAME_BYTES {
        ReadFromAdvances(buffer, offset + 1 + length, end, bytes + length + 1, hops,
                         labels + [buffer[offset + 1..offset + 1 + length]], allowPointers);
      }
    }
  }

  lemma ReadNameAdvances(buffer: Bytes, start: nat, allowPointers: bool)
    ensures var r := ReadName(buffer, start, allowPointers);
      r.Some? ==> start < r.value.end <= |buffer|
  {
    hide ReadFrom;
    ReadFromAdvances(buffer, start, None, 0, 0, [], allowPointers);
  }
}
