// The encoder the DNS tests use (src/dnsfilter/test-packets.ts).
module TestPackets {
  import opened Bytes
  import opened Bits
  import opened DnsMessage

  /** `split('.')`. */
  function Split(s: Bytes): (labels: seq<Bytes>)
    ensures |labels| > 0
  {
    if s == [] then [[]]
    else
      var labels, x := Split(s[..|s| - 1]), s[|s| - 1];
      if x == DOT then labels + [[]]
      else labels[..|labels| - 1] + [labels[|labels| - 1] + [x]]
  }

  function Labels(name: Bytes): seq<Bytes> {
    if name == [] then [] else Split(name)
  }

  function EncodeLabels(labels: seq<Bytes>): (r: Bytes)
    ensures |r| > 0
  {
    if labels == [] then [0] else [|labels[0]| % 256] + labels[0] + EncodeLabels(labels[1..])
  }

  function EncodeName(name: Bytes): Bytes {
    EncodeLabels(Labels(name))
  }

  function Header(id: nat, flags: nat, questions: nat, answers: nat): (r: Bytes)
    requires id < 0x1_0000 && flags < 0x1_0000 && questions < 0x1_0000 && answers < 0x1_0000
    ensures |r| == 12
  {
    U16(id) + U16(flags) + U16(questions) + U16(answers) + U16(0) + U16(0)
  }

  function Question(name: Bytes, qtype: nat): Bytes
    requires qtype < 0x1_0000
  {
    EncodeName(name) + U16(qtype) + U16(1)
  }

  function BuildQueryPacket(name: Bytes, qtype: nat, id: nat, opcode: nat): Bytes
    requires qtype < 0x1_0000 && id < 0x1_0000 && opcode < 16
  {
    QueryFlagBits(opcode);
    Header(id, Or(0x0100, 0x800 * opcode), 1, 0) + Question(name, qtype)
  }

  datatype TestRecord = TestRecord(rtype: nat, rdata: Bytes)

  predicate Encodable(record: TestRecord) {
    record.rtype < 0x1_0000 && |record.rdata| < 0x1_0000
  }

  /** The owner name is a pointer to the question. */
  function EncodeRecord(record: TestRecord): (r: Bytes)
    requires Encodable(record)
    ensures |r| == 12 + |record.rdata|
  {
    U16(0xc00c) + U16(record.rtype) + U16(1) + U16(0) + U16(300) + U16(|record.rdata|) + record.rdata
  }

  function EncodeRecords(records: seq<TestRecord>): Bytes
    requires forall r :: r in records ==> Encodable(r)
  {
    if records == [] then [] else EncodeRecord(records[0]) + EncodeRecords(records[1..])
  }

  function BuildResponsePacket(name: Bytes, qtype: nat, records: seq<TestRecord>, id: nat, rcode: nat): Bytes
    requires qtype < 0x1_0000 && id < 0x1_0000 && rcode < 16 && |records| < 0x1_0000
    requires forall r :: r in records ==> Encodable(r)
  {
    AnswerFlagBits(rcode);
    Header(id, Or(0x8180, rcode), 1, |records|) + Question(name, qtype) + EncodeRecords(records)
  }

  lemma QueryFlagBits(opcode: nat)
    requires opcode < 16
    ensures var flags := Or(0x0100, 0x800 * opcode);
      flags < 0x8000 + 0x100 && And(flags, 0x8000) == 0 && And(flags / 0x800, 0x0f) == opcode
  {
    hide And, Or;
    And256(0x0100, 8 * opcode);
    AndCommutes(1, 8 * opcode);
    AndBit(8 * opcode);
    OrDisjoint(0x0100, 0x800 * opcode);
    AndFlagBits(0x0100 + 0x800 * opcode);
    AndNibble((0x0100 + 0x800 * opcode) / 0x800);
  }

  lemma AnswerFlagBits(rcode: nat)
    requires rcode < 16
    ensures var flags := Or(0x8180, rcode);
      flags < 0x1_0000 && And(flags, 0x8000) != 0 && And(flags, 0x000f) == rcode
  {
    hide And, Or;
    AndHigh16(0x818, rcode);
    OrDisjoint(0x8180, rcode);
    AndFlagBits(0x8180 + rcode);
  }
}
