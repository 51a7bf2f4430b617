// The two stream framings: newline-terminated JSON of the control socket
// (src/local-control/line-framer.ts) and the two-byte length prefix of DNS over TCP
// (src/dnsfilter/listener.ts).
module Framing {
  import opened Bytes
  import opened Sequences
  import opened Utf16

  // ----- Newline framing -----

  const NEWLINE: Unit := 10
  const CARRIAGE_RETURN: Unit := 13

  /** `indexOf('\n')`, with the length for none. */
  function FirstNewline(s: Text): (i: nat)
    ensures i <= |s| && (i < |s| ==> s[i] == NEWLINE) && NEWLINE !in s[..i]
  {
    if s == [] || s[0] == NEWLINE then 0
    else
      var i := 1 + FirstNewline(s[1..]);
      assert s[..i] == [s[0]] + s[1..][..i - 1];
      i
  }

  function Cleaned(raw: Text): seq<Text> {
    var line := if raw != [] && raw[|raw| - 1] == CARRIAGE_RETURN then raw[..|raw| - 1] else raw;
    if line == [] then [] else [line]
  }

  /** The lines of a text and the unterminated rest, or the error of a frame that is too long. */
  datatype Framed = Lines(lines: seq<Text>, rest: Text) | TooLong

  function Frame(s: Text, max: nat): Framed
    decreases |s|
  {
    var i := FirstNewline(s);
    if Size(Utf8, s[..i]) > max then TooLong
    else if i == |s| then Lines([], s)
    else match Frame(s[i + 1..], max)
      case TooLong => TooLong
      case Lines(lines, rest) => Lines(Cleaned(s[..i]) + lines, rest)
  }

  class NewlineJsonFramer {
    const maxBytes: nat
    var pending: Text

    constructor (maxBytes: nat)
      ensures this.maxBytes == maxBytes && pending == []
    {
      this.maxBytes, pending := maxBytes, [];
    }

    method Push(chunk: Text) returns (framed: Framed)
      modifies this`pending
      ensures framed == match Frame(old(pending) + chunk, maxBytes)
                        case TooLong => TooLong
                        case Lines(lines, _) => Lines(lines, pending)
      ensures framed.Lines? ==> Frame(old(pending) + chunk, maxBytes).rest == pending
    {
      pending := pending + chunk;
      ghost var whole := pending;
      var lines: seq<Text> := [];
      var newline := FirstNewline(pending);
      while newline < |pending|
        invariant newline == FirstNewline(pending)
        invariant Frame(whole, maxBytes) == Prefixed(lines, Frame(pending, maxBytes))
        decreases |pending|
      {
        var raw := pending[..newline];
        ghost var rest := pending[newline + 1..];
        PrefixedTwice(lines, Cleaned(raw), Frame(rest, maxBytes));
        pending := pending[newline + 1..];
        if Size(Utf8, raw) > maxBytes {
          return TooLong;
        }
        var line := raw;
        if raw != [] && raw[|raw| - 1] == CARRIAGE_RETURN {
          line := raw[..|raw| - 1];
        }
        if |line| > 0 {
          lines := lines + [line];
        } else {
          assert lines + Cleaned(raw) == lines;
        }
        newline := FirstNewline(pending);
      }
      assert pending[..newline] == pending;
      if Size(Utf8, pending) > maxBytes {
        return TooLong;
      }
      assert lines + [] == lines;
      framed := Lines(lines, pending);
    }
  }

  function Prefixed(lines: seq<Text>, f: Framed): Framed {
    match f
    case TooLong => TooLong
    case Lines(more, rest) => Lines(lines + more, rest)
  }

  lemma PrefixedTwice(a: seq<Text>, b: seq<Text>, f: Framed)
    ensures Prefixed(a, Prefixed(b, f)) == Prefixed(a + b, f)
  {
    if f.Lines? {
      ConcatAssoc(a, b, f.lines);
    }
  }

  lemma FirstNewlineAppend(a: Text, b: Text)
    ensures FirstNewline(a) < |a| ==> FirstNewline(a + b) == FirstNewline(a)
    ensures FirstNewline(a) == |a| ==> FirstNewline(a + b) == |a| + FirstNewline(b)
  {
    if a == [] {
      assert a + b == b;
    } else if a[0] != NEWLINE {
      assert (a + b)[1..] == a[1..] + b;
      FirstNewlineAppend(a[1..], b);
    }
  }

  /** Framing a text in two parts: the rest of the first is framed with the second. */
  lemma {:induction false} FrameAppend(a: Text, b: Text, max: nat)
    ensures Frame(a + b, max) == match Frame(a, max)
                                 case TooLong => TooLong
                                 case Lines(lines, rest) => Prefixed(lines, Frame(rest + b, max))
    decreases |a|
  {
    hide Size, Cleaned, FirstNewline;
    var i := FirstNewline(a);
    FirstNewlineAppend(a, b);
    if i == |a| {
      assert a[..i] == a;
      if Size(Utf8, a) > max {
        var j := FirstNewline(a + b);
        assert (a + b)[..j] == a + b[..j - i];
        Utf8Grows(a, b[..j - i]);
      } else {
        NothingPrefixed(Frame(a + b, max));
      }
    } else {
      assert (a + b)[..i] == a[..i] && (a + b)[i + 1..] == a[i + 1..] + b;
      FrameAppend(a[i + 1..], b, max);
      if Frame(a[i + 1..], max).Lines? {
        PrefixedTwice(Cleaned(a[..i]), Frame(a[i + 1..], max).lines, Frame(Frame(a[i + 1..], max).rest + b, max));
      }
    }
  }

  lemma NothingPrefixed(f: Framed)
    ensures Prefixed([], f) == f
  {
    if f.Lines? {
      assert [] + f.lines == f.lines;
    }
  }

  /** What a framer delivers for a sequence of chunks: everything, until a push throws. */
  function PushAll(chunks: seq<Text>, max: nat): Framed {
    if chunks == [] then Lines([], [])
    else match PushAll(chunks[..|chunks| - 1], max)
      case TooLong => TooLong
      case Lines(lines, rest) => Prefixed(lines, Frame(rest + chunks[|chunks| - 1], max))
  }

  /** Chunking does not matter: some push throws exactly when pushing everything at once would, and
      otherwise the same lines come out and the same rest is kept. */
  lemma {:induction false} ChunkingIsInvisible(chunks: seq<Text>, max: nat)
    ensures PushAll(chunks, max) == Frame(Concat(chunks), max)
  {
    if chunks != [] {
      ChunkingIsInvisible(chunks[..|chunks| - 1], max);
      FrameAppend(Concat(chunks[..|chunks| - 1]), chunks[|chunks| - 1], max);
    }
  }

  // ----- What a sender's stream gives back -----

  datatype Ending = Lf | CrLf

  /** A message and how its line ends. */
  datatype Sent = Sent(text: Text, ending: Ending)

  /** A text of one line that does not end in CR itself. */
  predicate Sendable(m: Sent) {
    10 !in m.text && (m.text != [] ==> m.text[|m.text| - 1] != 13)
  }

  function Raw(m: Sent): Text {
    match m.ending
    case Lf => m.text
    case CrLf => m.text + [13]
  }

  function Stream(sent: seq<Sent>, rest: Text): Text {
    if sent == [] then rest else Raw(sent[0]) + [10] + Stream(sent[1..], rest)
  }

  /** The texts that are not empty. */
  function Messages(sent: seq<Sent>): seq<Text> {
    if sent == [] then [] else (if sent[0].text == [] then [] else [sent[0].text]) + Messages(sent[1..])
  }

  predicate AllWithin(sent: seq<Sent>, max: nat) {
    forall m :: m in sent ==> Size(Utf8, Raw(m)) <= max
  }

  lemma CleanedIsText(m: Sent)
    requires Sendable(m)
    ensures 10 !in Raw(m) && Cleaned(Raw(m)) == if m.text == [] then [] else [m.text]
  {
    if m.ending.CrLf? {
      assert Raw(m)[..|m.text|] == m.text;
    }
  }

  lemma {:induction false} NewlineBehind(raw: Text, s: Text)
    requires 10 !in raw
    ensures FirstNewline(raw + [10] + s) == |raw|
  {
    var whole := raw + [10] + s;
    if raw != [] {
      assert whole[1..] == raw[1..] + [10] + s;
      NewlineBehind(raw[1..], s);
    }
  }

  lemma {:induction false} NoNewline(s: Text)
    requires 10 !in s
    ensures FirstNewline(s) == |s|
  {
    if s != [] {
      NoNewline(s[1..]);
    }
  }

  /** The framer delivers exactly the messages a sender ended with LF or CR LF, and keeps what is not
      ended yet. It throws if and only if a line, its CR included, or the rest is over the limit. */
  lemma {:induction false} SentIsFramed(sent: seq<Sent>, rest: Text, max: nat)
    requires (forall m :: m in sent ==> Sendable(m)) && 10 !in rest
    ensures Frame(Stream(sent, rest), max)
         == if AllWithin(sent, max) && Size(Utf8, rest) <= max then Lines(Messages(sent), rest) else TooLong
  {
    hide Size, Cleaned, FirstNewline, Raw, Sendable;
    if sent == [] {
      NoNewline(rest);
      assert rest[..|rest|] == rest;
    } else {
      var m, others := sent[0], Stream(sent[1..], rest);
      var whole := Raw(m) + [10] + others;
      CleanedIsText(m);
      NewlineBehind(Raw(m), others);
      assert whole[..|Raw(m)|] == Raw(m) && whole[|Raw(m)| + 1..] == others;
      SentIsFramed(sent[1..], rest, max);
      assert AllWithin(sent, max) <==> Size(Utf8, Raw(m)) <= max && AllWithin(sent[1..], max);
    }
  }

  /** However the stream is cut into chunks. */
  lemma {:induction false} SentIsDelivered(sent: seq<Sent>, rest: Text, chunks: seq<Text>, max: nat)
    requires (forall m :: m in sent ==> Sendable(m)) && 10 !in rest && Concat(chunks) == Stream(sent, rest)
    ensures PushAll(chunks, max)
         == if AllWithin(sent, max) && Size(Utf8, rest) <= max then Lines(Messages(sent), rest) else TooLong
  {
    hide AllWithin, Messages, Stream, PushAll, Frame;
    ChunkingIsInvisible(chunks, max);
    SentIsFramed(sent, rest, max);
  }

  // ----- DNS over TCP -----

  const MAX_TCP_BUFFER: nat := 2 + 65535

  /** The complete packets of a stream and what is kept of it. */
  datatype Unpacked = Unpacked(packets: seq<Bytes>, rest: Bytes)

  predicate Complete(s: Bytes) {
    |s| >= 2 && |s| >= 2 + ReadU16(s, 0)
  }

  function Unpack(s: Bytes): Unpacked
    decreases |s|
  {
    if !Complete(s) then Unpacked([], s)
    else
      var size := ReadU16(s, 0);
      var more := Unpack(s[2 + size..]);
      Unpacked([s[2..2 + size]] + more.packets, more.rest)
  }

  class TcpConnection {
    var buffered: Bytes
    var destroyed: bool
    ghost var handled: seq<Bytes>

    constructor ()
      ensures buffered == [] && !destroyed && handled == []
    {
      buffered, destroyed, handled := [], false, [];
    }

    /** The `data` callback. */
    method OnData(chunk: Bytes)
      requires !destroyed
      modifies this
      ensures destroyed <==> |old(buffered)| + |chunk| > MAX_TCP_BUFFER * 2
      ensures destroyed ==> handled == old(handled)
      ensures !destroyed ==> var u := Unpack(old(buffered) + chunk);
        buffered == u.rest && handled == old(handled) + u.packets
    {
      buffered := buffered + chunk;
      ghost var whole := buffered;
      if |buffered| > MAX_TCP_BUFFER * 2 {
        destroyed := true;
        return;
      }
      while |buffered| >= 2
        invariant !destroyed
        invariant handled + Unpack(buffered).packets == old(handled) + Unpack(whole).packets
        invariant Unpack(buffered).rest == Unpack(whole).rest
      {
        var size := ReadU16(buffered, 0);
        if |buffered| < 2 + size {
          break;
        }
        var packet := buffered[2..2 + size];
        ghost var more := Unpack(buffered[2 + size..]).packets;
        ConcatAssoc(handled, [packet], more);
        buffered := buffered[2 + size..];
        handled := handled + [packet];
      }
      assert handled + [] == handled;
    }
  }

  lemma {:induction false} UnpackAppend(a: Bytes, b: Bytes)
    ensures var u := Unpack(a);
      var v := Unpack(u.rest + b);
      Unpack(a + b) == Unpacked(u.packets + v.packets, v.rest)
    decreases |a|
  {
    if Complete(a) {
      var size := ReadU16(a, 0);
      assert (a + b)[2..2 + size] == a[2..2 + size] && (a + b)[2 + size..] == a[2 + size..] + b;
      UnpackAppend(a[2 + size..], b);
      var more := Unpack(a[2 + size..]);
      ConcatAssoc([a[2..2 + size]], more.packets, Unpack(more.rest + b).packets);
    } else {
      assert [] + Unpack(a + b).packets == Unpack(a + b).packets;
    }
  }

  /** At most 65,536 bytes are kept: a length and one byte less than it announces. */
  lemma {:induction false} RestIsBounded(s: Bytes)
    ensures |Unpack(s).rest| <= 65536 && !Complete(Unpack(s).rest)
    decreases |s|
  {
    if Complete(s) {
      RestIsBounded(s[2 + ReadU16(s, 0)..]);
    }
  }

  function ReceiveAll(chunks: seq<Bytes>): Unpacked {
    if chunks == [] then Unpacked([], [])
    else
      var u := ReceiveAll(chunks[..|chunks| - 1]);
      var v := Unpack(u.rest + chunks[|chunks| - 1]);
      Unpacked(u.packets + v.packets, v.rest)
  }

  /** Any split of a stream delivers the same packets and keeps the same rest, and no chunk of at most
      65,538 bytes reaches the limit at which the connection is destroyed. */
  lemma {:induction false} SplitIsInvisible(chunks: seq<Bytes>)
    ensures ReceiveAll(chunks) == Unpack(Concat(chunks))
    ensures forall chunk: Bytes :: |chunk| <= 65538 ==> |ReceiveAll(chunks).rest| + |chunk| <= MAX_TCP_BUFFER * 2
  {
    if chunks != [] {
      SplitIsInvisible(chunks[..|chunks| - 1]);
      UnpackAppend(Concat(chunks[..|chunks| - 1]), chunks[|chunks| - 1]);
    }
    RestIsBounded(Concat(chunks));
  }

  /** The bound is exact: after a packet one byte short, a chunk of 65,539 bytes destroys. */
  lemma LargerChunkDestroys(kept: Bytes, chunk: Bytes)
    requires |kept| == 65536 && kept[0] == 255 && kept[1] == 255 && |chunk| == 65539
    ensures ReceiveAll([kept]).rest == kept && |kept| + |chunk| > MAX_TCP_BUFFER * 2
  {
    assert [kept][..0] == [] && [] + kept == kept;
  }

  /** What a peer sends: each packet behind its length. */
  function Packed(packets: seq<Bytes>): Bytes
    requires forall p :: p in packets ==> |p| < 0x1_0000
  {
    if packets == [] then [] else U16(|packets[0]|) + packets[0] + Packed(packets[1..])
  }

  /** Packets sent come out again, followed by nothing. */
  lemma {:induction false} PackedIsUnpacked(packets: seq<Bytes>)
    requires forall p :: p in packets ==> |p| < 0x1_0000
    ensures Unpack(Packed(packets)) == Unpacked(packets, [])
  {
    if packets != [] {
      var p, more := packets[0], Packed(packets[1..]);
      var s := Packed(packets);
      assert s == U16(|p|) + p + more;
      assert ReadU16(s, 0) == |p| && s[2..2 + |p|] == p && s[2 + |p|..] == more;
      PackedIsUnpacked(packets[1..]);
    }
  }
}
