/** The frame codec is a round trip, its lengths are minimal, and what happens when a frame is cut short. */
module WebSocketLaws {
  import opened Sequences
  import opened WebSocket

  function Power256(k: nat): nat
  {
    if k == 0 then 1 else 256 * Power256(k - 1)
  }

  lemma NextByte(b: byte)
    requires b != 255
    ensures (b + 1) as int == b as int + 1
  {
  }

  lemma {:induction false} ByteFor(n: nat) returns (b: byte)
    requires n < 256
    ensures b as int == n
  {
    if n == 0 {
      b := 0;
    } else {
      var previous := ByteFor(n - 1);
      NextByte(previous);
      b := previous + 1;
    }
  }

  lemma ByteBack(b: byte)
    ensures (b as int) as byte == b
  {
  }

  /** A number below 256 survives the trip through a byte. */
  lemma ByteValue(n: nat)
    requires n < 256
    ensures (n as byte) as int == n
  {
    var b := ByteFor(n);
    ByteBack(b);
  }

  lemma {:induction false} BigEndianBytes(n: nat, k: nat)
    requires n < Power256(k)
    ensures BigEndian(Bytes(n, k)) == n
  {
    if k > 0 {
      ByteValue(n % 256);
      BigEndianBytes(n / 256, k - 1);
      assert Bytes(n, k)[..k - 1] == Bytes(n / 256, k - 1);
    }
  }

  lemma {:induction false} BigEndianBound(bs: seq<byte>)
    ensures BigEndian(bs) < Power256(|bs|)
  {
    if |bs| > 0 {
      BigEndianBound(bs[..|bs| - 1]);
    }
  }

  lemma Powers256()
    ensures Power256(2) == 0x1_0000 && Power256(8) == 0x1_0000_0000_0000_0000
  {
    assert Power256(4) == 0x1_0000_0000;
  }

  /** Unmasking with the same key gives the data back. */
  lemma MaskedTwice(data: seq<byte>, mask: seq<byte>)
    requires IsMask(mask)
    ensures Masked(Masked(data, mask), mask) == data
  {
    if |mask| == 4 {
      forall i | 0 <= i < |data|
        ensures Masked(Masked(data, mask), mask)[i] == data[i]
      {
        assert (data[i] ^ mask[i % 4]) ^ mask[i % 4] == data[i];
      }
    }
  }

  /** The first byte of a length field. */
  function Lead(n: nat): byte
  {
    if n <= 125 then n as byte else if n <= 65535 then 126 else 127
  }

  function Ext(n: nat): seq<byte>
  {
    if n <= 125 then [] else if n <= 65535 then Bytes(n, 2) else Bytes(n, 8)
  }

  lemma SmallLead(n: nat)
    requires n <= 125
    ensures var b := n as byte; b & 0x7F == b && (0x80 | b) & 0x7F == b && b < 126 && b as int == n
    ensures (0x80 | (n as byte)) & 0x80 != 0 && (n as byte) & 0x80 == 0
  {
    ByteValue(n);
  }

  lemma LeadBits(n: nat, mask: seq<byte>)
    requires IsMask(mask)
    ensures var b := MaskBit(mask) | Lead(n);
            && LengthField(n, MaskBit(mask)) == [b] + Ext(n)
            && b & 0x7F == Lead(n) && ExtSize(b) == |Ext(n)| && MaskSize(b) == |mask|
  {
    if n <= 125 {
      SmallLead(n);
    }
  }

  lemma LengthRead(n: nat, b: byte)
    requires n < 0x8000_0000_0000_0000 && b & 0x7F == Lead(n)
    ensures Length(b, Ext(n)) == n
  {
    Powers256();
    if n <= 125 {
      SmallLead(n);
    } else if n <= 65535 {
      BigEndianBytes(n, 2);
    } else {
      BigEndianBytes(n, 8);
    }
  }

  /** What the reader makes of a header: the opcode's low four bits and the announced length. */
  lemma HeaderRead(opcode: byte, n: nat, mask: seq<byte>, rest: seq<byte>, end: InputEnd)
    requires IsMask(mask) && n < 0x8000_0000_0000_0000
    ensures Parse(Header(opcode, n, mask) + rest, end) == ParseBody(opcode & 0x0F, n, |mask|, mask + rest, end)
  {
    hide BigEndian, Bytes, Lead, Ext, Length, ExtSize, MaskSize, ParseBody, LengthField;
    LeadBits(n, mask);
    var b := MaskBit(mask) | Lead(n);
    LengthRead(n, b);
    var bs := Header(opcode, n, mask) + rest;
    assert bs == [0x80 | opcode, b] + (Ext(n) + (mask + rest));
    assert bs[..2] == [0x80 | opcode, b] && bs[2..] == Ext(n) + (mask + rest);
    var r1 := bs[2..];
    assert r1[..|Ext(n)|] == Ext(n) && r1[|Ext(n)|..] == mask + rest;
    assert (0x80 | opcode) & 0x0F == opcode & 0x0F;
  }

  lemma BodyRead(opcode: byte, payload: seq<byte>, mask: seq<byte>, rest: seq<byte>, end: InputEnd)
    requires IsMask(mask) && |payload| <= MAX_FRAME_SIZE
    ensures ParseBody(opcode, |payload|, |mask|, mask + (Masked(payload, mask) + rest), end) == Good(Frame(opcode, payload), rest)
  {
    MaskedTwice(payload, mask);
    hide Masked;
    var data := Masked(payload, mask);
    var bs := mask + (data + rest);
    assert bs[..|mask|] == mask && bs[|mask|..] == data + rest;
    assert (data + rest)[..|data|] == data && (data + rest)[|data|..] == rest;
  }

  /**
   One frame read back, whatever follows it: the frame itself with its opcode cut to four bits,
   unless the payload is over the limit, which the writer does not check.
   */
  lemma FrameRoundTrip(frame: Frame, mask: seq<byte>, rest: seq<byte>, end: InputEnd)
    requires IsMask(mask) && |frame.payload| < 0x8000_0000_0000_0000
    ensures Parse(Encode(frame, mask) + rest, end) ==
            if |frame.payload| > MAX_FRAME_SIZE then Bad(TooLarge(|frame.payload|))
            else Good(Frame(frame.opcode & 0x0F, frame.payload), rest)
  {
    hide Masked, Header, Parse;
    var n, data := |frame.payload|, Masked(frame.payload, mask);
    assert Encode(frame, mask) + rest == Header(frame.opcode, n, mask) + (data + rest);
    HeaderRead(frame.opcode, n, mask, data + rest, end);
    if n <= MAX_FRAME_SIZE {
      BodyRead(frame.opcode & 0x0F, frame.payload, mask, rest, end);
    }
  }

  // ----- lists of frames

  datatype Sent = Sent(frame: Frame, mask: seq<byte>)

  predicate Sendable(s: Sent)
  {
    IsMask(s.mask) && |s.frame.payload| < 0x8000_0000_0000_0000 && s.frame.opcode < 16
  }

  predicate AllSendable(sends: seq<Sent>)
  {
    forall i :: 0 <= i < |sends| ==> Sendable(sends[i])
  }

  /** No payload is over the reader's limit. */
  predicate WithinLimit(sends: seq<Sent>)
  {
    forall i :: 0 <= i < |sends| ==> |sends[i].frame.payload| <= MAX_FRAME_SIZE
  }

  function EncodeAll(sends: seq<Sent>): seq<byte>
    requires AllSendable(sends)
  {
    if |sends| == 0 then [] else Encode(sends[0].frame, sends[0].mask) + EncodeAll(sends[1..])
  }

  /** The frames read, the error that ended the reading, and the bytes from the frame it hit on. */
  datatype FrameList = FrameList(frames: seq<Frame>, error: ReadError, rest: seq<byte>)

  /** Reads frames until the reader reports an error. */
  function ReadAll(bs: seq<byte>, end: InputEnd): FrameList
    decreases |bs|
  {
    match Parse(bs, end)
    case Bad(e) => FrameList([], e, bs)
    case Good(frame, rest) => Prepend(frame, ReadAll(rest, end))
  }

  function Prepend(frame: Frame, more: FrameList): FrameList
  {
    FrameList([frame] + more.frames, more.error, more.rest)
  }

  /** The frames before the first oversized one, and the bytes from that one on. */
  function Readable(sends: seq<Sent>, end: InputEnd): FrameList
    requires AllSendable(sends)
  {
    if |sends| == 0 then FrameList([], Missing(end, true), [])
    else if |sends[0].frame.payload| > MAX_FRAME_SIZE then FrameList([], TooLarge(|sends[0].frame.payload|), EncodeAll(sends))
    else Prepend(sends[0].frame, Readable(sends[1..], end))
  }

  lemma {:induction false} ReadBackAll(sends: seq<Sent>, end: InputEnd)
    requires AllSendable(sends)
    ensures ReadAll(EncodeAll(sends), end) == Readable(sends, end)
  {
    NothingToRead(end);
    hide Encode, Parse;
    if |sends| > 0 {
      var s := sends[0];
      assert Sendable(s);
      FrameRoundTrip(s.frame, s.mask, EncodeAll(sends[1..]), end);
      LowOpcode(s.frame.opcode);
      ReadBackAll(sends[1..], end);
    }
  }

  lemma NothingToRead(end: InputEnd)
    ensures ReadAll([], end) == FrameList([], Missing(end, true), [])
  {
  }

  lemma LowOpcode(opcode: byte)
    requires opcode < 16
    ensures opcode & 0x0F == opcode
  {
  }

  function FramesOf(sends: seq<Sent>): (frames: seq<Frame>)
    ensures |frames| == |sends| && forall i :: 0 <= i < |sends| ==> frames[i] == sends[i].frame
  {
    seq(|sends|, i requires 0 <= i < |sends| => sends[i].frame)
  }

  /** Everything the writer sent was read, up to the end of the input. */
  function Whole(sends: seq<Sent>, end: InputEnd): FrameList
  {
    FrameList(FramesOf(sends), Missing(end, true), [])
  }

  lemma {:induction false} AllReadable(sends: seq<Sent>, end: InputEnd)
    requires AllSendable(sends)
    ensures Readable(sends, end) == Whole(sends, end) <==> WithinLimit(sends)
  {
    hide Encode, EncodeAll, WithinLimit;
    LimitOf(sends);
    if |sends| > 0 && |sends[0].frame.payload| <= MAX_FRAME_SIZE {
      var rest, f := sends[1..], sends[0].frame;
      AllReadable(rest, end);
      assert FramesOf(sends) == [f] + FramesOf(rest);
      SameTail(f, Readable(rest, end).frames, FramesOf(rest));
    }
  }

  lemma SameTail(f: Frame, a: seq<Frame>, b: seq<Frame>)
    ensures [f] + a == [f] + b <==> a == b
  {
    assert ([f] + a)[1..] == a && ([f] + b)[1..] == b;
  }

  lemma LimitOf(sends: seq<Sent>)
    ensures WithinLimit(sends) <==> |sends| == 0 || (|sends[0].frame.payload| <= MAX_FRAME_SIZE && WithinLimit(sends[1..]))
  {
    assert forall i :: 0 < i < |sends| ==> sends[i] == sends[1..][i - 1];
  }

  /**
   Reading the concatenated frames gives the same list, reaches the end of the input and leaves no
   byte exactly when no payload is over 10 MiB, masked or not.
   */
  lemma RoundTrip(sends: seq<Sent>, end: InputEnd)
    requires AllSendable(sends)
    ensures ReadAll(EncodeAll(sends), end) == FrameList(FramesOf(sends), Missing(end, true), [])
       <==> WithinLimit(sends)
  {
    ReadBackAll(sends, end);
    AllReadable(sends, end);
  }

  // ----- minimal lengths

  /** No length field that reads as n is shorter than the one written. */
  lemma MinimalLength(n: nat, maskBit: byte, b: byte, ext: seq<byte>)
    requires |ext| == ExtSize(b) && Length(b, ext) == n
    ensures |LengthField(n, maskBit)| <= 1 + |ext|
  {
    Powers256();
    BigEndianBound(ext);
    if ExtSize(b) == 0 {
      assert b & 0x7F < 126;
    }
  }

  // ----- truncation

  /** Where one field of the encoding ends and the next one starts. */
  predicate AtBoundary(frame: Frame, mask: seq<byte>, cut: nat)
  {
    var x := |Ext(|frame.payload|)|;
    cut == 0 || cut == 2 || cut == 2 + x || cut == 2 + x + |mask|
  }

  lemma HeaderCut(opcode: byte, n: nat, mask: seq<byte>, bs: seq<byte>, end: InputEnd)
    requires IsMask(mask) && n <= MAX_FRAME_SIZE
    requires bs == [0x80 | opcode, MaskBit(mask) | Lead(n)] + Ext(n)
    ensures forall cut: nat :: cut < |bs| ==> Parse(bs[..cut], end) == Bad(Missing(end, cut == 0 || cut == 2))
  {
    hide BigEndian, Bytes, Length, Lead, Ext, ParseBody, MaskSize, ExtSize;
    LeadBits(n, mask);
    forall cut: nat | cut < |bs|
      ensures Parse(bs[..cut], end) == Bad(Missing(end, cut == 0 || cut == 2))
    {
      var p := bs[..cut];
      if cut >= 2 {
        assert p[..2] == bs[..2];
        assert |p[2..]| == cut - 2 < |Ext(n)|;
      }
    }
  }

  lemma BodyCut(opcode: byte, n: nat, mask: seq<byte>, bs: seq<byte>, end: InputEnd)
    requires IsMask(mask) && n <= MAX_FRAME_SIZE && |bs| < |mask| + n
    ensures ParseBody(opcode, n, |mask|, bs, end) == Bad(Missing(end, |bs| == 0 || |bs| == |mask|))
  {
  }

  /**
   A frame cut short by the end of input reads as a clean end exactly when the cut falls between two
   fields, and the receive loop takes that for an orderly close; anywhere else it is an unexpected
   end. A frame cut short by an error of the connection gives that error.
   */
  lemma Truncated(frame: Frame, mask: seq<byte>, cut: nat, end: InputEnd)
    requires IsMask(mask) && |frame.payload| <= MAX_FRAME_SIZE && cut < |Encode(frame, mask)|
    ensures Parse(Encode(frame, mask)[..cut], end) == Bad(Missing(end, AtBoundary(frame, mask, cut)))
  {
    hide *;
    EncodeHead(frame, mask);
    HeadForm(frame, mask);
    Boundaries(frame, mask, cut);
    TruncatedAt(frame.opcode, |frame.payload|, mask, Head(frame, mask), mask + Masked(frame.payload, mask), cut, end);
  }

  /** The same in terms of the header and what follows it. */
  lemma TruncatedAt(opcode: byte, n: nat, mask: seq<byte>, head: seq<byte>, body: seq<byte>, cut: nat, end: InputEnd)
    requires IsMask(mask) && n <= MAX_FRAME_SIZE && head == [0x80 | opcode, MaskBit(mask) | Lead(n)] + Ext(n)
    requires |body| == |mask| + n && cut < |head| + |body|
    ensures Parse((head + body)[..cut], end) ==
            Bad(Missing(end, if cut < |head| then cut == 0 || cut == 2 else cut == |head| || cut == |head| + |mask|))
  {
    hide *;
    CutAcross(head, body, cut);
    if cut < |head| {
      HeaderCut(opcode, n, mask, head, end);
    } else {
      CutBody(opcode, n, mask, head, (head + body)[..cut], end);
    }
  }

  lemma HeadForm(frame: Frame, mask: seq<byte>)
    ensures Head(frame, mask) == [0x80 | frame.opcode, MaskBit(mask) | Lead(|frame.payload|)] + Ext(|frame.payload|)
  {
  }

  lemma Boundaries(frame: Frame, mask: seq<byte>, cut: nat)
    ensures var h := |Head(frame, mask)|;
            AtBoundary(frame, mask, cut) <==> if cut < h then cut == 0 || cut == 2 else cut == h || cut == h + |mask|
  {
    hide Ext, Lead;
  }

  /** What a cut leaves of the two parts. */
  lemma CutAcross(head: seq<byte>, body: seq<byte>, cut: nat)
    requires cut <= |head| + |body|
    ensures cut <= |head| ==> (head + body)[..cut] == head[..cut]
    ensures cut >= |head| ==> (head + body)[..cut][..|head|] == head
  {
  }

  /** The encoding up to and including the length. */
  function Head(frame: Frame, mask: seq<byte>): seq<byte>
  {
    [0x80 | frame.opcode, MaskBit(mask) | Lead(|frame.payload|)] + Ext(|frame.payload|)
  }

  lemma EncodeHead(frame: Frame, mask: seq<byte>)
    requires IsMask(mask)
    ensures Encode(frame, mask) == Head(frame, mask) + (mask + Masked(frame.payload, mask))
  {
    LeadBits(|frame.payload|, mask);
  }

  /** A cut after the length: what is left of key and payload decides. */
  lemma CutBody(opcode: byte, n: nat, mask: seq<byte>, head: seq<byte>, bs: seq<byte>, end: InputEnd)
    requires IsMask(mask) && n <= MAX_FRAME_SIZE && head == [0x80 | opcode, MaskBit(mask) | Lead(n)] + Ext(n)
    requires |head| <= |bs| < |head| + |mask| + n && bs[..|head|] == head
    ensures Parse(bs, end) == Bad(Missing(end, |bs| == |head| || |bs| == |head| + |mask|))
  {
    hide BigEndian, Bytes, Lead, Ext, Length, ExtSize, MaskSize, ParseBody, LengthField;
    LeadBits(n, mask);
    var b := MaskBit(mask) | Lead(n);
    LengthRead(n, b);
    assert bs[..2] == head[..2] == [0x80 | opcode, b];
    var r1 := bs[2..];
    assert r1[..|Ext(n)|] == head[2..] == Ext(n);
    BodyCut(opcode & 0x0F, n, mask, r1[|Ext(n)|..], end);
    assert (0x80 | opcode) & 0x0F == opcode & 0x0F;
  }
}
