/** The bytes of a frame, position by position, as written and as read from any peer (section 5.2 of RFC 6455). */
module WebSocketWire {
  import opened WebSocket
  import opened WebSocketLaws
  import opened WebSocketRunner

  /** The value of these bytes in network order: each counts 256 for every byte after it. */
  function Value(bs: seq<byte>): nat
  {
    if |bs| == 0 then 0 else bs[0] as int * Power256(|bs| - 1) + Value(bs[1..])
  }

  lemma Shifted(d: int, p: int, v: int, b: int)
    ensures d * (256 * p) + (v * 256 + b) == (d * p + v) * 256 + b
  {
  }

  lemma {:induction false} ValueSnoc(bs: seq<byte>, b: byte)
    ensures Value(bs + [b]) == Value(bs) * 256 + b as int
  {
    if |bs| == 0 {
      assert Value([b]) == b as int * Power256(0) + Value([]);
    } else {
      var k := |bs| - 1;
      ValueSnoc(bs[1..], b);
      ValueCons(bs[0], bs[1..] + [b]);
      assert bs + [b] == [bs[0]] + (bs[1..] + [b]);
      assert Power256(k + 1) == 256 * Power256(k);
      assert Value(bs) == bs[0] as int * Power256(k) + Value(bs[1..]);
      hide Value, Power256;
      Shifted(bs[0] as int, Power256(k), Value(bs[1..]), b as int);
    }
  }

  lemma ValueCons(b: byte, bs: seq<byte>)
    ensures Value([b] + bs) == b as int * Power256(|bs|) + Value(bs)
  {
    assert ([b] + bs)[1..] == bs;
  }

  lemma {:induction false} ValueIs(bs: seq<byte>)
    ensures BigEndian(bs) == Value(bs)
  {
    if |bs| > 0 {
      var init := bs[..|bs| - 1];
      ValueIs(init);
      ValueSnoc(init, bs[|bs| - 1]);
      assert bs == init + [bs[|bs| - 1]];
    }
  }

  // ----- where the fields are

  /** The low seven bits. */
  function Low(b: byte): int
  {
    (b & 0x7F) as int
  }

  /** How many bytes the length takes after the second byte that has these seven bits. */
  function LengthBytes(low: int): nat
  {
    if low < 126 then 0 else if low == 126 then 2 else 8
  }

  /** The length a header announces. */
  function Announced(bs: seq<byte>): nat
    requires |bs| >= 2 && |bs| >= 2 + LengthBytes(Low(bs[1]))
  {
    var low := Low(bs[1]);
    if low < 126 then low else Value(bs[2..2 + LengthBytes(low)])
  }

  function Masking(bs: seq<byte>): bool
    requires |bs| >= 2
  {
    bs[1] & 0x80 != 0
  }

  /** Where the payload starts. */
  function PayloadAt(bs: seq<byte>): nat
    requires |bs| >= 2
  {
    2 + LengthBytes(Low(bs[1])) + if Masking(bs) then 4 else 0
  }

  predicate WholeHeader(bs: seq<byte>)
  {
    |bs| >= 2 && |bs| >= 2 + LengthBytes(Low(bs[1]))
  }

  // ----- reading

  lemma SevenBits(b: byte)
    ensures 0 <= Low(b) <= 127
    ensures ExtSize(b) == LengthBytes(Low(b))
  {
    assert b & 0x7F <= 127;
  }

  /** Each byte xored with the key's byte at its position modulo 4. */
  ghost predicate Xored(out: seq<byte>, data: seq<byte>, key: seq<byte>)
  {
    |key| == 4 && |out| == |data| && forall i :: 0 <= i < |out| ==> out[i] == data[i] ^ key[i % 4]
  }

  lemma MaskedIs(data: seq<byte>, key: seq<byte>)
    requires IsMask(key)
    ensures if |key| == 4 then Xored(Masked(data, key), data, key) else Masked(data, key) == data
  {
  }

  lemma LengthIs(bs: seq<byte>)
    requires WholeHeader(bs)
    ensures Length(bs[1], bs[2..2 + LengthBytes(Low(bs[1]))]) == Announced(bs)
  {
    SevenBits(bs[1]);
    ValueIs(bs[2..2 + ExtSize(bs[1])]);
    hide BigEndian, Value;
  }

  /** The reader after the length. */
  lemma ParseIs(bs: seq<byte>, end: InputEnd)
    ensures !WholeHeader(bs) ==> Parse(bs, end).Bad?
    ensures WholeHeader(bs) ==>
              Parse(bs, end) == ParseBody(bs[0] & 0x0F, Announced(bs), if Masking(bs) then 4 else 0,
                                          bs[2 + LengthBytes(Low(bs[1]))..], end)
  {
    hide ParseBody, BigEndian, Value, LengthBytes, ExtSize, Length, Low, MaskSize;
    MaskSizes();
    if |bs| >= 2 {
      SevenBits(bs[1]);
      var e := ExtSize(bs[1]);
      assert bs[..2][0] == bs[0] && bs[..2][1] == bs[1];
      if |bs| >= 2 + e {
        Within(bs, 2, 0, e);
        LengthIs(bs);
      }
    }
  }

  /** Key and payload, from the first byte after the length. */
  lemma ReadBody(opcode: byte, n: nat, k: nat, bs: seq<byte>, end: InputEnd)
    requires k == 0 || k == 4
    ensures ParseBody(opcode, n, k, bs, end).Good? <==> n <= MAX_FRAME_SIZE && |bs| >= k + n
    ensures n > MAX_FRAME_SIZE ==> ParseBody(opcode, n, k, bs, end) == Bad(TooLarge(n))
    ensures ParseBody(opcode, n, k, bs, end).Good? ==>
              var p := ParseBody(opcode, n, k, bs, end);
              && p.frame.opcode == opcode && p.rest == bs[k + n..]
              && (if k == 4 then Xored(p.frame.payload, bs[4..4 + n], bs[..4]) else p.frame.payload == bs[..n])
  {
    if n <= MAX_FRAME_SIZE && |bs| >= k + n {
      assert bs[k..][n..] == bs[k + n..] && bs[k..][..n] == bs[k..k + n];
      MaskedIs(bs[k..k + n], bs[..k]);
      hide Masked, Xored;
    }
  }

  lemma Within(bs: seq<byte>, from: nat, a: nat, b: nat)
    requires from + b <= |bs| && a <= b
    ensures bs[from..][a..b] == bs[from + a..from + b] && bs[from..][b..] == bs[from + b..]
  {
  }

  /**
   What the reader makes of any bytes: it gives a frame exactly if header, key and payload are all there
   and the announced length is at most 10 MiB; then the payload is the input's, each byte xored with the
   key's byte at its position modulo 4 if there is a key, and the rest is what follows.
   */
  lemma ReadBytes(bs: seq<byte>, end: InputEnd)
    ensures Parse(bs, end).Good? <==> WholeHeader(bs) && Announced(bs) <= 0xA0_0000 && |bs| >= PayloadAt(bs) + Announced(bs)
    ensures WholeHeader(bs) && Announced(bs) > 0xA0_0000 ==> Parse(bs, end) == Bad(TooLarge(Announced(bs)))
    ensures Parse(bs, end).Good? ==>
              var at, n, p := PayloadAt(bs), Announced(bs), Parse(bs, end);
              && p.frame.opcode == bs[0] & 0x0F && p.rest == bs[at + n..]
              && (if Masking(bs) then Xored(p.frame.payload, bs[at..at + n], bs[at - 4..at]) else p.frame.payload == bs[at..at + n])
  {
    ParseIs(bs, end);
    hide Parse, ParseBody, Announced, Xored;
    if WholeHeader(bs) {
      var from, k, n := 2 + LengthBytes(Low(bs[1])), if Masking(bs) then 4 else 0, Announced(bs);
      ReadBody(bs[0] & 0x0F, n, k, bs[from..], end);
      if |bs| >= from + k + n {
        Within(bs, from, k, k + n);
        Within(bs, from, 0, k);
      }
    }
  }

  // ----- writing

  lemma LeadIs(n: nat)
    ensures Lead(n) as int == (if n <= 125 then n else if n <= 65535 then 126 else 127)
    ensures |Ext(n)| == LengthBytes(Lead(n) as int)
  {
    if n <= 125 {
      SmallLead(n);
    }
  }

  /**
   The bytes of a written frame: final and with this opcode; the shortest length field, with the mask
   bit set exactly if there is a key; the key; and the payload, byte i xored with key byte i % 4.
   */
  lemma WrittenBytes(frame: Frame, mask: seq<byte>)
    requires IsMask(mask) && |frame.payload| < 0x8000_0000_0000_0000
    ensures var bs, n := Encode(frame, mask), |frame.payload|;
            && WholeHeader(bs) && bs[0] == 0x80 | frame.opcode && (Masking(bs) <==> |mask| == 4)
            && Low(bs[1]) == (if n <= 125 then n else if n <= 65535 then 126 else 127)
            && Announced(bs) == n && |bs| == PayloadAt(bs) + n
            && (if |mask| == 4 then bs[PayloadAt(bs) - 4..PayloadAt(bs)] == mask && Xored(bs[PayloadAt(bs)..], frame.payload, mask)
                else bs[PayloadAt(bs)..] == frame.payload)
  {
    var n, head := |frame.payload|, Head(frame, mask);
    EncodeHead(frame, mask);
    LeadBits(n, mask);
    MaskedIs(frame.payload, mask);
    HeadIs(frame, mask);
    LeadIs(n);
    hide *;
    var bs, data := Encode(frame, mask), Masked(frame.payload, mask);
    AllBytes(bs, head, mask, data);
    FieldsOf(bs, head, |mask|, n);
  }

  /** The header up to the length. */
  lemma HeadIs(frame: Frame, mask: seq<byte>)
    requires IsMask(mask) && |frame.payload| < 0x8000_0000_0000_0000
    ensures var head, n := Head(frame, mask), |frame.payload|;
            && WholeHeader(head) && |head| == 2 + LengthBytes(Low(head[1])) && head[0] == 0x80 | frame.opcode
            && (Masking(head) <==> |mask| == 4) && Announced(head) == n
            && Low(head[1]) == (if n <= 125 then n else if n <= 65535 then 126 else 127)
  {
    var n, head := |frame.payload|, Head(frame, mask);
    hide Ext, Lead, BigEndian, Value, Length, LengthField, ExtSize, MaskSize, LengthBytes, Low;
    var b := MaskBit(mask) | Lead(n);
    LeadBits(n, mask);
    LeadIs(n);
    LengthRead(n, b);
    LowIs(b, Lead(n));
    MaskSizes();
    assert head[1] == b && head[2..|head|] == Ext(n);
    hide Announced;
    LengthIs(head);
  }

  lemma MaskSizes()
    ensures forall b: byte {:trigger MaskSize(b)} :: MaskSize(b) == if b & 0x80 != 0 then 4 else 0
  {
  }

  lemma LowIs(b: byte, lead: byte)
    requires b & 0x7F == lead
    ensures Low(b) == lead as int
  {
  }

  lemma AllBytes(bs: seq<byte>, head: seq<byte>, mask: seq<byte>, data: seq<byte>)
    requires bs == head + (mask + data)
    ensures |bs| == |head| + |mask| + |data| && bs[..|head|] == head
    ensures bs[|head|..|head| + |mask|] == mask && bs[|head| + |mask|..] == data
  {
  }

  /** The fields depend on the header only. */
  lemma FieldsOf(bs: seq<byte>, head: seq<byte>, k: nat, n: nat)
    requires WholeHeader(head) && |head| == 2 + LengthBytes(Low(head[1])) <= |bs| && bs[..|head|] == head
    requires Masking(head) <==> k == 4
    requires k == 0 || k == 4
    ensures WholeHeader(bs) && bs[0] == head[0] && bs[1] == head[1] && Announced(bs) == Announced(head)
    ensures Masking(bs) == Masking(head) && PayloadAt(bs) == |head| + k
  {
    hide Value;
    assert bs[0] == bs[..|head|][0] && bs[1] == bs[..|head|][1];
    assert bs[2..|head|] == bs[..|head|][2..] == head[2..|head|];
  }

  /** The answer to a ping is a final masked frame with opcode 10 that a peer reads as the ping's payload; nothing else is answered. */
  lemma PongAnswers(f: Frame, mask: seq<byte>, rest: seq<byte>, end: InputEnd)
    requires |mask| == 4 && |f.payload| <= MAX_FRAME_SIZE
    ensures f.opcode != 9 ==> PongFor(f, mask) == []
    ensures f.opcode == 9 ==>
              var pong := PongFor(f, mask);
              && WholeHeader(pong) && pong[0] == 0x8A && Masking(pong)
              && Parse(pong + rest, end) == Good(Frame(10, f.payload), rest)
  {
    hide Encode, Parse, WholeHeader, Masking, Announced;
    if f.opcode == 9 {
      WrittenBytes(Frame(OP_PONG, f.payload), mask);
      FrameRoundTrip(Frame(OP_PONG, f.payload), mask, rest, end);
    }
  }
}
