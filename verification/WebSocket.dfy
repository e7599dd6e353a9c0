/** The hand-written WebSocket frame writer and reader, over a connection with a pre-filled buffer. */
module WebSocket {
  import opened Sequences

  type byte = bv8

  /** 10 MiB. */
  const MAX_FRAME_SIZE: int := 10 * 0x10_0000

  const OP_TEXT: byte := 1
  const OP_CLOSE: byte := 8
  const OP_PING: byte := 9
  const OP_PONG: byte := 10

  datatype Frame = Frame(opcode: byte, payload: seq<byte>)

  /** `Lost` is an error of the connection; `closing` says whether its text mentions a close. */
  datatype ReadError = Eof | UnexpectedEof | TooLarge(length: int) | Lost(closing: bool)

  /** What the reader finds when the bytes are used up. */
  datatype InputEnd = Ended | Interrupted(closing: bool)

  /** How many more bytes the connection takes before a write fails. */
  datatype Room = Unlimited | Limited(left: nat)

  /** The result of reading one frame off the front of a byte stream. */
  datatype Parsed = Good(frame: Frame, rest: seq<byte>) | Bad(error: ReadError)

  // ----- encoding

  function BigEndian(bs: seq<byte>): nat
  {
    if |bs| == 0 then 0 else BigEndian(bs[..|bs| - 1]) * 256 + bs[|bs| - 1] as int
  }

  /** The low k bytes of n, most significant first. */
  function Bytes(n: nat, k: nat): (bs: seq<byte>)
    ensures |bs| == k
  {
    if k == 0 then [] else Bytes(n / 256, k - 1) + [(n % 256) as byte]
  }

  /** A masking key has four bytes; an unmasked frame has none. */
  predicate IsMask(mask: seq<byte>)
  {
    |mask| == 4 || |mask| == 0
  }

  function MaskBit(mask: seq<byte>): byte
  {
    if |mask| == 0 then 0 else 0x80
  }

  function Masked(data: seq<byte>, mask: seq<byte>): (out: seq<byte>)
    requires IsMask(mask)
    ensures |out| == |data|
  {
    if |mask| == 0 then data else seq(|data|, i requires 0 <= i < |data| => data[i] ^ mask[i % 4])
  }

  function LengthField(n: nat, maskBit: byte): seq<byte>
  {
    if n <= 125 then [maskBit | (n as byte)]
    else if n <= 65535 then [maskBit | 126] + Bytes(n, 2)
    else [maskBit | 127] + Bytes(n, 8)
  }

  function Header(opcode: byte, n: nat, mask: seq<byte>): seq<byte>
  {
    [0x80 | opcode] + LengthField(n, MaskBit(mask)) + mask
  }

  /** One final frame; clients mask, servers do not. */
  function Encode(frame: Frame, mask: seq<byte>): seq<byte>
    requires IsMask(mask)
  {
    Header(frame.opcode, |frame.payload|, mask) + Masked(frame.payload, mask)
  }

  // ----- decoding

  datatype Taken = Taken(data: seq<byte>, rest: seq<byte>) | Short(error: ReadError)

  /** The error of a read that wants more than there is: an end of input is clean only before the first byte. */
  function Missing(end: InputEnd, untouched: bool): ReadError
  {
    match end
    case Ended => if untouched then Eof else UnexpectedEof
    case Interrupted(closing) => Lost(closing)
  }

  /** Reading exactly n bytes. */
  function Take(bs: seq<byte>, n: nat, end: InputEnd): (t: Taken)
    ensures t.Taken? <==> n <= |bs|
    ensures t.Taken? ==> |t.data| == n && t.data + t.rest == bs
  {
    if n <= |bs| then Taken(bs[..n], bs[n..]) else Short(Missing(end, |bs| == 0))
  }

  function ExtSize(b: byte): nat
  {
    if b & 0x7F == 126 then 2 else if b & 0x7F == 127 then 8 else 0
  }

  function MaskSize(b: byte): nat
  {
    if b & 0x80 != 0 then 4 else 0
  }

  function Length(b: byte, ext: seq<byte>): nat
  {
    if ExtSize(b) == 0 then (b & 0x7F) as int else BigEndian(ext)
  }

  function Parse(bs: seq<byte>, end: InputEnd): (p: Parsed)
    ensures p.Good? ==> |p.rest| < |bs|
  {
    match Take(bs, 2, end)
    case Short(e) => Bad(e)
    case Taken(h, r1) =>
      match Take(r1, ExtSize(h[1]), end)
      case Short(e) => Bad(e)
      case Taken(ext, r2) => ParseBody(h[0] & 0x0F, Length(h[1], ext), MaskSize(h[1]), r2, end)
  }

  function ParseBody(opcode: byte, n: nat, maskSize: nat, bs: seq<byte>, end: InputEnd): (p: Parsed)
    requires maskSize == 0 || maskSize == 4
    ensures p.Good? ==> |p.rest| <= |bs|
  {
    if n > MAX_FRAME_SIZE then Bad(TooLarge(n))
    else match Take(bs, maskSize, end)
      case Short(e) => Bad(e)
      case Taken(mask, r1) =>
        match Take(r1, n, end)
        case Short(e) => Bad(e)
        case Taken(data, r2) => Good(Frame(opcode, Masked(data, mask)), r2)
  }

  // ----- writing

  predicate Fits(n: nat, room: Room)
  {
    room.Unlimited? || n <= room.left
  }

  /** What gets through of the bytes. */
  function Accepted(bs: seq<byte>, room: Room): seq<byte>
  {
    if Fits(|bs|, room) then bs else bs[..room.left]
  }

  function After(room: Room, n: nat): Room
  {
    match room
    case Unlimited => Unlimited
    case Limited(left) => Limited(if n <= left then left - n else 0)
  }

  // ----- the connection

  /**
   Bytes left over from the handshake, then segments as the network delivers them, then how the input
   ends; what was written, and how much more can be.
   */
  class Conn {
    var buffered: seq<byte>
    var raw: seq<seq<byte>>
    const end: InputEnd
    var sent: seq<byte>
    var room: Room

    ghost predicate Valid()
      reads this`raw
    {
      forall i :: 0 <= i < |raw| ==> |raw[i]| > 0
    }

    /** Everything still to be read. */
    ghost function Incoming(): seq<byte>
      reads this`buffered, this`raw
    {
      buffered + Flatten(raw)
    }

    constructor (buffered: seq<byte>, raw: seq<seq<byte>>, end: InputEnd, room: Room)
      requires forall i :: 0 <= i < |raw| ==> |raw[i]| > 0
      ensures Valid() && Incoming() == buffered + Flatten(raw) && this.end == end && sent == [] && this.room == room
    {
      this.buffered, this.raw, this.end, this.sent, this.room := buffered, raw, end, [], room;
    }

    /** Fills some of p from position `from` on; drains the handshake buffer before touching the network. */
    method Read(p: array<byte>, from: nat) returns (n: nat, ok: bool)
      requires Valid() && from < p.Length
      modifies this`buffered, this`raw, p
      ensures Valid() && p[..from] == old(p[..from])
      ensures ok <==> old(Incoming()) != []
      ensures !ok ==> n == 0 && Incoming() == []
      ensures ok ==> 1 <= n && from + n <= p.Length && n <= |old(Incoming())|
                     && p[from..from + n] == old(Incoming())[..n] && Incoming() == old(Incoming())[n..]
    {
      if |buffered| > 0 {
        n := ReadBuffered(p, from);
        ok := true;
      } else {
        n, ok := ReadRaw(p, from);
      }
    }

    method ReadBuffered(p: array<byte>, from: nat) returns (n: nat)
      requires Valid() && from < p.Length && |buffered| > 0
      modifies this`buffered, p
      ensures p[..from] == old(p[..from])
      ensures 1 <= n && from + n <= p.Length && n <= |old(Incoming())|
      ensures p[from..from + n] == old(Incoming())[..n] && Incoming() == old(Incoming())[n..]
    {
      n := CopyInto(p, from, buffered);
      CutFront(buffered, Flatten(raw), n);
      buffered := buffered[n..];
    }

    /** The network delivers from its first segment. */
    method ReadRaw(p: array<byte>, from: nat) returns (n: nat, ok: bool)
      requires Valid() && from < p.Length && buffered == []
      modifies this`raw, p
      ensures Valid() && p[..from] == old(p[..from])
      ensures ok <==> old(Incoming()) != []
      ensures !ok ==> n == 0 && Incoming() == []
      ensures ok ==> 1 <= n && from + n <= p.Length && n <= |old(Incoming())|
                     && p[from..from + n] == old(Incoming())[..n] && Incoming() == old(Incoming())[n..]
    {
      if |raw| == 0 {
        assert Flatten(raw) == [];
        return 0, false;
      }
      var data, rest := raw[0], raw[1..];
      n := CopyInto(p, from, data);
      FlattenCons(data, rest);
      CutFront(data, Flatten(rest), n);
      assert raw == [data] + rest;
      FlattenCons(data[n..], rest);
      hide Flatten;
      raw := if n == |data| then rest else [data[n..]] + rest;
      ok := true;
    }

    method Write(bs: seq<byte>) returns (ok: bool)
      modifies this`sent, this`room
      ensures ok <==> Fits(|bs|, old(room))
      ensures sent == old(sent) + Accepted(bs, old(room)) && room == After(old(room), |bs|)
    {
      ok := Fits(|bs|, room);
      sent, room := sent + Accepted(bs, room), After(room, |bs|);
    }
  }

  /** Copies as much of the data as fits. */
  method CopyInto(p: array<byte>, from: nat, data: seq<byte>) returns (n: nat)
    requires from < p.Length && |data| > 0
    modifies p
    ensures 1 <= n <= |data| && from + n <= p.Length
    ensures p[..from] == old(p[..from]) && p[from..from + n] == data[..n]
  {
    n := if |data| < p.Length - from then |data| else p.Length - from;
    forall i | 0 <= i < n {
      p[from + i] := data[i];
    }
  }

  lemma CutFront(data: seq<byte>, rest: seq<byte>, n: nat)
    requires n <= |data|
    ensures (data + rest)[..n] == data[..n] && (data + rest)[n..] == data[n..] + rest
  {
  }

  /** Fills p completely, or reports how the input ended. */
  method ReadFull(conn: Conn, p: array<byte>) returns (err: ReadError, ok: bool)
    requires conn.Valid()
    modifies conn`buffered, conn`raw, p
    ensures conn.Valid()
    ensures var t := Take(old(conn.Incoming()), p.Length, conn.end);
            && ok == t.Taken?
            && (ok ==> p[..] == t.data && conn.Incoming() == t.rest)
            && (!ok ==> err == t.error)
  {
    var got := 0;
    err, ok := Eof, true;
    ghost var all := conn.Incoming();
    while got < p.Length
      invariant conn.Valid() && got <= p.Length && got <= |all|
      invariant p[..got] == all[..got] && conn.Incoming() == all[got..]
      decreases p.Length - got
    {
      var n, more := conn.Read(p, got);
      if !more {
        assert |all| == got;
        return Missing(conn.end, got == 0), false;
      }
      assert p[..got + n] == p[..got] + p[got..got + n];
      assert all[..got + n] == all[..got] + all[got..][..n];
      got := got + n;
    }
    assert p[..] == p[..got];
  }

  /** The masked copy of the payload. */
  method MaskPayload(payload: seq<byte>, mask: seq<byte>) returns (masked: array<byte>)
    requires |mask| == 4
    ensures fresh(masked) && masked[..] == Masked(payload, mask)
  {
    masked := new byte[|payload|];
    var i := 0;
    while i < |payload|
      invariant 0 <= i <= |payload|
      invariant forall j :: 0 <= j < i ==> masked[j] == Masked(payload, mask)[j]
    {
      masked[i] := payload[i] ^ mask[i % 4];
      i := i + 1;
    }
  }

  method WriteFrame(conn: Conn, opcode: byte, payload: seq<byte>, mask: seq<byte>) returns (ok: bool)
    requires |mask| == 4
    modifies conn`sent, conn`room
    ensures var bs := Encode(Frame(opcode, payload), mask);
            && ok == Fits(|bs|, old(conn.room))
            && conn.sent == old(conn.sent) + Accepted(bs, old(conn.room)) && conn.room == After(old(conn.room), |bs|)
  {
    hide Masked, Bytes, Accepted, After, Fits;
    var header: seq<byte> := [0x80 | opcode];
    var length := |payload|;
    if length <= 125 {
      header := header + [0x80 | (length as byte)];
    } else if length <= 65535 {
      header := header + [0x80 | 126];
      header := header + Bytes(length, 2);
    } else {
      header := header + [0x80 | 127];
      header := header + Bytes(length, 8);
    }
    header := header + mask;
    assert header == Header(opcode, length, mask);
    var masked := MaskPayload(payload, mask);
    hide Header, LengthField;
    var frame := header + masked[..];
    assert frame == Encode(Frame(opcode, payload), mask);
    ok := conn.Write(frame);
  }

  /** Unmasks in place. */
  method Unmask(data: array<byte>, mask: seq<byte>)
    requires |mask| == 4
    modifies data
    ensures data[..] == Masked(old(data[..]), mask)
  {
    var i := 0;
    while i < data.Length
      invariant 0 <= i <= data.Length
      invariant forall j :: 0 <= j < i ==> data[j] == old(data[j]) ^ mask[j % 4]
      invariant forall j :: i <= j < data.Length ==> data[j] == old(data[j])
    {
      data[i] := data[i] ^ mask[i % 4];
      i := i + 1;
    }
  }

  datatype FrameResult = Received(frame: Frame) | Failed(error: ReadError)

  /** Reads one frame. The result depends only on the bytes, not on how they are split over buffer and segments. */
  method ReadFrame(conn: Conn) returns (r: FrameResult)
    requires conn.Valid()
    modifies conn`buffered, conn`raw
    ensures conn.Valid()
    ensures match Parse(old(conn.Incoming()), conn.end)
            case Good(frame, rest) => r == Received(frame) && conn.Incoming() == rest
            case Bad(e) => r == Failed(e)
  {
    var header := new byte[2];
    var e, ok := ReadFull(conn, header);
    if !ok {
      return Failed(e);
    }
    var opcode, masked := header[0] & 0x0F, header[1] & 0x80 != 0;
    assert header[..][0] == header[0] && header[..][1] == header[1];
    var length;
    e, ok, length := ReadLength(conn, header[1]);
    if !ok {
      return Failed(e);
    }
    r := ReadBody(conn, opcode, length, masked);
  }

  /** The middle of readFrame: the extended length, if the header announces one. */
  method ReadLength(conn: Conn, b: byte) returns (err: ReadError, ok: bool, length: nat)
    requires conn.Valid()
    modifies conn`buffered, conn`raw
    ensures conn.Valid()
    ensures var t := Take(old(conn.Incoming()), ExtSize(b), conn.end);
            && ok == t.Taken?
            && (ok ==> length == Length(b, t.data) && conn.Incoming() == t.rest)
            && (!ok ==> err == t.error)
  {
    err, ok, length := Eof, true, (b & 0x7F) as int;
    if b & 0x7F == 126 {
      var ext := new byte[2];
      err, ok := ReadFull(conn, ext);
      length := BigEndian(ext[..]);
    } else if b & 0x7F == 127 {
      var ext := new byte[8];
      err, ok := ReadFull(conn, ext);
      length := BigEndian(ext[..]);
    }
  }

  /** The second half of readFrame: size check, masking key, payload. */
  method ReadBody(conn: Conn, opcode: byte, length: nat, masked: bool) returns (r: FrameResult)
    requires conn.Valid()
    modifies conn`buffered, conn`raw
    ensures conn.Valid()
    ensures match ParseBody(opcode, length, if masked then 4 else 0, old(conn.Incoming()), conn.end)
            case Good(frame, rest) => r == Received(frame) && conn.Incoming() == rest
            case Bad(e) => r == Failed(e)
  {
    if length > MAX_FRAME_SIZE {
      return Failed(TooLarge(length));
    }
    var mask := new byte[4];
    if masked {
      var e, ok := ReadFull(conn, mask);
      if !ok {
        return Failed(e);
      }
    }
    var payload := new byte[length];
    var e, ok := ReadFull(conn, payload);
    if !ok {
      return Failed(e);
    }
    if masked {
      Unmask(payload, mask[..]);
    }
    r := Received(Frame(opcode, payload[..]));
  }
}
