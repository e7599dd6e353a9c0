/** The receive loop of the WebSocket runner: frames, pongs, text and timing. */
module WebSocketRunner {
  import opened Sequences
  import opened Streaming
  import opened Text
  import opened WebSocket
  import opened WebSocketLaws

  /** `Unanswered`: the last frame is a ping whose pong did not get through. */
  datatype Ending = Orderly | Broken(error: ReadError) | Unanswered

  /** The frames a client counts before it stops, and why it stops. */
  datatype Talk = Talk(frames: seq<Frame>, ending: Ending)

  /** A clean end of input counts as a close, and so does an error that mentions one. */
  function EndingOf(e: ReadError): Ending
  {
    if e == Eof || e == Lost(true) then Orderly else Broken(e)
  }

  /** What the loop makes of the bytes, the end of the input and the room for its pongs. */
  function Conversation(bs: seq<byte>, end: InputEnd, room: Room): Talk
    decreases |bs|
  {
    match Parse(bs, end)
    case Bad(e) => Talk([], EndingOf(e))
    case Good(frame, rest) =>
      if !Fits(PongSize(frame), room) then Talk([frame], Unanswered)
      else if frame.opcode == OP_CLOSE then Talk([frame], Orderly)
      else var more := Conversation(rest, end, After(room, PongSize(frame))); Talk([frame] + more.frames, more.ending)
  }

  function PayloadSize(): Frame -> int
  {
    (f: Frame) => |f.payload|
  }

  /** The text payloads, a space after each. */
  function TextOf(frames: seq<Frame>): seq<byte>
  {
    if |frames| == 0 then []
    else
      var last := frames[|frames| - 1];
      TextOf(frames[..|frames| - 1]) + (if last.opcode == OP_TEXT then last.payload + [0x20] else [])
  }

  /** The random masking keys, one for each answer; a key of another length counts as four zero bytes. */
  datatype Masks = Masks(key: nat -> seq<byte>)

  function Mask(masks: Masks, i: nat): (mask: seq<byte>)
    ensures |mask| == 4
  {
    var key := masks.key(i);
    if |key| == 4 then key else [0, 0, 0, 0]
  }

  /** The answer a frame calls for. */
  function PongFor(f: Frame, mask: seq<byte>): seq<byte>
    requires |mask| == 4
  {
    if f.opcode == OP_PING then Encode(Frame(OP_PONG, f.payload), mask) else []
  }

  /** Its size does not depend on the mask. */
  function PongSize(f: Frame): nat
  {
    |PongFor(f, [0, 0, 0, 0])|
  }

  lemma PongSizeIs(f: Frame, mask: seq<byte>)
    requires |mask| == 4
    ensures |PongFor(f, mask)| == PongSize(f)
  {
  }

  /** The bytes of all the pongs these frames call for. */
  function PongTotal(frames: seq<Frame>): nat
  {
    if |frames| == 0 then 0 else PongSize(frames[0]) + PongTotal(frames[1..])
  }

  /** The pongs owed for these frames: each ping's payload comes back under a mask of its own. */
  ghost function Pongs(frames: seq<Frame>, masks: Masks): seq<byte>
  {
    if |frames| == 0 then []
    else
      var k := |frames| - 1;
      Pongs(frames[..k], masks) + PongFor(frames[k], Mask(masks, k))
  }

  /** `tokens` is the number of words in the collected text. */
  datatype SessionReport = SessionReport(ending: Ending, success: bool, aborted: bool, bytesRead: int, timing: Timing, tokens: int, estimated: bool)

  /** Bytes as characters. */
  function AsText(bs: seq<byte>): (s: string)
    ensures |s| == |bs|
  {
    seq(|bs|, i requires 0 <= i < |bs| => bs[i] as char)
  }

  function FrameWords(): Frame -> int
  {
    (f: Frame) => if f.opcode == OP_TEXT then WordCount(AsText(f.payload)) else 0
  }

  /** The words of the collected text are the words of the text frames. */
  lemma {:induction false} CollectedWords(frames: seq<Frame>)
    ensures WordCount(AsText(TextOf(frames))) == Sum(frames, FrameWords())
    ensures TextOf(frames) == [] || TextOf(frames)[|TextOf(frames)| - 1] == 0x20
  {
    if |frames| == 0 {
      assert AsText([]) == "";
    } else {
      hide WordCount, AsText;
      var init, last := frames[..|frames| - 1], frames[|frames| - 1];
      CollectedWords(init);
      if last.opcode == OP_TEXT {
        OneMoreText(TextOf(init), last.payload);
        assert TextOf(frames) == TextOf(init) + (last.payload + [0x20]);
      } else {
        assert TextOf(frames) == TextOf(init);
      }
    }
  }

  lemma OneMoreText(before: seq<byte>, payload: seq<byte>)
    requires before == [] || before[|before| - 1] == 0x20
    ensures WordCount(AsText(before + (payload + [0x20]))) == WordCount(AsText(before)) + WordCount(AsText(payload))
  {
    var joined := AsText(before) + AsText(payload);
    assert AsText(before + (payload + [0x20])) == joined + [' '] + "";
    assert WordCount("") == 0;
    assert before == [] || AsText(before)[|before| - 1] == ' ';
    hide WordCount;
    WordCountAcross(joined, ' ', "");
    WordsAfterSpace(AsText(before), AsText(payload));
  }

  /** What the loop's variables hold once these frames are counted. */
  ghost predicate Tallied(frames: seq<Frame>, clock: Clock, bytesRead: int, text: seq<byte>,
                          first: Option<int>, last: int, itl: seq<int>)
  {
    && bytesRead == Sum(frames, PayloadSize()) && text == TextOf(frames)
    && Observed(Readings(clock, |frames|), first, last, itl)
  }

  /** The bookkeeping for one frame; the previous chunk's time is always the last one's. */
  method CountFrame(ghost frames: seq<Frame>, f: Frame, now: int, ghost clock: Clock, bytesRead: int, text: seq<byte>,
                    first: Option<int>, last: int, itl: seq<int>)
    returns (newBytes: int, newText: seq<byte>, newFirst: Option<int>, newLast: int, newItl: seq<int>)
    requires Tallied(frames, clock, bytesRead, text, first, last, itl) && now == Now(clock, |frames|)
    ensures Tallied(frames + [f], clock, newBytes, newText, newFirst, newLast, newItl)
  {
    newBytes, newText, newFirst, newLast, newItl := bytesRead + |f.payload|, text, first, now, itl;
    if first.None? {
      newFirst := Some(now);
    } else {
      newItl := newItl + [now - last];
    }
    if f.opcode == OP_TEXT {
      newText := newText + f.payload + [0x20];
    }
    SumSnoc(frames, f, PayloadSize());
    assert (frames + [f])[..|frames|] == frames;
    ObservedNext(Readings(clock, |frames|), first, last, itl, now);
    assert Readings(clock, |frames| + 1) == Readings(clock, |frames|) + [now];
  }

  lemma AnsweredNext(before: seq<byte>, after: seq<byte>, frames: seq<Frame>, f: Frame, masks: Masks, start: Room, room: Room)
    requires Answered(before, after, frames, masks, start) && Open(frames, masks, start, room)
    ensures var pong := PongFor(f, Mask(masks, |frames|));
            && Answered(before, after + Accepted(pong, room), frames + [f], masks, start)
            && (Fits(|pong|, room) ==> Open(frames + [f], masks, start, After(room, |pong|)))
  {
    assert (frames + [f])[..|frames|] == frames;
    hide PongFor, Mask;
    AcceptedMore(Pongs(frames, masks), PongFor(f, Mask(masks, |frames|)), start);
    Associative(before, Pongs(frames, masks), Accepted(PongFor(f, Mask(masks, |frames|)), room));
  }

  lemma AcceptedMore(a: seq<byte>, b: seq<byte>, start: Room)
    requires Fits(|a|, start)
    ensures Accepted(a + b, start) == a + Accepted(b, After(start, |a|))
    ensures Fits(|b|, After(start, |a|)) <==> Fits(|a + b|, start)
    ensures After(After(start, |a|), |b|) == After(start, |a + b|)
  {
  }

  /** What a run over these frames reports. */
  ghost predicate Reports(talk: Talk, start: int, clock: Clock, r: SessionReport)
  {
    var n := |talk.frames|;
    && r.ending == talk.ending && r.success == talk.ending.Orderly? && r.aborted == !r.success
    && r.bytesRead == Sum(talk.frames, PayloadSize())
    && (r.success ==> r.timing == TimingOf(start, Readings(clock, n), Now(clock, n)))
    && (r.success ==> r.tokens == Sum(talk.frames, FrameWords()) && r.estimated == NonBlank(AsText(TextOf(talk.frames))))
    && (!r.success ==> r.timing == Timing(0, 0, [], Now(clock, n) - start) && r.tokens == 0 && !r.estimated)
  }

  /** How far the conversation is: these frames are counted, this input and this room are left. */
  ghost predicate Reached(talk: Talk, frames: seq<Frame>, left: seq<byte>, end: InputEnd, room: Room)
  {
    var more := Conversation(left, end, room);
    talk == Talk(frames + more.frames, more.ending)
  }

  ghost predicate Finished(talk: Talk, frames: seq<Frame>, ending: Ending)
  {
    talk == Talk(frames, ending)
  }

  /** The pongs for these frames were written, as far as there was room. */
  ghost predicate Answered(before: seq<byte>, after: seq<byte>, frames: seq<Frame>, masks: Masks, start: Room)
  {
    after == before + Accepted(Pongs(frames, masks), start)
  }

  /** All of them got through and this room is left. */
  ghost predicate Open(frames: seq<Frame>, masks: Masks, start: Room, room: Room)
  {
    Fits(|Pongs(frames, masks)|, start) && room == After(start, |Pongs(frames, masks)|)
  }

  /** How the conversation stands after the frame f, with this input left. */
  ghost predicate Advanced(talk: Talk, frames: seq<Frame>, f: Frame, left: seq<byte>, end: InputEnd, room: Room)
  {
    if !Fits(PongSize(f), room) then Finished(talk, frames + [f], Unanswered)
    else if f.opcode == OP_CLOSE then Finished(talk, frames + [f], Orderly)
    else Reached(talk, frames + [f], left, end, After(room, PongSize(f)))
  }

  lemma ReachedNext(talk: Talk, frames: seq<Frame>, left: seq<byte>, end: InputEnd, room: Room)
    requires Reached(talk, frames, left, end, room)
    ensures match Parse(left, end)
            case Bad(e) => Finished(talk, frames, EndingOf(e))
            case Good(f, rest) => |rest| < |left| && Advanced(talk, frames, f, rest, end, room)
  {
    hide Fits, PongSize, After, EndingOf;
    match Parse(left, end)
    case Bad(e) =>
      assert frames + [] == frames;
    case Good(f, rest) =>
      assert forall more :: frames + ([f] + more) == (frames + [f]) + more;
  }

  /** One read of the loop: how the conversation stands after it. */
  method ReadNext(conn: Conn, ghost talk: Talk, ghost frames: seq<Frame>) returns (got: FrameResult)
    requires conn.Valid() && Reached(talk, frames, conn.Incoming(), conn.end, conn.room)
    modifies conn`buffered, conn`raw
    ensures conn.Valid()
    ensures got.Failed? ==> Finished(talk, frames, EndingOf(got.error))
    ensures got.Received? ==> |conn.Incoming()| < |old(conn.Incoming())|
    ensures got.Received? ==> Advanced(talk, frames, got.frame, conn.Incoming(), conn.end, conn.room)
  {
    ReachedNext(talk, frames, conn.Incoming(), conn.end, conn.room);
    got := ReadFrame(conn);
  }

  /** The end of a turn: the pong, if one is due, and whether the loop stops. */
  method AnswerNext(conn: Conn, frame: Frame, i: nat, masks: Masks,
                    ghost talk: Talk, ghost frames: seq<Frame>, ghost before: seq<byte>, ghost start: Room)
    returns (ending: Ending, stop: bool)
    requires conn.Valid() && i == |frames| && Advanced(talk, frames, frame, conn.Incoming(), conn.end, conn.room)
    requires Answered(before, conn.sent, frames, masks, start) && Open(frames, masks, start, conn.room)
    modifies conn`sent, conn`room
    ensures conn.Valid() && conn.Incoming() == old(conn.Incoming())
    ensures Answered(before, conn.sent, frames + [frame], masks, start)
    ensures if stop then Finished(talk, frames + [frame], ending)
            else ending == Orderly && Open(frames + [frame], masks, start, conn.room)
                 && Reached(talk, frames + [frame], conn.Incoming(), conn.end, conn.room)
  {
    hide *;
    PongSizeIs(frame, Mask(masks, i));
    AnsweredNext(before, conn.sent, frames, frame, masks, start, conn.room);
    ghost var left, end, room := conn.Incoming(), conn.end, conn.room;
    var ok := Respond(conn, frame, Mask(masks, i));
    assert conn.Incoming() == left;
    AdvancedIs(talk, frames, frame, left, end, room);
    ending, stop := if ok then Orderly else Unanswered, !ok || frame.opcode == OP_CLOSE;
  }

  lemma AdvancedIs(talk: Talk, frames: seq<Frame>, f: Frame, left: seq<byte>, end: InputEnd, room: Room)
    requires Advanced(talk, frames, f, left, end, room)
    ensures !Fits(PongSize(f), room) ==> Finished(talk, frames + [f], Unanswered)
    ensures Fits(PongSize(f), room) && f.opcode == OP_CLOSE ==> Finished(talk, frames + [f], Orderly)
    ensures Fits(PongSize(f), room) && f.opcode != OP_CLOSE ==> Reached(talk, frames + [f], left, end, After(room, PongSize(f)))
  {
  }

  /** The loop: counts frames and answers pings until a close, the end of input or an error. */
  method CountFrames(conn: Conn, clock: Clock, masks: Masks)
    returns (ending: Ending, count: nat, bytesRead: int, text: seq<byte>, first: Option<int>, last: int, itl: seq<int>)
    requires conn.Valid()
    modifies conn
    ensures conn.Valid()
    ensures var talk := Conversation(old(conn.Incoming()), conn.end, old(conn.room));
            && ending == talk.ending && count == |talk.frames|
            && Tallied(talk.frames, clock, bytesRead, text, first, last, itl)
            && Answered(old(conn.sent), conn.sent, talk.frames, masks, old(conn.room))
  {
    ghost var talk, frames := Conversation(conn.Incoming(), conn.end, conn.room), [];
    ghost var before, start := conn.sent, conn.room;
    NothingYet(talk, conn.Incoming(), conn.end, start, before, clock, masks);
    hide *;
    ending, count, bytesRead, text := Orderly, 0, 0, [];
    first, last, itl := None, 0, [];
    var stop := false;
    while !stop
      invariant conn.Valid() && |frames| == count
      invariant if stop then Finished(talk, frames, ending)
                else Reached(talk, frames, conn.Incoming(), conn.end, conn.room) && Open(frames, masks, start, conn.room)
      invariant Tallied(frames, clock, bytesRead, text, first, last, itl)
      invariant Answered(before, conn.sent, frames, masks, start)
      decreases !stop, |conn.Incoming()|
    {
      var got := ReadNext(conn, talk, frames);
      if got.Failed? {
        ending, stop := EndingOf(got.error), true;
      } else {
        var frame := got.frame;
        bytesRead, text, first, last, itl := CountFrame(frames, frame, Now(clock, count), clock, bytesRead, text, first, last, itl);
        ending, stop := AnswerNext(conn, frame, count, masks, talk, frames, before, start);
        count := count + 1;
        frames := frames + [frame];
      }
    }
    FinishedIs(talk, frames, ending);
  }

  lemma NothingYet(talk: Talk, left: seq<byte>, end: InputEnd, room: Room, sent: seq<byte>, clock: Clock, masks: Masks)
    requires talk == Conversation(left, end, room)
    ensures Reached(talk, [], left, end, room) && Open([], masks, room, room) && Answered(sent, sent, [], masks, room)
    ensures Tallied([], clock, 0, [], None, 0, [])
  {
    assert [] + talk.frames == talk.frames;
  }

  lemma FinishedIs(talk: Talk, frames: seq<Frame>, ending: Ending)
    requires Finished(talk, frames, ending)
    ensures talk == Talk(frames, ending)
  {
  }

  method Respond(conn: Conn, frame: Frame, mask: seq<byte>) returns (ok: bool)
    requires |mask| == 4
    modifies conn`sent, conn`room
    ensures var pong := PongFor(frame, mask);
            && ok == Fits(|pong|, old(conn.room))
            && conn.sent == old(conn.sent) + Accepted(pong, old(conn.room)) && conn.room == After(old(conn.room), |pong|)
  {
    ok := true;
    if frame.opcode == OP_PING {
      ok := WriteFrame(conn, OP_PONG, frame.payload, mask);
    }
  }

  /**
   The clock is read once per frame and once at the end; Mask(masks, i) is the random key for an answer
   to frame i. Of the pongs owed, what the connection had room for was written.
   */
  method Receive(conn: Conn, start: int, clock: Clock, masks: Masks) returns (r: SessionReport)
    requires conn.Valid()
    modifies conn
    ensures conn.Valid()
    ensures var talk := Conversation(old(conn.Incoming()), conn.end, old(conn.room));
            && Reports(talk, start, clock, r)
            && conn.sent == old(conn.sent) + Accepted(Pongs(talk.frames, masks), old(conn.room))
  {
    ghost var talk := Conversation(conn.Incoming(), conn.end, conn.room);
    var ending, count, bytesRead, text, first, last, itl := CountFrames(conn, clock, masks);
    hide Conversation, TextOf, Pongs, Sum, Conn.Incoming, Accepted;
    if ending.Orderly? {
      r := Complete(talk, start, clock, count, bytesRead, text, first, last, itl);
    } else {
      r := SessionReport(ending, false, true, bytesRead, Timing(0, 0, [], Now(clock, count) - start), 0, false);
    }
  }

  /** The report at the end of an orderly conversation. */
  method Complete(ghost talk: Talk, start: int, clock: Clock, count: nat, bytesRead: int, text: seq<byte>,
                  first: Option<int>, last: int, itl: seq<int>)
    returns (r: SessionReport)
    requires talk.ending.Orderly? && count == |talk.frames|
    requires Tallied(talk.frames, clock, bytesRead, text, first, last, itl)
    ensures Reports(talk, start, clock, r)
  {
    CollectedWords(talk.frames);
    hide TextOf, Gaps, Sum, WordCount, NonBlank, AsText;
    var latency := Now(clock, count) - start;
    var ttft := if first.Some? then first.value - start else 0;
    var generation := if first.Some? then last - first.value else 0;
    var tokens, estimated := EstimateTokens(AsText(text));
    r := SessionReport(Orderly, true, false, bytesRead, Timing(ttft, generation, itl, latency), tokens, estimated);
  }

  // ----- what a peer's frames lead to

  predicate NoClose(frames: seq<Frame>)
  {
    forall i :: 0 <= i < |frames| ==> frames[i].opcode != OP_CLOSE
  }

  /** No frame closes the conversation and every pong gets through. */
  predicate Passes(frames: seq<Frame>, room: Room)
  {
    NoClose(frames) && Fits(PongTotal(frames), room)
  }

  /** The frames up to and including the first close or the first ping without room for its pong. */
  function UpToStop(frames: seq<Frame>, room: Room): seq<Frame>
  {
    if |frames| == 0 then []
    else if frames[0].opcode == OP_CLOSE || !Fits(PongSize(frames[0]), room) then [frames[0]]
    else [frames[0]] + UpToStop(frames[1..], After(room, PongSize(frames[0])))
  }

  function Onwards(frames: seq<Frame>, more: Talk): Talk
  {
    Talk(frames + more.frames, more.ending)
  }

  /** Orderly if all pongs got through: then a close was the last frame. */
  function Stopped(heard: seq<Frame>, room: Room): Talk
  {
    Talk(heard, if Fits(PongTotal(heard), room) then Orderly else Unanswered)
  }

  /** The conversation over these frames, if the given bytes come after them. */
  function TalkOver(frames: seq<Frame>, tail: seq<byte>, end: InputEnd, room: Room): Talk
  {
    if Passes(frames, room) then Onwards(frames, Conversation(tail, end, After(room, PongTotal(frames))))
    else Stopped(UpToStop(frames, room), room)
  }

  /** Whatever follows the peer's frames: a close or a failing pong ends the conversation there, otherwise it goes on. */
  lemma {:induction false} ConversationOf(sends: seq<Sent>, tail: seq<byte>, end: InputEnd, room: Room)
    requires AllSendable(sends) && WithinLimit(sends)
    ensures Conversation(EncodeAll(sends) + tail, end, room) == TalkOver(FramesOf(sends), tail, end, room)
  {
    hide Encode, Parse, PongSize, Fits, After, TalkOver;
    if |sends| == 0 {
      NothingSent(tail, end, room);
      assert EncodeAll(sends) + tail == tail;
      assert FramesOf(sends) == [];
    } else {
      var s, rest := sends[0], sends[1..];
      assert Sendable(s);
      var more := EncodeAll(rest) + tail;
      assert EncodeAll(sends) + tail == Encode(s.frame, s.mask) + more;
      FrameRoundTrip(s.frame, s.mask, more, end);
      LowOpcode(s.frame.opcode);
      ConversationOf(rest, tail, end, After(room, PongSize(s.frame)));
      assert FramesOf(sends) == [s.frame] + FramesOf(rest);
      OneMore(s.frame, FramesOf(rest), tail, end, room);
    }
  }

  lemma PassesCons(f: Frame, rest: seq<Frame>, room: Room)
    ensures Passes([f] + rest, room)
       <==> f.opcode != OP_CLOSE && Fits(PongSize(f), room) && Passes(rest, After(room, PongSize(f)))
    ensures Fits(PongSize(f), room) ==> After(room, PongTotal([f] + rest)) == After(After(room, PongSize(f)), PongTotal(rest))
    ensures Fits(PongTotal([f] + rest), room) <==> Fits(PongSize(f), room) && Fits(PongTotal(rest), After(room, PongSize(f)))
  {
    hide PongSize;
    assert ([f] + rest)[1..] == rest;
    NoCloseCons(f, rest);
  }

  lemma NothingSent(tail: seq<byte>, end: InputEnd, room: Room)
    ensures TalkOver([], tail, end, room) == Conversation(tail, end, room)
  {
    hide Parse, Conversation, PongSize;
    assert [] + Conversation(tail, end, room).frames == Conversation(tail, end, room).frames;
  }

  /** One frame in front of the others. */
  lemma OneMore(f: Frame, rest: seq<Frame>, tail: seq<byte>, end: InputEnd, room: Room)
    ensures TalkOver([f] + rest, tail, end, room) ==
            if !Fits(PongSize(f), room) then Talk([f], Unanswered)
            else if f.opcode == OP_CLOSE then Talk([f], Orderly)
            else Onwards([f], TalkOver(rest, tail, end, After(room, PongSize(f))))
  {
    hide PongSize, Fits, After, Passes, Conversation, PongTotal;
    var next := After(room, PongSize(f));
    PassesCons(f, rest, room);
    assert ([f] + rest)[1..] == rest;
    if Fits(PongSize(f), room) && f.opcode != OP_CLOSE {
      var more, heard := Conversation(tail, end, After(next, PongTotal(rest))), UpToStop(rest, next);
      assert ([f] + rest) + more.frames == [f] + (rest + more.frames);
      PassesCons(f, heard, room);
    } else {
      JustOne(f);
    }
  }

  lemma JustOne(f: Frame)
    ensures PongTotal([f]) == PongSize(f)
  {
  }

  lemma NoCloseCons(f: Frame, rest: seq<Frame>)
    ensures NoClose([f] + rest) <==> f.opcode != OP_CLOSE && NoClose(rest)
  {
    assert forall i :: 0 <= i < |rest| ==> ([f] + rest)[i + 1] == rest[i];
    assert ([f] + rest)[0] == f;
  }

  /**
   A stream that breaks off inside a frame is reported as a success exactly when the pongs before it got
   through and the input ended between two fields, or the connection failed with an error that mentions
   a close.
   */
  lemma BrokenStream(sends: seq<Sent>, frame: Frame, mask: seq<byte>, cut: nat, end: InputEnd, room: Room)
    requires AllSendable(sends) && WithinLimit(sends) && NoClose(FramesOf(sends))
    requires IsMask(mask) && |frame.payload| <= MAX_FRAME_SIZE && cut < |Encode(frame, mask)|
    ensures var talk, answered := Conversation(EncodeAll(sends) + Encode(frame, mask)[..cut], end, room), Fits(PongTotal(FramesOf(sends)), room);
            && (answered ==> talk.frames == FramesOf(sends))
            && (talk.ending == Orderly <==> answered && (if end.Ended? then AtBoundary(frame, mask, cut) else end.closing))
  {
    hide *;
    var frames, tail := FramesOf(sends), Encode(frame, mask)[..cut];
    ConversationOf(sends, tail, end, room);
    OverBroken(frames, tail, AtBoundary(frame, mask, cut), end, room) by {
      Truncated(frame, mask, cut, end);
    }
  }

  // ----- sessions from start to report

  /** Text frames with these payloads, then a close. */
  function TextFrames(texts: seq<seq<byte>>, masks: seq<seq<byte>>): (sends: seq<Sent>)
    requires |masks| == |texts|
    ensures |sends| == |texts| && forall i :: 0 <= i < |texts| ==> sends[i] == Sent(Frame(1, texts[i]), masks[i])
  {
    seq(|texts|, i requires 0 <= i < |texts| => Sent(Frame(1, texts[i]), masks[i]))
  }

  function Size(): seq<byte> -> int
  {
    (payload: seq<byte>) => |payload|
  }

  function WordsIn(): seq<byte> -> int
  {
    (payload: seq<byte>) => WordCount(AsText(payload))
  }

  lemma {:induction false} TextSums(texts: seq<seq<byte>>, frames: seq<Frame>)
    requires |frames| == |texts| && forall i :: 0 <= i < |texts| ==> frames[i] == Frame(1, texts[i])
    ensures Sum(frames, PayloadSize()) == Sum(texts, Size()) && Sum(frames, FrameWords()) == Sum(texts, WordsIn())
    ensures NoClose(frames) && PongTotal(frames) == 0
  {
    hide WordCount, AsText;
    if |texts| > 0 {
      var k := |texts| - 1;
      TextSums(texts[..k], frames[..k]);
      assert frames == frames[..k] + [frames[k]];
    }
    QuietTotal(frames);
  }

  lemma {:induction false} QuietTotal(frames: seq<Frame>)
    requires forall i :: 0 <= i < |frames| ==> frames[i].opcode != OP_PING
    ensures PongTotal(frames) == 0
  {
    if |frames| > 0 {
      QuietTotal(frames[1..]);
    }
  }

  /**
   A server that sends texts and then a close: a success that counts all their bytes and the close's, the words of the
   texts as tokens, and the times of all the frames.
   */
  lemma TextSession(texts: seq<seq<byte>>, masks: seq<seq<byte>>, close: Sent, tail: seq<byte>, end: InputEnd, room: Room,
                    start: int, clock: Clock, r: SessionReport)
    requires |masks| == |texts| && AllSendable(TextFrames(texts, masks) + [close]) && WithinLimit(TextFrames(texts, masks) + [close])
    requires close.frame.opcode == 8
    requires Reports(Conversation(EncodeAll(TextFrames(texts, masks) + [close]) + tail, end, room), start, clock, r)
    ensures r.success && !r.aborted && r.bytesRead == Sum(texts, Size()) + |close.frame.payload| && r.tokens == Sum(texts, WordsIn())
    ensures r.timing == TimingOf(start, Readings(clock, |texts| + 1), Now(clock, |texts| + 1))
  {
    hide *;
    var frames := FramesOf(TextFrames(texts, masks)) + [close.frame];
    TextConversation(texts, masks, close, tail, end, room);
    ReportsOrderly(frames, start, clock, r);
    TextTotals(texts, masks, close);
  }

  lemma ReportsOrderly(frames: seq<Frame>, start: int, clock: Clock, r: SessionReport)
    requires Reports(Talk(frames, Orderly), start, clock, r)
    ensures r.success && !r.aborted && r.bytesRead == Sum(frames, PayloadSize()) && r.tokens == Sum(frames, FrameWords())
    ensures r.timing == TimingOf(start, Readings(clock, |frames|), Now(clock, |frames|))
  {
  }

  lemma TextTotals(texts: seq<seq<byte>>, masks: seq<seq<byte>>, close: Sent)
    requires |masks| == |texts| && close.frame.opcode == 8
    ensures var frames := FramesOf(TextFrames(texts, masks)) + [close.frame];
            && |frames| == |texts| + 1 && Sum(frames, PayloadSize()) == Sum(texts, Size()) + |close.frame.payload|
            && Sum(frames, FrameWords()) == Sum(texts, WordsIn())
  {
    var frames := FramesOf(TextFrames(texts, masks));
    TextSums(texts, frames);
    SumSnoc(frames, close.frame, PayloadSize());
    SumSnoc(frames, close.frame, FrameWords());
    hide Sum, WordCount, AsText;
  }

  lemma TextConversation(texts: seq<seq<byte>>, masks: seq<seq<byte>>, close: Sent, tail: seq<byte>, end: InputEnd, room: Room)
    requires |masks| == |texts| && AllSendable(TextFrames(texts, masks) + [close]) && WithinLimit(TextFrames(texts, masks) + [close])
    requires close.frame.opcode == 8
    ensures Conversation(EncodeAll(TextFrames(texts, masks) + [close]) + tail, end, room)
         == Talk(FramesOf(TextFrames(texts, masks)) + [close.frame], Orderly)
  {
    var sends := TextFrames(texts, masks);
    var frames := FramesOf(sends);
    ConversationOf(sends + [close], tail, end, room);
    assert FramesOf(sends + [close]) == frames + [close.frame];
    TextSums(texts, frames);
    hide Encode, Parse, Conversation, EncodeAll, Fits, After, WithinLimit, AllSendable, TextFrames, FramesOf, Sum;
    ClosedAfter(frames, close.frame, room);
  }

  /** A close after frames that call for no answer. */
  lemma {:induction false} ClosedAfter(frames: seq<Frame>, close: Frame, room: Room)
    requires NoClose(frames) && PongTotal(frames) == 0 && close.opcode == OP_CLOSE
    ensures UpToStop(frames + [close], room) == frames + [close] && PongTotal(frames + [close]) == 0
    ensures !NoClose(frames + [close]) && Fits(0, room)
  {
    assert (frames + [close])[|frames|] == close;
    if |frames| == 0 {
      assert frames + [close] == [close];
    } else {
      var f, rest := frames[0], frames[1..];
      assert After(room, 0) == room || room.Unlimited?;
      assert (frames + [close])[1..] == rest + [close];
      ClosedAfter(rest, close, After(room, PongSize(f)));
      assert [f] + (rest + [close]) == frames + [close];
    }
  }

  /** Any other session than an orderly one is an aborted failure that keeps its bytes and its latency only. */
  lemma BrokenSession(talk: Talk, start: int, clock: Clock, r: SessionReport)
    requires Reports(talk, start, clock, r)
    ensures r.success <==> talk.ending == Orderly
    ensures talk.ending != Orderly ==>
              r.aborted && r.tokens == 0 && r.timing == Timing(0, 0, [], Now(clock, |talk.frames|) - start)
              && r.bytesRead == Sum(talk.frames, (f: Frame) => |f.payload|)
  {
    assert PayloadSize() == (f: Frame) => |f.payload|;
  }

  /** An oversized frame breaks the conversation off; what came before is counted. */
  lemma OversizedBreaks(sends: seq<Sent>, big: Sent, tail: seq<byte>, end: InputEnd, room: Room)
    requires AllSendable(sends) && WithinLimit(sends) && Sendable(big) && |big.frame.payload| > MAX_FRAME_SIZE
    requires NoClose(FramesOf(sends)) && Fits(PongTotal(FramesOf(sends)), room)
    ensures Conversation(EncodeAll(sends) + (Encode(big.frame, big.mask) + tail), end, room)
         == Talk(FramesOf(sends), Broken(TooLarge(|big.frame.payload|)))
  {
    hide Encode, Parse, Fits, After, PongTotal, EncodeAll, WithinLimit, NoClose;
    var rest, frames := Encode(big.frame, big.mask) + tail, FramesOf(sends);
    ConversationOf(sends, rest, end, room);
    FrameRoundTrip(big.frame, big.mask, tail, end);
    assert frames + [] == frames;
  }

  /** Nothing more can be read after these frames. */
  lemma OverBroken(frames: seq<Frame>, tail: seq<byte>, between: bool, end: InputEnd, room: Room)
    requires NoClose(frames) && Parse(tail, end) == Bad(Missing(end, between))
    ensures var talk, answered := TalkOver(frames, tail, end, room), Fits(PongTotal(frames), room);
            && (answered ==> talk.frames == frames)
            && (talk.ending == Orderly <==> answered && (if end.Ended? then between else end.closing))
  {
    hide Parse, Fits, After, PongTotal, UpToStop, NoClose;
    if Fits(PongTotal(frames), room) {
      assert frames + [] == frames;
    } else {
      StoppedShort(frames, room);
    }
  }

  /** Without a close, only a failing pong stops the conversation. */
  lemma {:induction false} StoppedShort(frames: seq<Frame>, room: Room)
    requires NoClose(frames) && !Fits(PongTotal(frames), room)
    ensures !Fits(PongTotal(UpToStop(frames, room)), room)
  {
    var f, rest := frames[0], frames[1..];
    assert frames == [f] + rest;
    NoCloseCons(f, rest);
    PassesCons(f, rest, room);
    if Fits(PongSize(f), room) {
      StoppedShort(rest, After(room, PongSize(f)));
      PassesCons(f, UpToStop(rest, After(room, PongSize(f))), room);
    } else {
      JustOne(f);
    }
  }
}
