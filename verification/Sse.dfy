/** The server-sent-events loop of the streaming runner, from body bytes to counted chunks. */
module Sse {
  import opened Sequences
  import opened Streaming
  import opened Text
  import opened JsonWalk

  // ----- lines

  predicate NoFeed(s: string)
  {
    forall i :: 0 <= i < |s| ==> s[i] != '\n'
  }

  /** Position of the first line feed, or the length. */
  function LineEnd(s: string): (n: nat)
    ensures n <= |s| && (n < |s| ==> s[n] == '\n') && NoFeed(s[..n])
  {
    if |s| == 0 || s[0] == '\n' then 0 else 1 + LineEnd(s[1..])
  }

  /** Without trailing carriage returns and line feeds. */
  function Strip(line: string): string
  {
    if |line| > 0 && (line[|line| - 1] == '\r' || line[|line| - 1] == '\n') then Strip(line[..|line| - 1]) else line
  }

  /** The body cut at its line feeds and stripped; the last line is not terminated and may be empty. */
  function Lines(body: string): (ls: seq<string>)
    ensures |ls| > 0
    decreases |body|
  {
    var n := LineEnd(body);
    if n == |body| then [Strip(body)] else [Strip(body[..n])] + Lines(body[n + 1..])
  }

  /** The events the loop processes from these lines on, with `open` the lines of the event under way. */
  function Events(lines: seq<string>, open: seq<string>): seq<seq<string>>
    decreases |lines|
  {
    if |lines| == 0 then []
    else if lines[0] != "" then Events(lines[1..], open + [lines[0]])
    else (if open == [] then [] else [open]) + Events(lines[1..], [])
  }

  function BodyEvents(body: string): seq<seq<string>>
  {
    Events(Lines(body), [])
  }

  // ----- chunks

  datatype Settings = Settings(doneMarker: string, textKeys: seq<string>, tokenKeys: seq<string>, decode: string -> Option<Json>)

  /** What one event contributes. */
  datatype Chunk = Chunk(text: string, tokens: int, done: bool)

  ghost function Preferred(keys: seq<string>): set<string>
  {
    set k | k in keys :: Lower(k)
  }

  /** The text joins the preferred texts of the tree in some order. */
  ghost predicate JoinsTexts(j: Json, preferred: set<string>, text: string)
  {
    exists paths, texts :: Collects(j, preferred, paths, texts) && text == Join(texts)
  }

  ghost predicate PayloadChunk(settings: Settings, raw: string, chunk: Chunk)
  {
    if raw == settings.doneMarker then chunk == Chunk("", 0, true)
    else match settings.decode(raw)
      case None => chunk == Chunk(TrimSpace(raw), 0, false)
      case Some(j) => 
        && chunk.done == HasDone(j, settings.doneMarker)
        && JoinsTexts(j, Preferred(settings.textKeys), chunk.text)
        && TokensOf(j, Preferred(settings.tokenKeys), chunk.tokens)
  }

  predicate IsData(line: string)
  {
    "data:" <= line
  }

  function Value(line: string): string
    requires IsData(line)
  {
    TrimSpace(line[5..])
  }

  /** The data values of an event, concatenated. */
  function Payload(lines: seq<string>): string
  {
    if |lines| == 0 then ""
    else Payload(lines[..|lines| - 1]) + (if IsData(lines[|lines| - 1]) then Value(lines[|lines| - 1]) else "")
  }

  predicate MarksDone(lines: seq<string>, marker: string)
  {
    exists i :: 0 <= i < |lines| && IsData(lines[i]) && Value(lines[i]) == marker
  }

  ghost predicate EventChunk(settings: Settings, lines: seq<string>, chunk: Chunk)
  {
    if MarksDone(lines, settings.doneMarker) then chunk == Chunk("", 0, true)
    else if Payload(lines) == "" then chunk == Chunk("", 0, false)
    else PayloadChunk(settings, Payload(lines), chunk)
  }

  method ExtractChunk(settings: Settings, raw: string) returns (chunk: Chunk)
    ensures PayloadChunk(settings, raw, chunk)
  {
    if raw == settings.doneMarker {
      return Chunk("", 0, true);
    }
    var payload := settings.decode(raw);
    if payload.None? {
      return Chunk(TrimSpace(raw), 0, false);
    }
    var preferred := NormalizeKeys(settings.textKeys);
    var texts := new TextList();
    ghost var paths := CollectPreferredText(payload.value, texts, preferred);
    assert texts.items[0..] == texts.items;
    var done := DetectDone(payload.value, settings.doneMarker);
    assert JoinsTexts(payload.value, preferred, Join(texts.items));
    var counted := NormalizeKeys(settings.tokenKeys);
    var tokens := CollectPreferredTokens(payload.value, counted);
    chunk := Chunk(Join(texts.items), tokens, done);
  }

  method ExtractSSEChunk(settings: Settings, lines: seq<string>) returns (chunk: Chunk)
    ensures EventChunk(settings, lines, chunk)
  {
    var raw := "";
    var i := 0;
    while i < |lines|
      invariant 0 <= i <= |lines| && raw == Payload(lines[..i])
      invariant !MarksDone(lines[..i], settings.doneMarker)
    {
      assert lines[..i + 1][..i] == lines[..i];
      if IsData(lines[i]) {
        var value := Value(lines[i]);
        if value == settings.doneMarker {
          return Chunk("", 0, true);
        }
        raw := raw + value;
      }
      i := i + 1;
    }
    assert lines[..i] == lines;
    if raw == "" {
      return Chunk("", 0, false);
    }
    chunk := ExtractChunk(settings, raw);
  }

  // ----- the loop

  /** How a line read ends: with a line feed, at the end of the body, or with a read failure there. */
  datatype LineState = Terminated | AtEnd | ReadFailed

  class Body {
    var left: string
    const fails: bool

    constructor (body: string, fails: bool)
      ensures left == body && this.fails == fails
    {
      left, this.fails := body, fails;
    }

    /** Up to and including the next line feed. */
    method ReadString() returns (line: string, state: LineState)
      modifies this
      ensures var n := LineEnd(old(left));
              if n < |old(left)| then state == Terminated && line == old(left)[..n + 1] && left == old(left)[n + 1..]
              else state == (if fails then ReadFailed else AtEnd) && line == old(left) && left == ""
    {
      var n := LineEnd(left);
      if n < |left| {
        line, state := left[..n + 1], Terminated;
        left := left[n + 1..];
      } else {
        line, state := left, if fails then ReadFailed else AtEnd;
        left := "";
      }
    }
  }

  /** The texts of the chunks that have one, a space after each. */
  function TextSoFar(chunks: seq<Chunk>): string
  {
    if |chunks| == 0 then ""
    else
      var last := chunks[|chunks| - 1];
      var before := TextSoFar(chunks[..|chunks| - 1]);
      if last.text != "" then before + last.text + " " else before
  }

  /** Positive counts add up. */
  function ChunkTokens(): Chunk -> int
  {
    (c: Chunk) => if c.tokens > 0 then c.tokens else 0
  }

  /** How many chunks carry text; only these are timed. */
  function Timed(chunks: seq<Chunk>): nat
  {
    if |chunks| == 0 then 0 else Timed(chunks[..|chunks| - 1]) + (if chunks[|chunks| - 1].text != "" then 1 else 0)
  }

  predicate SomeDone(chunks: seq<Chunk>)
  {
    exists i :: 0 <= i < |chunks| && chunks[i].done
  }

  /** Each event became a chunk. */
  ghost predicate Extracted(settings: Settings, events: seq<seq<string>>, chunks: seq<Chunk>)
  {
    |chunks| == |events| && forall i :: 0 <= i < |events| ==> EventChunk(settings, events[i], chunks[i])
  }

  /** The loop's variables after these chunks. */
  ghost predicate Folded(chunks: seq<Chunk>, clock: Clock, sawDone: bool, text: string, tokens: int, count: nat,
                         first: Option<int>, last: int, itl: seq<int>)
  {
    && sawDone == SomeDone(chunks) && text == TextSoFar(chunks) && count == Timed(chunks) && tokens == Sum(chunks, ChunkTokens())
    && Observed(Readings(clock, count), first, last, itl)
  }

  /** The loop body for one event: the previous chunk's time is always the last one's. */
  method FoldChunk(ghost chunks: seq<Chunk>, chunk: Chunk, clock: Clock, sawDone: bool, text: string, tokens: int, count: nat,
                   first: Option<int>, last: int, itl: seq<int>)
    returns (newDone: bool, newText: string, newTokens: int, newCount: nat, newFirst: Option<int>, newLast: int, newItl: seq<int>)
    requires Folded(chunks, clock, sawDone, text, tokens, count, first, last, itl)
    ensures Folded(chunks + [chunk], clock, newDone, newText, newTokens, newCount, newFirst, newLast, newItl)
  {
    newDone, newText, newTokens, newCount, newFirst, newLast, newItl := sawDone, text, tokens, count, first, last, itl;
    if chunk.done {
      newDone := true;
    }
    if chunk.text != "" {
      var now := Now(clock, count);
      newCount := count + 1;
      if first.None? {
        newFirst := Some(now);
      } else {
        newItl := newItl + [now - last];
      }
      newLast := now;
      newText := newText + chunk.text + " ";
      ObservedNext(Readings(clock, count), first, last, itl, now);
      assert Readings(clock, count + 1) == Readings(clock, count) + [now];
    }
    if chunk.tokens > 0 {
      newTokens := newTokens + chunk.tokens;
    }
    SumSnoc(chunks, chunk, ChunkTokens());
    FoldedNext(chunks, chunk);
  }

  lemma FoldedNext(chunks: seq<Chunk>, chunk: Chunk)
    ensures var all := chunks + [chunk];
            && SomeDone(all) == (SomeDone(chunks) || chunk.done)
            && TextSoFar(all) == (if chunk.text != "" then TextSoFar(chunks) + chunk.text + " " else TextSoFar(chunks))
            && Timed(all) == Timed(chunks) + (if chunk.text != "" then 1 else 0)
  {
    var all := chunks + [chunk];
    assert all[..|chunks|] == chunks;
    assert forall i :: 0 <= i < |chunks| ==> all[i] == chunks[i];
    assert all[|chunks|] == chunk;
    if SomeDone(chunks) {
      var i :| 0 <= i < |chunks| && chunks[i].done;
      assert all[i].done;
    }
  }

  // ----- how far the body has been read

  /** These events are processed, these lines are collected, and this much of the body is left. */
  ghost predicate Remaining(all: seq<seq<string>>, done: seq<seq<string>>, left: string, open: seq<string>)
  {
    all == done + Events(Lines(left), open)
  }

  lemma StripFeed(left: string, n: nat)
    requires n < |left| && left[n] == '\n'
    ensures Strip(left[..n + 1]) == Strip(left[..n])
  {
    assert left[..n + 1][..n] == left[..n];
  }

  lemma LinesNext(left: string)
    ensures var n := LineEnd(left);
            if n < |left| then Lines(left) == [Strip(left[..n + 1])] + Lines(left[n + 1..]) else Lines(left) == [Strip(left)]
  {
    hide Strip, LineEnd, Lines, NoFeed;
    var n := LineEnd(left);
    if n < |left| {
      StripFeed(left, n);
    }
    LinesUnfold(left);
  }

  lemma LinesUnfold(left: string)
    ensures var n := LineEnd(left);
            Lines(left) == if n == |left| then [Strip(left)] else [Strip(left[..n])] + Lines(left[n + 1..])
  {
    hide Strip, LineEnd, NoFeed;
  }

  lemma EventsNext(line: string, rest: seq<string>, open: seq<string>)
    ensures line != "" ==> Events([line] + rest, open) == Events(rest, open + [line])
    ensures line == "" && open == [] ==> Events([line] + rest, open) == Events(rest, [])
    ensures line == "" && open != [] ==> Events([line] + rest, open) == [open] + Events(rest, [])
    ensures Events([line], open) == if line == "" && open != [] then [open] else []
  {
    assert ([line] + rest)[1..] == rest;
    assert [line][1..] == [] && [open] + [] == [open];
  }

  lemma RemainingNext(all: seq<seq<string>>, done: seq<seq<string>>, left: string, open: seq<string>)
    requires Remaining(all, done, left, open)
    ensures var n := LineEnd(left);
            var more := n < |left|;
            var line := Strip(if more then left[..n + 1] else left);
            var rest := if more then left[n + 1..] else "";
            var now := if line == "" && open != [] then done + [open] else done;
            if more then Remaining(all, now, rest, if line == "" then [] else open + [line]) else all == now
  {
    LinesNext(left);
    hide Lines, Strip, LineEnd, Events, NoFeed;
    var n := LineEnd(left);
    if n < |left| {
      var line, rest := Strip(left[..n + 1]), Lines(left[n + 1..]);
      EventsNext(line, rest, open);
      Associative(done, [open], Events(rest, []));
    } else {
      EventsNext(Strip(left), [], open);
      assert done + [] == done;
    }
  }

  function ChunkWords(): Chunk -> int
  {
    (c: Chunk) => WordCount(c.text)
  }

  /** The words of the collected text are the words of its pieces. */
  lemma {:induction false} TextWords(chunks: seq<Chunk>)
    ensures WordCount(TextSoFar(chunks)) == Sum(chunks, ChunkWords())
  {
    if |chunks| > 0 {
      var init, last := chunks[..|chunks| - 1], chunks[|chunks| - 1];
      TextWords(init);
      assert Sum(chunks, ChunkWords()) == Sum(init, ChunkWords()) + WordCount(last.text);
      assert WordCount("") == 0;
      if last.text != "" {
        EndsWithSpace(TextSoFar(init), init);
        WordsAfterSpace(TextSoFar(init), last.text);
        WordCountAcross(TextSoFar(init) + last.text, ' ', "");
        assert TextSoFar(chunks) == (TextSoFar(init) + last.text) + [' '] + "";
      }
    }
  }

  lemma EndsWithSpace(text: string, chunks: seq<Chunk>)
    requires text == TextSoFar(chunks)
    ensures text == "" || text[|text| - 1] == ' '
  {
    if |chunks| > 0 && chunks[|chunks| - 1].text == "" {
      EndsWithSpace(text, chunks[..|chunks| - 1]);
    }
  }

  /**
   Values the response headers give for what the body did not show, none of them negative. The last
   two are read last, from the headers of the AI layer.
   */
  datatype Headers = Headers(ttft: nat, generation: nat, tokens: nat, aborted: bool, lateTTFT: nat, lateTokens: nat)

  /** `estimated`: the tokens are the words of the collected text. */
  datatype StreamResult =
    | Consumed(bytesRead: nat, timing: Timing, tokens: int, estimated: bool, aborted: bool)
    | Failed(bytesRead: nat, latency: int)

  /** The first value, unless it is zero. */
  function Or(a: int, b: int): int
  {
    if a != 0 then a else b
  }

  /** The timing of n timed chunks; without any, the headers speak, and a zero time to first token is not believed. */
  function StreamTiming(start: int, clock: Clock, n: nat, headers: Headers): Timing
  {
    var t := if n == 0 then Timing(headers.ttft, headers.generation, [], Now(clock, 0) - start)
             else TimingOf(start, Readings(clock, n), Now(clock, n));
    t.(ttft := Or(t.ttft, headers.lateTTFT))
  }

  /** Counted tokens first, then the header's count, then the estimate, then the late header's count. */
  ghost function StreamTokens(chunks: seq<Chunk>, headers: Headers): int
  {
    Or(Or(Or(Sum(chunks, ChunkTokens()), headers.tokens), Sum(chunks, ChunkWords())), headers.lateTokens)
  }

  /** What the runner reports for these chunks; `done` says whether the stream ended as it should. */
  ghost predicate Summarizes(chunks: seq<Chunk>, start: int, clock: Clock, headers: Headers, r: StreamResult, done: bool)
  {
    match r
    case Consumed(_, timing, tokens, estimated, aborted) =>
      && timing == StreamTiming(start, clock, Timed(chunks), headers)
      && tokens == StreamTokens(chunks, headers)
      && estimated == (Sum(chunks, ChunkTokens()) == 0 && headers.tokens == 0 && NonBlank(TextSoFar(chunks)))
      && aborted == (headers.aborted || !done)
    case Failed(_, latency) => latency == Now(clock, Timed(chunks)) - start
  }

  /** The line loop: every event of the body is extracted and folded, every byte is counted. */
  method FoldEvents(settings: Settings, body: Body, clock: Clock)
    returns (bytesRead: nat, failed: bool, sawDone: bool, text: string, tokens: int, count: nat,
             first: Option<int>, last: int, itl: seq<int>, ghost chunks: seq<Chunk>)
    modifies body
    ensures bytesRead == |old(body.left)| && failed == body.fails
    ensures Extracted(settings, BodyEvents(old(body.left)), chunks)
    ensures Folded(chunks, clock, sawDone, text, tokens, count, first, last, itl)
  {
    ghost var all, events := BodyEvents(body.left), [];
    var eventLines: seq<string> := [];
    chunks := [];
    bytesRead, failed, sawDone, text, tokens, count := 0, false, false, "", 0, 0;
    first, last, itl := None, 0, [];
    assert Remaining(all, events, body.left, eventLines) && Extracted(settings, events, chunks);
    assert Folded(chunks, clock, sawDone, text, tokens, count, first, last, itl);
    hide *;
    var stop := false;
    while !stop
      invariant bytesRead + |body.left| == |old(body.left)|
      invariant if stop then events == all && body.left == "" && failed == body.fails
                else Remaining(all, events, body.left, eventLines)
      invariant Extracted(settings, events, chunks)
      invariant Folded(chunks, clock, sawDone, text, tokens, count, first, last, itl)
      decreases !stop, |body.left|
    {
      RemainingNext(all, events, body.left, eventLines);
      var line, state := body.ReadString();
      bytesRead := bytesRead + |line|;
      line := Strip(line);
      if line == "" {
        if |eventLines| > 0 {
          var chunk := ExtractSSEChunk(settings, eventLines);
          sawDone, text, tokens, count, first, last, itl := FoldChunk(chunks, chunk, clock, sawDone, text, tokens, count, first, last, itl);
          ExtractedNext(settings, events, chunks, eventLines, chunk);
          events, chunks := events + [eventLines], chunks + [chunk];
          eventLines := [];
        }
      } else {
        eventLines := eventLines + [line];
      }
      stop, failed := state != Terminated, state == ReadFailed;
    }
  }

  lemma ExtractedNext(settings: Settings, events: seq<seq<string>>, chunks: seq<Chunk>, lines: seq<string>, chunk: Chunk)
    requires Extracted(settings, events, chunks) && EventChunk(settings, lines, chunk)
    ensures Extracted(settings, events + [lines], chunks + [chunk])
  {
    hide EventChunk;
  }

  /** One response body, consumed and reported. */
  method ConsumeSSE(settings: Settings, body: Body, start: int, clock: Clock, headers: Headers)
    returns (r: StreamResult, ghost chunks: seq<Chunk>)
    modifies body
    ensures Extracted(settings, BodyEvents(old(body.left)), chunks)
    ensures Summarizes(chunks, start, clock, headers, r, SomeDone(chunks))
    ensures r.bytesRead == |old(body.left)| && (r.Failed? <==> body.fails)
  {
    var bytesRead, failed, sawDone, text, tokens, count, first, last, itl;
    bytesRead, failed, sawDone, text, tokens, count, first, last, itl, chunks := FoldEvents(settings, body, clock);
    if failed {
      return Failed(bytesRead, Now(clock, count) - start), chunks;
    }
    r := Report(chunks, bytesRead, sawDone, text, tokens, count, first, last, itl, start, clock, headers);
  }

  /** The end of consumeStream, common to all formats. */
  method Report(ghost chunks: seq<Chunk>, bytesRead: nat, done: bool, text: string, tokens: int, count: nat,
                first: Option<int>, last: int, itl: seq<int>, start: int, clock: Clock, headers: Headers) returns (r: StreamResult)
    requires exists sawDone :: Folded(chunks, clock, sawDone, text, tokens, count, first, last, itl)
    ensures r.Consumed? && r.bytesRead == bytesRead && Summarizes(chunks, start, clock, headers, r, done)
  {
    var latency := Now(clock, count) - start;
    var ttft := if first.Some? then first.value - start else headers.ttft;
    var generation := if first.Some? then last - first.value else headers.generation;
    var total, estimated := if tokens == 0 then headers.tokens else tokens, false;
    if total == 0 {
      total, estimated := EstimateTokens(text);
    }
    TextWords(chunks);
    if ttft == 0 {
      ttft := headers.lateTTFT;
    }
    if total == 0 {
      total := headers.lateTokens;
    }
    r := Consumed(bytesRead, Timing(ttft, generation, itl, latency), total, estimated, headers.aborted || !done);
  }

  // ----- the line-by-line formats

  function Unless(blank: bool, line: string, rest: seq<string>): seq<string>
  {
    if blank then rest else [line] + rest
  }

  /** The lines of a body that are not blank, trimmed. */
  function TrimmedLines(body: string): seq<string>
    decreases |body|
  {
    var n := LineEnd(body);
    if n == |body| then Unless(TrimSpace(body) == "", TrimSpace(body), [])
    else Unless(TrimSpace(body[..n + 1]) == "", TrimSpace(body[..n + 1]), TrimmedLines(body[n + 1..]))
  }

  /** Each line became a chunk. */
  ghost predicate LinesExtracted(settings: Settings, lines: seq<string>, chunks: seq<Chunk>)
  {
    |chunks| == |lines| && forall i :: 0 <= i < |lines| ==> PayloadChunk(settings, lines[i], chunks[i])
  }

  lemma LinesExtractedNext(settings: Settings, lines: seq<string>, chunks: seq<Chunk>, line: string, chunk: Chunk)
    requires LinesExtracted(settings, lines, chunks) && PayloadChunk(settings, line, chunk)
    ensures LinesExtracted(settings, lines + [line], chunks + [chunk])
  {
    hide PayloadChunk;
  }

  ghost predicate LinesRemaining(all: seq<string>, done: seq<string>, left: string)
  {
    all == done + TrimmedLines(left)
  }

  lemma TrimmedUnfold(left: string)
    ensures var n := LineEnd(left);
            TrimmedLines(left) ==
            if n == |left| then Unless(TrimSpace(left) == "", TrimSpace(left), [])
            else Unless(TrimSpace(left[..n + 1]) == "", TrimSpace(left[..n + 1]), TrimmedLines(left[n + 1..]))
  {
    hide LineEnd, TrimSpace, Unless, NoFeed;
  }

  lemma LinesRemainingNext(all: seq<string>, done: seq<string>, left: string)
    requires LinesRemaining(all, done, left)
    ensures var n := LineEnd(left);
            var line := TrimSpace(if n < |left| then left[..n + 1] else left);
            var now := if line == "" then done else done + [line];
            if n < |left| then LinesRemaining(all, now, left[n + 1..]) else all == now
  {
    var n := LineEnd(left);
    var line := TrimSpace(if n < |left| then left[..n + 1] else left);
    var rest := if n < |left| then TrimmedLines(left[n + 1..]) else [];
    hide LineEnd, TrimSpace, TrimmedLines, NoFeed;
    TrimmedUnfold(left);
    Associative(done, [line], rest);
    assert done + [] == done;
  }

  /** The loop body for one line that is not blank. */
  method FoldLine(settings: Settings, ghost lines: seq<string>, ghost chunks: seq<Chunk>, line: string, clock: Clock,
                  sawDone: bool, text: string, tokens: int, count: nat, first: Option<int>, last: int, itl: seq<int>)
    returns (newDone: bool, newText: string, newTokens: int, newCount: nat, newFirst: Option<int>, newLast: int, newItl: seq<int>,
             ghost newChunks: seq<Chunk>)
    requires LinesExtracted(settings, lines, chunks)
    requires Folded(chunks, clock, sawDone, text, tokens, count, first, last, itl)
    ensures LinesExtracted(settings, lines + [line], newChunks)
    ensures Folded(newChunks, clock, newDone, newText, newTokens, newCount, newFirst, newLast, newItl)
  {
    hide *;
    var chunk := ExtractChunk(settings, line);
    newDone, newText, newTokens, newCount, newFirst, newLast, newItl :=
      FoldChunk(chunks, chunk, clock, sawDone, text, tokens, count, first, last, itl);
    LinesExtractedNext(settings, lines, chunks, line, chunk);
    newChunks := chunks + [chunk];
  }

  method FoldLines(settings: Settings, body: Body, clock: Clock)
    returns (bytesRead: nat, failed: bool, sawDone: bool, text: string, tokens: int, count: nat,
             first: Option<int>, last: int, itl: seq<int>, ghost chunks: seq<Chunk>)
    modifies body
    ensures bytesRead == |old(body.left)| && failed == body.fails
    ensures LinesExtracted(settings, TrimmedLines(old(body.left)), chunks)
    ensures Folded(chunks, clock, sawDone, text, tokens, count, first, last, itl)
  {
    ghost var all, lines := TrimmedLines(body.left), [];
    chunks := [];
    bytesRead, failed, sawDone, text, tokens, count := 0, false, false, "", 0, 0;
    first, last, itl := None, 0, [];
    assert LinesRemaining(all, lines, body.left) && LinesExtracted(settings, lines, chunks);
    assert Folded(chunks, clock, sawDone, text, tokens, count, first, last, itl);
    hide *;
    var stop := false;
    while !stop
      invariant bytesRead + |body.left| == |old(body.left)|
      invariant if stop then lines == all && body.left == "" && failed == body.fails
                else LinesRemaining(all, lines, body.left)
      invariant LinesExtracted(settings, lines, chunks)
      invariant Folded(chunks, clock, sawDone, text, tokens, count, first, last, itl)
      decreases !stop, |body.left|
    {
      LinesRemainingNext(all, lines, body.left);
      var line, state := body.ReadString();
      bytesRead := bytesRead + |line|;
      var trimmed := TrimSpace(line);
      if trimmed != "" {
        sawDone, text, tokens, count, first, last, itl, chunks :=
          FoldLine(settings, lines, chunks, trimmed, clock, sawDone, text, tokens, count, first, last, itl);
        lines := lines + [trimmed];
      }
      stop, failed := state != Terminated, state == ReadFailed;
    }
  }

  /** A line-by-line body: reaching its end counts as done, so only a header can mark it aborted. */
  method ConsumeLines(settings: Settings, body: Body, start: int, clock: Clock, headers: Headers)
    returns (r: StreamResult, ghost chunks: seq<Chunk>)
    modifies body
    ensures LinesExtracted(settings, TrimmedLines(old(body.left)), chunks)
    ensures Summarizes(chunks, start, clock, headers, r, true)
    ensures r.bytesRead == |old(body.left)| && (r.Failed? <==> body.fails)
  {
    var bytesRead, failed, sawDone, text, tokens, count, first, last, itl;
    bytesRead, failed, sawDone, text, tokens, count, first, last, itl, chunks := FoldLines(settings, body, clock);
    if failed {
      return Failed(bytesRead, Now(clock, count) - start), chunks;
    }
    r := Report(chunks, bytesRead, true, text, tokens, count, first, last, itl, start, clock, headers);
  }
}
