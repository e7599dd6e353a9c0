/** Event streams of any shape read back: several data lines an event, other fields, padding, both line endings. */
module SseRendering {
  import opened Sequences
  import opened Streaming
  import opened Text
  import opened JsonWalk
  import opened Sse
  import opened SseLaws

  // ----- lines

  predicate OnOneLine(s: string)
  {
    forall i :: 0 <= i < |s| ==> s[i] != '\n' && s[i] != '\r'
  }

  function Feed(crlf: bool): string
  {
    if crlf then "\r\n" else "\n"
  }

  /** The lines as text, each with this ending. */
  function TextOf(lines: seq<string>, crlf: bool): string
  {
    if |lines| == 0 then "" else lines[0] + Feed(crlf) + TextOf(lines[1..], crlf)
  }

  lemma LineBack(line: string, crlf: bool, tail: string)
    requires OnOneLine(line)
    ensures Lines(line + Feed(crlf) + tail) == [line] + Lines(tail)
  {
    hide Lines;
    if crlf {
      assert line + Feed(crlf) + tail == (line + "\r") + "\n" + tail;
      OneLine(line + "\r", tail);
      assert (line + "\r")[..|line|] == line;
    } else {
      OneLine(line, tail);
    }
    assert Strip(line) == line;
  }

  /** Text lines are read back as they were, with either ending. */
  lemma {:induction false} LinesBack(lines: seq<string>, crlf: bool, tail: string)
    requires forall i :: 0 <= i < |lines| ==> OnOneLine(lines[i])
    ensures Lines(TextOf(lines, crlf) + tail) == lines + Lines(tail)
  {
    if |lines| == 0 {
      assert TextOf(lines, crlf) + tail == tail && [] + Lines(tail) == Lines(tail);
    } else {
      TextCons(lines, crlf, tail);
      hide Lines, OnOneLine, TextOf, Feed;
      LinesBack(lines[1..], crlf, tail);
      LineBack(lines[0], crlf, TextOf(lines[1..], crlf) + tail);
      assert lines == [lines[0]] + lines[1..];
      Associative([lines[0]], lines[1..], Lines(tail));
    }
  }

  lemma TextCons(lines: seq<string>, crlf: bool, tail: string)
    requires |lines| > 0
    ensures TextOf(lines, crlf) + tail == lines[0] + Feed(crlf) + (TextOf(lines[1..], crlf) + tail)
  {
    hide Feed;
    var a, b := lines[0] + Feed(crlf), TextOf(lines[1..], crlf);
    assert TextOf(lines, crlf) == a + b;
    Associative(a, b, tail);
  }

  // ----- events

  /** A line of an event: a data line with white space around its value, or any other line. */
  datatype Field = Data(before: string, value: string, after: string) | Other(line: string)

  /** One event and the line ending its server uses. */
  datatype Written = Written(fields: seq<Field>, crlf: bool)

  predicate Padding(s: string)
  {
    forall i :: 0 <= i < |s| ==> Space(s[i])
  }

  predicate Trimmed(s: string)
  {
    s == "" || (!Space(s[0]) && !Space(s[|s| - 1]))
  }

  function LineOf(f: Field): string
  {
    match f
    case Data(before, value, after) => "data:" + (before + value + after)
    case Other(line) => line
  }

  predicate Writable(f: Field)
  {
    && OnOneLine(LineOf(f))
    && match f
       case Data(before, value, after) => Padding(before) && Padding(after) && Trimmed(value)
       case Other(line) => line != "" && !("data:" <= line)
  }

  function LinesOf(fields: seq<Field>): (lines: seq<string>)
    ensures |lines| == |fields| && forall i :: 0 <= i < |fields| ==> lines[i] == LineOf(fields[i])
  {
    seq(|fields|, i requires 0 <= i < |fields| => LineOf(fields[i]))
  }

  /** The data values, in order. */
  function ValuesOf(fields: seq<Field>): seq<string>
  {
    if |fields| == 0 then []
    else
      var last := fields[|fields| - 1];
      ValuesOf(fields[..|fields| - 1]) + (if last.Data? then [last.value] else [])
  }

  lemma {:induction false} TrimPadded(before: string, value: string, after: string)
    requires Padding(before) && Padding(after) && Trimmed(value)
    ensures TrimSpace(before + value + after) == value
  {
    TrimFront(before, value + after);
    assert before + value + after == before + (value + after);
    if value == "" {
      TrimFront(after, "");
      assert value + after == after + "";
    } else {
      assert (value + after)[0] == value[0];
      TrimBack(value, after);
    }
  }

  lemma {:induction false} TrimFront(before: string, s: string)
    requires Padding(before)
    ensures TrimLeft(before + s) == TrimLeft(s)
  {
    if before == "" {
      assert before + s == s;
    } else {
      assert (before + s)[1..] == before[1..] + s;
      TrimFront(before[1..], s);
    }
  }

  lemma {:induction false} TrimBack(s: string, after: string)
    requires Padding(after)
    ensures TrimRight(s + after) == TrimRight(s)
  {
    if after == "" {
      assert s + after == s;
    } else {
      var k := |after| - 1;
      assert (s + after)[..|s + after| - 1] == s + after[..k];
      TrimBack(s, after[..k]);
    }
  }

  lemma FieldBack(f: Field)
    requires Writable(f)
    ensures LineOf(f) != "" && (IsData(LineOf(f)) <==> f.Data?)
    ensures f.Data? ==> Value(LineOf(f)) == f.value
  {
    if f.Data? {
      var padded := f.before + f.value + f.after;
      assert LineOf(f)[..5] == "data:" && LineOf(f)[5..] == padded;
      TrimPadded(f.before, f.value, f.after);
    }
  }

  predicate FieldsWritable(fields: seq<Field>)
  {
    forall i :: 0 <= i < |fields| ==> Writable(fields[i])
  }

  /**
   The payload of an event is its data values run together, without white space around them and with
   nothing between them; other lines contribute nothing. The event is a done marker exactly if one of
   the values is.
   */
  lemma {:induction false} PayloadIs(fields: seq<Field>, marker: string)
    requires FieldsWritable(fields)
    ensures Payload(LinesOf(fields)) == Flatten(ValuesOf(fields))
    ensures MarksDone(LinesOf(fields), marker) <==> marker in ValuesOf(fields)
  {
    hide Writable, LineOf;
    if |fields| > 0 {
      var init, last := fields[..|fields| - 1], fields[|fields| - 1];
      PayloadIs(init, marker);
      FieldBack(last);
      assert LinesOf(fields) == LinesOf(init) + [LineOf(last)];
      PayloadSnoc(LinesOf(init), LineOf(last), marker);
      hide Payload, MarksDone, IsData, Value;
      if last.Data? {
        FlattenSnoc(ValuesOf(init), last.value);
      } else {
        assert ValuesOf(init) + [] == ValuesOf(init);
      }
    }
  }

  lemma PayloadSnoc(lines: seq<string>, line: string, marker: string)
    ensures Payload(lines + [line]) == Payload(lines) + (if IsData(line) then Value(line) else "")
    ensures MarksDone(lines + [line], marker) <==> MarksDone(lines, marker) || (IsData(line) && Value(line) == marker)
  {
    hide Value;
    var all := lines + [line];
    assert all[..|lines|] == lines && all[|lines|] == line;
    assert forall i :: 0 <= i < |lines| ==> all[i] == lines[i];
    if MarksDone(lines, marker) {
      var i :| 0 <= i < |lines| && IsData(lines[i]) && Value(lines[i]) == marker;
      assert all[i] == lines[i];
    }
  }

  // ----- bodies

  /** The events as a server writes them, each closed by a blank line. */
  function BodyOf(events: seq<Written>): string
  {
    if |events| == 0 then ""
    else TextOf(LinesOf(events[0].fields) + [""], events[0].crlf) + BodyOf(events[1..])
  }

  predicate EventsWritable(events: seq<Written>)
  {
    forall i :: 0 <= i < |events| ==> |events[i].fields| > 0 && FieldsWritable(events[i].fields)
  }

  function EventLines(events: seq<Written>): (lists: seq<seq<string>>)
    ensures |lists| == |events| && forall i :: 0 <= i < |events| ==> lists[i] == LinesOf(events[i].fields)
  {
    seq(|events|, i requires 0 <= i < |events| => LinesOf(events[i].fields))
  }

  /** Lines that are not blank join the event under way. */
  lemma {:induction false} Collected(lines: seq<string>, more: seq<string>, open: seq<string>)
    requires forall i :: 0 <= i < |lines| ==> lines[i] != ""
    ensures Events(lines + more, open) == Events(more, open + lines)
    decreases |lines|
  {
    if |lines| == 0 {
      assert lines + more == more && open + lines == open;
    } else {
      assert lines + more == [lines[0]] + (lines[1..] + more);
      EventsNext(lines[0], lines[1..] + more, open);
      hide Events;
      Collected(lines[1..], more, open + [lines[0]]);
      assert (open + [lines[0]]) + lines[1..] == open + lines;
    }
  }

  lemma OneEvent(w: Written, tail: string)
    requires |w.fields| > 0 && FieldsWritable(w.fields)
    ensures BodyEvents(TextOf(LinesOf(w.fields) + [""], w.crlf) + tail) == [LinesOf(w.fields)] + BodyEvents(tail)
  {
    var lines := LinesOf(w.fields);
    forall i | 0 <= i < |lines|
      ensures OnOneLine(lines[i]) && lines[i] != ""
    {
      assert Writable(w.fields[i]);
      FieldBack(w.fields[i]);
    }
    assert OnOneLine("");
    hide LineOf, Lines, Events, Writable, OnOneLine, TextOf;
    LinesBack(lines + [""], w.crlf, tail);
    Associative(lines, [""], Lines(tail));
    Collected(lines, [""] + Lines(tail), []);
    EventsNext("", Lines(tail), [] + lines);
    assert [] + lines == lines;
  }

  /** Reading a written body gives exactly its events, line by line. */
  lemma {:induction false} EventsBack(events: seq<Written>)
    requires EventsWritable(events)
    ensures BodyEvents(BodyOf(events)) == EventLines(events)
  {
    if |events| == 0 {
      NoLines();
      EventsNext("", [], []);
    } else {
      var rest := events[1..];
      assert EventsWritable(rest);
      EventsBack(rest);
      OneEvent(events[0], BodyOf(rest));
      hide BodyEvents, TextOf;
      assert EventLines(events) == [LinesOf(events[0].fields)] + EventLines(rest);
    }
  }

  /** So an event with several data lines yields one payload, whatever else it contains. */
  lemma StreamBack(events: seq<Written>, marker: string, k: nat)
    requires EventsWritable(events) && k < |events|
    ensures var read := BodyEvents(BodyOf(events));
            && |read| == |events| && Payload(read[k]) == Flatten(ValuesOf(events[k].fields))
            && (MarksDone(read[k], marker) <==> marker in ValuesOf(events[k].fields))
  {
    hide *;
    EventsBack(events);
    PayloadAt(events, marker, k);
  }

  lemma PayloadAt(events: seq<Written>, marker: string, k: nat)
    requires EventsWritable(events) && k < |events|
    ensures Payload(EventLines(events)[k]) == Flatten(ValuesOf(events[k].fields))
    ensures MarksDone(EventLines(events)[k], marker) <==> marker in ValuesOf(events[k].fields)
  {
    PayloadIs(events[k].fields, marker);
  }

  // ----- line by line

  /** A line with white space around its text. */
  datatype Padded = Padded(before: string, text: string, after: string)

  function PaddedLine(p: Padded): string
  {
    p.before + p.text + p.after
  }

  predicate PaddedWell(p: Padded)
  {
    OnOneLine(PaddedLine(p)) && Padding(p.before) && Padding(p.after) && Trimmed(p.text)
  }

  function LinesWritten(ps: seq<Padded>, crlf: bool): string
  {
    if |ps| == 0 then "" else PaddedLine(ps[0]) + Feed(crlf) + LinesWritten(ps[1..], crlf)
  }

  /** The texts that are not empty. */
  function TextsWritten(ps: seq<Padded>): seq<string>
  {
    if |ps| == 0 then [] else (if ps[0].text == "" then [] else [ps[0].text]) + TextsWritten(ps[1..])
  }

  lemma PaddedBack(p: Padded, crlf: bool, tail: string)
    requires PaddedWell(p)
    ensures TrimmedLines(PaddedLine(p) + Feed(crlf) + tail) == (if p.text == "" then [] else [p.text]) + TrimmedLines(tail)
  {
    var all, whole := PaddedLine(p) + Feed(crlf) + tail, p.before + p.text + (p.after + Feed(crlf));
    FirstLine(PaddedLine(p), crlf, tail);
    TrimPadded(p.before, p.text, p.after + Feed(crlf));
    hide TrimSpace, LineEnd, TrimmedLines, OnOneLine;
    assert PaddedLine(p) + Feed(crlf) == whole;
    TrimmedUnfold(all);
    assert [] + TrimmedLines(tail) == TrimmedLines(tail);
  }

  /** The first line of a text, with its ending. */
  lemma FirstLine(line: string, crlf: bool, tail: string)
    requires OnOneLine(line)
    ensures var all := line + Feed(crlf) + tail; var n := LineEnd(all);
            n < |all| && all[..n + 1] == line + Feed(crlf) && all[n + 1..] == tail
  {
    var head := line + (if crlf then "\r" else "");
    LineEndFeed(head, tail);
    hide LineEnd, OnOneLine;
    assert line + Feed(crlf) + tail == head + "\n" + tail;
    assert (head + "\n" + tail)[..|head| + 1] == head + "\n";
  }

  /** The line formats yield the text of each line that has one, whatever white space is around it. */
  lemma {:induction false} LinesFormatBack(ps: seq<Padded>, crlf: bool)
    requires forall i :: 0 <= i < |ps| ==> PaddedWell(ps[i])
    ensures TrimmedLines(LinesWritten(ps, crlf)) == TextsWritten(ps)
  {
    if |ps| == 0 {
      assert TrimmedLines("") == [];
    } else {
      LinesFormatBack(ps[1..], crlf);
      PaddedBack(ps[0], crlf, LinesWritten(ps[1..], crlf));
    }
  }

  // ----- which source a figure comes from

  /** Tokens: those the chunks counted, or else the header's, or else the words of the text, or else the late header's. */
  lemma TokenSources(chunks: seq<Chunk>, headers: Headers)
    ensures var counted, words, tokens := Sum(chunks, ChunkTokens()), Sum(chunks, ChunkWords()), StreamTokens(chunks, headers);
            && (counted != 0 ==> tokens == counted)
            && (counted == 0 && headers.tokens != 0 ==> tokens == headers.tokens)
            && (counted == 0 && headers.tokens == 0 && words != 0 ==> tokens == words)
            && (counted == 0 && headers.tokens == 0 && words == 0 ==> tokens == headers.lateTokens)
  {
  }

  /** The timed chunks are those with a text. */
  lemma {:induction false} TimedIs(chunks: seq<Chunk>)
    ensures Timed(chunks) == |set i | 0 <= i < |chunks| && chunks[i].text != ""|
  {
    if |chunks| > 0 {
      var k := |chunks| - 1;
      TimedIs(chunks[..k]);
      var before := set i | 0 <= i < k && chunks[..k][i].text != "";
      assert (set i | 0 <= i < |chunks| && chunks[i].text != "") == if chunks[k].text != "" then before + {k} else before;
    }
  }

  /** No count is negative, so the chunks counted something exactly if one of them did. */
  lemma {:induction false} TokensCounted(chunks: seq<Chunk>)
    ensures Sum(chunks, ChunkTokens()) >= 0
    ensures Sum(chunks, ChunkTokens()) == 0 <==> forall i :: 0 <= i < |chunks| ==> chunks[i].tokens <= 0
    ensures (forall i :: 0 <= i < |chunks| ==> chunks[i].tokens >= 0) ==> Sum(chunks, ChunkTokens()) == Sum(chunks, (c: Chunk) => c.tokens)
  {
    if |chunks| > 0 {
      TokensCounted(chunks[..|chunks| - 1]);
    }
  }

  /**
   Times: measured from the start to the first counted chunk, and from there to the last; without a counted
   chunk the header's, and instead of a time to first token of 0 the late header's.
   */
  lemma TimeSources(start: int, clock: Clock, n: nat, headers: Headers)
    ensures var t := StreamTiming(start, clock, n, headers);
            && t.latency == Now(clock, n) - start
            && (n > 0 ==> t.generation == Now(clock, n - 1) - Now(clock, 0))
            && (n > 0 ==> t.ttft == (if Now(clock, 0) != start then Now(clock, 0) - start else headers.lateTTFT))
            && (n == 0 ==> t.generation == headers.generation && t.itl == [])
            && (n == 0 ==> t.ttft == (if headers.ttft != 0 then headers.ttft else headers.lateTTFT))
            && |t.itl| == (if n == 0 then 0 else n - 1) && forall i :: 0 <= i < |t.itl| ==> t.itl[i] == Now(clock, i + 1) - Now(clock, i)
  {
    if n > 0 {
      GapsSum(Readings(clock, n));
      forall i | 0 <= i < n - 1
        ensures Gaps(Readings(clock, n))[i] == Now(clock, i + 1) - Now(clock, i)
      {
        GapAt(Readings(clock, n), i);
      }
    }
  }

  // ----- what an event and a stream come to

  /** An event in terms of its data values: a marker, nothing, plain text, or what the decoded tree holds. */
  lemma EventMeans(settings: Settings, fields: seq<Field>, chunk: Chunk)
    requires FieldsWritable(fields) && EventChunk(settings, LinesOf(fields), chunk)
    ensures var values, marker := ValuesOf(fields), settings.doneMarker;
            var raw := Flatten(values);
            && (marker in values || (raw != "" && raw == marker) ==> chunk == Chunk("", 0, true))
            && (marker !in values && raw == "" ==> chunk == Chunk("", 0, false))
            && (marker !in values && raw != "" && raw != marker ==>
                match settings.decode(raw)
                case None => chunk.text == TrimSpace(raw) && chunk.tokens == 0 && !chunk.done
                case Some(j) =>
                  && (chunk.done <==> HasDone(j, marker))
                  && JoinsTexts(j, (set k | k in settings.textKeys :: Lower(k)), chunk.text)
                  && TokensOf(j, (set k | k in settings.tokenKeys :: Lower(k)), chunk.tokens))
  {
    PayloadIs(fields, settings.doneMarker);
    hide Payload, MarksDone, ValuesOf, JoinsTexts, TokensOf, HasDone, TrimSpace, LinesOf;
  }

  ghost predicate SomeText(chunks: seq<Chunk>)
  {
    exists i :: 0 <= i < |chunks| && NonBlank(chunks[i].text)
  }

  lemma SomeTextSnoc(init: seq<Chunk>, last: Chunk)
    ensures SomeText(init + [last]) <==> SomeText(init) || NonBlank(last.text)
  {
    hide NonBlank;
    var all := init + [last];
    assert all[|init|] == last && forall i :: 0 <= i < |init| ==> all[i] == init[i];
    if SomeText(init) {
      var i :| 0 <= i < |init| && NonBlank(init[i].text);
      assert NonBlank(all[i].text);
    }
  }

  lemma TextSnoc(init: seq<Chunk>, last: Chunk)
    ensures TextSoFar(init + [last]) == if last.text != "" then TextSoFar(init) + last.text + " " else TextSoFar(init)
  {
    assert (init + [last])[..|init|] == init;
  }

  /** The collected text has words exactly if some chunk does. */
  lemma {:induction false} TextCollected(chunks: seq<Chunk>)
    ensures NonBlank(TextSoFar(chunks)) <==> SomeText(chunks)
  {
    NoText();
    if |chunks| > 0 {
      var init, last := chunks[..|chunks| - 1], chunks[|chunks| - 1];
      TextCollected(init);
      hide *;
      assert chunks == init + [last];
      TextSnoc(init, last);
      SomeTextSnoc(init, last);
      OneMoreText(TextSoFar(init), last.text);
    }
  }

  lemma NoText()
    ensures !NonBlank(" ") && !NonBlank("")
  {
  }

  lemma OneMoreText(before: string, text: string)
    ensures NonBlank(if text != "" then before + text + " " else before) <==> NonBlank(before) || NonBlank(text)
  {
    NoText();
    NonBlankConcat(before, text);
    NonBlankConcat(before + text, " ");
  }

  lemma NonBlankConcat(a: string, b: string)
    ensures NonBlank(a + b) <==> NonBlank(a) || NonBlank(b)
  {
    assert forall i :: 0 <= i < |a| ==> (a + b)[i] == a[i];
    assert forall i :: 0 <= i < |b| ==> (a + b)[|a| + i] == b[i];
    if NonBlank(a + b) {
      var i :| 0 <= i < |a + b| && !Space((a + b)[i]);
      assert if i < |a| then !Space(a[i]) else !Space(b[i - |a|]);
    }
  }

  /**
   The figures of a report: aborted if a header says so or the stream did not end as it should; the tokens are
   an estimate exactly if nothing was counted or declared and some chunk has words.
   */
  lemma ReportFigures(chunks: seq<Chunk>, start: int, clock: Clock, headers: Headers, r: StreamResult, done: bool)
    requires Summarizes(chunks, start, clock, headers, r, done)
    ensures r.Consumed? ==>
              && (r.aborted <==> headers.aborted || !done)
              && r.timing == StreamTiming(start, clock, Timed(chunks), headers) && r.tokens == StreamTokens(chunks, headers)
              && (r.estimated <==> Sum(chunks, ChunkTokens()) == 0 && headers.tokens == 0 && SomeText(chunks))
    ensures r.Failed? ==> r.latency == Now(clock, Timed(chunks)) - start
  {
    TextCollected(chunks);
    hide NonBlank, TextSoFar, StreamTiming, StreamTokens, Timed;
  }
}
