/** The event loop refines a simple split of the body, cuts at blank lines, and reads back what a server renders. */
module SseLaws {
  import opened Sequences
  import opened Streaming
  import opened Text
  import opened JsonWalk
  import opened Sse

  // ----- the events are the maximal runs of non-blank lines

  datatype Span = Span(from: nat, to: nat)

  /** A maximal run of non-blank lines that is followed by a blank one. */
  ghost predicate IsRun(lines: seq<string>, s: Span)
  {
    && s.from < s.to < |lines| && lines[s.to] == ""
    && (forall i :: s.from <= i < s.to ==> lines[i] != "")
    && (s.from > 0 ==> lines[s.from - 1] == "")
  }

  /** The spans of the events processed from line i on, with the run under way starting at `open`. */
  function Spans(lines: seq<string>, open: nat, i: nat): seq<Span>
    requires open <= i <= |lines|
    decreases |lines| - i
  {
    if i == |lines| then []
    else if lines[i] != "" then Spans(lines, open, i + 1)
    else (if open == i then [] else [Span(open, i)]) + Spans(lines, i + 1, i + 1)
  }

  function Slice(lines: seq<string>, s: Span): seq<string>
  {
    if s.from <= s.to <= |lines| then lines[s.from..s.to] else []
  }

  function Slices(lines: seq<string>, spans: seq<Span>): (out: seq<seq<string>>)
    ensures |out| == |spans| && forall k :: 0 <= k < |spans| ==> out[k] == Slice(lines, spans[k])
  {
    seq(|spans|, k requires 0 <= k < |spans| => Slice(lines, spans[k]))
  }

  lemma {:induction false} EventsAreSpans(lines: seq<string>, open: nat, i: nat)
    requires open <= i <= |lines|
    ensures Events(lines[i..], lines[open..i]) == Slices(lines, Spans(lines, open, i))
    decreases |lines| - i
  {
    if i < |lines| {
      assert lines[i..] == [lines[i]] + lines[i + 1..];
      if lines[i] != "" {
        EventsAreSpans(lines, open, i + 1);
        assert lines[open..i] + [lines[i]] == lines[open..i + 1];
      } else {
        EventsAreSpans(lines, i + 1, i + 1);
        assert lines[i + 1..i + 1] == [];
      }
    }
  }

  /** The run under way at line i. */
  ghost predicate RunSince(lines: seq<string>, open: nat, i: nat)
  {
    && open <= i <= |lines|
    && (forall k :: open <= k < i ==> lines[k] != "")
    && (open > 0 ==> lines[open - 1] == "")
  }

  /** Exactly the maximal runs that end at or after line i, in order and without overlap. */
  ghost predicate AllRuns(lines: seq<string>, open: nat, i: nat, spans: seq<Span>)
  {
    && (forall k :: 0 <= k < |spans| ==> IsRun(lines, spans[k]) && spans[k].from >= open && spans[k].to >= i)
    && (forall s :: IsRun(lines, s) && s.to >= i ==> s in spans)
    && (forall k, m :: 0 <= k < m < |spans| ==> spans[k].to < spans[m].from)
  }

  lemma RunsNonBlank(lines: seq<string>, open: nat, i: nat, spans: seq<Span>)
    requires RunSince(lines, open, i) && i < |lines| && lines[i] != "" && AllRuns(lines, open, i + 1, spans)
    ensures AllRuns(lines, open, i, spans)
  {
    forall s | IsRun(lines, s) && s.to >= i
      ensures s in spans
    {
      assert s.to != i;
    }
  }

  lemma RunsBlank(lines: seq<string>, open: nat, i: nat, spans: seq<Span>)
    requires RunSince(lines, open, i) && i < |lines| && lines[i] == "" && AllRuns(lines, i + 1, i + 1, spans)
    ensures AllRuns(lines, open, i, (if open == i then [] else [Span(open, i)]) + spans)
  {
    var all := (if open == i then [] else [Span(open, i)]) + spans;
    forall s | IsRun(lines, s) && s.to >= i
      ensures s in all
    {
      if s.to == i {
        RunStart(lines, open, i, s);
        assert all[0] == s;
      } else {
        assert s in spans;
      }
    }
  }

  /** A run that ends where the run under way ends is that run. */
  lemma RunStart(lines: seq<string>, open: nat, i: nat, s: Span)
    requires RunSince(lines, open, i) && IsRun(lines, s) && s.to == i
    ensures s.from == open
  {
  }

  lemma {:induction false} SpansAreRuns(lines: seq<string>, open: nat, i: nat)
    requires RunSince(lines, open, i)
    ensures AllRuns(lines, open, i, Spans(lines, open, i))
    decreases |lines| - i
  {
    if i < |lines| {
      if lines[i] != "" {
        SpansAreRuns(lines, open, i + 1);
        RunsNonBlank(lines, open, i, Spans(lines, open, i + 1));
      } else {
        SpansAreRuns(lines, i + 1, i + 1);
        RunsBlank(lines, open, i, Spans(lines, i + 1, i + 1));
      }
    }
  }

  /**
   The events of a body are exactly its maximal runs of non-blank lines, in order, except a final run
   with no blank line after it: that one is dropped.
   */
  lemma EventsAreRuns(body: string)
    ensures var lines := Lines(body);
            var spans := Spans(lines, 0, 0);
            && BodyEvents(body) == Slices(lines, spans)
            && (forall s :: s in spans <==> IsRun(lines, s))
            && (forall k, m :: 0 <= k < m < |spans| ==> spans[k].to < spans[m].from)
  {
    var lines := Lines(body);
    EventsAreSpans(lines, 0, 0);
    SpansAreRuns(lines, 0, 0);
    assert lines[0..] == lines && lines[0..0] == [];
  }

  // ----- concatenation

  /** The lines collected for an event that is still open at the end. */
  function OpenAfter(lines: seq<string>, open: seq<string>): seq<string>
    decreases |lines|
  {
    if |lines| == 0 then open
    else OpenAfter(lines[1..], if lines[0] == "" then [] else open + [lines[0]])
  }

  lemma {:induction false} EventsConcat(x: seq<string>, y: seq<string>, open: seq<string>)
    ensures Events(x + y, open) == Events(x, open) + Events(y, OpenAfter(x, open))
    decreases |x|
  {
    if |x| == 0 {
      assert x + y == y;
      assert [] + Events(y, open) == Events(y, open);
    } else {
      assert (x + y)[1..] == x[1..] + y;
      EventsConcat(x[1..], y, if x[0] == "" then [] else open + [x[0]]);
    }
  }

  lemma {:induction false} OpenAfterLast(x: seq<string>, open: seq<string>)
    requires |x| > 0
    ensures OpenAfter(x, open) == [] <==> x[|x| - 1] == ""
    decreases |x|
  {
    if |x| > 1 {
      OpenAfterLast(x[1..], if x[0] == "" then [] else open + [x[0]]);
    }
  }

  /** Nothing, or text that ends in a line feed. */
  predicate WholeLines(a: string)
  {
    a == "" || a[|a| - 1] == '\n'
  }

  lemma {:induction false} LineEndConcat(a: string, b: string)
    ensures LineEnd(a) < |a| ==> LineEnd(a + b) == LineEnd(a)
    ensures LineEnd(a) == |a| ==> LineEnd(a + b) == |a| + LineEnd(b)
  {
    if |a| == 0 {
      assert a + b == b;
    } else {
      assert (a + b)[1..] == a[1..] + b;
      LineEndConcat(a[1..], b);
    }
  }

  /** All lines but the last. */
  function Complete(a: string): seq<string>
  {
    Lines(a)[..|Lines(a)| - 1]
  }

  lemma NoLines()
    ensures Lines("") == [""]
  {
  }

  lemma {:induction false} LinesConcat(a: string, b: string)
    requires WholeLines(a)
    ensures Lines(a) == Complete(a) + [""] && Lines(a + b) == Complete(a) + Lines(b)
    decreases |a|
  {
    NoLines();
    if a == "" {
      assert a + b == b;
      assert Lines(a) == [] + [""] && Complete(a) + Lines(b) == Lines(b);
    } else {
      var n := LineEnd(a);
      LineEndConcat(a, b);
      FeedInside(a);
      LinesConcat(a[n + 1..], b);
      hide LineEnd, Strip, Lines, WholeLines;
      CutConcat(a, b, n);
      LinesCut(a + b, a[..n], a[n + 1..] + b);
      LinesCut(a, a[..n], a[n + 1..]);
      CompleteCons(a, Strip(a[..n]), a[n + 1..]);
      Associative([Strip(a[..n])], Complete(a[n + 1..]), Lines(b));
    }
  }

  lemma CompleteCons(a: string, line: string, rest: string)
    requires Lines(a) == [line] + Lines(rest) && Lines(rest) == Complete(rest) + [""]
    ensures Complete(a) == [line] + Complete(rest) && Lines(a) == Complete(a) + [""]
  {
    hide Lines;
  }

  lemma CutConcat(a: string, b: string, n: nat)
    requires n < |a|
    ensures (a + b)[..n] == a[..n] && (a + b)[n + 1..] == a[n + 1..] + b
  {
  }

  lemma FeedInside(a: string)
    requires WholeLines(a) && a != ""
    ensures LineEnd(a) < |a| && WholeLines(a[LineEnd(a) + 1..])
  {
    hide LineEnd;
    assert a[..|a|] == a;
  }

  lemma LinesCut(s: string, line: string, rest: string)
    requires LineEnd(s) == |line| < |s| && s[..|line|] == line && s[|line| + 1..] == rest
    ensures Lines(s) == [Strip(line)] + Lines(rest)
  {
    hide LineEnd, Strip;
    LinesUnfold(s);
  }

  /** The text ends with a blank line, or is empty. */
  predicate EndsBlank(a: string)
  {
    a == "" || (a[|a| - 1] == '\n' && |Lines(a)| >= 2 && Lines(a)[|Lines(a)| - 2] == "")
  }

  lemma WholeEvents(a: string, b: string)
    requires WholeLines(a)
    ensures BodyEvents(a + b) == Events(Complete(a), []) + Events(Lines(b), OpenAfter(Complete(a), []))
  {
    LinesConcat(a, b);
    EventsConcat(Complete(a), Lines(b), []);
  }

  lemma WholeEventsAlone(a: string)
    requires WholeLines(a)
    ensures var open := OpenAfter(Complete(a), []);
            BodyEvents(a) == Events(Complete(a), []) + (if open == [] then [] else [open])
  {
    LinesConcat(a, "");
    EventsConcat(Complete(a), [""], []);
    EventsNext("", [], OpenAfter(Complete(a), []));
  }

  lemma BlankCloses(a: string)
    requires WholeLines(a)
    ensures OpenAfter(Complete(a), []) == [] <==> EndsBlank(a)
  {
    LinesConcat(a, "");
    if a != "" {
      FeedInside(a);
      assert |Lines(a)| >= 2;
      OpenAfterLast(Complete(a), []);
    } else {
      NoLines();
    }
  }

  /** After a blank line the rest of the body is parsed as if it stood alone. */
  lemma SplitAtBlank(a: string, b: string)
    requires EndsBlank(a)
    ensures BodyEvents(a + b) == BodyEvents(a) + BodyEvents(b)
  {
    assert WholeLines(a);
    hide EndsBlank, WholeLines, Lines, Events, Complete, OpenAfter, LineEnd;
    WholeEvents(a, b);
    WholeEventsAlone(a);
    BlankCloses(a);
    assert Events(Complete(a), []) + [] == Events(Complete(a), []);
  }

  lemma {:induction false} LineEndFeed(s: string, tail: string)
    requires NoFeed(s)
    ensures LineEnd(s) == |s| && LineEnd(s + "\n" + tail) == |s|
  {
    if |s| == 0 {
      assert (s + "\n" + tail)[0] == '\n';
    } else {
      LineEndFeed(s[1..], tail);
      assert (s + "\n" + tail)[1..] == s[1..] + "\n" + tail;
    }
  }

  lemma OneLine(s: string, tail: string)
    requires NoFeed(s)
    ensures Lines(s + "\n" + tail) == [Strip(s)] + Lines(tail)
  {
    LineEndFeed(s, tail);
    var all := s + "\n" + tail;
    assert all[..|s|] == s && all[|s| + 1..] == tail;
    LinesCut(all, s, tail);
  }

  /** A line and a blank line. */
  function Block(line: string): string
  {
    line + "\n\n"
  }

  lemma BlockLines(line: string)
    requires NoFeed(line) && line != "" && line[|line| - 1] != '\r'
    ensures Lines(Block(line)) == [line, "", ""]
  {
    hide Lines, LineEnd;
    NoLines();
    OneLine(line, "\n");
    OneLine("", "");
    assert "" + "\n" + "" == "\n" && line + "\n" + "\n" == Block(line);
    assert Strip("") == "" && Strip(line) == line;
  }

  /** A line and a blank line complete the event under way. */
  lemma BlockEvents(line: string, open: seq<string>)
    requires NoFeed(line) && line != "" && line[|line| - 1] != '\r'
    ensures Events(Lines(Block(line)), open) == [open + [line]]
    ensures BodyEvents(Block(line)) == [[line]]
  {
    BlockLines(line);
    BlockLine(line, open);
    BlockLine(line, []);
    assert [] + [line] == [line];
  }

  lemma BlockLine(line: string, open: seq<string>)
    requires line != ""
    ensures Events([line, "", ""], open) == [open + [line]]
  {
    EventsNext(line, ["", ""], open);
    EventsNext("", [""], open + [line]);
    EventsNext("", [], []);
    assert [line, "", ""] == [line] + ["", ""] && ["", ""] == [""] + [""];
  }

  /** Any text is whole lines and a rest without a line feed. */
  lemma {:induction false} LastFeed(a: string) returns (whole: string, rest: string)
    ensures a == whole + rest && WholeLines(whole) && NoFeed(rest)
  {
    if WholeLines(a) {
      whole, rest := a, "";
    } else {
      var k := |a| - 1;
      whole, rest := LastFeed(a[..k]);
      rest := rest + [a[k]];
    }
  }

  lemma OpenEventJoins(a: string)
    requires WholeLines(a) && !EndsBlank(a)
    ensures BodyEvents(a + Block("x")) != BodyEvents(a) + BodyEvents(Block("x"))
  {
    hide Lines, Events, Complete, OpenAfter, EndsBlank;
    var open := OpenAfter(Complete(a), []);
    WholeEvents(a, Block("x"));
    WholeEventsAlone(a);
    BlankCloses(a);
    BlockEvents("x", open);
  }

  lemma BlockMoves(whole: string, rest: string)
    ensures whole + rest + Block("x") == whole + Block(rest + "x")
  {
  }

  lemma OpenLineJoins(whole: string, rest: string)
    requires WholeLines(whole) && NoFeed(rest) && rest != ""
    ensures BodyEvents(whole + rest + Block("x")) != BodyEvents(whole + rest) + BodyEvents(Block("x"))
  {
    var longer := rest + "x";
    LongerLine(rest);
    hide *;
    BlockEvents("x", []);
    BlockMoves(whole, rest);
    var open := OpenAfter(Complete(whole), []);
    WholeEvents(whole, Block(longer));
    BlockEvents(longer, open);
    LastsDiffer(Events(Complete(whole), []), open, longer, BodyEvents(whole + rest));
  }

  lemma LongerLine(rest: string)
    requires NoFeed(rest) && rest != ""
    ensures NoFeed(rest + "x") && (rest + "x")[|rest|] == 'x' && rest + "x" != "x"
  {
    assert |rest + "x"| > |"x"|;
  }

  /** Two lists of events whose last events end in different lines. */
  lemma LastsDiffer(a: seq<seq<string>>, open: seq<string>, line: string, b: seq<seq<string>>)
    requires line != "x"
    ensures a + [open + [line]] != b + [["x"]]
  {
    var l, r := a + [open + [line]], b + [["x"]];
    assert l[|l| - 1] == open + [line] && r[|r| - 1] == ["x"];
    assert (open + [line])[|open|] == line;
  }

  /** Parsing distributes over concatenation exactly at the end of a blank line. */
  lemma SplitExactly(a: string)
    ensures EndsBlank(a) <==> forall b :: BodyEvents(a + b) == BodyEvents(a) + BodyEvents(b)
  {
    hide EndsBlank, BodyEvents;
    if EndsBlank(a) {
      forall b
        ensures BodyEvents(a + b) == BodyEvents(a) + BodyEvents(b)
      {
        SplitAtBlank(a, b);
      }
    } else {
      var whole, rest := LastFeed(a);
      if rest == "" {
        assert a == whole;
        OpenEventJoins(a);
      } else {
        OpenLineJoins(whole, rest);
      }
    }
  }

  // ----- what a server renders

  /** One payload as the server writes it. */
  function Rendered(p: string): string
  {
    Block("data: " + p)
  }

  function Render(payloads: seq<string>): string
  {
    if |payloads| == 0 then "" else Render(payloads[..|payloads| - 1]) + Rendered(payloads[|payloads| - 1])
  }

  /** Not empty, no white space at either end, on one line. */
  predicate Renderable(p: string)
  {
    p != "" && !Space(p[0]) && !Space(p[|p| - 1]) && NoFeed(p)
  }

  lemma PayloadBack(settings: Settings, p: string, chunk: Chunk)
    requires Renderable(p)
    ensures Payload(["data: " + p]) == p
    ensures EventChunk(settings, ["data: " + p], chunk) <==> PayloadChunk(settings, p, chunk)
  {
    var line := "data: " + p;
    assert line[..5] == "data:" && line[5..] == " " + p;
    assert (" " + p)[1..] == p;
    assert TrimLeft(p) == p && TrimRight(p) == p;
    assert TrimLeft(" " + p) == TrimLeft((" " + p)[1..]);
    assert Value(line) == p;
    assert Payload([line]) == Payload([]) + p;
    assert [line][0] == line;
    hide PayloadChunk;
  }

  lemma BlockEndsBlank(a: string, block: string, line: string)
    requires WholeLines(a) && Lines(block) == [line, "", ""] && block != "" && block[|block| - 1] == '\n'
    ensures EndsBlank(a + block)
  {
    LinesConcat(a, block);
    hide Lines, Complete, WholeLines;
    SecondLast(Complete(a), line);
  }

  lemma SecondLast(lines: seq<string>, line: string)
    ensures var all := lines + [line, "", ""]; |all| >= 2 && all[|all| - 2] == ""
  {
  }

  lemma RenderEndsBlank(a: string, p: string)
    requires Renderable(p) && EndsBlank(a)
    ensures EndsBlank(a + Rendered(p))
  {
    var line := "data: " + p;
    assert line[|line| - 1] == p[|p| - 1];
    assert WholeLines(a);
    BlockLines(line);
    BlockEndsBlank(a, Rendered(p), line);
  }

  function DataLines(payloads: seq<string>): (events: seq<seq<string>>)
    ensures |events| == |payloads| && forall i :: 0 <= i < |payloads| ==> events[i] == ["data: " + payloads[i]]
  {
    seq(|payloads|, i requires 0 <= i < |payloads| => ["data: " + payloads[i]])
  }

  lemma {:induction false} RenderedEvents(payloads: seq<string>)
    requires forall i :: 0 <= i < |payloads| ==> Renderable(payloads[i])
    ensures BodyEvents(Render(payloads)) == DataLines(payloads) && EndsBlank(Render(payloads))
  {
    if |payloads| == 0 {
      NoLines();
      EventsNext("", [], []);
    } else {
      var init, p := payloads[..|payloads| - 1], payloads[|payloads| - 1];
      RenderedEvents(init);
      hide EndsBlank, Renderable, BodyEvents;
      RenderEndsBlank(Render(init), p);
      SplitAtBlank(Render(init), Rendered(p));
      RenderedEvent(p);
      assert DataLines(payloads) == DataLines(init) + [["data: " + p]];
    }
  }

  lemma RenderedEvent(p: string)
    requires Renderable(p)
    ensures BodyEvents(Rendered(p)) == [["data: " + p]]
  {
    var line := "data: " + p;
    assert line[|line| - 1] == p[|p| - 1];
    BlockEvents(line, []);
  }

  /** Reading a rendered list gives the list back: one event for each payload, with that payload. */
  lemma RenderRoundTrip(settings: Settings, payloads: seq<string>, chunks: seq<Chunk>)
    requires forall i :: 0 <= i < |payloads| ==> Renderable(payloads[i])
    ensures var events := BodyEvents(Render(payloads));
            && |events| == |payloads|
            && (forall i :: 0 <= i < |payloads| ==> Payload(events[i]) == payloads[i])
            && (Extracted(settings, events, chunks) <==>
                |chunks| == |payloads| && forall i :: 0 <= i < |payloads| ==> PayloadChunk(settings, payloads[i], chunks[i]))
  {
    RenderedEvents(payloads);
    hide Renderable, Payload, EventChunk, PayloadChunk, BodyEvents;
    forall i | 0 <= i < |payloads|
      ensures Payload(["data: " + payloads[i]]) == payloads[i]
      ensures i < |chunks| ==> (EventChunk(settings, ["data: " + payloads[i]], chunks[i]) <==> PayloadChunk(settings, payloads[i], chunks[i]))
    {
      PayloadBack(settings, payloads[i], if i < |chunks| then chunks[i] else Chunk("", 0, false));
    }
  }

  // ----- what does not depend on the order of map keys

  lemma TextsDetermined(j: Json, preferred: set<string>, a: string, b: string)
    requires JoinsTexts(j, preferred, a) && JoinsTexts(j, preferred, b)
    ensures WordCount(a) == WordCount(b) && (a == "" <==> b == "")
  {
    hide Collects;
    var pa, ta :| Collects(j, preferred, pa, ta) && a == Join(ta);
    var pb, tb :| Collects(j, preferred, pb, tb) && b == Join(tb);
    OrderIrrelevant(j, preferred, pa, ta, pb, tb);
    TextsNonEmpty(j, preferred, pa, ta);
    TextsNonEmpty(j, preferred, pb, tb);
    JoinEmpty(ta);
    JoinEmpty(tb);
    assert |multiset(ta)| == |ta| && |multiset(tb)| == |tb|;
  }

  lemma TextsNonEmpty(j: Json, preferred: set<string>, paths: seq<Path>, texts: seq<string>)
    requires Collects(j, preferred, paths, texts)
    ensures forall i :: 0 <= i < |texts| ==> texts[i] != ""
  {
    forall i | 0 <= i < |texts|
      ensures texts[i] != ""
    {
      assert TextAt(j, paths[i], preferred);
    }
  }

  /** Two readings of the same event agree on whether it ends the stream, whether it is timed, and on its words. */
  lemma ChunkDetermined(settings: Settings, lines: seq<string>, a: Chunk, b: Chunk)
    requires EventChunk(settings, lines, a) && EventChunk(settings, lines, b)
    ensures a.done == b.done && WordCount(a.text) == WordCount(b.text) && (a.text == "" <==> b.text == "")
  {
    hide HasDone, JoinsTexts, TokensOf, Payload, Preferred, TrimSpace, WordCount;
    var raw := Payload(lines);
    if !MarksDone(lines, settings.doneMarker) && raw != "" && raw != settings.doneMarker && settings.decode(raw).Some? {
      TextsDetermined(settings.decode(raw).value, Preferred(settings.textKeys), a.text, b.text);
    }
  }

  /** The first counted chunk came after the start. */
  predicate Measured(start: int, clock: Clock, n: nat)
  {
    n > 0 && Now(clock, 0) > start
  }

  /**
   Time accounting of the loops: the gaps are one fewer than the counted chunks and sum to the
   generation time. Time to first token plus generation time is within the latency if the first chunk
   came after the start; if not, exactly if the header's time to first token fits.
   */
  lemma StreamAccounting(start: int, clock: Clock, n: nat, headers: Headers)
    requires Monotone(clock) && start <= Now(clock, 0)
    ensures var t := StreamTiming(start, clock, n, headers);
            && |t.itl| == (if n == 0 then 0 else n - 1)
            && (n > 0 ==> Sum(t.itl, Same()) == t.generation)
            && t.latency == Now(clock, n) - start
            && (t.ttft + t.generation <= t.latency <==>
                Measured(start, clock, n)
                || (n > 0 && headers.lateTTFT <= Now(clock, n) - Now(clock, n - 1))
                || (n == 0 && Or(headers.ttft, headers.lateTTFT) + headers.generation <= Now(clock, 0) - start))
  {
    TimeAccounting(start, clock, n);
  }
}
