/** How command-line arguments are quoted, and how a POSIX shell reads them back. */
module Shell {

  // ----- reading a command line, sections 2.2.1, 2.2.2 and 2.3 of the Shell Command Language

  datatype Mode = Unquoted | SingleQuoted

  /** The word under way, if any. */
  datatype Word = Absent | Present(text: string)

  /** Broken: a quote is left open, or an unquoted character means more to the shell than itself. */
  datatype Outcome = Args(words: seq<string>) | Broken

  predicate Blank(c: char)
  {
    c == ' ' || c == '\t'
  }

  /** Characters that the shell treats specially outside quotes, apart from blanks, quotes and backslash. */
  predicate Special(c: char)
  {
    c == '\n' || ('!' <= c <= '*' && c != '\'') || ';' <= c <= '?' || c == '[' || c == '`' || '{' <= c <= '~'
  }

  /** With blanks, quotes and backslash these are the characters of section 2.2 that are not plain. */
  lemma SpecialIs(c: char)
    ensures Special(c) <==> c in "\n!\"#$%&()*;<=>?[`{|}~"
  {
  }

  function Add(w: Word, c: char): Word
  {
    Present(if w.Present? then w.text + [c] else [c])
  }

  function Begun(w: Word): Word
  {
    if w.Present? then w else Present("")
  }

  /** Ends the word under way, if there is one, before these further words. */
  function Then(w: Word, more: Outcome): Outcome
  {
    if w.Present? && more.Args? then Args([w.text] + more.words) else more
  }

  function Scan(s: string, mode: Mode, w: Word): Outcome
    decreases |s|
  {
    if |s| == 0 then if mode == SingleQuoted then Broken else Then(w, Args([]))
    else if mode == SingleQuoted then
      if s[0] == '\'' then Scan(s[1..], Unquoted, w) else Scan(s[1..], SingleQuoted, Add(w, s[0]))
    else if Blank(s[0]) then Then(w, Scan(s[1..], Unquoted, Absent))
    else if s[0] == '\'' then Scan(s[1..], SingleQuoted, Begun(w))
    else if s[0] == '\\' then
      if |s| == 1 then Broken
      else if s[1] == '\n' then Scan(s[2..], Unquoted, w)
      else Scan(s[2..], Unquoted, Add(w, s[1]))
    else if Special(s[0]) then Broken
    else Scan(s[1..], Unquoted, Add(w, s[0]))
  }

  // ----- writing arguments

  /** Each single quote becomes: close, escaped quote, open. */
  function ShellQuote(s: string): string
  {
    if |s| == 0 then "" else (if s[0] == '\'' then "'\\''" else [s[0]]) + ShellQuote(s[1..])
  }

  /** A piece of a quoted argument, passed through ShellQuote or written as it is. */
  datatype Piece = Escaped(text: string) | AsIs(text: string)

  datatype Arg = Bare(text: string) | InQuotes(pieces: seq<Piece>)

  function RenderPieces(pieces: seq<Piece>): string
  {
    if |pieces| == 0 then ""
    else (if pieces[0].Escaped? then ShellQuote(pieces[0].text) else pieces[0].text) + RenderPieces(pieces[1..])
  }

  function PiecesText(pieces: seq<Piece>): string
  {
    if |pieces| == 0 then "" else pieces[0].text + PiecesText(pieces[1..])
  }

  function RenderArg(a: Arg): string
  {
    match a
    case Bare(text) => text
    case InQuotes(pieces) => "'" + RenderPieces(pieces) + "'"
  }

  /** What the program should receive. */
  function ArgText(a: Arg): string
  {
    match a
    case Bare(text) => text
    case InQuotes(pieces) => PiecesText(pieces)
  }

  /** The arguments, each after a space but the first. */
  function RenderArgs(args: seq<Arg>): string
  {
    if |args| == 0 then ""
    else if |args| == 1 then RenderArg(args[0])
    else RenderArg(args[0]) + " " + RenderArgs(args[1..])
  }

  function Texts(args: seq<Arg>): (texts: seq<string>)
    ensures |texts| == |args| && forall i :: 0 <= i < |args| ==> texts[i] == ArgText(args[i])
  {
    seq(|args|, i requires 0 <= i < |args| => ArgText(args[i]))
  }

  predicate NoQuote(s: string)
  {
    forall i :: 0 <= i < |s| ==> s[i] != '\''
  }

  /** A word the shell passes on unchanged without quotes. */
  predicate Plain(s: string)
  {
    s != "" && forall i :: 0 <= i < |s| ==> !Blank(s[i]) && s[i] != '\'' && s[i] != '\\' && !Special(s[i])
  }

  predicate SafePieces(pieces: seq<Piece>)
  {
    forall i :: 0 <= i < |pieces| && pieces[i].AsIs? ==> NoQuote(pieces[i].text)
  }

  predicate Safe(a: Arg)
  {
    match a
    case Bare(text) => Plain(text)
    case InQuotes(pieces) => SafePieces(pieces)
  }

  // ----- reading back what was written

  lemma {:induction false} QuotedBack(x: string, rest: string, w: string)
    ensures Scan(ShellQuote(x) + rest, SingleQuoted, Present(w)) == Scan(rest, SingleQuoted, Present(w + x))
  {
    hide Scan;
    if |x| == 0 {
      assert ShellQuote(x) + rest == rest && w + x == w;
    } else {
      var tail := ShellQuote(x[1..]) + rest;
      QuotedBack(x[1..], rest, w + [x[0]]);
      assert w + [x[0]] + x[1..] == w + x;
      if x[0] == '\'' {
        QuoteEscape(tail, w);
        assert ShellQuote(x) + rest == "'\\''" + tail;
      } else {
        assert ShellQuote(x) + rest == [x[0]] + tail;
        QuotedChar(x[0], tail, w);
      }
    }
  }

  lemma QuotedChar(c: char, tail: string, w: string)
    requires c != '\''
    ensures Scan([c] + tail, SingleQuoted, Present(w)) == Scan(tail, SingleQuoted, Present(w + [c]))
  {
    assert ([c] + tail)[1..] == tail;
  }

  lemma QuoteEscape(tail: string, w: string)
    ensures Scan("'\\''" + tail, SingleQuoted, Present(w)) == Scan(tail, SingleQuoted, Present(w + "'"))
  {
    var s := "'\\''" + tail;
    assert s[1..] == "\\''" + tail;
    assert s[1..][2..] == "'" + tail;
    assert ("'" + tail)[1..] == tail;
    assert Scan("'" + tail, Unquoted, Present(w + "'")) == Scan(tail, SingleQuoted, Present(w + "'"));
    assert Scan("\\''" + tail, Unquoted, Present(w)) == Scan("'" + tail, Unquoted, Present(w + "'"));
  }

  lemma {:induction false} AsIsBack(x: string, rest: string, w: string)
    requires NoQuote(x)
    ensures Scan(x + rest, SingleQuoted, Present(w)) == Scan(rest, SingleQuoted, Present(w + x))
  {
    if |x| == 0 {
      assert x + rest == rest && w + x == w;
    } else {
      assert (x + rest)[1..] == x[1..] + rest;
      AsIsBack(x[1..], rest, w + [x[0]]);
      assert w + [x[0]] + x[1..] == w + x;
    }
  }

  lemma {:induction false} PiecesBack(pieces: seq<Piece>, rest: string, w: string)
    requires SafePieces(pieces)
    ensures Scan(RenderPieces(pieces) + rest, SingleQuoted, Present(w)) == Scan(rest, SingleQuoted, Present(w + PiecesText(pieces)))
  {
    hide Scan, ShellQuote, NoQuote;
    if |pieces| == 0 {
      assert RenderPieces(pieces) + rest == rest && w + PiecesText(pieces) == w;
    } else {
      var p, more := pieces[0], RenderPieces(pieces[1..]) + rest;
      var head := if p.Escaped? then ShellQuote(p.text) else p.text;
      assert RenderPieces(pieces) + rest == head + more;
      if p.Escaped? {
        QuotedBack(p.text, more, w);
      } else {
        AsIsBack(p.text, more, w);
      }
      PiecesBack(pieces[1..], rest, w + p.text);
      assert w + p.text + PiecesText(pieces[1..]) == w + PiecesText(pieces);
    }
  }

  lemma {:induction false} BareBack(x: string, rest: string, w: Word)
    requires Plain(x)
    ensures Scan(x + rest, Unquoted, w) == Scan(rest, Unquoted, Present(if w.Present? then w.text + x else x))
  {
    assert (x + rest)[1..] == x[1..] + rest;
    if |x| > 1 {
      BareBack(x[1..], rest, Add(w, x[0]));
      assert Add(w, x[0]).text + x[1..] == if w.Present? then w.text + x else x;
    } else {
      assert x[1..] + rest == rest && [x[0]] == x;
    }
  }

  lemma ArgBack(a: Arg, rest: string)
    requires Safe(a)
    ensures Scan(RenderArg(a) + rest, Unquoted, Absent) == Scan(rest, Unquoted, Present(ArgText(a)))
  {
    match a
    case Bare(text) => BareBack(text, rest, Absent);
    case InQuotes(pieces) =>
      hide Plain;
      var body := RenderPieces(pieces) + ("'" + rest);
      assert RenderArg(a) + rest == "'" + body;
      OpenQuote(body);
      PiecesBack(pieces, "'" + rest, "");
      assert "" + PiecesText(pieces) == PiecesText(pieces);
      CloseQuote(rest, PiecesText(pieces));
  }

  lemma OpenQuote(s: string)
    ensures Scan("'" + s, Unquoted, Absent) == Scan(s, SingleQuoted, Present(""))
  {
    assert ("'" + s)[1..] == s;
  }

  lemma CloseQuote(s: string, w: string)
    ensures Scan("'" + s, SingleQuoted, Present(w)) == Scan(s, Unquoted, Present(w))
  {
    assert ("'" + s)[1..] == s;
  }

  lemma LastWord(w: string)
    ensures Scan("", Unquoted, Present(w)) == Args([w])
  {
  }

  lemma NextWord(s: string, w: string)
    ensures Scan(" " + s, Unquoted, Present(w)) == Then(Present(w), Scan(s, Unquoted, Absent))
  {
    assert (" " + s)[1..] == s;
  }

  lemma FirstBack(a: Arg, rest: string)
    requires Safe(a)
    ensures Scan(RenderArg(a) + " " + rest, Unquoted, Absent) == Then(Present(ArgText(a)), Scan(rest, Unquoted, Absent))
    ensures Scan(RenderArg(a), Unquoted, Absent) == Args([ArgText(a)])
  {
    LastWord(ArgText(a));
    hide Scan, Safe, ArgText, RenderArg;
    ArgBack(a, " " + rest);
    ArgBack(a, "");
    NextWord(rest, ArgText(a));
    assert RenderArg(a) + " " + rest == RenderArg(a) + (" " + rest) && RenderArg(a) + "" == RenderArg(a);
  }

  predicate AllSafe(args: seq<Arg>)
  {
    forall i :: 0 <= i < |args| ==> Safe(args[i])
  }

  /** Safe arguments are read word for word, whatever arguments come after them. */
  lemma {:induction false} SafeFirst(args: seq<Arg>, more: seq<Arg>)
    requires AllSafe(args) && |more| > 0
    ensures Scan(RenderArgs(args + more), Unquoted, Absent) == Before(Texts(args), Scan(RenderArgs(more), Unquoted, Absent))
  {
    hide Scan, Safe, ArgText, RenderArg;
    if |args| == 0 {
      assert args + more == more;
    } else {
      SafeFirst(args[1..], more);
      FirstBack(args[0], RenderArgs(args[1..] + more));
      ConsArgs(args, more);
      hide RenderArgs;
      assert Texts(args)[1..] == Texts(args[1..]);
    }
  }

  lemma ConsArgs(args: seq<Arg>, more: seq<Arg>)
    requires |args| > 0 && |more| > 0
    ensures RenderArgs(args + more) == RenderArg(args[0]) + " " + RenderArgs(args[1..] + more)
  {
    hide RenderArg, RenderArgs;
    var all := args + more;
    assert all[0] == args[0] && all[1..] == args[1..] + more;
    RenderCons(all);
  }

  lemma RenderOne(a: Arg)
    ensures RenderArgs([a]) == RenderArg(a)
  {
  }

  lemma RenderCons(args: seq<Arg>)
    requires |args| > 1
    ensures RenderArgs(args) == RenderArg(args[0]) + " " + RenderArgs(args[1..])
  {
    hide RenderArg;
  }

  /** Words put before an outcome. */
  function Before(words: seq<string>, more: Outcome): Outcome
  {
    if |words| == 0 then more else Then(Present(words[0]), Before(words[1..], more))
  }

  lemma {:induction false} BeforeWords(words: seq<string>, more: Outcome)
    ensures Before(words, more) == if more.Args? then Args(words + more.words) else Broken
  {
    if |words| > 0 {
      BeforeWords(words[1..], more);
      if more.Args? {
        assert words + more.words == [words[0]] + (words[1..] + more.words);
      }
    } else if more.Args? {
      assert words == [] && words + more.words == more.words;
    }
  }

  lemma NothingBack()
    ensures Scan(RenderArgs([]), Unquoted, Absent) == Args([])
  {
  }

  /** Safe arguments come back exactly: the same list, word for word. */
  lemma {:induction false} ArgsBack(args: seq<Arg>)
    requires AllSafe(args)
    ensures Scan(RenderArgs(args), Unquoted, Absent) == Args(Texts(args))
  {
    NothingBack();
    hide Scan, Safe, ArgText, RenderArg, RenderArgs;
    if |args| > 0 {
      FirstBack(args[0], RenderArgs(args[1..]));
      if |args| == 1 {
        RenderOne(args[0]);
        assert args == [args[0]] && Texts(args) == [ArgText(args[0])];
      } else {
        RenderCons(args);
        ArgsBack(args[1..]);
        assert Texts(args) == [ArgText(args[0])] + Texts(args[1..]);
      }
    } else {
      assert args == [] && Texts(args) == [];
    }
  }

  function Quoted(texts: seq<string>): (args: seq<Arg>)
    ensures |args| == |texts| && forall i :: 0 <= i < |texts| ==> args[i] == InQuotes([Escaped(texts[i])])
  {
    seq(|texts|, i requires 0 <= i < |texts| => InQuotes([Escaped(texts[i])]))
  }

  lemma OnePiece(p: Piece)
    ensures PiecesText([p]) == p.text
    ensures RenderPieces([p]) == if p.Escaped? then ShellQuote(p.text) else p.text
  {
    assert PiecesText([p][1..]) == "" && RenderPieces([p][1..]) == "";
  }

  /** Any list of strings, each in quotes and escaped, is read back as that list. */
  lemma QuotingRoundTrip(texts: seq<string>)
    ensures Scan(RenderArgs(Quoted(texts)), Unquoted, Absent) == Args(texts)
  {
    var args := Quoted(texts);
    ArgsBack(args);
    forall i | 0 <= i < |texts|
      ensures ArgText(args[i]) == texts[i]
    {
      OnePiece(Escaped(texts[i]));
    }
    assert Texts(args) == texts;
  }
}
