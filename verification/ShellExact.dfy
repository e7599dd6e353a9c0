/** Exactly which command lines a shell reads back as they were meant. */
module ShellExact {
  import opened Sequences
  import opened Shell

  // ----- what a command line can hold at most

  /** One character as it stands, or the four that close the quotes, write a quote and open them again. */
  datatype Token = Raw(c: char) | Escape

  function TokenText(t: Token): string
  {
    match t
    case Raw(c) => [c]
    case Escape => "'\\''"
  }

  function RenderTokens(ts: seq<Token>): string
  {
    if |ts| == 0 then "" else TokenText(ts[0]) + RenderTokens(ts[1..])
  }

  /** Every token but a bare quote can add one character, or one word. */
  function Weight(ts: seq<Token>): nat
  {
    if |ts| == 0 then 0 else (if ts[0] == Raw('\'') then 0 else 1) + Weight(ts[1..])
  }

  function Total(words: seq<string>): nat
  {
    if |words| == 0 then 0 else |words[0]| + Total(words[1..])
  }

  /** Characters and words together. */
  function Load(words: seq<string>): nat
  {
    Total(words) + |words|
  }

  /** What the word under way will add; one that has not begun may still begin. */
  function Credit(w: Word): nat
  {
    if w.Present? then |w.text| + 1 else 1
  }

  lemma ThenLoad(w: Word, more: Outcome)
    requires Then(w, more).Args?
    ensures more.Args? && Load(Then(w, more).words) == (if w.Present? then |w.text| + 1 else 0) + Load(more.words)
  {
    if w.Present? {
      assert ([w.text] + more.words)[1..] == more.words;
    }
  }

  lemma ScanRaw(c: char, s: string, mode: Mode, w: Word)
    ensures ([c] + s)[0] == c && ([c] + s)[1..] == s && [c] + s != ""
  {
  }

  /** An escape adds one character in either mode. */
  lemma ScanEscape(s: string, w: Word)
    ensures Scan("'\\''" + s, Unquoted, w) == Scan(s, SingleQuoted, Add(Begun(w), '\\'))
    ensures Scan("'\\''" + s, SingleQuoted, w) == Scan(s, SingleQuoted, Add(w, '\''))
  {
    var all := "'\\''" + s;
    assert all[1..] == "\\''" + s;
    assert all[1..][1..] == "''" + s && all[1..][2..] == "'" + s;
    assert ("''" + s)[1..] == "'" + s && ("'" + s)[1..] == s;
    assert Scan("'" + s, Unquoted, Add(w, '\'')) == Scan(s, SingleQuoted, Add(w, '\''));
    assert Scan("''" + s, SingleQuoted, Add(Begun(w), '\\')) == Scan("'" + s, Unquoted, Add(Begun(w), '\\'));
    assert Scan("'" + s, Unquoted, Add(Begun(w), '\\')) == Scan(s, SingleQuoted, Add(Begun(w), '\\'));
  }

  /** A backslash before an escape takes its first quote: two characters from two tokens. */
  lemma ScanBackslashEscape(s: string, w: Word)
    ensures Scan("\\" + ("'\\''" + s), Unquoted, w) == Scan(s, SingleQuoted, Add(Add(w, '\''), '\''))
  {
    var all := "\\" + ("'\\''" + s);
    assert all[1] == '\'' && all[2..] == "\\''" + s;
    assert ("\\''" + s)[1] == '\'' && ("\\''" + s)[2..] == "'" + s && ("'" + s)[1..] == s;
    assert Scan("'" + s, Unquoted, Add(Add(w, '\''), '\'')) == Scan(s, SingleQuoted, Add(Add(w, '\''), '\''));
    assert Scan("\\''" + s, Unquoted, Add(w, '\'')) == Scan("'" + s, Unquoted, Add(Add(w, '\''), '\''));
  }

  /** A backslash before a character. */
  lemma ScanBackslash(d: char, s: string, w: Word)
    ensures Scan("\\" + ([d] + s), Unquoted, w) == if d == '\n' then Scan(s, Unquoted, w) else Scan(s, Unquoted, Add(w, d))
  {
    var all := "\\" + ([d] + s);
    assert all[1] == d && all[2..] == s;
  }

  lemma CreditAdd(w: Word, c: char)
    ensures Credit(Add(w, c)) == Credit(w) + 1 && Credit(Begun(w)) == Credit(w) && Begun(Add(w, c)) == Add(w, c)
  {
  }

  /** Reading tokens never yields more characters and words than their weight and the word under way. */
  lemma {:induction false} LoadBound(ts: seq<Token>, mode: Mode, w: Word)
    requires Scan(RenderTokens(ts), mode, w).Args?
    ensures Load(Scan(RenderTokens(ts), mode, w).words) <= Credit(w) + Weight(ts)
    decreases |ts|
  {
    if |ts| == 0 {
      ThenLoad(w, Args([]));
    } else if ts[0] == Escape {
      ScanEscape(RenderTokens(ts[1..]), w);
      CreditAdd(w, '\'');
      CreditAdd(Begun(w), '\\');
      hide Scan;
      LoadBound(ts[1..], SingleQuoted, if mode == SingleQuoted then Add(w, '\'') else Add(Begun(w), '\\'));
    } else if ts[0].c == '\\' && mode == Unquoted {
      BackslashBound(ts, w);
    } else {
      var c, rest := ts[0].c, RenderTokens(ts[1..]);
      ScanRaw(c, rest, mode, w);
      CreditAdd(w, c);
      if mode == SingleQuoted {
        if c == '\'' {
          LoadBound(ts[1..], Unquoted, w);
        } else {
          LoadBound(ts[1..], SingleQuoted, Add(w, c));
        }
      } else if Blank(c) {
        ThenLoad(w, Scan(rest, Unquoted, Absent));
        LoadBound(ts[1..], Unquoted, Absent);
      } else if c == '\'' {
        LoadBound(ts[1..], SingleQuoted, Begun(w));
      } else {
        LoadBound(ts[1..], Unquoted, Add(w, c));
      }
    }
  }

  lemma LoneBackslash(ts: seq<Token>, w: Word)
    ensures ts == [Raw('\\')] ==> Scan(RenderTokens(ts), Unquoted, w) == Broken
  {
    assert ts == [Raw('\\')] ==> RenderTokens(ts) == "\\";
  }

  lemma {:induction false} BackslashBound(ts: seq<Token>, w: Word)
    requires |ts| > 0 && ts[0] == Raw('\\') && Scan(RenderTokens(ts), Unquoted, w).Args?
    ensures Load(Scan(RenderTokens(ts), Unquoted, w).words) <= Credit(w) + Weight(ts)
    ensures |ts| > 1 && (ts[1].Raw? && ts[1].c != '\'' ==> Load(Scan(RenderTokens(ts), Unquoted, w).words) < Credit(w) + Weight(ts))
    decreases |ts|, 0
  {
    LoneBackslash(ts, w);
    if |ts| > 1 {
      var s := RenderTokens(ts[2..]);
      assert ts[1..][1..] == ts[2..];
      assert RenderTokens(ts) == "\\" + (TokenText(ts[1]) + s);
      match ts[1]
      case Escape =>
        ScanBackslashEscape(s, w);
        CreditAdd(w, '\'');
        CreditAdd(Add(w, '\''), '\'');
        hide Scan;
        LoadBound(ts[2..], SingleQuoted, Add(Add(w, '\''), '\''));
      case Raw(d) =>
        ScanBackslash(d, s, w);
        CreditAdd(w, d);
        hide Scan;
        LoadBound(ts[2..], Unquoted, if d == '\n' then w else Add(w, d));
    }
  }

  // ----- the tokens of arguments

  function RawTokens(s: string): seq<Token>
  {
    if |s| == 0 then [] else [Raw(s[0])] + RawTokens(s[1..])
  }

  function EscapedTokens(s: string): seq<Token>
  {
    if |s| == 0 then [] else [if s[0] == '\'' then Escape else Raw(s[0])] + EscapedTokens(s[1..])
  }

  function PiecesTokens(ps: seq<Piece>): seq<Token>
  {
    if |ps| == 0 then []
    else (if ps[0].Escaped? then EscapedTokens(ps[0].text) else RawTokens(ps[0].text)) + PiecesTokens(ps[1..])
  }

  function ArgTokens(a: Arg): seq<Token>
  {
    match a
    case Bare(text) => RawTokens(text)
    case InQuotes(ps) => [Raw('\'')] + PiecesTokens(ps) + [Raw('\'')]
  }

  function ArgsTokens(args: seq<Arg>): seq<Token>
  {
    if |args| == 0 then []
    else if |args| == 1 then ArgTokens(args[0])
    else ArgTokens(args[0]) + ([Raw(' ')] + ArgsTokens(args[1..]))
  }

  lemma {:induction false} TokensConcat(a: seq<Token>, b: seq<Token>)
    ensures RenderTokens(a + b) == RenderTokens(a) + RenderTokens(b) && Weight(a + b) == Weight(a) + Weight(b)
  {
    if |a| == 0 {
      assert a + b == b && RenderTokens(a) + RenderTokens(b) == RenderTokens(b);
    } else {
      hide TokenText;
      TokensConcat(a[1..], b);
      assert (a + b)[0] == a[0] && (a + b)[1..] == a[1..] + b;
      Associative(TokenText(a[0]), RenderTokens(a[1..]), RenderTokens(b));
    }
  }

  lemma TokensOne(t: Token)
    ensures RenderTokens([t]) == TokenText(t) && Weight([t]) == if t == Raw('\'') then 0 else 1
  {
    assert RenderTokens([t][1..]) == "" && TokenText(t) + "" == TokenText(t);
  }

  lemma {:induction false} RawFacts(s: string)
    ensures RenderTokens(RawTokens(s)) == s
    ensures Weight(RawTokens(s)) <= |s| && (Weight(RawTokens(s)) == |s| <==> NoQuote(s))
  {
    if |s| > 0 {
      RawFacts(s[1..]);
      assert RawTokens(s)[1..] == RawTokens(s[1..]);
      assert s == [s[0]] + s[1..];
      NoQuoteCons(s[0], s[1..]);
    }
  }

  lemma NoQuoteCons(c: char, s: string)
    ensures NoQuote([c] + s) <==> c != '\'' && NoQuote(s)
  {
    assert forall i :: 0 <= i < |s| ==> ([c] + s)[i + 1] == s[i];
    assert ([c] + s)[0] == c;
  }

  lemma {:induction false} EscapedFacts(s: string)
    ensures RenderTokens(EscapedTokens(s)) == ShellQuote(s) && Weight(EscapedTokens(s)) == |s|
  {
    if |s| > 0 {
      EscapedFacts(s[1..]);
      assert EscapedTokens(s)[1..] == EscapedTokens(s[1..]);
    }
  }

  lemma {:induction false} PiecesFacts(ps: seq<Piece>)
    ensures RenderTokens(PiecesTokens(ps)) == RenderPieces(ps)
    ensures Weight(PiecesTokens(ps)) <= |PiecesText(ps)| && (Weight(PiecesTokens(ps)) == |PiecesText(ps)| <==> SafePieces(ps))
  {
    if |ps| > 0 {
      var p, rest := ps[0], ps[1..];
      PiecesFacts(rest);
      EscapedFacts(p.text);
      RawFacts(p.text);
      TokensConcat(if p.Escaped? then EscapedTokens(p.text) else RawTokens(p.text), PiecesTokens(rest));
      SafePiecesCons(p, rest);
      assert ps == [p] + rest;
      hide RenderTokens, Weight, EscapedTokens, RawTokens, SafePieces, NoQuote, ShellQuote;
    }
  }

  lemma SafePiecesCons(p: Piece, rest: seq<Piece>)
    ensures SafePieces([p] + rest) <==> (p.AsIs? ==> NoQuote(p.text)) && SafePieces(rest)
  {
    hide NoQuote;
    assert forall i :: 0 <= i < |rest| ==> ([p] + rest)[i + 1] == rest[i];
    assert ([p] + rest)[0] == p;
  }

  /** No quote is written without being escaped, other than the enclosing ones. */
  predicate QuoteFree(a: Arg)
  {
    match a
    case Bare(text) => NoQuote(text)
    case InQuotes(ps) => SafePieces(ps)
  }

  lemma ArgFacts(a: Arg)
    ensures RenderTokens(ArgTokens(a)) == RenderArg(a)
    ensures Weight(ArgTokens(a)) <= |ArgText(a)| && (Weight(ArgTokens(a)) == |ArgText(a)| <==> QuoteFree(a))
  {
    match a
    case Bare(text) => RawFacts(text);
    case InQuotes(ps) =>
      PiecesFacts(ps);
      TokensOne(Raw('\''));
      hide RenderTokens, Weight, SafePieces;
      TokensConcat([Raw('\'')], PiecesTokens(ps));
      TokensConcat([Raw('\'')] + PiecesTokens(ps), [Raw('\'')]);
  }

  predicate AllQuoteFree(args: seq<Arg>)
  {
    forall i :: 0 <= i < |args| ==> QuoteFree(args[i])
  }

  lemma AllQuoteFreeCons(args: seq<Arg>)
    requires |args| > 0
    ensures AllQuoteFree(args) <==> QuoteFree(args[0]) && AllQuoteFree(args[1..])
  {
    hide QuoteFree;
    assert forall i :: 0 < i < |args| ==> args[i] == args[1..][i - 1];
  }

  lemma LoadCons(args: seq<Arg>)
    requires |args| > 0
    ensures Load(Texts(args)) == |ArgText(args[0])| + 1 + Load(Texts(args[1..]))
  {
    hide ArgText;
    assert Texts(args)[1..] == Texts(args[1..]);
  }

  /** A rendered argument list weighs one less than what it means, unless a quote in it is not escaped. */
  lemma {:induction false} ArgsFacts(args: seq<Arg>)
    requires |args| > 0
    ensures RenderTokens(ArgsTokens(args)) == RenderArgs(args)
    ensures Weight(ArgsTokens(args)) + 1 <= Load(Texts(args))
    ensures Weight(ArgsTokens(args)) + 1 == Load(Texts(args)) <==> AllQuoteFree(args)
  {
    ArgFacts(args[0]);
    AllQuoteFreeCons(args);
    LoadCons(args);
    if |args| > 1 {
      ArgsFacts(args[1..]);
      TokensOne(Raw(' '));
      hide RenderTokens, Weight, QuoteFree, AllQuoteFree, RenderArg, ArgTokens, Load, Texts;
      TokensConcat([Raw(' ')], ArgsTokens(args[1..]));
      TokensConcat(ArgTokens(args[0]), [Raw(' ')] + ArgsTokens(args[1..]));
      Glue(RenderArg(args[0]), RenderArgs(args[1..]));
    } else {
      assert Texts(args[1..]) == [] && AllQuoteFree(args[1..]);
    }
  }

  lemma Glue(a: string, b: string)
    ensures a + ([' '] + b) == a + " " + b
  {
  }

  // ----- bare words

  predicate PlainChar(c: char)
  {
    !Blank(c) && c != '\'' && c != '\\' && !Special(c)
  }

  predicate SomeOdd(t: string)
  {
    exists i :: 0 <= i < |t| && !PlainChar(t[i])
  }

  function WordText(w: Word): string
  {
    if w.Present? then w.text else ""
  }

  /** These words are not what a word that goes on with t was meant to give. */
  predicate Misread(words: seq<string>, w: Word, t: string, ts: seq<Token>)
  {
    Load(words) < Credit(w) + Weight(ts) || (|words| > 0 && words[0] != WordText(w) + t)
  }

  /** A bare word without quotes that is not plain is misread: characters are lost or the word is cut. */
  lemma {:induction false} BareMisread(t: string, tail: seq<Token>, w: Word)
    requires NoQuote(t) && (SomeOdd(t) || (t == "" && w == Absent)) && (tail == [] || tail[0] == Raw(' '))
    requires Scan(RenderTokens(RawTokens(t) + tail), Unquoted, w).Args?
    ensures Misread(Scan(RenderTokens(RawTokens(t) + tail), Unquoted, w).words, w, t, RawTokens(t) + tail)
    decreases |t|
  {
    var ts := RawTokens(t) + tail;
    if t == "" {
      assert ts == tail;
      if tail != [] {
        BlankLost(ts);
      }
    } else {
      var c, rest := t[0], RawTokens(t[1..]) + tail;
      assert ts[0] == Raw(c) && ts[1..] == rest;
      ScanRaw(c, RenderTokens(rest), Unquoted, w);
      if PlainChar(c) {
        OddLater(t);
        assert NoQuote(t[1..]);
        assert Scan(RenderTokens(ts), Unquoted, w) == Scan(RenderTokens(rest), Unquoted, Add(w, c));
        assert Weight(ts) == 1 + Weight(rest);
        hide Scan, RenderTokens, Weight, RawTokens, SomeOdd, NoQuote, PlainChar, Load;
        BareMisread(t[1..], tail, Add(w, c));
        CreditAdd(w, c);
        assert WordText(Add(w, c)) + t[1..] == WordText(w) + t;
      } else if c == '\\' {
        NextToken(t, tail);
        BackslashBound(ts, w);
      } else if Blank(c) {
        if w.Absent? {
          BlankLost(ts);
        } else {
          CutShort(w, t, Scan(RenderTokens(rest), Unquoted, Absent));
        }
      }
    }
  }

  lemma OddLater(t: string)
    requires |t| > 0 && PlainChar(t[0]) && SomeOdd(t)
    ensures SomeOdd(t[1..])
  {
    hide PlainChar;
    var i :| 0 <= i < |t| && !PlainChar(t[i]);
    assert t[1..][i - 1] == t[i];
  }

  /** A blank before a word adds nothing. */
  lemma BlankLost(ts: seq<Token>)
    requires |ts| > 0 && ts[0].Raw? && Blank(ts[0].c) && Scan(RenderTokens(ts), Unquoted, Absent).Args?
    ensures Load(Scan(RenderTokens(ts), Unquoted, Absent).words) < Credit(Absent) + Weight(ts)
  {
    ScanRaw(ts[0].c, RenderTokens(ts[1..]), Unquoted, Absent);
    LoadBound(ts[1..], Unquoted, Absent);
  }

  lemma CutShort(w: Word, t: string, more: Outcome)
    requires w.Present? && t != "" && Then(w, more).Args?
    ensures |Then(w, more).words| > 0 && Then(w, more).words[0] != WordText(w) + t
  {
    assert |w.text| < |w.text + t|;
  }

  lemma NextToken(t: string, tail: seq<Token>)
    requires NoQuote(t) && |t| > 0 && (tail == [] || tail[0] == Raw(' '))
    ensures var ts := RawTokens(t) + tail; |ts| > 1 ==> ts[1].Raw? && ts[1].c != '\''
  {
    if |t| > 1 {
      assert RawTokens(t)[1] == RawTokens(t[1..])[0] == Raw(t[1]);
    }
  }

  // ----- exactness

  lemma BareTokens(more: seq<Arg>) returns (tail: seq<Token>)
    requires |more| > 0 && more[0].Bare?
    ensures ArgsTokens(more) == RawTokens(more[0].text) + tail && (tail == [] || tail[0] == Raw(' '))
  {
    tail := if |more| == 1 then [] else [Raw(' ')] + ArgsTokens(more[1..]);
    assert RawTokens(more[0].text) + [] == RawTokens(more[0].text);
  }

  lemma NotPlain(t: string)
    requires NoQuote(t) && !Plain(t)
    ensures t == "" || SomeOdd(t)
  {
    if t != "" {
      var i :| 0 <= i < |t| && (Blank(t[i]) || t[i] == '\'' || t[i] == '\\' || Special(t[i]));
      assert !PlainChar(t[i]);
    }
  }

  /** A list that starts with a bare word which is not plain, and has no stray quotes, is not read as meant. */
  lemma BareFails(more: seq<Arg>)
    requires |more| > 0 && more[0].Bare? && !Safe(more[0]) && AllQuoteFree(more)
    ensures Scan(RenderArgs(more), Unquoted, Absent) != Args(Texts(more))
  {
    var t, r := more[0].text, Scan(RenderArgs(more), Unquoted, Absent);
    if r.Args? {
      assert QuoteFree(more[0]);
      ArgsFacts(more);
      var tail := BareTokens(more);
      NotPlain(t);
      hide Scan, RenderArgs, Weight, Load, RawTokens, ArgsTokens, AllQuoteFree, NoQuote, Plain, SomeOdd;
      BareMisread(t, tail, Absent);
      assert Texts(more)[0] == t && "" + t == t;
    }
  }

  /** A stray quote makes the words come up short. */
  lemma StrayQuoteFails(args: seq<Arg>)
    requires |args| > 0 && !AllQuoteFree(args)
    ensures Scan(RenderArgs(args), Unquoted, Absent) != Args(Texts(args))
  {
    if Scan(RenderArgs(args), Unquoted, Absent).Args? {
      ArgsFacts(args);
      hide AllQuoteFree, Weight, Load, ArgsTokens, Scan;
      LoadBound(ArgsTokens(args), Unquoted, Absent);
    }
  }

  lemma FirstUnsafe(args: seq<Arg>) returns (k: nat)
    requires !AllSafe(args)
    ensures k < |args| && !Safe(args[k]) && AllSafe(args[..k])
  {
    hide Safe;
    var i :| 0 <= i < |args| && !Safe(args[i]);
    k := 0;
    while Safe(args[k])
      invariant k <= i && AllSafe(args[..k])
      decreases i - k
    {
      k := k + 1;
    }
  }

  /** A command line is read back as the arguments it was rendered from exactly when all of them are safe. */
  lemma ArgsExact(args: seq<Arg>)
    ensures Scan(RenderArgs(args), Unquoted, Absent) == Args(Texts(args)) <==> AllSafe(args)
  {
    if AllSafe(args) {
      ArgsBack(args);
    } else if !AllQuoteFree(args) {
      StrayQuoteFails(args);
    } else {
      var k := FirstUnsafe(args);
      UnsafeBareFails(args, k);
    }
  }

  lemma UnsafeBareFails(args: seq<Arg>, k: nat)
    requires AllQuoteFree(args) && k < |args| && !Safe(args[k]) && AllSafe(args[..k])
    ensures Scan(RenderArgs(args), Unquoted, Absent) != Args(Texts(args))
  {
    var before, more := args[..k], args[k..];
    assert QuoteFree(args[k]);
    assert more[0] == args[k] && AllQuoteFree(more);
    assert more[0].Bare?;
    hide AllQuoteFree, QuoteFree, AllSafe, Safe, Scan, RenderArgs;
    BareFails(more);
    SafeFirst(before, more);
    BeforeWords(Texts(before), Scan(RenderArgs(more), Unquoted, Absent));
    assert args == before + more;
    SplitTexts(args, k);
  }

  lemma SplitTexts(args: seq<Arg>, k: nat)
    requires k <= |args|
    ensures Texts(args) == Texts(args[..k]) + Texts(args[k..])
    ensures forall ws: seq<string> :: Texts(args[..k]) + ws == Texts(args) ==> ws == Texts(args[k..])
  {
    hide ArgText;
    forall ws: seq<string> | Texts(args[..k]) + ws == Texts(args)
      ensures ws == Texts(args[k..])
    {
      assert ws == (Texts(args[..k]) + ws)[k..];
    }
  }

  /** A quoted argument with escaped and unescaped pieces is read back exactly when no unescaped piece has a quote. */
  lemma PiecesExact(ps: seq<Piece>)
    ensures Scan(RenderArg(InQuotes(ps)), Unquoted, Absent) == Args([PiecesText(ps)]) <==> SafePieces(ps)
  {
    var args := [InQuotes(ps)];
    ArgsExact(args);
    assert Texts(args) == [PiecesText(ps)];
    assert RenderArgs(args) == RenderArg(InQuotes(ps));
    assert AllSafe(args) <==> Safe(args[0]);
  }

  /** Text put in quotes without being escaped is read back as itself exactly when it contains no quote. */
  lemma RawQuoteExact(x: string)
    ensures Scan("'" + x + "'", Unquoted, Absent) == Args([x]) <==> NoQuote(x)
  {
    PiecesExact([AsIs(x)]);
    OnePiece(AsIs(x));
    assert SafePieces([AsIs(x)]) <==> NoQuote([AsIs(x)][0].text);
  }
}
