/** Strings as the stream readers treat them: ASCII white space, trimming, lower case and word counts. */
module Text {
  import opened Sequences

  predicate Space(c: char)
  {
    c == ' ' || '\t' <= c <= '\r'
  }

  /** Some character is not white space. */
  predicate NonBlank(s: string)
  {
    exists i :: 0 <= i < |s| && !Space(s[i])
  }

  function TrimLeft(s: string): string
  {
    if |s| > 0 && Space(s[0]) then TrimLeft(s[1..]) else s
  }

  function TrimRight(s: string): string
  {
    if |s| > 0 && Space(s[|s| - 1]) then TrimRight(s[..|s| - 1]) else s
  }

  function TrimSpace(s: string): string
  {
    TrimRight(TrimLeft(s))
  }

  function LowerChar(c: char): char
  {
    if 'A' <= c <= 'Z' then c + ' ' else c
  }

  function Lower(s: string): string
  {
    seq(|s|, i requires 0 <= i < |s| => LowerChar(s[i]))
  }

  /** A word starts at a character that is not white space and has white space or nothing before it. */
  predicate WordStart(s: string, i: nat)
    requires i < |s|
  {
    !Space(s[i]) && (i == 0 || Space(s[i - 1]))
  }

  /** The number of white-space separated fields. */
  function WordCount(s: string): nat
  {
    if |s| == 0 then 0
    else WordCount(s[..|s| - 1]) + (if WordStart(s, |s| - 1) then 1 else 0)
  }

  function Words(): string -> int
  {
    (s: string) => WordCount(s)
  }

  /** Joins with single spaces. */
  function Join(parts: seq<string>): string
  {
    if |parts| == 0 then ""
    else if |parts| == 1 then parts[0]
    else Join(parts[..|parts| - 1]) + " " + parts[|parts| - 1]
  }

  /** Word counts add up across white space. */
  lemma {:induction false} WordCountAcross(a: string, c: char, b: string)
    requires Space(c)
    ensures WordCount(a + [c] + b) == WordCount(a) + WordCount(b)
  {
    var s := a + [c] + b;
    if |b| == 0 {
      assert s[..|s| - 1] == a;
    } else {
      assert s[..|s| - 1] == a + [c] + b[..|b| - 1];
      WordCountAcross(a, c, b[..|b| - 1]);
    }
  }

  lemma {:induction false} JoinWords(parts: seq<string>)
    ensures WordCount(Join(parts)) == Sum(parts, Words())
  {
    if |parts| == 1 {
      assert parts[..0] == [];
      assert Sum(parts[..0], Words()) == 0;
    } else if |parts| > 1 {
      JoinWords(parts[..|parts| - 1]);
      WordCountAcross(Join(parts[..|parts| - 1]), ' ', parts[|parts| - 1]);
    }
  }

  lemma {:induction false} JoinEmpty(parts: seq<string>)
    requires forall i :: 0 <= i < |parts| ==> parts[i] != ""
    ensures Join(parts) == "" <==> parts == []
  {
  }

  lemma {:induction false} TrimLeftWords(s: string)
    ensures WordCount(TrimLeft(s)) == WordCount(s)
  {
    if |s| > 0 && Space(s[0]) {
      TrimLeftWords(s[1..]);
      WordCountAcross("", s[0], s[1..]);
      assert s == "" + [s[0]] + s[1..];
    }
  }

  lemma {:induction false} TrimRightWords(s: string)
    ensures WordCount(TrimRight(s)) == WordCount(s)
  {
    if |s| > 0 && Space(s[|s| - 1]) {
      TrimRightWords(s[..|s| - 1]);
    }
  }

  lemma TrimWords(s: string)
    ensures WordCount(TrimSpace(s)) == WordCount(s)
  {
    TrimLeftWords(s);
    TrimRightWords(TrimLeft(s));
  }

  /** Trimming removes everything exactly when there is nothing but white space. */
  lemma TrimBlank(s: string)
    ensures TrimSpace(s) != "" <==> NonBlank(s)
  {
    TrimLeftBlank(s);
    TrimRightBlank(TrimLeft(s));
  }

  lemma {:induction false} TrimLeftBlank(s: string)
    ensures NonBlank(TrimLeft(s)) <==> NonBlank(s)
  {
    if |s| > 0 && Space(s[0]) {
      TrimLeftBlank(s[1..]);
      if NonBlank(s) {
        var i :| 0 <= i < |s| && !Space(s[i]);
        assert s[1..][i - 1] == s[i];
      }
    }
  }

  lemma {:induction false} TrimRightBlank(s: string)
    ensures TrimRight(s) != "" <==> NonBlank(s)
  {
    if |s| > 0 {
      if Space(s[|s| - 1]) {
        TrimRightBlank(s[..|s| - 1]);
        if NonBlank(s) {
          var i :| 0 <= i < |s| && !Space(s[i]);
          assert s[..|s| - 1][i] == s[i];
        }
      }
    }
  }

  /** The token estimate: the words of the trimmed text, if anything is left of it. */
  method EstimateTokens(text: string) returns (tokens: int, estimated: bool)
    ensures tokens == WordCount(text) && estimated == NonBlank(text)
  {
    var collected := TrimSpace(text);
    TrimWords(text);
    TrimBlank(text);
    NoWords(collected);
    tokens, estimated := 0, false;
    if collected != "" {
      tokens, estimated := WordCount(collected), true;
    }
  }

  lemma NoWords(s: string)
    ensures s == "" ==> WordCount(s) == 0
  {
  }

  lemma WordsAfterSpace(a: string, b: string)
    requires a == "" || a[|a| - 1] == ' '
    ensures WordCount(a + b) == WordCount(a) + WordCount(b)
  {
    if a == "" {
      assert a + b == b;
    } else {
      var k := |a| - 1;
      assert a + b == a[..k] + [a[k]] + b;
      assert a == a[..k] + [a[k]] + "";
      WordCountAcross(a[..k], a[k], b);
      WordCountAcross(a[..k], a[k], "");
    }
  }
}
