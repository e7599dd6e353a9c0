/** What trimming, lower case and word counts mean, position by position. */
module TextLaws {
  import opened Sequences
  import opened Text

  /** The white space of ASCII. */
  lemma SpaceIs(c: char)
    ensures Space(c) <==> c in [' ', '\t', '\n', '\U{0B}', '\U{0C}', '\r']
  {
  }

  ghost predicate AllSpace(s: string)
  {
    forall i :: 0 <= i < |s| ==> Space(s[i])
  }

  // ----- words

  /** Positions i to j hold a word: a longest run without white space. */
  ghost predicate IsWord(s: string, i: int, j: int)
  {
    && 0 <= i < j <= |s|
    && (forall k :: i <= k < j ==> !Space(s[k]))
    && (i == 0 || Space(s[i - 1]))
    && (j == |s| || Space(s[j]))
  }

  datatype Run = Run(start: int, end: int)

  /** All words of s, from left to right. */
  ghost predicate AllWords(s: string, runs: seq<Run>)
  {
    && (forall n :: 0 <= n < |runs| ==> IsWord(s, runs[n].start, runs[n].end))
    && (forall m, n :: 0 <= m < n < |runs| ==> runs[m].end < runs[n].start)
    && (forall i, j :: IsWord(s, i, j) ==> Run(i, j) in runs)
  }

  /** The count is the number of words, listed by position. */
  lemma {:induction false} WordCountIs(s: string) returns (runs: seq<Run>)
    ensures AllWords(s, runs) && |runs| == WordCount(s)
  {
    runs := [];
    if |s| > 0 {
      var n := |s| - 1;
      var before := WordCountIs(s[..n]);
      if Space(s[n]) {
        WordsThenSpace(s, before);
        runs := before;
      } else if n == 0 || Space(s[n - 1]) {
        WordBegins(s, before);
        runs := before + [Run(n, n + 1)];
      } else {
        runs := WordGrows(s, before);
      }
    }
  }

  lemma WordsThenSpace(s: string, runs: seq<Run>)
    requires |s| > 0 && Space(s[|s| - 1]) && AllWords(s[..|s| - 1], runs)
    ensures AllWords(s, runs)
  {
    var t := s[..|s| - 1];
    forall i, j
      ensures IsWord(s, i, j) <==> IsWord(t, i, j)
    {
      if IsWord(s, i, j) {
        assert !Space(s[j - 1]);
        assert forall k :: 0 <= k < |t| ==> t[k] == s[k];
      }
    }
  }

  lemma WordBegins(s: string, runs: seq<Run>)
    requires |s| > 0 && !Space(s[|s| - 1]) && (|s| == 1 || Space(s[|s| - 2])) && AllWords(s[..|s| - 1], runs)
    ensures AllWords(s, runs + [Run(|s| - 1, |s|)])
  {
    var n := |s| - 1;
    var t, all := s[..n], runs + [Run(n, n + 1)];
    assert forall k :: 0 <= k < n ==> t[k] == s[k];
    forall i, j
      ensures IsWord(s, i, j) <==> IsWord(t, i, j) || (i == n && j == n + 1)
    {
      if IsWord(t, i, j) {
        assert !Space(t[j - 1]);
        assert j < n;
      }
    }
    assert all[|runs|] == Run(n, n + 1);
    forall m | 0 <= m < |runs|
      ensures all[m].end < n && IsWord(s, all[m].start, all[m].end)
    {
      assert IsWord(t, runs[m].start, runs[m].end);
      assert !Space(t[runs[m].end - 1]);
    }
  }

  /** The last word gets one character longer. */
  lemma WordGrows(s: string, runs: seq<Run>) returns (grown: seq<Run>)
    requires |s| > 1 && !Space(s[|s| - 1]) && !Space(s[|s| - 2]) && AllWords(s[..|s| - 1], runs)
    ensures AllWords(s, grown) && |grown| == |runs|
  {
    var n := |s| - 1;
    var t := s[..n];
    assert forall k :: 0 <= k < n ==> t[k] == s[k];
    var start := WordStartBefore(t, n - 1);
    assert IsWord(t, start, n);
    LastWord(t, runs, start);
    forall i, j
      ensures IsWord(s, i, j) <==> (IsWord(t, i, j) && j < n) || (i == start && j == n + 1)
    {
      GrownWord(s, i, j, start);
    }
    grown := runs[..|runs| - 1] + [Run(start, n + 1)];
    GrownList(s, runs, start, grown);
  }

  /** A word at the end is the last one listed. */
  lemma LastWord(t: string, runs: seq<Run>, start: int)
    requires AllWords(t, runs) && IsWord(t, start, |t|)
    ensures |runs| > 0 && runs[|runs| - 1] == Run(start, |t|)
  {
    var at :| 0 <= at < |runs| && runs[at] == Run(start, |t|);
    var last := |runs| - 1;
    assert IsWord(t, runs[last].start, runs[last].end);
  }

  lemma GrownList(s: string, runs: seq<Run>, start: int, grown: seq<Run>)
    requires |s| > 0 && AllWords(s[..|s| - 1], runs) && |runs| > 0 && runs[|runs| - 1] == Run(start, |s| - 1)
    requires grown == runs[..|runs| - 1] + [Run(start, |s|)]
    requires forall i, j :: IsWord(s, i, j) <==> (IsWord(s[..|s| - 1], i, j) && j < |s| - 1) || (i == start && j == |s|)
    ensures AllWords(s, grown)
  {
    hide IsWord;
    var last := |runs| - 1;
    forall m | 0 <= m < last
      ensures grown[m] == runs[m] && runs[m].end < start && IsWord(s, grown[m].start, grown[m].end)
    {
      assert runs[m].end < runs[last].start;
      assert IsWord(s[..|s| - 1], runs[last].start, runs[last].end);
      WordShape(s[..|s| - 1], runs[last].start, runs[last].end);
      assert IsWord(s[..|s| - 1], runs[m].start, runs[m].end);
    }
    assert grown[last] == Run(start, |s|);
    forall i, j | IsWord(s, i, j)
      ensures Run(i, j) in grown
    {
      if j < |s| - 1 {
        var m :| 0 <= m < |runs| && runs[m] == Run(i, j);
        assert grown[m] == runs[m];
      }
    }
  }

  lemma WordShape(s: string, i: int, j: int)
    requires IsWord(s, i, j)
    ensures 0 <= i < j <= |s|
  {
  }

  lemma GrownWord(s: string, i: int, j: int, start: int)
    requires |s| > 1 && !Space(s[|s| - 1]) && !Space(s[|s| - 2]) && IsWord(s[..|s| - 1], start, |s| - 1)
    ensures IsWord(s, i, j) <==> (IsWord(s[..|s| - 1], i, j) && j < |s| - 1) || (i == start && j == |s|)
  {
    var n, t := |s| - 1, s[..|s| - 1];
    assert forall k :: 0 <= k < n ==> t[k] == s[k];
  }

  /** Where the word that covers position k begins. */
  lemma {:induction false} WordStartBefore(t: string, k: nat) returns (start: nat)
    requires k < |t| && !Space(t[k])
    ensures start <= k && (forall i :: start <= i <= k ==> !Space(t[i])) && (start == 0 || Space(t[start - 1]))
  {
    if k == 0 || Space(t[k - 1]) {
      start := k;
    } else {
      start := WordStartBefore(t, k - 1);
    }
  }

  predicate IsSingleWord(w: string)
  {
    w != "" && forall i :: 0 <= i < |w| ==> !Space(w[i])
  }

  lemma {:induction false} OneWord(w: string)
    requires IsSingleWord(w)
    ensures WordCount(w) == 1
  {
    if |w| > 1 {
      OneWord(w[..|w| - 1]);
    }
  }

  /** Words joined by spaces count as many as there are. */
  lemma WordsBack(ws: seq<string>)
    requires forall i :: 0 <= i < |ws| ==> IsSingleWord(ws[i])
    ensures WordCount(Join(ws)) == |ws|
  {
    JoinWords(ws);
    forall w | w in ws
      ensures Words()(w) == 1
    {
      OneWord(w);
    }
    SumBetween(ws, Words(), 1, 1);
  }

  // ----- trimming and case

  /** Trimming takes white space off both ends and nothing else, and leaves none there. */
  lemma TrimIs(s: string) returns (before: string, after: string)
    ensures s == before + TrimSpace(s) + after && AllSpace(before) && AllSpace(after)
    ensures TrimSpace(s) == "" || (!Space(TrimSpace(s)[0]) && !Space(TrimSpace(s)[|TrimSpace(s)| - 1]))
  {
    before := TrimLeftIs(s);
    after := TrimRightIs(TrimLeft(s));
  }

  lemma {:induction false} TrimLeftIs(s: string) returns (before: string)
    ensures s == before + TrimLeft(s) && AllSpace(before)
    ensures TrimLeft(s) == "" || !Space(TrimLeft(s)[0])
  {
    before := "";
    if |s| > 0 && Space(s[0]) {
      var more := TrimLeftIs(s[1..]);
      before := [s[0]] + more;
    }
  }

  lemma {:induction false} TrimRightIs(s: string) returns (after: string)
    ensures s == TrimRight(s) + after && AllSpace(after)
    ensures TrimRight(s) == "" || (!Space(TrimRight(s)[|TrimRight(s)| - 1]) && TrimRight(s)[0] == s[0])
  {
    after := "";
    if |s| > 0 && Space(s[|s| - 1]) {
      var more := TrimRightIs(s[..|s| - 1]);
      after := more + [s[|s| - 1]];
    }
  }

  /** Capital letters become the letters 32 places on, everything else stays. */
  lemma LowerIs(s: string, i: nat)
    requires i < |s|
    ensures |Lower(s)| == |s|
    ensures Lower(s)[i] as int == s[i] as int + if 'A' <= s[i] <= 'Z' then 32 else 0
  {
  }
}
