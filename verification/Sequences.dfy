/** Sums over sequences: the reference against which every accumulator loop is proved. */
module Sequences {

  function Sum<T>(s: seq<T>, f: T -> int): int
  {
    if |s| == 0 then 0 else Sum(s[..|s| - 1], f) + f(s[|s| - 1])
  }

  lemma SumSnoc<T>(s: seq<T>, x: T, f: T -> int)
    ensures Sum(s + [x], f) == Sum(s, f) + f(x)
  {
    assert (s + [x])[..|s|] == s;
  }

  lemma SumOne<T>(x: T, f: T -> int)
    ensures Sum([x], f) == f(x)
  {
    assert [x] == [] + [x];
    SumSnoc([], x, f);
  }

  lemma {:induction false} SumConcat<T>(a: seq<T>, b: seq<T>, f: T -> int)
    ensures Sum(a + b, f) == Sum(a, f) + Sum(b, f)
  {
    if |b| == 0 {
      assert a + b == a;
    } else {
      assert (a + b)[..|a + b| - 1] == a + b[..|b| - 1];
      SumConcat(a, b[..|b| - 1], f);
    }
  }

  lemma SumMiddle<T>(a: seq<T>, x: T, b: seq<T>, f: T -> int)
    ensures Sum(a + [x] + b, f) == Sum(a, f) + f(x) + Sum(b, f)
    ensures Sum(a + b, f) == Sum(a, f) + Sum(b, f)
  {
    SumConcat(a + [x], b, f);
    SumConcat(a, b, f);
    SumSnoc(a, x, f);
  }

  /** If b is a rearrangement of init + [x], then x can be taken out of b. */
  lemma TakeOut<T>(init: seq<T>, x: T, b: seq<T>) returns (l: seq<T>, r: seq<T>)
    requires multiset(init + [x]) == multiset(b)
    ensures b == l + [x] + r && multiset(init) == multiset(l + r)
  {
    assert x in multiset(init + [x]);
    assert x in b;
    var i :| 0 <= i < |b| && b[i] == x;
    l, r := b[..i], b[i + 1..];
    assert b == l + [x] + r;
    assert multiset(init) == multiset(init + [x]) - multiset{x};
    assert multiset(l + r) == multiset(b) - multiset{x};
  }

  /** A sum does not depend on the order of the elements. */
  lemma {:induction false} SumPerm<T>(a: seq<T>, b: seq<T>, f: T -> int)
    requires multiset(a) == multiset(b)
    ensures Sum(a, f) == Sum(b, f)
    decreases |a|
  {
    if |a| == 0 {
      assert |multiset(b)| == 0;
    } else {
      var init, x := a[..|a| - 1], a[|a| - 1];
      assert a == init + [x];
      var l, r := TakeOut(init, x, b);
      SumPerm(init, l + r, f);
      SumMiddle(l, x, r, f);
    }
  }

  lemma {:induction false} SumPointwise<T>(s: seq<T>, f: T -> int, g: T -> int, h: T -> int)
    requires forall x :: x in s ==> f(x) == g(x) + h(x)
    ensures Sum(s, f) == Sum(s, g) + Sum(s, h)
  {
    if |s| > 0 {
      assert s[|s| - 1] in s;
      SumPointwise(s[..|s| - 1], f, g, h);
    }
  }

  lemma {:induction false} SumEqual<T>(s: seq<T>, f: T -> int, g: T -> int)
    requires forall x :: x in s ==> f(x) == g(x)
    ensures Sum(s, f) == Sum(s, g)
  {
    if |s| > 0 {
      assert s[|s| - 1] in s;
      SumEqual(s[..|s| - 1], f, g);
    }
  }

  lemma {:induction false} SumAtMost<T>(s: seq<T>, f: T -> int, g: T -> int)
    requires forall x :: x in s ==> f(x) <= g(x)
    ensures Sum(s, f) <= Sum(s, g)
  {
    if |s| > 0 {
      assert s[|s| - 1] in s;
      SumAtMost(s[..|s| - 1], f, g);
    }
  }

  /** Bounds on a sum whose terms are each between lo and hi. */
  lemma {:induction false} SumBetween<T>(s: seq<T>, f: T -> int, lo: int, hi: int)
    requires forall x :: x in s ==> lo <= f(x) <= hi
    ensures lo * |s| <= Sum(s, f) <= hi * |s|
  {
    if |s| > 0 {
      assert s[|s| - 1] in s;
      SumBetween(s[..|s| - 1], f, lo, hi);
      assert lo * |s| == lo * (|s| - 1) + lo;
      assert hi * |s| == hi * (|s| - 1) + hi;
    }
  }

  lemma SplitAt<T>(s: seq<T>, i: nat)
    requires i < |s|
    ensures s == s[..i] + [s[i]] + s[i + 1..]
  {
  }

  /** Replacing one element changes the sum by the difference of the two terms. */
  lemma SumUpdate<T>(s: seq<T>, i: nat, x: T, f: T -> int)
    requires i < |s|
    ensures Sum(s[i := x], f) == Sum(s, f) - f(s[i]) + f(x)
  {
    hide Sum;
    SplitAt(s, i);
    SplitAt(s[i := x], i);
    SumMiddle(s[..i], s[i], s[i + 1..], f);
    SumMiddle(s[..i], x, s[i + 1..], f);
    assert s[i := x][..i] == s[..i] && s[i := x][i + 1..] == s[i + 1..];
  }

  /** Removing one element takes its term out of the sum. */
  lemma SumRemove<T>(s: seq<T>, i: nat, f: T -> int)
    requires i < |s|
    ensures Sum(s[..i] + s[i + 1..], f) == Sum(s, f) - f(s[i])
  {
    hide Sum;
    SplitAt(s, i);
    SumMiddle(s[..i], s[i], s[i + 1..], f);
  }

  function SumReal<T>(s: seq<T>, f: T -> real): real
  {
    if |s| == 0 then 0.0 else SumReal(s[..|s| - 1], f) + f(s[|s| - 1])
  }

  lemma {:induction false} SumRealConcat<T>(a: seq<T>, b: seq<T>, f: T -> real)
    ensures SumReal(a + b, f) == SumReal(a, f) + SumReal(b, f)
  {
    if |b| == 0 {
      assert a + b == a;
    } else {
      assert (a + b)[..|a + b| - 1] == a + b[..|b| - 1];
      SumRealConcat(a, b[..|b| - 1], f);
    }
  }

  lemma {:induction false} SumRealPerm<T>(a: seq<T>, b: seq<T>, f: T -> real)
    requires multiset(a) == multiset(b)
    ensures SumReal(a, f) == SumReal(b, f)
    decreases |a|
  {
    if |a| == 0 {
      assert |multiset(b)| == 0;
    } else {
      var init, x := a[..|a| - 1], a[|a| - 1];
      assert a == init + [x];
      var l, r := TakeOut(init, x, b);
      SumRealPerm(init, l + r, f);
      assert b == (l + [x]) + r;
      SumRealConcat(l + [x], r, f);
      SumRealConcat(l, r, f);
      assert (l + [x])[..|l|] == l;
    }
  }

  function Flatten<T>(parts: seq<seq<T>>): seq<T>
  {
    if |parts| == 0 then [] else Flatten(parts[..|parts| - 1]) + parts[|parts| - 1]
  }

  lemma FlattenSnoc<T>(parts: seq<seq<T>>, last: seq<T>)
    ensures Flatten(parts + [last]) == Flatten(parts) + last
  {
    assert (parts + [last])[..|parts|] == parts;
  }

  lemma Associative<T>(a: seq<T>, b: seq<T>, c: seq<T>)
    ensures (a + b) + c == a + (b + c)
  {
  }

  lemma FlattenOne<T>(part: seq<T>)
    ensures Flatten([part]) == part
  {
    FlattenSnoc([], part);
    assert [] + [part] == [part];
  }

  lemma {:induction false} FlattenCons<T>(first: seq<T>, parts: seq<seq<T>>)
    ensures Flatten([first] + parts) == first + Flatten(parts)
  {
    if |parts| > 0 {
      var init, last := parts[..|parts| - 1], parts[|parts| - 1];
      FlattenCons(first, init);
      FlattenSnoc([first] + init, last);
      FlattenSnoc(init, last);
      hide Flatten;
      Associative([first], init, [last]);
      Associative(first, Flatten(init), last);
      assert parts == init + [last];
    } else {
      FlattenOne(first);
      assert parts == [] && [first] + parts == [first];
    }
  }

  ghost predicate IsSorted(s: seq<int>)
  {
    forall i, j :: 0 <= i < j < |s| ==> s[i] <= s[j]
  }
}
