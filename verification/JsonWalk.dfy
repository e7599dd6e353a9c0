/** The recursive walks over decoded JSON, whose object keys come in no particular order. */
module JsonWalk {
  import opened Sequences
  import opened Ranges
  import opened Text

  datatype Json =
    | Null
    | Bool(flag: bool)
    | Number(value: real)
    | Str(text: string)
    | Array(items: seq<Json>)
    | Object(fields: map<string, Json>)

  datatype Step = At(index: nat) | Key(name: string)

  type Path = seq<Step>

  datatype Found = Nothing | Node(json: Json)

  function Child(j: Json, step: Step): Found
  {
    match step
    case At(i) => if j.Array? && i < |j.items| then Node(j.items[i]) else Nothing
    case Key(k) => if j.Object? && k in j.fields then Node(j.fields[k]) else Nothing
  }

  function NodeAt(j: Json, path: Path): Found
    decreases |path|
  {
    if |path| == 0 then Node(j)
    else match Child(j, path[0])
      case Nothing => Nothing
      case Node(child) => NodeAt(child, path[1..])
  }

  // ----- the end-of-stream signal

  /** An entry that says the stream is over. */
  predicate SaysDone(key: string, value: Json, marker: string)
  {
    || (Lower(key) == "done" && value == Bool(true))
    || ((Lower(key) == "finish_reason" || Lower(key) == "stop_reason") && value.Str? && TrimSpace(value.text) != "")
    || (Lower(key) == "event" && value.Str? && Lower(value.text) == Lower(marker))
  }

  /** The node at the end of this path has such an entry. */
  ghost predicate DoneAt(j: Json, path: Path, key: string, marker: string)
  {
    match NodeAt(j, path)
    case Nothing => false
    case Node(n) => n.Object? && key in n.fields && SaysDone(key, n.fields[key], marker)
  }

  /** Some node at some depth has such an entry. */
  ghost predicate HasDone(j: Json, marker: string)
  {
    exists path, key :: DoneAt(j, path, key, marker)
  }

  lemma DoneBelow(j: Json, step: Step, marker: string)
    requires Child(j, step).Node? && HasDone(Child(j, step).json, marker)
    ensures HasDone(j, marker)
  {
    var path, key :| DoneAt(Child(j, step).json, path, key, marker);
    assert ([step] + path)[1..] == path;
    assert DoneAt(j, [step] + path, key, marker);
  }

  lemma DoneHere(j: Json, key: string, marker: string)
    requires j.Object? && key in j.fields && SaysDone(key, j.fields[key], marker)
    ensures HasDone(j, marker)
  {
    assert DoneAt(j, [], key, marker);
  }

  lemma DoneNowhere(j: Json, marker: string)
    requires forall step :: Child(j, step).Node? ==> !HasDone(Child(j, step).json, marker)
    requires j.Object? ==> forall k :: k in j.fields ==> !SaysDone(k, j.fields[k], marker)
    ensures !HasDone(j, marker)
  {
    forall path, key
      ensures !DoneAt(j, path, key, marker)
    {
      if DoneAt(j, path, key, marker) && |path| > 0 {
        assert DoneAt(Child(j, path[0]).json, path[1..], key, marker);
      }
    }
  }

  /** True exactly when some node at some depth qualifies, in whatever order the keys come. */
  method DetectDone(j: Json, marker: string) returns (done: bool)
    ensures done <==> HasDone(j, marker)
    decreases j
  {
    match j
    case Object(fields) =>
      var left := fields.Keys;
      while left != {}
        invariant left <= fields.Keys
        invariant forall k :: k in fields && k !in left ==> !SaysDone(k, fields[k], marker) && !HasDone(fields[k], marker)
        decreases |left|
      {
        var key :| key in left;
        left := left - {key};
        if SaysDone(key, fields[key], marker) {
          DoneHere(j, key, marker);
          return true;
        }
        var below := DetectDone(fields[key], marker);
        if below {
          assert Child(j, Key(key)) == Node(fields[key]);
          DoneBelow(j, Key(key), marker);
          return true;
        }
      }
      DoneNowhere(j, marker);
      return false;
    case Array(items) =>
      var i := 0;
      while i < |items|
        invariant 0 <= i <= |items|
        invariant forall k :: 0 <= k < i ==> !HasDone(items[k], marker)
      {
        var below := DetectDone(items[i], marker);
        if below {
          assert Child(j, At(i)) == Node(items[i]);
          DoneBelow(j, At(i), marker);
          return true;
        }
        i := i + 1;
      }
      DoneNowhere(j, marker);
      return false;
    case _ =>
      DoneNowhere(j, marker);
      return false;
  }

  // ----- the preferred texts

  predicate Wanted(key: string, value: Json, preferred: set<string>)
  {
    Lower(key) in preferred && value.Str? && TrimSpace(value.text) != ""
  }

  /** The path ends in a preferred key that holds a string which is not blank. */
  predicate TextAt(j: Json, path: Path, preferred: set<string>)
  {
    |path| > 0 && path[|path| - 1].Key? && NodeAt(j, path).Node?
    && Wanted(path[|path| - 1].name, NodeAt(j, path).json, preferred)
  }

  /** The paths to preferred texts that begin with one of these steps. */
  ghost predicate Starts(path: Path, steps: set<Step>)
  {
    |path| > 0 && path[0] in steps
  }

  /** These paths lead to these texts; they are all such paths that begin with one of the steps, each once. */
  ghost predicate CollectsFrom(j: Json, preferred: set<string>, steps: set<Step>, paths: seq<Path>, texts: seq<string>)
  {
    && Distinct(paths) && |texts| == |paths|
    && (forall i :: 0 <= i < |paths| ==> Starts(paths[i], steps) && TextAt(j, paths[i], preferred))
    && (forall i :: 0 <= i < |paths| ==> texts[i] == NodeAt(j, paths[i]).json.text)
    && (forall p :: Starts(p, steps) && TextAt(j, p, preferred) ==> p in paths)
  }

  /** These paths lead to these texts, and they are all the paths to a preferred text, each once. */
  ghost predicate Collects(j: Json, preferred: set<string>, paths: seq<Path>, texts: seq<string>)
  {
    && Distinct(paths) && |texts| == |paths|
    && (forall i :: 0 <= i < |paths| ==> TextAt(j, paths[i], preferred) && texts[i] == NodeAt(j, paths[i]).json.text)
    && (forall p :: TextAt(j, p, preferred) ==> p in paths)
  }

  lemma TextBelow(j: Json, step: Step, path: Path, preferred: set<string>)
    requires Child(j, step).Node?
    ensures NodeAt(j, [step] + path) == NodeAt(Child(j, step).json, path)
    ensures |path| > 0 ==> (TextAt(j, [step] + path, preferred) <==> TextAt(Child(j, step).json, path, preferred))
    ensures |path| == 0 ==> (TextAt(j, [step] + path, preferred) <==> step.Key? && Wanted(step.name, Child(j, step).json, preferred))
  {
    assert ([step] + path)[1..] == path;
  }

  function Under(step: Step, paths: seq<Path>): (out: seq<Path>)
    ensures |out| == |paths| && forall i :: 0 <= i < |paths| ==> out[i] == [step] + paths[i]
  {
    seq(|paths|, i requires 0 <= i < |paths| => [step] + paths[i])
  }

  lemma UnderDistinct(step: Step, paths: seq<Path>)
    requires Distinct(paths)
    ensures Distinct(Under(step, paths))
  {
    forall i, k | 0 <= i < k < |paths|
      ensures Under(step, paths)[i] != Under(step, paths)[k]
    {
      assert ([step] + paths[i])[1..] == paths[i] && ([step] + paths[k])[1..] == paths[k];
    }
  }

  /** A child that is not itself a preferred text contributes what is below it. */
  lemma CollectsChild(j: Json, preferred: set<string>, step: Step, paths: seq<Path>, texts: seq<string>)
    requires Child(j, step).Node? && !(step.Key? && Wanted(step.name, Child(j, step).json, preferred))
    requires Collects(Child(j, step).json, preferred, paths, texts)
    ensures CollectsFrom(j, preferred, {step}, Under(step, paths), texts)
  {
    var child, all := Child(j, step).json, Under(step, paths);
    UnderDistinct(step, paths);
    forall i | 0 <= i < |all|
      ensures Starts(all[i], {step}) && TextAt(j, all[i], preferred) && texts[i] == NodeAt(j, all[i]).json.text
    {
      TextBelow(j, step, paths[i], preferred);
    }
    forall p | Starts(p, {step}) && TextAt(j, p, preferred)
      ensures p in all
    {
      TextBelow(j, step, p[1..], preferred);
      assert [step] + p[1..] == p;
      var i :| 0 <= i < |paths| && paths[i] == p[1..];
      assert all[i] == p;
    }
  }

  /** A preferred text contributes itself only. */
  lemma CollectsText(j: Json, preferred: set<string>, key: string)
    requires j.Object? && key in j.fields && Wanted(key, j.fields[key], preferred)
    ensures CollectsFrom(j, preferred, {Key(key)}, [[Key(key)]], [j.fields[key].text])
  {
    TextBelow(j, Key(key), [], preferred);
    assert [Key(key)] + [] == [Key(key)];
    forall p | Starts(p, {Key(key)}) && TextAt(j, p, preferred)
      ensures p in [[Key(key)]]
    {
      assert p == [Key(key)] + p[1..];
      TextBelow(j, Key(key), p[1..], preferred);
    }
  }

  lemma CollectsMore(j: Json, preferred: set<string>, a: set<Step>, pa: seq<Path>, ta: seq<string>, b: set<Step>, pb: seq<Path>, tb: seq<string>)
    requires CollectsFrom(j, preferred, a, pa, ta) && CollectsFrom(j, preferred, b, pb, tb) && a !! b
    ensures CollectsFrom(j, preferred, a + b, pa + pb, ta + tb)
  {
    var paths := pa + pb;
    forall i, k | 0 <= i < k < |paths|
      ensures paths[i] != paths[k]
    {
      assert paths[i] == if i < |pa| then pa[i] else pb[i - |pa|];
      assert paths[k] == if k < |pa| then pa[k] else pb[k - |pa|];
    }
    forall p | Starts(p, a + b) && TextAt(j, p, preferred)
      ensures p in paths
    {
      assert Starts(p, a) || Starts(p, b);
    }
  }

  /** Every path starts with a step to a child. */
  lemma CollectsAll(j: Json, preferred: set<string>, steps: set<Step>, paths: seq<Path>, texts: seq<string>)
    requires CollectsFrom(j, preferred, steps, paths, texts)
    requires forall step :: Child(j, step).Node? ==> step in steps
    ensures Collects(j, preferred, paths, texts)
  {
    forall p | TextAt(j, p, preferred)
      ensures p in paths
    {
      assert Starts(p, steps);
    }
  }

  /** The out parameter of the walk. */
  class TextList {
    var items: seq<string>

    constructor ()
      ensures items == []
    {
      items := [];
    }
  }

  ghost function KeySteps(keys: set<string>): set<Step>
  {
    set k | k in keys :: Key(k)
  }

  ghost function IndexSteps(n: nat): set<Step>
  {
    set i | 0 <= i < n :: At(i)
  }

  /** Appends exactly the preferred texts, one for each path that leads to one; their order follows the keys'. */
  method CollectPreferredText(j: Json, out: TextList, preferred: set<string>) returns (ghost paths: seq<Path>)
    modifies out
    ensures |out.items| >= |old(out.items)| && out.items[..|old(out.items)|] == old(out.items)
    ensures Collects(j, preferred, paths, out.items[|old(out.items)|..])
    decreases j, 2
  {
    match j
    case Object(fields) =>
      paths := CollectFromFields(j, out, preferred);
    case Array(items) =>
      paths := CollectFromItems(j, out, preferred);
    case _ =>
      paths := [];
      NoSteps(j, preferred);
      CollectsAll(j, preferred, {}, [], []);
  }

  method CollectFromFields(j: Json, out: TextList, preferred: set<string>) returns (ghost paths: seq<Path>)
    requires j.Object?
    modifies out
    ensures |out.items| >= |old(out.items)| && out.items[..|old(out.items)|] == old(out.items)
    ensures Collects(j, preferred, paths, out.items[|old(out.items)|..])
    decreases j, 1
  {
    hide Collects, CollectsFrom, TextAt, Wanted;
    ghost var texts: seq<string> := [];
    var left := j.fields.Keys;
    paths := [];
    NoSteps(j, preferred);
    assert KeySteps(j.fields.Keys - left) == {};
    while left != {}
      invariant left <= j.fields.Keys
      invariant out.items == old(out.items) + texts
      invariant CollectsFrom(j, preferred, KeySteps(j.fields.Keys - left), paths, texts)
      decreases |left|
    {
      var key :| key in left;
      ghost var seen := j.fields.Keys - left;
      left := left - {key};
      assert j.fields.Keys - left == seen + {key};
      KeyStepsMore(seen, key);
      ghost var ps, ts := EntryTexts(j, key, out, preferred);
      CollectsMore(j, preferred, KeySteps(seen), paths, texts, {Key(key)}, ps, ts);
      paths, texts := paths + ps, texts + ts;
    }
    CollectsAll(j, preferred, KeySteps(j.fields.Keys - left), paths, texts);
    assert out.items[|old(out.items)|..] == texts;
  }

  method CollectFromItems(j: Json, out: TextList, preferred: set<string>) returns (ghost paths: seq<Path>)
    requires j.Array?
    modifies out
    ensures |out.items| >= |old(out.items)| && out.items[..|old(out.items)|] == old(out.items)
    ensures Collects(j, preferred, paths, out.items[|old(out.items)|..])
    decreases j, 1
  {
    hide Collects, CollectsFrom, TextAt, Wanted;
    ghost var texts: seq<string> := [];
    var i := 0;
    paths := [];
    NoSteps(j, preferred);
    assert IndexSteps(0) == {};
    while i < |j.items|
      invariant 0 <= i <= |j.items|
      invariant out.items == old(out.items) + texts
      invariant CollectsFrom(j, preferred, IndexSteps(i), paths, texts)
    {
      ghost var ps := CollectPreferredText(j.items[i], out, preferred);
      ghost var ts := out.items[|old(out.items) + texts|..];
      CollectsChild(j, preferred, At(i), ps, ts);
      assert IndexSteps(i + 1) == IndexSteps(i) + {At(i)};
      CollectsMore(j, preferred, IndexSteps(i), paths, texts, {At(i)}, Under(At(i), ps), ts);
      paths, texts := paths + Under(At(i), ps), texts + ts;
      i := i + 1;
    }
    CollectsAll(j, preferred, IndexSteps(i), paths, texts);
    assert out.items[|old(out.items)|..] == texts;
  }

  /** The loop body for one key: a preferred text is taken, anything else is searched. */
  method EntryTexts(j: Json, key: string, out: TextList, preferred: set<string>) returns (ghost paths: seq<Path>, ghost texts: seq<string>)
    requires j.Object? && key in j.fields
    modifies out
    ensures out.items == old(out.items) + texts
    ensures CollectsFrom(j, preferred, {Key(key)}, paths, texts)
    decreases j, 0
  {
    var nested := j.fields[key];
    if Wanted(key, nested, preferred) {
      out.items := out.items + [nested.text];
      CollectsText(j, preferred, key);
      return [[Key(key)]], [nested.text];
    }
    ghost var ps := CollectPreferredText(nested, out, preferred);
    texts := out.items[|old(out.items)|..];
    CollectsChild(j, preferred, Key(key), ps, texts);
    paths := Under(Key(key), ps);
  }

  lemma NoSteps(j: Json, preferred: set<string>)
    ensures CollectsFrom(j, preferred, {}, [], [])
  {
  }

  lemma KeyStepsMore(keys: set<string>, key: string)
    requires key !in keys
    ensures KeySteps(keys + {key}) == KeySteps(keys) + {Key(key)} && KeySteps(keys) !! {Key(key)}
  {
  }

  /** The lower-cased keys, as a set. */
  method NormalizeKeys(keys: seq<string>) returns (out: set<string>)
    ensures out == set k | k in keys :: Lower(k)
  {
    out := {};
    for i := 0 to |keys|
      invariant out == set k | k in keys[..i] :: Lower(k)
    {
      assert keys[..i + 1] == keys[..i] + [keys[i]];
      out := out + {Lower(keys[i])};
    }
    assert keys[..|keys|] == keys;
  }

  // ----- token counts

  /** Go's conversion of a float to an integer truncates toward zero. */
  function Truncated(x: real): int
  {
    if x >= 0.0 then x.Floor else -((-x).Floor)
  }

  predicate IsCount(key: string, value: Json, preferred: set<string>)
  {
    Lower(key) in preferred && value.Number?
  }

  /** The path ends in a preferred key that holds this number, truncated. */
  predicate NumberAt(j: Json, path: Path, preferred: set<string>, n: int)
  {
    |path| > 0 && path[|path| - 1].Key? && NodeAt(j, path).Node?
    && IsCount(path[|path| - 1].name, NodeAt(j, path).json, preferred) && Truncated(NodeAt(j, path).json.value) == n
  }

  ghost predicate HasNumber(j: Json, preferred: set<string>)
  {
    exists path, n :: NumberAt(j, path, preferred, n)
  }

  ghost predicate AllPositive(j: Json, preferred: set<string>)
  {
    forall path, n :: NumberAt(j, path, preferred, n) ==> n > 0
  }

  /** Whatever the key order: a count is one of the preferred numbers, and if these are all positive, one is found if there is any. */
  ghost predicate TokensOf(j: Json, preferred: set<string>, n: int)
  {
    && (n != 0 ==> exists path :: NumberAt(j, path, preferred, n))
    && (AllPositive(j, preferred) ==> (n > 0 <==> HasNumber(j, preferred)))
  }

  lemma NumberBelow(j: Json, step: Step, preferred: set<string>, path: Path, n: int)
    requires Child(j, step).Node? && NumberAt(Child(j, step).json, path, preferred, n)
    ensures NumberAt(j, [step] + path, preferred, n)
  {
    assert ([step] + path)[1..] == path;
  }

  /** A child's count counts for the whole if it is positive, or if it is zero and nothing else is there. */
  lemma TokensBelow(j: Json, step: Step, preferred: set<string>, n: int)
    requires Child(j, step).Node? && TokensOf(Child(j, step).json, preferred, n)
    ensures n > 0 ==> TokensOf(j, preferred, n)
    ensures AllPositive(j, preferred) && n <= 0 ==> !HasNumber(Child(j, step).json, preferred)
  {
    var child := Child(j, step).json;
    if AllPositive(j, preferred) {
      forall path, m | NumberAt(child, path, preferred, m)
        ensures m > 0
      {
        NumberBelow(j, step, preferred, path, m);
      }
    }
    if n > 0 {
      var path :| NumberAt(child, path, preferred, n);
      NumberBelow(j, step, preferred, path, n);
    }
  }

  lemma NumberHere(j: Json, key: string, preferred: set<string>)
    requires j.Object? && key in j.fields && IsCount(key, j.fields[key], preferred)
    ensures TokensOf(j, preferred, Truncated(j.fields[key].value))
  {
    assert Child(j, Key(key)) == Node(j.fields[key]) && [Key(key)][1..] == [];
    assert NodeAt(j, [Key(key)]) == NodeAt(j.fields[key], []);
    assert NumberAt(j, [Key(key)], preferred, Truncated(j.fields[key].value));
  }

  lemma NoNumber(j: Json, preferred: set<string>)
    requires AllPositive(j, preferred) ==> forall step :: Child(j, step).Node? ==> !HasNumber(Child(j, step).json, preferred)
    requires j.Object? ==> forall k :: k in j.fields ==> !IsCount(k, j.fields[k], preferred)
    ensures TokensOf(j, preferred, 0)
  {
    if AllPositive(j, preferred) {
      forall path, n
        ensures !NumberAt(j, path, preferred, n)
      {
        if NumberAt(j, path, preferred, n) {
          NumberFirst(j, path, preferred, n);
        }
      }
    }
  }

  /** A number is in an entry of the node itself or below one of its children. */
  lemma NumberFirst(j: Json, path: Path, preferred: set<string>, n: int)
    requires NumberAt(j, path, preferred, n)
    ensures Child(j, path[0]).Node?
    ensures if |path| == 1 then j.Object? && path[0].Key? && IsCount(path[0].name, j.fields[path[0].name], preferred)
            else NumberAt(Child(j, path[0]).json, path[1..], preferred, n)
  {
    var child := Child(j, path[0]).json;
    assert NodeAt(j, path) == NodeAt(child, path[1..]);
    if |path| == 1 {
      assert NodeAt(child, path[1..]) == Node(child);
    } else {
      assert path[1..][|path| - 2] == path[|path| - 1];
    }
  }

  /** The first preferred number the walk meets, 0 if it meets none. */
  method CollectPreferredTokens(j: Json, preferred: set<string>) returns (n: int)
    ensures TokensOf(j, preferred, n)
    decreases j
  {
    hide TokensOf, HasNumber, AllPositive, IsCount;
    match j
    case Object(fields) =>
      var left := fields.Keys;
      while left != {}
        invariant left <= fields.Keys
        invariant forall k :: k in fields && k !in left ==> !IsCount(k, fields[k], preferred)
        invariant AllPositive(j, preferred) ==> forall k :: k in fields && k !in left ==> !HasNumber(fields[k], preferred)
        decreases |left|
      {
        var key :| key in left;
        left := left - {key};
        if Lower(key) in preferred && fields[key].Number? {
          CountedIs(key, fields[key], preferred);
          NumberHere(j, key, preferred);
          return Truncated(fields[key].value);
        }
        CountedIs(key, fields[key], preferred);
        var below := CollectPreferredTokens(fields[key], preferred);
        assert Child(j, Key(key)) == Node(fields[key]);
        TokensBelow(j, Key(key), preferred, below);
        if below > 0 {
          return below;
        }
      }
      NoNumber(j, preferred);
      return 0;
    case Array(items) =>
      var i := 0;
      while i < |items|
        invariant 0 <= i <= |items|
        invariant AllPositive(j, preferred) ==> forall k :: 0 <= k < i ==> !HasNumber(items[k], preferred)
      {
        var below := CollectPreferredTokens(items[i], preferred);
        assert Child(j, At(i)) == Node(items[i]);
        TokensBelow(j, At(i), preferred, below);
        if below > 0 {
          return below;
        }
        i := i + 1;
      }
      NoNumber(j, preferred);
      return 0;
    case _ =>
      NoNumber(j, preferred);
      return 0;
  }

  lemma CountedIs(key: string, value: Json, preferred: set<string>)
    ensures IsCount(key, value, preferred) <==> Lower(key) in preferred && value.Number?
  {
  }

  // ----- order does not matter

  function TextOf(j: Json, path: Path): string
  {
    match NodeAt(j, path)
    case Node(Str(text)) => text
    case _ => ""
  }

  function Hits(j: Json, text: string): Path -> int
  {
    (p: Path) => if TextOf(j, p) == text then 1 else 0
  }

  /** How often a text is collected: once for each path that leads to it. */
  lemma {:induction false} TextsAlong(j: Json, paths: seq<Path>, texts: seq<string>, x: string)
    requires |paths| == |texts| && forall i :: 0 <= i < |paths| ==> TextOf(j, paths[i]) == texts[i]
    ensures multiset(texts)[x] == Sum(paths, Hits(j, x))
  {
    hide TextOf;
    if |paths| > 0 {
      var n := |paths| - 1;
      TextsAlong(j, paths[..n], texts[..n], x);
      assert texts == texts[..n] + [texts[n]];
    }
  }

  lemma CollectedTexts(j: Json, preferred: set<string>, paths: seq<Path>, texts: seq<string>)
    requires Collects(j, preferred, paths, texts)
    ensures |paths| == |texts| && forall i :: 0 <= i < |paths| ==> TextOf(j, paths[i]) == texts[i]
  {
  }

  lemma CollectedPaths(j: Json, preferred: set<string>, pa: seq<Path>, ta: seq<string>, pb: seq<Path>, tb: seq<string>)
    requires Collects(j, preferred, pa, ta) && Collects(j, preferred, pb, tb)
    ensures multiset(pa) == multiset(pb)
  {
    forall p
      ensures p in pa <==> p in pb
    {
      if p in pa {
        var i :| 0 <= i < |pa| && pa[i] == p;
        assert TextAt(j, p, preferred);
      }
      if p in pb {
        var i :| 0 <= i < |pb| && pb[i] == p;
        assert TextAt(j, p, preferred);
      }
    }
    SameElements(pa, pb);
  }

  /** Two walks over the same tree, whatever order they took, collect the same texts equally often and count the same words. */
  lemma OrderIrrelevant(j: Json, preferred: set<string>, pa: seq<Path>, ta: seq<string>, pb: seq<Path>, tb: seq<string>)
    requires Collects(j, preferred, pa, ta) && Collects(j, preferred, pb, tb)
    ensures multiset(ta) == multiset(tb)
    ensures WordCount(Join(ta)) == WordCount(Join(tb))
  {
    CollectedPaths(j, preferred, pa, ta, pb, tb);
    CollectedTexts(j, preferred, pa, ta);
    CollectedTexts(j, preferred, pb, tb);
    hide Collects, TextOf;
    forall x
      ensures multiset(ta)[x] == multiset(tb)[x]
    {
      TextsAlong(j, pa, ta, x);
      TextsAlong(j, pb, tb, x);
      SumPerm(pa, pb, Hits(j, x));
    }
    JoinWords(ta);
    JoinWords(tb);
    SumPerm(ta, tb, Words());
  }
}
