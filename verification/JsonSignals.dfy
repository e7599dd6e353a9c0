/** Which entries of a chunk end a stream and which numbers count as tokens, case by case. */
module JsonSignals {
  import opened Text
  import opened JsonWalk

  predicate Scalar(value: Json)
  {
    !value.Array? && !value.Object?
  }

  lemma ScalarSilent(value: Json, marker: string)
    requires Scalar(value)
    ensures !HasDone(value, marker)
  {
    DoneNowhere(value, marker);
  }

  function Entry(key: string, value: Json): Json
  {
    Object(map[key := value])
  }

  lemma EntryDone(key: string, value: Json, marker: string)
    requires Scalar(value)
    ensures HasDone(Entry(key, value), marker) <==> SaysDone(key, value, marker)
  {
    ScalarSilent(value, marker);
    hide SaysDone, HasDone;
    var j := Entry(key, value);
    if SaysDone(key, value, marker) {
      DoneHere(j, key, marker);
    } else {
      forall step | Child(j, step).Node?
        ensures !HasDone(Child(j, step).json, marker)
      {
        assert Child(j, step).json == value;
      }
      DoneNowhere(j, marker);
    }
  }

  /** {"done": true} ends a stream and {"done": false} does not; neither does any other scalar under that key. */
  lemma DoneFlag(value: Json, marker: string)
    requires Scalar(value)
    ensures HasDone(Entry("done", value), marker) <==> value == Bool(true)
  {
    EntryDone("done", value, marker);
    assert Lower("done") == "done";
  }

  /** A finish or stop reason ends it exactly if it is text that is not blank, so null does not. */
  lemma FinishReason(value: Json, marker: string)
    requires Scalar(value)
    ensures HasDone(Entry("finish_reason", value), marker) <==> value.Str? && NonBlank(value.text)
    ensures HasDone(Entry("stop_reason", value), marker) <==> value.Str? && NonBlank(value.text)
  {
    EntryDone("finish_reason", value, marker);
    EntryDone("stop_reason", value, marker);
    assert Lower("finish_reason") == "finish_reason" && Lower("stop_reason") == "stop_reason";
    if value.Str? {
      TrimBlank(value.text);
    }
  }

  /** An event entry ends it exactly if it is the marker, up to case. */
  lemma EventMarker(value: Json, marker: string)
    requires Scalar(value)
    ensures HasDone(Entry("event", value), marker) <==> value.Str? && Lower(value.text) == Lower(marker)
  {
    EntryDone("event", value, marker);
    assert Lower("event") == "event";
  }

  /** Nothing else does, whatever the key. */
  lemma OtherKeys(key: string, value: Json, marker: string)
    requires Scalar(value) && Lower(key) !in ["done", "finish_reason", "stop_reason", "event"]
    ensures !HasDone(Entry(key, value), marker)
  {
    EntryDone(key, value, marker);
    assert Lower(key) in ["done", "finish_reason", "stop_reason", "event"] <==>
           Lower(key) == "done" || Lower(key) == "finish_reason" || Lower(key) == "stop_reason" || Lower(key) == "event";
  }

  /** Keys are matched up to case. */
  lemma KeyCase(key: string, value: Json, marker: string)
    requires Scalar(value) && Lower(key) == "done"
    ensures HasDone(Entry(key, value), marker) <==> HasDone(Entry("done", value), marker)
  {
    EntryDone(key, value, marker);
    EntryDone("done", value, marker);
    assert Lower("done") == "done";
  }

  /** What counts as text of a flat chunk: a string that is not blank, under a preferred key in any case. */
  lemma TextEntry(key: string, value: Json, preferred: set<string>)
    ensures TextAt(Entry(key, value), [Key(key)], preferred) <==> Lower(key) in preferred && value.Str? && NonBlank(value.text)
  {
    assert [Key(key)][1..] == [];
    assert NodeAt(Entry(key, value), [Key(key)]) == Node(value);
    if value.Str? {
      TrimBlank(value.text);
    }
  }

  /** The whole part of a number, toward zero. */
  lemma TruncatedIs(x: real)
    ensures x >= 0.0 ==> Truncated(x) as real <= x < (Truncated(x) + 1) as real
    ensures x < 0.0 ==> (Truncated(x) - 1) as real < x <= Truncated(x) as real
  {
  }

  /** The count under a preferred key of a flat chunk. */
  lemma TokenEntry(key: string, x: real, preferred: set<string>, n: int)
    requires Lower(key) in preferred && x >= 1.0 && TokensOf(Entry(key, Number(x)), preferred, n)
    ensures n as real <= x < (n + 1) as real
  {
    var j := Entry(key, Number(x));
    assert NodeAt(j, [Key(key)]) == Node(Number(x)) by {
      assert [Key(key)][1..] == [];
    }
    assert NumberAt(j, [Key(key)], preferred, Truncated(x));
    forall path, m | NumberAt(j, path, preferred, m)
      ensures m == Truncated(x)
    {
      OnlyPath(key, x, path, preferred, m);
    }
    assert AllPositive(j, preferred) && HasNumber(j, preferred);
  }

  lemma OnlyPath(key: string, x: real, path: Path, preferred: set<string>, m: int)
    requires NumberAt(Entry(key, Number(x)), path, preferred, m)
    ensures m == Truncated(x)
  {
    var j := Entry(key, Number(x));
    BelowNumber(x, path[1..]);
    if Child(j, path[0]).Node? {
      assert Child(j, path[0]).json == Number(x);
    }
  }

  lemma BelowNumber(x: real, path: Path)
    ensures NodeAt(Number(x), path) == if path == [] then Node(Number(x)) else Nothing
  {
  }
}
