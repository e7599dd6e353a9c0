/** The re-test command read by the program it starts: every setting comes back under its own flag. */
module RetestReading {
  import opened Text
  import opened Shell
  import opened ShellExact
  import opened RetestCommand

  // ----- reading flags

  /** Flags without a value. */
  predicate Switch(word: string)
  {
    word == "--stream" || word == "--grpc-tls"
  }

  /** Flag by flag, each with the word after it; a flag given twice keeps the later value. */
  function ReadFlags(words: seq<string>): map<string, string>
  {
    if |words| == 0 || !("--" <= words[0]) then map[]
    else if Switch(words[0]) then Keep(ReadFlags(words[1..]), words[0], "true")
    else if |words| == 1 then map[]
    else Keep(ReadFlags(words[2..]), words[0], words[1])
  }

  function Keep(later: map<string, string>, flag: string, value: string): map<string, string>
  {
    if flag in later then later else later[flag := value]
  }

  // ----- the words of options

  function WordsOf(o: Flag): seq<string>
  {
    if !o.given then [] else [o.name] + Texts(o.value)
  }

  function AllWords(options: seq<Flag>): seq<string>
  {
    if |options| == 0 then [] else WordsOf(options[0]) + AllWords(options[1..])
  }

  lemma {:induction false} AllWordsSnoc(options: seq<Flag>, last: Flag)
    ensures AllWords(options + [last]) == AllWords(options) + WordsOf(last)
  {
    if |options| == 0 {
      assert (options + [last])[1..] == [];
      assert WordsOf(last) + [] == WordsOf(last) && [] + WordsOf(last) == WordsOf(last);
    } else {
      assert (options + [last])[1..] == options[1..] + [last];
      AllWordsSnoc(options[1..], last);
    }
  }

  lemma TextsConcat(a: seq<Arg>, b: seq<Arg>)
    ensures Texts(a + b) == Texts(a) + Texts(b)
  {
    hide ArgText;
  }

  lemma {:induction false} ArgsWords(options: seq<Flag>)
    ensures Texts(ArgsOf(options)) == ["./vibeready"] + AllWords(options)
  {
    if |options| > 0 {
      var init, last := options[..|options| - 1], options[|options| - 1];
      ArgsWords(init);
      hide ArgsOf, AllWords, WordsOf, OptionArgs, Texts;
      assert options == init + [last];
      AllWordsSnoc(init, last);
      ArgsOfLast(options);
      TextsConcat(ArgsOf(init), OptionArgs(last));
      LastWords(last);
    } else {
      assert Texts([Bare("./vibeready")]) == ["./vibeready"];
    }
  }

  lemma LastWords(o: Flag)
    ensures Texts(OptionArgs(o)) == WordsOf(o)
  {
    if o.given {
      TextsConcat([Bare(o.name)], o.value);
      assert Texts([Bare(o.name)]) == [o.name];
    }
  }

  // ----- reading them back

  /** The flag and its value's text: "true" for a switch. */
  predicate Proper(o: Flag)
  {
    "--" <= o.name && |o.value| == (if Switch(o.name) then 0 else 1)
  }

  function TextOf(o: Flag): string
  {
    if |o.value| == 0 then "true" else ArgText(o.value[0])
  }

  /** The flag is read with this text if it was given, and not at all otherwise. */
  predicate Reads(m: map<string, string>, given: bool, name: string, text: string)
  {
    if given then name in m && m[name] == text else name !in m
  }

  ghost predicate AllProper(options: seq<Flag>)
  {
    forall i :: 0 <= i < |options| ==> Proper(options[i])
  }

  ghost predicate Apart(options: seq<Flag>)
  {
    forall i, j :: 0 <= i < j < |options| ==> options[i].name != options[j].name
  }

  lemma OneFlag(o: Flag, rest: seq<string>)
    requires Proper(o) && o.given
    ensures ReadFlags(WordsOf(o) + rest) == Keep(ReadFlags(rest), o.name, TextOf(o))
  {
    hide Switch, ArgText;
    var words := WordsOf(o) + rest;
    if Switch(o.name) {
      assert words[1..] == rest;
    } else {
      assert words[1] == ArgText(o.value[0]) && words[2..] == rest;
    }
  }

  lemma {:induction false} OptionsRead(options: seq<Flag>)
    requires AllProper(options) && Apart(options)
    ensures forall k :: 0 <= k < |options| ==> Reads(ReadFlags(AllWords(options)), options[k].given, options[k].name, TextOf(options[k]))
    ensures forall name :: name in ReadFlags(AllWords(options)) ==> Among(options, name)
  {
    hide Proper, TextOf, WordsOf;
    if |options| > 0 {
      var o, rest := options[0], options[1..];
      OptionsRead(rest);
      if o.given {
        OneFlag(o, AllWords(rest));
      } else {
        NotGiven(o, AllWords(rest));
      }
      hide ReadFlags;
      forall k | 0 <= k < |options|
        ensures Reads(ReadFlags(AllWords(options)), options[k].given, options[k].name, TextOf(options[k]))
      {
        if k > 0 {
          assert rest[k - 1] == options[k];
        }
      }
      forall name | name in ReadFlags(AllWords(options))
        ensures Among(options, name)
      {
        if name in ReadFlags(AllWords(rest)) {
          assert Among(rest, name);
        }
      }
    }
  }

  lemma NotGiven(o: Flag, words: seq<string>)
    requires !o.given
    ensures WordsOf(o) + words == words
  {
  }

  ghost predicate Among(options: seq<Flag>, name: string)
  {
    exists k :: 0 <= k < |options| && options[k].name == name
  }

  // ----- the flags of the command

  /** The words after the program's name. */
  function AfterFirst(words: seq<string>): seq<string>
  {
    if |words| == 0 then [] else words[1..]
  }

  /** What the program reads from the command's words. */
  function FlagsOf(c: Retest): map<string, string>
  {
    ReadFlags(AfterFirst(Texts(CommandArgs(c))))
  }

  const NAMES := ["--url", "--method", "--headers", "--body", "--body-file", "--payload-dir",
                  "--protocol", "--proto-service", "--proto-method", "--grpc-tls", "--grpc-token-field", "--ws-subprotocol",
                  "--stream", "--stream-format", "--stream-done-marker", "--stream-text-keys", "--stream-token-keys",
                  "--model-price", "--concurrency", "--duration", "--requests", "--timeout",
                  "--output", "--agent-context", "--metrics-port", "--qps", "--ramp-up"]

  ghost predicate Named(options: seq<Flag>, from: nat)
  {
    from + |options| <= |NAMES| && forall k :: 0 <= k < |options| ==> options[k].name == NAMES[from + k]
  }

  lemma FirstNames(c: Retest)
    ensures |TargetOptions(c)| == |ProtocolOptions(c)| == 6 && Named(TargetOptions(c), 0) && Named(ProtocolOptions(c), 6)
  {
    hide HeaderPieces, Shortened;
  }

  lemma LastNames(c: Retest)
    ensures |StreamOptions(c)| == |LimitOptions(c)| == |ReportOptions(c)| == 5
    ensures Named(StreamOptions(c), 12) && Named(LimitOptions(c), 17) && Named(ReportOptions(c), 22)
  {
    hide JoinKeys, NeedsKeys;
  }

  lemma NamedConcat(a: seq<Flag>, b: seq<Flag>)
    requires Named(a, 0) && Named(b, |a|)
    ensures Named(a + b, 0)
  {
  }

  lemma NamesAre(c: Retest)
    ensures |Options(c)| == |NAMES| == 27
    ensures forall k :: 0 <= k < 27 ==> Options(c)[k].name == NAMES[k]
  {
    FirstNames(c);
    LastNames(c);
    hide Named, TargetOptions, ProtocolOptions, StreamOptions, LimitOptions, ReportOptions;
    var a, b, d, e, f := TargetOptions(c), ProtocolOptions(c), StreamOptions(c), LimitOptions(c), ReportOptions(c);
    NamedConcat(a, b);
    NamedConcat(a + b, d);
    NamedConcat(a + b + d, e);
    NamedConcat(a + b + d + e, f);
    NamedIs(Options(c));
  }

  lemma NamedIs(options: seq<Flag>)
    requires Named(options, 0)
    ensures |options| <= |NAMES| && forall k :: 0 <= k < |options| ==> options[k].name == NAMES[k]
  {
  }

  /** The position of a flag's name. */
  function Code(name: string): int
  {
    if name == "--url" then 0 else if name == "--method" then 1 else if name == "--headers" then 2
    else if name == "--body" then 3 else if name == "--body-file" then 4 else if name == "--payload-dir" then 5
    else if name == "--protocol" then 6 else if name == "--proto-service" then 7 else if name == "--proto-method" then 8
    else if name == "--grpc-tls" then 9 else if name == "--grpc-token-field" then 10 else if name == "--ws-subprotocol" then 11
    else if name == "--stream" then 12 else if name == "--stream-format" then 13 else if name == "--stream-done-marker" then 14
    else if name == "--stream-text-keys" then 15 else if name == "--stream-token-keys" then 16
    else if name == "--model-price" then 17 else if name == "--concurrency" then 18 else if name == "--duration" then 19
    else if name == "--requests" then 20 else if name == "--timeout" then 21
    else if name == "--output" then 22 else if name == "--agent-context" then 23 else if name == "--metrics-port" then 24
    else if name == "--qps" then 25 else if name == "--ramp-up" then 26
    else -1
  }

  lemma FirstCodes()
    ensures forall k :: 0 <= k < 9 ==> Code(NAMES[k]) == k
  {
  }

  lemma MiddleCodes()
    ensures forall k :: 9 <= k < 18 ==> Code(NAMES[k]) == k
  {
  }

  lemma LastCodes()
    ensures forall k :: 18 <= k < 27 ==> Code(NAMES[k]) == k
  {
  }

  lemma NamesApart()
    ensures forall i, j :: 0 <= i < j < |NAMES| ==> NAMES[i] != NAMES[j]
  {
    FirstCodes();
    MiddleCodes();
    LastCodes();
    hide Code;
  }

  lemma ProperConcat(a: seq<Flag>, b: seq<Flag>)
    requires AllProper(a) && AllProper(b)
    ensures AllProper(a + b)
  {
    hide Proper;
  }

  lemma TargetProper(c: Retest)
    ensures AllProper(TargetOptions(c))
  {
    hide HeaderPieces, Shortened;
  }

  lemma ProtocolProper(c: Retest)
    ensures AllProper(ProtocolOptions(c))
  {
  }

  lemma StreamProper(c: Retest)
    ensures AllProper(StreamOptions(c))
  {
    hide JoinKeys, NeedsKeys;
  }

  lemma LimitProper(c: Retest)
    ensures AllProper(LimitOptions(c))
  {
  }

  lemma ReportProper(c: Retest)
    ensures AllProper(ReportOptions(c))
  {
  }

  lemma OptionsProper(c: Retest)
    ensures AllProper(Options(c))
  {
    TargetProper(c);
    ProtocolProper(c);
    StreamProper(c);
    LimitProper(c);
    ReportProper(c);
    hide AllProper, TargetOptions, ProtocolOptions, StreamOptions, LimitOptions, ReportOptions;
    ProperConcat(TargetOptions(c), ProtocolOptions(c));
    ProperConcat(TargetOptions(c) + ProtocolOptions(c), StreamOptions(c));
    ProperConcat(TargetOptions(c) + ProtocolOptions(c) + StreamOptions(c), LimitOptions(c));
    ProperConcat(TargetOptions(c) + ProtocolOptions(c) + StreamOptions(c) + LimitOptions(c), ReportOptions(c));
  }

  /** One flag of the command. */
  lemma FlagRead(c: Retest, k: nat)
    requires k < 27
    ensures |Options(c)| == 27 && Reads(FlagsOf(c), Options(c)[k].given, Options(c)[k].name, TextOf(Options(c)[k]))
    ensures forall name :: name in FlagsOf(c) ==> name in NAMES
  {
    NamesAre(c);
    NamesApart();
    OptionsProper(c);
    ArgsWords(Options(c));
    hide Options, AllProper, ReadFlags, Texts, TextOf, Reads;
    assert Apart(Options(c));
    OptionsRead(Options(c));
    assert AfterFirst(["./vibeready"] + AllWords(Options(c))) == AllWords(Options(c));
  }

  lemma GroupSizes(c: Retest)
    ensures |TargetOptions(c)| == 6 && |ProtocolOptions(c)| == 6 && |StreamOptions(c)| == 5
    ensures |LimitOptions(c)| == 5 && |ReportOptions(c)| == 5
  {
    hide HeaderPieces, Shortened, JoinKeys, NeedsKeys;
  }

  /** Every option of the command is read. */
  ghost predicate GroupRead(c: Retest, options: seq<Flag>)
  {
    forall k :: 0 <= k < |options| ==> Reads(FlagsOf(c), options[k].given, options[k].name, TextOf(options[k]))
  }

  lemma GroupsRead(c: Retest)
    ensures GroupRead(c, TargetOptions(c)) && GroupRead(c, ProtocolOptions(c)) && GroupRead(c, StreamOptions(c))
    ensures GroupRead(c, LimitOptions(c)) && GroupRead(c, ReportOptions(c))
  {
    GroupSizes(c);
    hide Reads, TextOf, FlagsOf, TargetOptions, ProtocolOptions, StreamOptions, LimitOptions, ReportOptions;
    var a, b, d, e, f := TargetOptions(c), ProtocolOptions(c), StreamOptions(c), LimitOptions(c), ReportOptions(c);
    assert Options(c) == a + b + d + e + f;
    GroupAt(c, a, b + d + e + f, []);
    GroupAt(c, b, d + e + f, a);
    GroupAt(c, d, e + f, a + b);
    GroupAt(c, e, f, a + b + d);
    GroupAt(c, f, [], a + b + d + e);
  }

  lemma GroupAt(c: Retest, group: seq<Flag>, after: seq<Flag>, before: seq<Flag>)
    requires Options(c) == before + group + after
    ensures GroupRead(c, group)
  {
    NamesAre(c);
    hide Options, Reads, TextOf, FlagsOf;
    forall k | 0 <= k < |group|
      ensures Reads(FlagsOf(c), group[k].given, group[k].name, TextOf(group[k]))
    {
      FlagRead(c, |before| + k);
      assert Options(c)[|before| + k] == group[k];
    }
  }

  // ----- the texts

  lemma QuoteText(s: string)
    ensures ArgText(Quote(s)) == s
  {
    assert [Escaped(s)][1..] == [];
    assert PiecesText([]) == "";
  }

  lemma KeysText(s: string)
    ensures ArgText(InQuotes([AsIs(s)])) == s
  {
    assert [AsIs(s)][1..] == [];
    assert PiecesText([]) == "";
  }

  /** Name and value of each header with a colon between them, the headers with commas. */
  function HeaderText(headers: seq<(string, string)>): string
  {
    if |headers| == 0 then ""
    else if |headers| == 1 then headers[0].0 + ":" + headers[0].1
    else headers[0].0 + ":" + headers[0].1 + "," + HeaderText(headers[1..])
  }

  lemma {:induction false} PiecesTextConcat(a: seq<Piece>, b: seq<Piece>)
    ensures PiecesText(a + b) == PiecesText(a) + PiecesText(b)
  {
    if |a| == 0 {
      assert a + b == b;
    } else {
      assert (a + b)[1..] == a[1..] + b;
      PiecesTextConcat(a[1..], b);
    }
  }

  lemma {:induction false} HeaderTextSnoc(headers: seq<(string, string)>, h: (string, string))
    requires |headers| > 0
    ensures HeaderText(headers + [h]) == HeaderText(headers) + ("," + h.0 + ":" + h.1)
  {
    assert (headers + [h])[1..] == headers[1..] + [h];
    if |headers| > 1 {
      HeaderTextSnoc(headers[1..], h);
    } else {
      assert headers[1..] == [];
      assert [] + [h] == [h];
    }
  }

  lemma {:induction false} HeadersText(headers: seq<(string, string)>)
    ensures PiecesText(HeaderPieces(headers)) == HeaderText(headers)
  {
    if |headers| > 0 {
      var init, h := headers[..|headers| - 1], headers[|headers| - 1];
      HeadersText(init);
      var name := (if |headers| == 1 then "" else ",") + h.0 + ":";
      PiecesTextConcat(HeaderPieces(init), [AsIs(name), Escaped(h.1)]);
      PairText(name, h.1);
      hide PiecesText, HeaderPieces;
      assert headers == init + [h];
      if |init| > 0 {
        HeaderTextSnoc(init, h);
      }
    }
  }

  lemma PairText(name: string, value: string)
    ensures PiecesText([AsIs(name), Escaped(value)]) == name + value
  {
    assert [AsIs(name), Escaped(value)][1..] == [Escaped(value)] && [Escaped(value)][1..] == [];
    assert PiecesText([]) == "";
  }

  /** A long body is cut to 4000 characters that end in three dots. */
  lemma ShortenedIs(body: string)
    ensures |body| <= 4000 ==> Shortened(body) == body
    ensures |body| > 4000 ==> |Shortened(body)| == 4000 && Shortened(body)[..3997] == body[..3997] && Shortened(body)[3997..] == "..."
  {
  }

  /** The keys between the commas. */
  function SplitKeys(s: string, key: string): seq<string>
    decreases |s|
  {
    if |s| == 0 then [key]
    else if s[0] == ',' then [key] + SplitKeys(s[1..], "")
    else SplitKeys(s[1..], key + [s[0]])
  }

  predicate NoComma(s: string)
  {
    forall i :: 0 <= i < |s| ==> s[i] != ','
  }

  lemma {:induction false} SplitOne(key: string, sofar: string, rest: string)
    requires NoComma(key)
    ensures SplitKeys(key + rest, sofar) == SplitKeys(rest, sofar + key)
    decreases |key|
  {
    if key == "" {
      assert key + rest == rest && sofar + key == sofar;
    } else {
      assert (key + rest)[1..] == key[1..] + rest;
      assert sofar + [key[0]] + key[1..] == sofar + key;
      SplitOne(key[1..], sofar + [key[0]], rest);
    }
  }

  /** A key list is read back key by key if no key has a comma. */
  lemma {:induction false} KeysBack(keys: seq<string>)
    requires |keys| > 0 && forall i :: 0 <= i < |keys| ==> NoComma(keys[i])
    ensures SplitKeys(JoinKeys(keys), "") == keys
  {
    assert "" + keys[0] == keys[0];
    if |keys| == 1 {
      SplitOne(keys[0], "", "");
      assert keys[0] + "" == keys[0];
    } else {
      var rest := "," + JoinKeys(keys[1..]);
      SplitOne(keys[0], "", rest);
      assert JoinKeys(keys) == keys[0] + rest;
      assert rest[1..] == JoinKeys(keys[1..]);
      KeysBack(keys[1..]);
      assert keys == [keys[0]] + keys[1..];
    }
  }

  // ----- the settings

  lemma TargetRead(c: Retest)
    ensures var m := FlagsOf(c);
            && Reads(m, true, "--url", c.url)
            && Reads(m, c.verb != "" && c.verb != "GET", "--method", c.verb)
            && Reads(m, c.headers != [], "--headers", HeaderText(c.headers))
            && Reads(m, c.body != "", "--body", Shortened(c.body))
            && Reads(m, c.body == "" && c.bodyFile != "", "--body-file", c.bodyFile)
            && Reads(m, c.body == "" && c.bodyFile == "" && c.payloadDir != "", "--payload-dir", c.payloadDir)
  {
    GroupsRead(c);
    QuoteText(c.url);
    QuoteText(Shortened(c.body));
    QuoteText(c.bodyFile);
    QuoteText(c.payloadDir);
    HeadersText(c.headers);
    var o := TargetOptions(c);
    hide FlagsOf, Reads, Quote, HeaderPieces, HeaderText, PiecesText, Shortened, ProtocolOptions, StreamOptions, LimitOptions, ReportOptions;
    assert |o| == 6;
    assert Reads(FlagsOf(c), o[0].given, o[0].name, TextOf(o[0]));
    assert Reads(FlagsOf(c), o[1].given, o[1].name, TextOf(o[1]));
    assert Reads(FlagsOf(c), o[2].given, o[2].name, TextOf(o[2]));
    assert Reads(FlagsOf(c), o[3].given, o[3].name, TextOf(o[3]));
    assert Reads(FlagsOf(c), o[4].given, o[4].name, TextOf(o[4]));
    assert Reads(FlagsOf(c), o[5].given, o[5].name, TextOf(o[5]));
  }

  lemma ProtocolRead(c: Retest)
    ensures var m, grpc := FlagsOf(c), c.protocol == "grpc" || c.protocol == "grpc-stream";
            && Reads(m, c.protocol != "" && c.protocol != "http", "--protocol", c.protocol)
            && Reads(m, grpc, "--proto-service", c.grpcService)
            && Reads(m, grpc, "--proto-method", c.grpcMethod)
            && Reads(m, grpc && c.grpcTLS, "--grpc-tls", "true")
            && Reads(m, grpc && c.grpcTokenField != "", "--grpc-token-field", c.grpcTokenField)
            && Reads(m, c.protocol == "websocket" && c.wsSubprotocol != "", "--ws-subprotocol", c.wsSubprotocol)
  {
    GroupsRead(c);
    var o := ProtocolOptions(c);
    hide FlagsOf, Reads, TargetOptions, StreamOptions, LimitOptions, ReportOptions;
    assert |o| == 6;
    assert Reads(FlagsOf(c), o[0].given, o[0].name, TextOf(o[0]));
    assert Reads(FlagsOf(c), o[1].given, o[1].name, TextOf(o[1]));
    assert Reads(FlagsOf(c), o[2].given, o[2].name, TextOf(o[2]));
    assert Reads(FlagsOf(c), o[3].given, o[3].name, TextOf(o[3]));
    assert Reads(FlagsOf(c), o[4].given, o[4].name, TextOf(o[4]));
    assert Reads(FlagsOf(c), o[5].given, o[5].name, TextOf(o[5]));
  }

  /** A list that is not empty and differs from the standard one by more than case. */
  predicate OwnKeys(keys: seq<string>, standard: seq<string>)
  {
    |keys| > 0 && (|keys| != |standard| || exists i :: 0 <= i < |keys| && Lower(keys[i]) != Lower(standard[i]))
  }

  lemma OwnKeysNeeded(keys: seq<string>, standard: seq<string>)
    ensures OwnKeys(keys, standard) <==> NeedsKeys(keys, standard)
  {
    hide Lower;
  }

  lemma StreamRead(c: Retest)
    ensures var m := FlagsOf(c);
            && Reads(m, c.streaming, "--stream", "true")
            && Reads(m, c.streaming && c.streamFormat != "" && c.streamFormat != "auto", "--stream-format", c.streamFormat)
            && Reads(m, c.streaming && c.doneMarker != "" && c.doneMarker != "[DONE]", "--stream-done-marker", c.doneMarker)
            && Reads(m, c.streaming && OwnKeys(c.textKeys, ["content", "text", "token", "output_text", "delta"]),
                     "--stream-text-keys", JoinKeys(c.textKeys))
            && Reads(m, c.streaming && OwnKeys(c.tokenKeys, ["output_tokens", "completion_tokens", "generated_tokens"]),
                     "--stream-token-keys", JoinKeys(c.tokenKeys))
  {
    GroupsRead(c);
    QuoteText(c.doneMarker);
    OwnKeysNeeded(c.textKeys, DEFAULT_TEXT_KEYS);
    OwnKeysNeeded(c.tokenKeys, DEFAULT_TOKEN_KEYS);
    KeysText(JoinKeys(c.textKeys));
    KeysText(JoinKeys(c.tokenKeys));
    var o := StreamOptions(c);
    hide FlagsOf, Reads, Quote, JoinKeys, NeedsKeys, OwnKeys, PiecesText, TargetOptions, ProtocolOptions, LimitOptions, ReportOptions;
    assert |o| == 5;
    assert Reads(FlagsOf(c), o[0].given, o[0].name, TextOf(o[0]));
    assert Reads(FlagsOf(c), o[1].given, o[1].name, TextOf(o[1]));
    assert Reads(FlagsOf(c), o[2].given, o[2].name, TextOf(o[2]));
    assert Reads(FlagsOf(c), o[3].given, o[3].name, TextOf(o[3]));
    assert Reads(FlagsOf(c), o[4].given, o[4].name, TextOf(o[4]));
  }

  lemma LimitRead(c: Retest)
    ensures var m := FlagsOf(c);
            && Reads(m, c.price != "", "--model-price", c.price)
            && Reads(m, true, "--concurrency", c.concurrency)
            && Reads(m, c.duration != "", "--duration", c.duration)
            && Reads(m, c.requests != "", "--requests", c.requests)
            && Reads(m, true, "--timeout", c.timeout)
  {
    GroupsRead(c);
    var o := LimitOptions(c);
    hide FlagsOf, Reads, TargetOptions, ProtocolOptions, StreamOptions, ReportOptions;
    assert |o| == 5;
    assert Reads(FlagsOf(c), o[0].given, o[0].name, TextOf(o[0]));
    assert Reads(FlagsOf(c), o[1].given, o[1].name, TextOf(o[1]));
    assert Reads(FlagsOf(c), o[2].given, o[2].name, TextOf(o[2]));
    assert Reads(FlagsOf(c), o[3].given, o[3].name, TextOf(o[3]));
    assert Reads(FlagsOf(c), o[4].given, o[4].name, TextOf(o[4]));
  }

  lemma ReportRead(c: Retest)
    ensures var m := FlagsOf(c);
            && Reads(m, c.output != "", "--output", c.output)
            && Reads(m, c.agentContext != "", "--agent-context", c.agentContext)
            && Reads(m, c.metricsPort != "", "--metrics-port", c.metricsPort)
            && Reads(m, c.qps != "", "--qps", c.qps)
            && Reads(m, c.rampUp != "", "--ramp-up", c.rampUp)
  {
    GroupsRead(c);
    QuoteText(c.output);
    QuoteText(c.agentContext);
    var o := ReportOptions(c);
    hide FlagsOf, Reads, Quote, TargetOptions, ProtocolOptions, StreamOptions, LimitOptions;
    assert |o| == 5;
    assert Reads(FlagsOf(c), o[0].given, o[0].name, TextOf(o[0]));
    assert Reads(FlagsOf(c), o[1].given, o[1].name, TextOf(o[1]));
    assert Reads(FlagsOf(c), o[2].given, o[2].name, TextOf(o[2]));
    assert Reads(FlagsOf(c), o[3].given, o[3].name, TextOf(o[3]));
    assert Reads(FlagsOf(c), o[4].given, o[4].name, TextOf(o[4]));
  }

  /**
   The printed command, pasted into a shell, makes the program read these flags, each with its own
   setting, and no others, whenever the settings are safe.
   */
  lemma CommandRead(c: Retest)
    requires SafeSettings(c)
    ensures var read := Scan(RenderArgs(CommandArgs(c)), Unquoted, Absent);
            read.Args? && ReadFlags(AfterFirst(read.words)) == FlagsOf(c)
    ensures forall name :: name in FlagsOf(c) ==> name in NAMES
  {
    hide *;
    CommandExact(c);
    FlagRead(c, 0);
    FlagsAre(c);
  }

  lemma FlagsAre(c: Retest)
    ensures FlagsOf(c) == ReadFlags(AfterFirst(Texts(CommandArgs(c))))
  {
  }
}
