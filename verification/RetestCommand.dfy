/** The re-test command that the agent report prints, and exactly when it can be pasted into a shell. */
module RetestCommand {
  import opened Text
  import opened Shell
  import opened ShellExact

  /** The settings that reach the command; numbers and durations come already printed, "" meaning left out. */
  datatype Retest = Retest(
    url: string, verb: string, headers: seq<(string, string)>, body: string, bodyFile: string, payloadDir: string,
    protocol: string, grpcService: string, grpcMethod: string, grpcTLS: bool, grpcTokenField: string, wsSubprotocol: string,
    streaming: bool, streamFormat: string, doneMarker: string, textKeys: seq<string>, tokenKeys: seq<string>,
    price: string, concurrency: string, duration: string, requests: string, timeout: string,
    output: string, agentContext: string, metricsPort: string, qps: string, rampUp: string)

  /** A flag and its value, if it has one; left out unless given. */
  datatype Flag = Flag(given: bool, name: string, value: seq<Arg>)

  function HeaderPieces(headers: seq<(string, string)>): seq<Piece>
  {
    if |headers| == 0 then []
    else
      var h := headers[|headers| - 1];
      HeaderPieces(headers[..|headers| - 1])
        + [AsIs((if |headers| == 1 then "" else ",") + h.0 + ":"), Escaped(h.1)]
  }

  function JoinKeys(keys: seq<string>): string
  {
    if |keys| == 0 then "" else if |keys| == 1 then keys[0] else keys[0] + "," + JoinKeys(keys[1..])
  }

  function Shortened(body: string): string
  {
    if |body| > 4000 then body[..3997] + "..." else body
  }

  function Quote(s: string): Arg
  {
    InQuotes([Escaped(s)])
  }

  const DEFAULT_TEXT_KEYS := ["content", "text", "token", "output_text", "delta"]
  const DEFAULT_TOKEN_KEYS := ["output_tokens", "completion_tokens", "generated_tokens"]

  /** Equal up to case, key by key. */
  predicate SameKeys(a: seq<string>, b: seq<string>)
  {
    |a| == |b| && forall i :: 0 <= i < |a| ==> Lower(a[i]) == Lower(b[i])
  }

  method StreamKeysEqual(a: seq<string>, b: seq<string>) returns (same: bool)
    ensures same <==> SameKeys(a, b)
  {
    if |a| != |b| {
      return false;
    }
    for i := 0 to |a|
      invariant forall j :: 0 <= j < i ==> Lower(a[j]) == Lower(b[j])
    {
      if Lower(a[i]) != Lower(b[i]) {
        return false;
      }
    }
    return true;
  }

  /** A key list is written if there is one and it is not the default. */
  predicate NeedsKeys(keys: seq<string>, standard: seq<string>)
  {
    keys != [] && !SameKeys(keys, standard)
  }

  function TargetOptions(c: Retest): seq<Flag>
  {
    [ Flag(true, "--url", [Quote(c.url)]),
      Flag(c.verb != "" && c.verb != "GET", "--method", [Bare(c.verb)]),
      Flag(c.headers != [], "--headers", [InQuotes(HeaderPieces(c.headers))]),
      Flag(c.body != "", "--body", [Quote(Shortened(c.body))]),
      Flag(c.body == "" && c.bodyFile != "", "--body-file", [Quote(c.bodyFile)]),
      Flag(c.body == "" && c.bodyFile == "" && c.payloadDir != "", "--payload-dir", [Quote(c.payloadDir)]) ]
  }

  predicate IsGrpc(c: Retest)
  {
    c.protocol == "grpc" || c.protocol == "grpc-stream"
  }

  function ProtocolOptions(c: Retest): seq<Flag>
  {
    [ Flag(c.protocol != "" && c.protocol != "http", "--protocol", [Bare(c.protocol)]),
      Flag(IsGrpc(c), "--proto-service", [Bare(c.grpcService)]),
      Flag(IsGrpc(c), "--proto-method", [Bare(c.grpcMethod)]),
      Flag(IsGrpc(c) && c.grpcTLS, "--grpc-tls", []),
      Flag(IsGrpc(c) && c.grpcTokenField != "", "--grpc-token-field", [Bare(c.grpcTokenField)]),
      Flag(c.protocol == "websocket" && c.wsSubprotocol != "", "--ws-subprotocol", [Bare(c.wsSubprotocol)]) ]
  }

  function StreamOptions(c: Retest): seq<Flag>
  {
    [ Flag(c.streaming, "--stream", []),
      Flag(c.streaming && c.streamFormat != "" && c.streamFormat != "auto", "--stream-format", [Bare(c.streamFormat)]),
      Flag(c.streaming && c.doneMarker != "" && c.doneMarker != "[DONE]", "--stream-done-marker", [Quote(c.doneMarker)]),
      Flag(c.streaming && NeedsKeys(c.textKeys, DEFAULT_TEXT_KEYS), "--stream-text-keys", [InQuotes([AsIs(JoinKeys(c.textKeys))])]),
      Flag(c.streaming && NeedsKeys(c.tokenKeys, DEFAULT_TOKEN_KEYS), "--stream-token-keys", [InQuotes([AsIs(JoinKeys(c.tokenKeys))])]) ]
  }

  function LimitOptions(c: Retest): seq<Flag>
  {
    [ Flag(c.price != "", "--model-price", [Bare(c.price)]),
      Flag(true, "--concurrency", [Bare(c.concurrency)]),
      Flag(c.duration != "", "--duration", [Bare(c.duration)]),
      Flag(c.requests != "", "--requests", [Bare(c.requests)]),
      Flag(true, "--timeout", [Bare(c.timeout)]) ]
  }

  function ReportOptions(c: Retest): seq<Flag>
  {
    [ Flag(c.output != "", "--output", [Quote(c.output)]),
      Flag(c.agentContext != "", "--agent-context", [Quote(c.agentContext)]),
      Flag(c.metricsPort != "", "--metrics-port", [Bare(c.metricsPort)]),
      Flag(c.qps != "", "--qps", [Bare(c.qps)]),
      Flag(c.rampUp != "", "--ramp-up", [Bare(c.rampUp)]) ]
  }

  function Options(c: Retest): seq<Flag>
  {
    TargetOptions(c) + ProtocolOptions(c) + StreamOptions(c) + LimitOptions(c) + ReportOptions(c)
  }

  function OptionArgs(o: Flag): seq<Arg>
  {
    if o.given then [Bare(o.name)] + o.value else []
  }

  /** The arguments of the given options, in order, after the program's name. */
  function ArgsOf(options: seq<Flag>): seq<Arg>
  {
    if |options| == 0 then [Bare("./vibeready")]
    else ArgsOf(options[..|options| - 1]) + OptionArgs(options[|options| - 1])
  }

  function CommandArgs(c: Retest): seq<Arg>
  {
    ArgsOf(Options(c))
  }

  /** Appends option after option to a builder. */
  method BuildRetestCommand(c: Retest) returns (command: string)
    ensures command == RenderArgs(CommandArgs(c))
  {
    hide Options, RenderArg, RenderArgs;
    var options := Options(c);
    RenderOne(Bare("./vibeready"));
    command := RenderArg(Bare("./vibeready"));
    for i := 0 to |options|
      invariant command == RenderArgs(ArgsOf(options[..i])) && ArgsOf(options[..i]) != []
    {
      assert options[..i + 1][..i] == options[..i];
      var o := options[i];
      if o.given {
        command := WriteArgs(ArgsOf(options[..i]), command, [Bare(o.name)] + o.value);
      } else {
        assert ArgsOf(options[..i]) + [] == ArgsOf(options[..i]);
      }
    }
    assert options[..|options|] == options;
  }

  /** A space before each argument. */
  method WriteArgs(ghost before: seq<Arg>, builder: string, args: seq<Arg>) returns (command: string)
    requires before != [] && builder == RenderArgs(before)
    ensures command == RenderArgs(before + args)
  {
    hide RenderArg, RenderArgs;
    command := builder;
    assert before + args[..0] == before;
    for i := 0 to |args|
      invariant command == RenderArgs(before + args[..i])
    {
      RenderSnoc(before + args[..i], args[i]);
      assert before + args[..i + 1] == (before + args[..i]) + [args[i]];
      command := command + " " + RenderArg(args[i]);
    }
    assert args[..|args|] == args;
  }

  lemma {:induction false} RenderSnoc(args: seq<Arg>, a: Arg)
    ensures RenderArgs(args + [a]) == if args == [] then RenderArg(a) else RenderArgs(args) + " " + RenderArg(a)
  {
    hide RenderArg;
    if |args| > 0 {
      assert (args + [a])[1..] == args[1..] + [a];
      RenderSnoc(args[1..], a);
    }
  }

  // ----- when the command is read back as meant

  /** Bare words are plain, and what is quoted without escaping has no quote. */
  predicate SafeTarget(c: Retest)
  {
    && (c.verb != "" && c.verb != "GET" ==> Plain(c.verb))
    && (forall i :: 0 <= i < |c.headers| ==> NoQuote(c.headers[i].0))
  }

  predicate SafeProtocol(c: Retest)
  {
    && (c.protocol != "" && c.protocol != "http" ==> Plain(c.protocol))
    && (IsGrpc(c) ==> Plain(c.grpcService) && Plain(c.grpcMethod) && (c.grpcTokenField != "" ==> Plain(c.grpcTokenField)))
    && (c.protocol == "websocket" && c.wsSubprotocol != "" ==> Plain(c.wsSubprotocol))
  }

  predicate SafeStream(c: Retest)
  {
    c.streaming ==>
      && (c.streamFormat != "" && c.streamFormat != "auto" ==> Plain(c.streamFormat))
      && (NeedsKeys(c.textKeys, DEFAULT_TEXT_KEYS) ==> NoQuote(JoinKeys(c.textKeys)))
      && (NeedsKeys(c.tokenKeys, DEFAULT_TOKEN_KEYS) ==> NoQuote(JoinKeys(c.tokenKeys)))
  }

  predicate PlainIfGiven(s: string)
  {
    s != "" ==> Plain(s)
  }

  predicate SafeLimits(c: Retest)
  {
    PlainIfGiven(c.price) && Plain(c.concurrency) && PlainIfGiven(c.duration) && PlainIfGiven(c.requests) && Plain(c.timeout)
  }

  predicate SafeReport(c: Retest)
  {
    PlainIfGiven(c.metricsPort) && PlainIfGiven(c.qps) && PlainIfGiven(c.rampUp)
  }

  predicate SafeSettings(c: Retest)
  {
    SafeTarget(c) && SafeProtocol(c) && SafeStream(c) && SafeLimits(c) && SafeReport(c)
  }

  predicate SafeOption(o: Flag)
  {
    o.given ==> AllSafe(o.value)
  }

  predicate SafeOptions(options: seq<Flag>)
  {
    forall i :: 0 <= i < |options| ==> SafeOption(options[i])
  }

  predicate PlainNames(options: seq<Flag>)
  {
    forall i :: 0 <= i < |options| ==> Plain(options[i].name)
  }

  lemma SafeConcat(a: seq<Arg>, b: seq<Arg>)
    ensures AllSafe(a + b) <==> AllSafe(a) && AllSafe(b)
  {
    hide Safe;
    assert forall i :: 0 <= i < |a| ==> (a + b)[i] == a[i];
    assert forall i :: 0 <= i < |b| ==> (a + b)[|a| + i] == b[i];
  }

  lemma OptionsConcat(a: seq<Flag>, b: seq<Flag>)
    ensures SafeOptions(a + b) <==> SafeOptions(a) && SafeOptions(b)
    ensures PlainNames(a) && PlainNames(b) ==> PlainNames(a + b)
  {
    hide SafeOption, Plain;
    assert forall i :: 0 <= i < |a| ==> (a + b)[i] == a[i];
    assert forall i :: 0 <= i < |b| ==> (a + b)[|a| + i] == b[i];
  }

  lemma SafeOne(a: Arg)
    ensures AllSafe([a]) <==> Safe(a)
  {
    hide Safe;
    assert [a][0] == a;
  }

  lemma {:induction false} ArgsOfSafe(options: seq<Flag>)
    requires PlainNames(options)
    ensures AllSafe(ArgsOf(options)) <==> SafeOptions(options)
  {
    hide Plain, AllSafe, SafeOption, OptionArgs;
    if |options| == 0 {
      ProgramSafe();
    } else {
      var init, last := options[..|options| - 1], options[|options| - 1];
      ArgsOfSafe(init);
      hide ArgsOf, SafeOptions;
      assert ArgsOf(options) == ArgsOf(init) + OptionArgs(last) by { ArgsOfLast(options); }
      SafeConcat(ArgsOf(init), OptionArgs(last));
      OptionArgsSafe(last);
      SafeOptionsSnoc(init, last);
      assert options == init + [last];
    }
  }

  lemma ArgsOfLast(options: seq<Flag>)
    requires |options| > 0
    ensures ArgsOf(options) == ArgsOf(options[..|options| - 1]) + OptionArgs(options[|options| - 1])
  {
  }

  lemma ProgramSafe()
    ensures AllSafe([Bare("./vibeready")])
  {
    assert Plain("./vibeready");
  }

  lemma OptionArgsSafe(o: Flag)
    requires Plain(o.name)
    ensures AllSafe(OptionArgs(o)) <==> SafeOption(o)
  {
    BareSafe(o.name);
    SafeConcat([Bare(o.name)], o.value);
    hide Plain;
    assert AllSafe([]);
    hide AllSafe;
  }

  lemma SafeOptionsSnoc(init: seq<Flag>, last: Flag)
    ensures SafeOptions(init + [last]) <==> SafeOptions(init) && SafeOption(last)
  {
    OptionsConcat(init, [last]);
    hide SafeOption;
    assert [last][0] == last;
  }

  lemma QuoteSafe(s: string)
    ensures AllSafe([Quote(s)])
  {
    SafeOne(Quote(s));
  }

  lemma BareSafe(s: string)
    ensures AllSafe([Bare(s)]) <==> Plain(s)
  {
    SafeOne(Bare(s));
    hide Plain;
  }

  lemma KeysSafe(s: string)
    ensures AllSafe([InQuotes([AsIs(s)])]) <==> NoQuote(s)
  {
    SafeOne(InQuotes([AsIs(s)]));
    hide NoQuote;
    assert [AsIs(s)][0] == AsIs(s);
  }

  lemma {:induction false} HeadersSafe(headers: seq<(string, string)>)
    ensures SafePieces(HeaderPieces(headers)) <==> forall i :: 0 <= i < |headers| ==> NoQuote(headers[i].0)
  {
    if |headers| > 0 {
      var init, h := headers[..|headers| - 1], headers[|headers| - 1];
      HeadersSafe(init);
      var name := (if |headers| == 1 then "" else ",") + h.0 + ":";
      NameSafe(if |headers| == 1 then "" else ",", h.0);
      PairSafe(HeaderPieces(init), name, h.1);
    }
  }

  lemma NameSafe(comma: string, name: string)
    requires NoQuote(comma)
    ensures NoQuote(comma + name + ":") <==> NoQuote(name)
  {
    assert forall i :: 0 <= i < |name| ==> (comma + name + ":")[|comma| + i] == name[i];
  }

  lemma PairSafe(pieces: seq<Piece>, name: string, value: string)
    ensures SafePieces(pieces + [AsIs(name), Escaped(value)]) <==> SafePieces(pieces) && NoQuote(name)
  {
    hide NoQuote;
    var all := pieces + [AsIs(name), Escaped(value)];
    assert all[|pieces|] == AsIs(name) && all[|pieces| + 1] == Escaped(value);
    assert forall i :: 0 <= i < |pieces| ==> all[i] == pieces[i];
  }

  lemma TargetFlags()
    ensures Plain("--url") && Plain("--method") && Plain("--headers")
    ensures Plain("--body") && Plain("--body-file") && Plain("--payload-dir")
  {
  }

  lemma TargetExact(c: Retest)
    ensures SafeOptions(TargetOptions(c)) <==> SafeTarget(c)
    ensures PlainNames(TargetOptions(c))
  {
    TargetFlags();
    HeadersSafe(c.headers);
    SafeOne(InQuotes(HeaderPieces(c.headers)));
    BareSafe(c.verb);
    QuoteSafe(c.url);
    QuoteSafe(Shortened(c.body));
    QuoteSafe(c.bodyFile);
    QuoteSafe(c.payloadDir);
    hide Plain, NoQuote, HeaderPieces, AllSafe, Shortened;
    var o := TargetOptions(c);
    assert SafeOptions(o) <==> SafeOption(o[1]) && SafeOption(o[2]);
  }

  lemma ProtoFlags()
    ensures Plain("--protocol") && Plain("--proto-service") && Plain("--proto-method")
  {
  }

  lemma ProtocolFlags()
    ensures Plain("--grpc-tls") && Plain("--grpc-token-field") && Plain("--ws-subprotocol")
  {
  }

  lemma ProtocolExact(c: Retest)
    ensures SafeOptions(ProtocolOptions(c)) <==> SafeProtocol(c)
    ensures PlainNames(ProtocolOptions(c))
  {
    ProtoFlags();
    ProtocolFlags();
    BareSafe(c.protocol);
    BareSafe(c.grpcService);
    BareSafe(c.grpcMethod);
    BareSafe(c.grpcTokenField);
    BareSafe(c.wsSubprotocol);
    assert AllSafe([]);
    hide Plain, AllSafe;
    var o := ProtocolOptions(c);
    assert SafeOptions(o) <==> SafeOption(o[0]) && SafeOption(o[1]) && SafeOption(o[2]) && SafeOption(o[4]) && SafeOption(o[5]);
  }

  lemma StreamFlags()
    ensures Plain("--stream") && Plain("--stream-format") && Plain("--stream-done-marker")
    ensures Plain("--stream-text-keys") && Plain("--stream-token-keys")
  {
  }

  lemma StreamExact(c: Retest)
    ensures SafeOptions(StreamOptions(c)) <==> SafeStream(c)
    ensures PlainNames(StreamOptions(c))
  {
    StreamFlags();
    BareSafe(c.streamFormat);
    QuoteSafe(c.doneMarker);
    KeysSafe(JoinKeys(c.textKeys));
    KeysSafe(JoinKeys(c.tokenKeys));
    assert AllSafe([]);
    hide Plain, NoQuote, AllSafe, JoinKeys, NeedsKeys;
    var o := StreamOptions(c);
    assert SafeOptions(o) <==> SafeOption(o[1]) && SafeOption(o[3]) && SafeOption(o[4]);
  }

  lemma LimitFlags()
    ensures Plain("--model-price") && Plain("--concurrency") && Plain("--duration") && Plain("--requests") && Plain("--timeout")
  {
  }

  lemma LimitExact(c: Retest)
    ensures SafeOptions(LimitOptions(c)) <==> SafeLimits(c)
    ensures PlainNames(LimitOptions(c))
  {
    LimitFlags();
    BareSafe(c.price);
    BareSafe(c.concurrency);
    BareSafe(c.duration);
    BareSafe(c.requests);
    BareSafe(c.timeout);
    hide Plain, AllSafe;
    var o := LimitOptions(c);
    assert SafeOptions(o) <==> SafeOption(o[0]) && SafeOption(o[1]) && SafeOption(o[2]) && SafeOption(o[3]) && SafeOption(o[4]);
  }

  lemma ReportFlags()
    ensures Plain("--output") && Plain("--agent-context") && Plain("--metrics-port") && Plain("--qps") && Plain("--ramp-up")
  {
  }

  lemma ReportExact(c: Retest)
    ensures SafeOptions(ReportOptions(c)) <==> SafeReport(c)
    ensures PlainNames(ReportOptions(c))
  {
    ReportFlags();
    QuoteSafe(c.output);
    QuoteSafe(c.agentContext);
    BareSafe(c.metricsPort);
    BareSafe(c.qps);
    BareSafe(c.rampUp);
    hide Plain, AllSafe;
    var o := ReportOptions(c);
    assert SafeOptions(o) <==> SafeOption(o[2]) && SafeOption(o[3]) && SafeOption(o[4]);
  }

  /** The arguments are safe exactly when the settings are. */
  lemma SettingsExact(c: Retest)
    ensures AllSafe(CommandArgs(c)) <==> SafeSettings(c)
  {
    TargetExact(c);
    ProtocolExact(c);
    StreamExact(c);
    LimitExact(c);
    ReportExact(c);
    hide *;
    var a, b, d, e, f := TargetOptions(c), ProtocolOptions(c), StreamOptions(c), LimitOptions(c), ReportOptions(c);
    OptionsConcat(a, b);
    OptionsConcat(a + b, d);
    OptionsConcat(a + b + d, e);
    OptionsConcat(a + b + d + e, f);
    ArgsOfSafe(a + b + d + e + f);
    CommandIs(c);
  }

  lemma CommandIs(c: Retest)
    ensures CommandArgs(c) == ArgsOf(TargetOptions(c) + ProtocolOptions(c) + StreamOptions(c) + LimitOptions(c) + ReportOptions(c))
    ensures SafeSettings(c) <==> SafeTarget(c) && SafeProtocol(c) && SafeStream(c) && SafeLimits(c) && SafeReport(c)
  {
  }

  /**
   The printed command hands the program exactly its arguments, whatever the URL, body, paths and header
   values contain, exactly when bare words are plain and header names and key lists have no quote.
   */
  lemma CommandExact(c: Retest)
    ensures Scan(RenderArgs(CommandArgs(c)), Unquoted, Absent) == Args(Texts(CommandArgs(c))) <==> SafeSettings(c)
  {
    hide *;
    ArgsExact(CommandArgs(c));
    SettingsExact(c);
  }
}
