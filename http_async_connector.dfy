/** The request side of the HTTP enrichment connector: for one input row it
    resolves the configured request variables against the input columns, then
    either passes the row through, reports a configuration error, or builds and
    dispatches one HTTP POST. Its timeout callback applies the fail-on-errors policy.

    Every path is specified by the ordered trace of effects it has (metric events,
    completion attempts on the result future, request executions); the methods
    are proved to produce exactly the projections of that trace on the stats
    manager, the result future and the HTTP client. */
module HttpConnector {
  import opened Values

  /** The `ExternalSourceAspects` this connector marks. */
  datatype Aspect = TotalHttpCalls | EmptyInput | Timeouts | InvalidConfiguration

  /** A Flink row as `RowManager` splits it: the input segment and the output segment. */
  datatype Row = Row(input: seq<Value>, output: seq<Value>)

  /** The exceptions the connector hands to the result future. */
  datatype Failure = InvalidConfigurationException(message: string) | TimeoutException(message: string)

  /** One call on the result future: `complete(rows)` or `completeExceptionally(error)`. */
  datatype Completion = Completed(rows: seq<Row>) | CompletedExceptionally(error: Failure)

  /** What `String.format(pattern, args)` does: a formatted string, or one of the
      two `IllegalFormatException`s the connector catches. */
  datatype FormatResult = Formatted(text: string) | UnknownFormatConversion | OtherIllegalFormat

  /** The parts of `HttpSourceConfig` the request side reads. */
  datatype HttpSourceConfig = HttpSourceConfig(
    endpoint: string,
    requestPattern: string,
    requestVariables: string,
    headers: map<string, string>,
    failOnErrors: bool)

  /** A request as the HTTP client executes it. */
  datatype Request = Request(endpoint: string, body: string, headers: seq<(string, string)>)

  /** One observable step of the connector, in program order. */
  datatype Effect = Mark(aspect: Aspect) | Attempt(completion: Completion) | Execute(endpoint: string, body: string)

  // ---------------------------------------------------------------------------
  // Collaborators

  /** The effects of the stats manager, the result future and the HTTP client
      interleaved in the order they happen; each of the three appends to it. */
  class EffectLog {
    ghost var effects: seq<Effect>

    constructor ()
      ensures effects == []
    {
      effects := [];
    }
  }

  /** `StatsManager`, seen as the log of the events marked on it. */
  class StatsManager {
    var events: seq<Aspect>
    ghost const log: EffectLog

    constructor (ghost log: EffectLog)
      ensures events == [] && this.log == log
    {
      events := [];
      this.log := log;
    }

    method MarkEvent(aspect: Aspect)
      modifies this, log
      ensures events == old(events) + [aspect]
      ensures log.effects == old(log.effects) + [Mark(aspect)]
    {
      events := events + [aspect];
      log.effects := log.effects + [Mark(aspect)];
    }
  }

  /** The first completion attempt, which is the one that decides the record. */
  function FirstWins(attempts: seq<Completion>): (r: Option<Completion>)
    ensures r.None? <==> attempts == []
  {
    if attempts == [] then None else Some(attempts[0])
  }

  /** Flink's `ResultFuture`: every completion attempt is logged, and a single-use
      slot keeps the first one; later attempts do not change it. */
  class ResultFuture {
    var attempts: seq<Completion>
    var result: Option<Completion>
    ghost const log: EffectLog

    predicate Valid()
      reads this
    {
      result == FirstWins(attempts)
    }

    constructor (ghost log: EffectLog)
      ensures Valid() && attempts == [] && this.log == log
    {
      attempts := [];
      result := None;
      this.log := log;
    }

    method Complete(rows: seq<Row>)
      requires Valid()
      modifies this, log
      ensures Valid() && attempts == old(attempts) + [Completed(rows)]
      ensures log.effects == old(log.effects) + [Effect.Attempt(Completed(rows))]
    {
      Attempt(Completed(rows));
    }

    method CompleteExceptionally(error: Failure)
      requires Valid()
      modifies this, log
      ensures Valid() && attempts == old(attempts) + [CompletedExceptionally(error)]
      ensures log.effects == old(log.effects) + [Effect.Attempt(CompletedExceptionally(error))]
    {
      Attempt(CompletedExceptionally(error));
    }

    method Attempt(c: Completion)
      requires Valid()
      modifies this, log
      ensures Valid() && attempts == old(attempts) + [c]
      ensures old(result).Some? ==> result == old(result)
      ensures log.effects == old(log.effects) + [Effect.Attempt(c)]
    {
      attempts := attempts + [c];
      if result.None? {
        result := Some(c);
      }
      log.effects := log.effects + [Effect.Attempt(c)];
    }
  }

  /** `BoundRequestBuilder`: a POST being assembled. */
  class BoundRequestBuilder {
    const endpoint: string
    var body: string
    var headers: seq<(string, string)>

    constructor (endpoint: string)
      ensures this.endpoint == endpoint && body == "" && headers == []
    {
      this.endpoint := endpoint;
      body := "";
      headers := [];
    }

    method SetBody(body: string)
      modifies this
      ensures this.body == body && headers == old(headers)
    {
      this.body := body;
    }

    method AddHeader(key: string, value: string)
      modifies this
      ensures headers == old(headers) + [(key, value)] && body == old(body)
    {
      headers := headers + [(key, value)];
    }
  }

  /** `AsyncHttpClient`, seen as the log of the requests executed on it. */
  class HttpClient {
    var executed: seq<Request>
    ghost const log: EffectLog

    constructor (ghost log: EffectLog)
      ensures executed == [] && this.log == log
    {
      executed := [];
      this.log := log;
    }

    method PreparePost(endpoint: string) returns (b: BoundRequestBuilder)
      ensures fresh(b) && b.endpoint == endpoint && b.body == "" && b.headers == []
    {
      b := new BoundRequestBuilder(endpoint);
    }

    method Execute(b: BoundRequestBuilder)
      modifies this, log
      ensures executed == old(executed) + [Request(b.endpoint, b.body, b.headers)]
      ensures log.effects == old(log.effects) + [Effect.Execute(b.endpoint, b.body)]
    {
      executed := executed + [Request(b.endpoint, b.body, b.headers)];
      log.effects := log.effects + [Effect.Execute(b.endpoint, b.body)];
    }
  }

  // ---------------------------------------------------------------------------
  // `String.split(",")`

  /** All comma-separated pieces of `s`, empty ones included. */
  function SplitAll(s: string): (r: seq<string>)
    ensures |r| >= 1
    ensures forall k :: 0 <= k < |r| ==> ',' !in r[k]
  {
    if s == [] then [""]
    else
      var rest := SplitAll(s[1..]);
      if s[0] == ',' then [""] + rest else [[s[0]] + rest[0]] + rest[1..]
  }

  /** The pieces joined back with commas. */
  function Join(parts: seq<string>): string
    requires |parts| >= 1
  {
    if |parts| == 1 then parts[0] else parts[0] + "," + Join(parts[1..])
  }

  function DropTrailingEmpty(parts: seq<string>): (r: seq<string>)
    ensures |r| <= |parts| && r == parts[..|r|]
    ensures forall k :: |r| <= k < |parts| ==> parts[k] == ""
    ensures r == [] || r[|r| - 1] != ""
  {
    if parts == [] || parts[|parts| - 1] != "" then parts
    else DropTrailingEmpty(parts[..|parts| - 1])
  }

  /** Java's `s.split(",")`: the string itself when it holds no comma; otherwise
      its pieces with the trailing empty ones removed. */
  function JavaSplitComma(s: string): seq<string>
  {
    if ',' !in s then [s] else DropTrailingEmpty(SplitAll(s))
  }

  /** Splitting on commas and joining with commas gives the string back. */
  lemma {:induction false} JoinSplitAll(s: string)
    ensures Join(SplitAll(s)) == s
  {
    if s != [] {
      var rest := SplitAll(s[1..]);
      JoinSplitAll(s[1..]);
      if s[0] == ',' {
        assert SplitAll(s)[1..] == rest;
      } else if |rest| == 1 {
        assert Join(SplitAll(s)) == [s[0]] + rest[0];
      } else {
        assert SplitAll(s)[1..] == rest[1..];
        assert Join(rest) == rest[0] + "," + Join(rest[1..]);
      }
    }
  }

  /** Every piece of `s` is empty exactly when `s` is made of commas only. */
  lemma {:induction false} SplitAllEmptyPieces(s: string)
    ensures (forall k :: 0 <= k < |SplitAll(s)| ==> SplitAll(s)[k] == "") <==> (forall k :: 0 <= k < |s| ==> s[k] == ',')
  {
    if s != [] {
      SplitAllEmptyPieces(s[1..]);
      var r := SplitAll(s);
      var rest := SplitAll(s[1..]);
      if s[0] == ',' {
        assert r == [""] + rest;
        if forall k :: 0 <= k < |r| ==> r[k] == "" {
          assert forall k :: 0 <= k < |rest| ==> rest[k] == r[k + 1];
        }
        if forall k :: 0 <= k < |s| ==> s[k] == ',' {
          assert forall k :: 0 <= k < |s[1..]| ==> s[1..][k] == s[k + 1];
        }
      } else {
        assert r[0] != "";
      }
    }
  }

  lemma {:induction false} DropTrailingEmptyIsEmpty(parts: seq<string>)
    ensures DropTrailingEmpty(parts) == [] <==> forall k :: 0 <= k < |parts| ==> parts[k] == ""
  {
    if parts != [] && parts[|parts| - 1] == "" {
      DropTrailingEmptyIsEmpty(parts[..|parts| - 1]);
    }
  }

  /** What `requestVariables.split(",")` yields: comma-free names that, apart
      from trailing empty pieces, are all the comma-separated pieces in order;
      no names at all exactly when the text is one or more commas and nothing else. */
  lemma JavaSplitCommaShape(s: string)
    ensures var r := JavaSplitComma(s);
            && (forall k :: 0 <= k < |r| ==> ',' !in r[k])
            && |r| <= |SplitAll(s)| && r == SplitAll(s)[..|r|]
            && (forall k :: |r| <= k < |SplitAll(s)| ==> SplitAll(s)[k] == "")
            && (r == [] <==> s != "" && forall k :: 0 <= k < |s| ==> s[k] == ',')
            && (',' in s && r != [] ==> r[|r| - 1] != "")
  {
    SplitAllEmptyPieces(s);
    DropTrailingEmptyIsEmpty(SplitAll(s));
    if ',' !in s {
      SplitAllNoComma(s);
    }
  }

  lemma {:induction false} SplitAllNoComma(s: string)
    requires ',' !in s
    ensures SplitAll(s) == [s]
  {
    if s != [] {
      assert forall c :: c in s[1..] ==> c in s;
      SplitAllNoComma(s[1..]);
      assert [s[0]] + s[1..] == s;
    }
  }

  // ---------------------------------------------------------------------------
  // `ColumnNameManager.getInputIndex` and the resolution of request variables

  /** Index of the first occurrence of `name`, or -1 when it is absent. */
  function IndexOf(names: seq<string>, name: string): (r: int)
    ensures -1 <= r < |names|
    ensures r == -1 <==> name !in names
    ensures r >= 0 ==> names[r] == name && forall j :: 0 <= j < r ==> names[j] != name
  {
    if names == [] then -1
    else if names[0] == name then 0
    else
      var i := IndexOf(names[1..], name);
      if i == -1 then -1 else i + 1
  }

  /** The values of the named input columns in order, or the first name that is
      not an input column. */
  function ResolveValues(names: seq<string>, columns: seq<string>, input: seq<Value>): Result<seq<Value>, string>
    requires |input| == |columns|
  {
    if names == [] then Ok([])
    else
      var index := IndexOf(columns, names[0]);
      if index == -1 then Err(names[0])
      else Prepend([input[index]], ResolveValues(names[1..], columns, input))
  }

  /** Resolution succeeds exactly when every name is an input column; the values
      then come in the order of the names, each read at its name's column index. */
  lemma {:induction false} ResolveValuesOk(names: seq<string>, columns: seq<string>, input: seq<Value>)
    requires |input| == |columns|
    ensures ResolveValues(names, columns, input).Ok? <==> forall k :: 0 <= k < |names| ==> names[k] in columns
    ensures ResolveValues(names, columns, input).Ok? ==>
              var vs := ResolveValues(names, columns, input).value;
              && |vs| == |names|
              && forall k :: 0 <= k < |names| ==> vs[k] == input[IndexOf(columns, names[k])]
  {
    if names != [] {
      ResolveValuesOk(names[1..], columns, input);
      assert forall k :: 1 <= k < |names| ==> names[k] == names[1..][k - 1];
    }
  }

  /** The first name that is not an input column stops resolution with that name,
      whatever follows it: the names after it are never looked at. */
  lemma {:induction false} ResolveValuesStops(names: seq<string>, columns: seq<string>, input: seq<Value>, k: nat, rest: seq<string>)
    requires |input| == |columns|
    requires k < |names| && names[k] !in columns
    requires forall j :: 0 <= j < k ==> names[j] in columns
    ensures ResolveValues(names, columns, input) == Err(names[k])
    ensures ResolveValues(names[..k + 1] + rest, columns, input) == Err(names[k])
  {
    var longer := names[..k + 1] + rest;
    if k > 0 {
      assert longer[1..] == names[1..][..k] + rest;
      ResolveValuesStops(names[1..], columns, input, k - 1, rest);
    }
  }

  // ---------------------------------------------------------------------------
  // Effect traces and their projections

  function Marks(effects: seq<Effect>): seq<Aspect>
  {
    if effects == [] then []
    else (if effects[0].Mark? then [effects[0].aspect] else []) + Marks(effects[1..])
  }

  function Attempts(effects: seq<Effect>): seq<Completion>
  {
    if effects == [] then []
    else (if effects[0].Attempt? then [effects[0].completion] else []) + Attempts(effects[1..])
  }

  /** The (endpoint, body) of every request executed. */
  function Sent(effects: seq<Effect>): seq<(string, string)>
  {
    if effects == [] then []
    else (if effects[0].Execute? then [(effects[0].endpoint, effects[0].body)] else []) + Sent(effects[1..])
  }

  lemma {:induction false} MarksAppend(a: seq<Effect>, b: seq<Effect>)
    ensures Marks(a + b) == Marks(a) + Marks(b)
  {
    if a == [] {
      assert a + b == b;
    } else {
      assert (a + b)[0] == a[0] && (a + b)[1..] == a[1..] + b;
      MarksAppend(a[1..], b);
    }
  }

  lemma {:induction false} AttemptsAppend(a: seq<Effect>, b: seq<Effect>)
    ensures Attempts(a + b) == Attempts(a) + Attempts(b)
  {
    if a == [] {
      assert a + b == b;
    } else {
      assert (a + b)[0] == a[0] && (a + b)[1..] == a[1..] + b;
      AttemptsAppend(a[1..], b);
    }
  }

  lemma {:induction false} SentAppend(a: seq<Effect>, b: seq<Effect>)
    ensures Sent(a + b) == Sent(a) + Sent(b)
  {
    if a == [] {
      assert a + b == b;
    } else {
      assert (a + b)[0] == a[0] && (a + b)[1..] == a[1..] + b;
      SentAppend(a[1..], b);
    }
  }

  /** Each projection of a concatenation is the concatenation of the projections. */
  lemma ProjectionsAppend(a: seq<Effect>, b: seq<Effect>)
    ensures Marks(a + b) == Marks(a) + Marks(b)
    ensures Attempts(a + b) == Attempts(a) + Attempts(b)
    ensures Sent(a + b) == Sent(a) + Sent(b)
  {
    MarksAppend(a, b);
    AttemptsAppend(a, b);
    SentAppend(a, b);
  }

  /** The projections of a trace grow by the projection of one more effect. */
  lemma Step(trace: seq<Effect>, e: Effect)
    ensures Marks(trace + [e]) == Marks(trace) + (if e.Mark? then [e.aspect] else [])
    ensures Attempts(trace + [e]) == Attempts(trace) + (if e.Attempt? then [e.completion] else [])
    ensures Sent(trace + [e]) == Sent(trace) + (if e.Execute? then [(e.endpoint, e.body)] else [])
  {
    ProjectionsAppend(trace, [e]);
    assert [e][1..] == [];
  }

  function ColumnNotFound(name: string): Failure
  {
    InvalidConfigurationException("Column '" + name + "' not found as configured in the request variable")
  }

  function PatternInvalid(pattern: string): Failure
  {
    InvalidConfigurationException("Request pattern '" + pattern + "' is invalid")
  }

  function PatternIncompatible(pattern: string): Failure
  {
    InvalidConfigurationException("Request pattern '" + pattern + "' is incompatible with variable")
  }

  /** The effects of resolving the request variables: none on success; on an
      unknown column, `INVALID_CONFIGURATION` and an exceptional completion naming it. */
  function ResolutionEffects(resolved: Result<seq<Value>, string>): seq<Effect>
  {
    if resolved.Err? then [Mark(InvalidConfiguration), Attempt(CompletedExceptionally(ColumnNotFound(resolved.error)))]
    else []
  }

  lemma ResolutionSendsNothing(resolved: Result<seq<Value>, string>)
    ensures Sent(ResolutionEffects(resolved)) == []
  {
    if resolved.Err? {
      Step([], Mark(InvalidConfiguration));
      Step([Mark(InvalidConfiguration)], Attempt(CompletedExceptionally(ColumnNotFound(resolved.error))));
    }
  }

  /** The body variables `getBodyVariablesValues` returns: the resolved values,
      or an empty array when resolution stopped at an unknown column. */
  function BodyVariables(resolved: Result<seq<Value>, string>): seq<Value>
  {
    if resolved.Ok? then resolved.value else []
  }

  /** The effects of `asyncInvoke` on one row, in program order. */
  function InvokeEffects(config: HttpSourceConfig, columns: seq<string>, format: (string, seq<Value>) -> FormatResult, row: Row): seq<Effect>
    requires |row.input| == |columns|
  {
    var resolved := ResolveValues(JavaSplitComma(config.requestVariables), columns, row.input);
    ResolutionEffects(resolved) + RequestEffects(config, format, row, BodyVariables(resolved))
  }

  /** The projections of the effects of `asyncInvoke` split at the point where the
      body variables are known; nothing is sent before it. */
  lemma InvokeProjections(config: HttpSourceConfig, columns: seq<string>, format: (string, seq<Value>) -> FormatResult, row: Row)
    requires |row.input| == |columns|
    ensures var resolved := ResolveValues(JavaSplitComma(config.requestVariables), columns, row.input);
            var first := ResolutionEffects(resolved);
            var rest := RequestEffects(config, format, row, BodyVariables(resolved));
            var effects := InvokeEffects(config, columns, format, row);
            && Marks(effects) == Marks(first) + Marks(rest)
            && Attempts(effects) == Attempts(first) + Attempts(rest)
            && Sent(effects) == Sent(rest)
  {
    var resolved := ResolveValues(JavaSplitComma(config.requestVariables), columns, row.input);
    var first := ResolutionEffects(resolved);
    var rest := RequestEffects(config, format, row, BodyVariables(resolved));
    ResolutionSendsNothing(resolved);
    ProjectionsAppend(first, rest);
    assert Sent(first) + Sent(rest) == Sent(rest);
  }

  /** The effects of `asyncInvoke` after the body variables are known. */
  function RequestEffects(config: HttpSourceConfig, format: (string, seq<Value>) -> FormatResult, row: Row, bodyVariables: seq<Value>): seq<Effect>
  {
    if config.requestPattern == "" || bodyVariables == [] then
      [Attempt(Completed([row])), Mark(EmptyInput)]
    else
      match format(config.requestPattern, bodyVariables)
      case UnknownFormatConversion =>
        [Mark(InvalidConfiguration), Attempt(CompletedExceptionally(PatternInvalid(config.requestPattern)))]
      case OtherIllegalFormat =>
        [Mark(InvalidConfiguration), Attempt(CompletedExceptionally(PatternIncompatible(config.requestPattern)))]
      case Formatted(body) =>
        [Mark(TotalHttpCalls), Execute(config.endpoint, body)]
  }

  /** The effects of `timeout`: `TIMEOUTS`, then a `TimeoutException` when failing
      on errors, then always the unchanged row. */
  function TimeoutEffects(failOnErrors: bool, row: Row): seq<Effect>
  {
    [Mark(Timeouts)]
    + (if failOnErrors then [Attempt(CompletedExceptionally(TimeoutException("Timeout in HTTP Call")))] else [])
    + [Attempt(Completed([row]))]
  }

  /** An unknown request variable: `INVALID_CONFIGURATION` and the exceptional
      completion naming the column, then (the variables now being empty) the
      pass-through completion and `EMPTY_INPUT`, whatever the pattern is. Two
      completion attempts are made; the first, the error, decides the record.
      No request is sent and `TOTAL_HTTP_CALLS` is not marked. */
  lemma UnknownColumnEffects(config: HttpSourceConfig, columns: seq<string>, format: (string, seq<Value>) -> FormatResult, row: Row, k: nat)
    requires |row.input| == |columns|
    requires var names := JavaSplitComma(config.requestVariables);
             && k < |names| && names[k] !in columns
             && forall j :: 0 <= j < k ==> names[j] in columns
    ensures var name := JavaSplitComma(config.requestVariables)[k];
            var effects := InvokeEffects(config, columns, format, row);
            && effects == [Mark(InvalidConfiguration), Attempt(CompletedExceptionally(ColumnNotFound(name))),
                           Attempt(Completed([row])), Mark(EmptyInput)]
            && Attempts(effects) == [CompletedExceptionally(ColumnNotFound(name)), Completed([row])]
            && FirstWins(Attempts(effects)) == Some(CompletedExceptionally(ColumnNotFound(name)))
            && Marks(effects) == [InvalidConfiguration, EmptyInput]
            && Sent(effects) == []
  {
    var names := JavaSplitComma(config.requestVariables);
    ResolveValuesStops(names, columns, row.input, k, []);
    var effects := InvokeEffects(config, columns, format, row);
    var e0, e1, e2 := Mark(InvalidConfiguration), Attempt(CompletedExceptionally(ColumnNotFound(names[k]))), Attempt(Completed([row]));
    var e3 := Mark(EmptyInput);
    assert effects == [e0, e1, e2, e3];
    Step([], e0);
    assert [] + [e0] == [e0];
    Step([e0], e1);
    assert [e0] + [e1] == [e0, e1];
    Step([e0, e1], e2);
    assert [e0, e1] + [e2] == [e0, e1, e2];
    Step([e0, e1, e2], e3);
    assert [e0, e1, e2] + [e3] == effects;
  }

  /** With every variable known but an empty pattern or no variables at all, the
      row is completed unchanged and `EMPTY_INPUT` marked; nothing else happens. */
  lemma PassThroughEffects(config: HttpSourceConfig, columns: seq<string>, format: (string, seq<Value>) -> FormatResult, row: Row)
    requires |row.input| == |columns|
    requires var names := JavaSplitComma(config.requestVariables);
             && (forall j :: 0 <= j < |names| ==> names[j] in columns)
             && (config.requestPattern == "" || names == [])
    ensures var effects := InvokeEffects(config, columns, format, row);
            && effects == [Attempt(Completed([row])), Mark(EmptyInput)]
            && Attempts(effects) == [Completed([row])]
            && Marks(effects) == [EmptyInput]
            && Sent(effects) == []
  {
    var names := JavaSplitComma(config.requestVariables);
    ResolveValuesOk(names, columns, row.input);
    Step([], Attempt(Completed([row])));
    Step([Attempt(Completed([row]))], Mark(EmptyInput));
  }

  /** The request step with a non-empty pattern and at least one variable: a
      formatted body gives `TOTAL_HTTP_CALLS` once and then one request to the
      endpoint, with no completion yet; a format failure of either kind gives
      `INVALID_CONFIGURATION` and an `InvalidConfigurationException` quoting the
      pattern, and no request. */
  lemma RequestEffectsShape(config: HttpSourceConfig, format: (string, seq<Value>) -> FormatResult, row: Row, values: seq<Value>)
    requires config.requestPattern != "" && values != []
    ensures var effects := RequestEffects(config, format, row, values);
            match format(config.requestPattern, values)
            case Formatted(body) =>
              && effects == [Mark(TotalHttpCalls), Execute(config.endpoint, body)]
              && Marks(effects) == [TotalHttpCalls] && Attempts(effects) == [] && Sent(effects) == [(config.endpoint, body)]
            case UnknownFormatConversion =>
              && effects == [Mark(InvalidConfiguration), Attempt(CompletedExceptionally(
                   InvalidConfigurationException("Request pattern '" + config.requestPattern + "' is invalid")))]
              && Marks(effects) == [InvalidConfiguration] && |Attempts(effects)| == 1 && Sent(effects) == []
            case OtherIllegalFormat =>
              && effects == [Mark(InvalidConfiguration), Attempt(CompletedExceptionally(
                   InvalidConfigurationException("Request pattern '" + config.requestPattern + "' is incompatible with variable")))]
              && Marks(effects) == [InvalidConfiguration] && |Attempts(effects)| == 1 && Sent(effects) == []
  {
    var effects := RequestEffects(config, format, row, values);
    match format(config.requestPattern, values)
    case Formatted(body) =>
      assert effects == [Mark(TotalHttpCalls), Execute(config.endpoint, body)];
      Step([], Mark(TotalHttpCalls));
      Step([Mark(TotalHttpCalls)], Execute(config.endpoint, body));
    case UnknownFormatConversion =>
      var e1 := Attempt(CompletedExceptionally(PatternInvalid(config.requestPattern)));
      assert effects == [Mark(InvalidConfiguration), e1];
      Step([], Mark(InvalidConfiguration));
      Step([Mark(InvalidConfiguration)], e1);
    case OtherIllegalFormat =>
      var e1 := Attempt(CompletedExceptionally(PatternIncompatible(config.requestPattern)));
      assert effects == [Mark(InvalidConfiguration), e1];
      Step([], Mark(InvalidConfiguration));
      Step([Mark(InvalidConfiguration)], e1);
  }

  /** With every variable known, a non-empty pattern and at least one variable,
      `asyncInvoke` formats the pattern with the variables' values in the order of
      the names, each read at its name's column index, and goes on as
      `RequestEffectsShape` says. */
  lemma RequestPathEffects(config: HttpSourceConfig, columns: seq<string>, format: (string, seq<Value>) -> FormatResult, row: Row)
    requires |row.input| == |columns|
    requires var names := JavaSplitComma(config.requestVariables);
             && (forall j :: 0 <= j < |names| ==> names[j] in columns)
             && config.requestPattern != "" && names != []
    ensures var names := JavaSplitComma(config.requestVariables);
            var values := seq(|names|, j requires 0 <= j < |names| => row.input[IndexOf(columns, names[j])]);
            InvokeEffects(config, columns, format, row) == RequestEffects(config, format, row, values)
  {
    var names := JavaSplitComma(config.requestVariables);
    ResolveValuesOk(names, columns, row.input);
    var values := seq(|names|, j requires 0 <= j < |names| => row.input[IndexOf(columns, names[j])]);
    var resolved := ResolveValues(names, columns, row.input);
    var vs := resolved.value;
    assert |vs| == |values| && forall j :: 0 <= j < |vs| ==> vs[j] == values[j];
    assert vs == values;
    assert ResolutionEffects(resolved) == [];
    assert InvokeEffects(config, columns, format, row) == [] + RequestEffects(config, format, row, values);
  }

  /** On every input, `asyncInvoke` either sends exactly one request and attempts
      no completion (the response handler owns it), or sends nothing and attempts
      one or two completions; `TOTAL_HTTP_CALLS` is marked exactly when a request is sent. */
  lemma InvokeCompletesOrSends(config: HttpSourceConfig, columns: seq<string>, format: (string, seq<Value>) -> FormatResult, row: Row)
    requires |row.input| == |columns|
    ensures var effects := InvokeEffects(config, columns, format, row);
            && |Sent(effects)| <= 1
            && (Sent(effects) != [] <==> Attempts(effects) == [])
            && 1 <= |Attempts(effects)| + |Sent(effects)| && |Attempts(effects)| <= 2
            && (TotalHttpCalls in Marks(effects) <==> Sent(effects) != [])
  {
    var names := JavaSplitComma(config.requestVariables);
    if forall j :: 0 <= j < |names| ==> names[j] in columns {
      if config.requestPattern == "" || names == [] {
        PassThroughEffects(config, columns, format, row);
      } else {
        RequestPathEffects(config, columns, format, row);
        var values := seq(|names|, j requires 0 <= j < |names| => row.input[IndexOf(columns, names[j])]);
        RequestEffectsShape(config, format, row, values);
      }
    } else {
      var k := FirstUnknown(names, columns);
      UnknownColumnEffects(config, columns, format, row, k);
    }
  }

  /** The position of the first name that is not a column. */
  function FirstUnknown(names: seq<string>, columns: seq<string>): (k: nat)
    requires exists j :: 0 <= j < |names| && names[j] !in columns
    ensures k < |names| && names[k] !in columns
    ensures forall j :: 0 <= j < k ==> names[j] in columns
  {
    if names[0] !in columns then 0
    else
      assert exists j :: 0 <= j < |names[1..]| && names[1..][j] !in columns by {
        var j :| 0 <= j < |names| && names[j] !in columns;
        assert names[1..][j - 1] == names[j];
      }
      FirstUnknown(names[1..], columns) + 1
  }

  /** `timeout` marks `TIMEOUTS` only; with `failOnErrors` it attempts the
      `TimeoutException` first, so on a fresh future the record fails; without it
      the one attempt is the unchanged row. */
  lemma TimeoutOutcome(failOnErrors: bool, row: Row)
    ensures var effects := TimeoutEffects(failOnErrors, row);
            && Marks(effects) == [Timeouts]
            && Sent(effects) == []
            && Attempts(effects) == (if failOnErrors then [CompletedExceptionally(TimeoutException("Timeout in HTTP Call"))] else [])
                                    + [Completed([row])]
            && FirstWins(Attempts(effects)) ==
                 if failOnErrors then Some(CompletedExceptionally(TimeoutException("Timeout in HTTP Call")))
                 else Some(Completed([row]))
  {
    var fail := Attempt(CompletedExceptionally(TimeoutException("Timeout in HTTP Call")));
    Step([], Mark(Timeouts));
    if failOnErrors {
      Step([Mark(Timeouts)], fail);
      Step([Mark(Timeouts), fail], Attempt(Completed([row])));
    } else {
      Step([Mark(Timeouts)], Attempt(Completed([row])));
    }
  }

  /** A completion attempt after the first changes nothing: a timeout that fires
      after the response was delivered does not override it. */
  lemma FirstWinsStays(attempts: seq<Completion>, later: seq<Completion>)
    requires attempts != []
    ensures FirstWins(attempts + later) == FirstWins(attempts)
  {
  }

  /** Every header entry appears once, with the value the map gives its key. */
  ghost predicate CarriesHeaders(hs: seq<(string, string)>, headers: map<string, string>)
  {
    && (forall k :: 0 <= k < |hs| ==> hs[k].0 in headers && hs[k].1 == headers[hs[k].0])
    && (forall j, k :: 0 <= j < k < |hs| ==> hs[j].0 != hs[k].0)
    && (forall key :: key in headers ==> exists k :: 0 <= k < |hs| && hs[k].0 == key)
  }

  /** The loop state of `addCustomHeaders`: the headers added so far are configured
      pairs for distinct keys, and every key already taken from `remaining` is among them. */
  ghost predicate HeadersAddedSoFar(added: seq<(string, string)>, headers: map<string, string>, remaining: set<string>)
  {
    && (forall k :: 0 <= k < |added| ==> added[k].0 in headers && added[k].0 !in remaining && added[k].1 == headers[added[k].0])
    && (forall j, k :: 0 <= j < k < |added| ==> added[j].0 != added[k].0)
    && (forall key :: key in headers && key !in remaining ==> exists k :: 0 <= k < |added| && added[k].0 == key)
  }

  /** Adding one remaining key keeps the loop state; with nothing remaining the
      added headers are exactly the configured ones. */
  lemma HeadersAddedStep(before: seq<(string, string)>, headers: map<string, string>, remaining: set<string>, key: string)
    requires remaining <= headers.Keys && key in remaining
    requires HeadersAddedSoFar(before, headers, remaining)
    ensures HeadersAddedSoFar(before + [(key, headers[key])], headers, remaining - {key})
    ensures remaining - {key} == {} ==> CarriesHeaders(before + [(key, headers[key])], headers)
  {
    var added := before + [(key, headers[key])];
    forall other | other in headers && other !in remaining - {key}
      ensures exists k :: 0 <= k < |added| && added[k].0 == other
    {
      if other == key {
        assert added[|before|].0 == other;
      } else {
        var k :| 0 <= k < |before| && before[k].0 == other;
        assert added[k].0 == other;
      }
    }
  }

  /** The requests executed after `before` are those of `sent`, in order, each
      carrying every configured header. */
  ghost predicate ExecutedAsSent(before: seq<Request>, after: seq<Request>, sent: seq<(string, string)>, headers: map<string, string>)
  {
    && |after| == |before| + |sent|
    && after[..|before|] == before
    && forall k :: 0 <= k < |sent| ==>
         && (after[|before| + k].endpoint, after[|before| + k].body) == sent[k]
         && CarriesHeaders(after[|before| + k].headers, headers)
  }

  // ---------------------------------------------------------------------------
  // The connector

  class HttpAsyncConnector {
    const config: HttpSourceConfig
    /** The input column names of `ColumnNameManager`. */
    const inputColumnNames: seq<string>
    const httpClient: HttpClient
    const statsManager: StatsManager
    /** `String.format`. */
    const format: (string, seq<Value>) -> FormatResult
    /** The effect log the stats manager and the HTTP client share. */
    ghost const log: EffectLog

    constructor (config: HttpSourceConfig, inputColumnNames: seq<string>, httpClient: HttpClient,
                 statsManager: StatsManager, format: (string, seq<Value>) -> FormatResult)
      requires httpClient.log == statsManager.log
      ensures this.config == config && this.inputColumnNames == inputColumnNames
      ensures this.httpClient == httpClient && this.statsManager == statsManager && this.format == format
      ensures SharesLog(this.log)
    {
      this.config := config;
      this.inputColumnNames := inputColumnNames;
      this.httpClient := httpClient;
      this.statsManager := statsManager;
      this.format := format;
      this.log := statsManager.log;
    }

    /** The stats manager, the HTTP client and a result future all record into
        the connector's one effect log. */
    ghost predicate SharesLog(futureLog: EffectLog)
    {
      statsManager.log == log && httpClient.log == log && futureLog == log
    }

    /** `getBodyVariablesValues`: the values of the request variables in order, or
        an empty array after marking `INVALID_CONFIGURATION` and completing
        exceptionally at the first unknown column. */
    method GetBodyVariablesValues(input: Row, resultFuture: ResultFuture) returns (values: seq<Value>)
      requires |input.input| == |inputColumnNames|
      requires resultFuture.Valid() && SharesLog(resultFuture.log)
      modifies statsManager, resultFuture, log
      ensures resultFuture.Valid()
      ensures var resolved := ResolveValues(JavaSplitComma(config.requestVariables), inputColumnNames, input.input);
              && values == BodyVariables(resolved)
              && log.effects == old(log.effects) + ResolutionEffects(resolved)
              && statsManager.events == old(statsManager.events) + Marks(ResolutionEffects(resolved))
              && resultFuture.attempts == old(resultFuture.attempts) + Attempts(ResolutionEffects(resolved))
    {
      var requiredInputColumns := JavaSplitComma(config.requestVariables);
      ghost var resolved := ResolveValues(requiredInputColumns, inputColumnNames, input.input);
      var inputColumnValues: seq<Value> := [];
      assert requiredInputColumns[0..] == requiredInputColumns;
      PrependEmpty(resolved);
      for i := 0 to |requiredInputColumns|
        invariant resolved == Prepend(inputColumnValues, ResolveValues(requiredInputColumns[i..], inputColumnNames, input.input))
        invariant statsManager.events == old(statsManager.events) && log.effects == old(log.effects)
        invariant resultFuture.attempts == old(resultFuture.attempts) && resultFuture.Valid()
      {
        var inputColumnName := requiredInputColumns[i];
        assert requiredInputColumns[i..][0] == inputColumnName;
        assert requiredInputColumns[i..][1..] == requiredInputColumns[i + 1..];
        var inputColumnIndex := IndexOf(inputColumnNames, inputColumnName);
        if inputColumnIndex == -1 {
          assert resolved == Err(inputColumnName);
          ReportUnknownColumn(inputColumnName, resultFuture);
          return [];
        }
        PrependPrepend(inputColumnValues, [input.input[inputColumnIndex]],
                       ResolveValues(requiredInputColumns[i + 1..], inputColumnNames, input.input));
        inputColumnValues := inputColumnValues + [input.input[inputColumnIndex]];
      }
      assert requiredInputColumns[|requiredInputColumns|..] == [];
      assert resolved == Ok(inputColumnValues + []);
      assert inputColumnValues + [] == inputColumnValues;
      return inputColumnValues;
    }

    /** The unknown-column branch of `getBodyVariablesValues`: `INVALID_CONFIGURATION`,
        then the exceptional completion naming the column. */
    method ReportUnknownColumn(name: string, resultFuture: ResultFuture)
      requires resultFuture.Valid() && SharesLog(resultFuture.log)
      modifies statsManager, resultFuture, log
      ensures resultFuture.Valid()
      ensures log.effects == old(log.effects) + ResolutionEffects(Err(name))
      ensures statsManager.events == old(statsManager.events) + Marks(ResolutionEffects(Err(name)))
      ensures resultFuture.attempts == old(resultFuture.attempts) + Attempts(ResolutionEffects(Err(name)))
    {
      statsManager.MarkEvent(InvalidConfiguration);
      resultFuture.CompleteExceptionally(ColumnNotFound(name));
      Step([], Mark(InvalidConfiguration));
      Step([Mark(InvalidConfiguration)], Attempt(CompletedExceptionally(ColumnNotFound(name))));
    }

    /** `addCustomHeaders`: every configured header key/value is added once, in
        the map's (unspecified) key order. */
    method AddCustomHeaders(postRequest: BoundRequestBuilder)
      modifies postRequest
      ensures postRequest.body == old(postRequest.body)
      ensures |postRequest.headers| >= |old(postRequest.headers)|
      ensures postRequest.headers[..|old(postRequest.headers)|] == old(postRequest.headers)
      ensures CarriesHeaders(postRequest.headers[|old(postRequest.headers)|..], config.headers)
    {
      var headerMap := config.headers;
      var start := |postRequest.headers|;
      var remaining := headerMap.Keys;
      while remaining != {}
        invariant remaining <= headerMap.Keys
        invariant postRequest.body == old(postRequest.body)
        invariant |postRequest.headers| >= start && postRequest.headers[..start] == old(postRequest.headers)
        invariant HeadersAddedSoFar(postRequest.headers[start..], headerMap, remaining)
        decreases remaining
      {
        var headerKey :| headerKey in remaining;
        ghost var before := postRequest.headers[start..];
        postRequest.AddHeader(headerKey, headerMap[headerKey]);
        assert postRequest.headers[start..] == before + [(headerKey, headerMap[headerKey])];
        HeadersAddedStep(before, headerMap, remaining, headerKey);
        remaining := remaining - {headerKey};
      }
    }

    /** `asyncInvoke`: resolution first; then pass-through when the pattern or the
        variables are empty; otherwise format the body and dispatch one request,
        or report a malformed pattern. */
    method AsyncInvoke(input: Row, resultFuture: ResultFuture)
      requires |input.input| == |inputColumnNames|
      requires resultFuture.Valid() && SharesLog(resultFuture.log)
      modifies statsManager, resultFuture, httpClient, log
      ensures resultFuture.Valid()
      ensures log.effects == old(log.effects) + InvokeEffects(config, inputColumnNames, format, input)
      ensures var effects := InvokeEffects(config, inputColumnNames, format, input);
              && statsManager.events == old(statsManager.events) + Marks(effects)
              && resultFuture.attempts == old(resultFuture.attempts) + Attempts(effects)
              && ExecutedAsSent(old(httpClient.executed), httpClient.executed, Sent(effects), config.headers)
    {
      ghost var resolved := ResolveValues(JavaSplitComma(config.requestVariables), inputColumnNames, input.input);
      ghost var effects := InvokeEffects(config, inputColumnNames, format, input);
      InvokeProjections(config, inputColumnNames, format, input);
      var bodyVariables := GetBodyVariablesValues(input, resultFuture);
      ghost var rest := RequestEffects(config, format, input, bodyVariables);
      ghost var middle := log.effects;
      assert Sent(effects) == Sent(rest);
      assert effects == ResolutionEffects(resolved) + rest;
      SendRequest(input, resultFuture, bodyVariables);
      assert log.effects == middle + rest;
    }

    /** The part of `asyncInvoke` after the body variables are collected: pass-through
        when the pattern or the variables are empty, otherwise format and dispatch,
        or report the malformed pattern. */
    method SendRequest(input: Row, resultFuture: ResultFuture, bodyVariables: seq<Value>)
      requires resultFuture.Valid() && SharesLog(resultFuture.log)
      modifies statsManager, resultFuture, httpClient, log
      ensures resultFuture.Valid()
      ensures log.effects == old(log.effects) + RequestEffects(config, format, input, bodyVariables)
      ensures var effects := RequestEffects(config, format, input, bodyVariables);
              && statsManager.events == old(statsManager.events) + Marks(effects)
              && resultFuture.attempts == old(resultFuture.attempts) + Attempts(effects)
              && ExecutedAsSent(old(httpClient.executed), httpClient.executed, Sent(effects), config.headers)
    {
      if config.requestPattern == "" || bodyVariables == [] {
        resultFuture.Complete([input]);
        statsManager.MarkEvent(EmptyInput);
        Step([], Attempt(Completed([input])));
        Step([Attempt(Completed([input]))], Mark(EmptyInput));
        return;
      }
      RequestEffectsShape(config, format, input, bodyVariables);
      match format(config.requestPattern, bodyVariables)
      case UnknownFormatConversion =>
        statsManager.MarkEvent(InvalidConfiguration);
        resultFuture.CompleteExceptionally(PatternInvalid(config.requestPattern));
      case OtherIllegalFormat =>
        statsManager.MarkEvent(InvalidConfiguration);
        resultFuture.CompleteExceptionally(PatternIncompatible(config.requestPattern));
      case Formatted(requestBody) =>
        Dispatch(requestBody);
    }

    /** The dispatch path of `asyncInvoke`: a POST to the endpoint with the body and
        the custom headers; `TOTAL_HTTP_CALLS` is marked, then the request executed. */
    method Dispatch(requestBody: string)
      requires SharesLog(log)
      modifies statsManager, httpClient, log
      ensures log.effects == old(log.effects) + [Mark(TotalHttpCalls), Execute(config.endpoint, requestBody)]
      ensures statsManager.events == old(statsManager.events) + [TotalHttpCalls]
      ensures ExecutedAsSent(old(httpClient.executed), httpClient.executed, [(config.endpoint, requestBody)], config.headers)
    {
      var postRequest := httpClient.PreparePost(config.endpoint);
      postRequest.SetBody(requestBody);
      AddCustomHeaders(postRequest);
      statsManager.MarkEvent(TotalHttpCalls);
      httpClient.Execute(postRequest);
      assert postRequest.headers[0..] == postRequest.headers;
    }

    /** `timeout`: marks `TIMEOUTS`; completes exceptionally with a
        `TimeoutException` when failing on errors; always then completes with the
        unchanged row. */
    method Timeout(input: Row, resultFuture: ResultFuture)
      requires resultFuture.Valid() && SharesLog(resultFuture.log)
      modifies statsManager, resultFuture, log
      ensures resultFuture.Valid()
      ensures log.effects == old(log.effects) + TimeoutEffects(config.failOnErrors, input)
      ensures statsManager.events == old(statsManager.events) + Marks(TimeoutEffects(config.failOnErrors, input))
      ensures resultFuture.attempts == old(resultFuture.attempts) + Attempts(TimeoutEffects(config.failOnErrors, input))
    {
      statsManager.MarkEvent(Timeouts);
      Step([], Mark(Timeouts));
      ghost var trace := [Mark(Timeouts)];
      if config.failOnErrors {
        resultFuture.CompleteExceptionally(TimeoutException("Timeout in HTTP Call"));
        Step(trace, Attempt(CompletedExceptionally(TimeoutException("Timeout in HTTP Call"))));
        trace := trace + [Attempt(CompletedExceptionally(TimeoutException("Timeout in HTTP Call")))];
      }
      resultFuture.Complete([input]);
      Step(trace, Attempt(Completed([input])));
      trace := trace + [Attempt(Completed([input]))];
      assert trace == TimeoutEffects(config.failOnErrors, input);
    }
  }
}
