# Dagger core logic in Dafny

This project models four small sequential pieces of the Dagger stream-processing
framework and proves what each one promises.

- **The request side of the HTTP enrichment connector** (`HttpConnector`,
  `http_async_connector.dfy`). For one input row:
  - `getBodyVariablesValues` splits the configured request variables with
    Java's `split(",")`. It looks up each name among the input columns and
    collects the values in order. At the first unknown name it stops: it marks
    `INVALID_CONFIGURATION`, completes the result future exceptionally and
    returns no values.
  - `asyncInvoke` then does one of three things. It passes the row through
    (empty pattern or no variables). It formats the body and dispatches one
    POST carrying the configured headers. Or it reports a malformed pattern.
  - `timeout` applies the fail-on-errors policy.

  The result future, the stats manager and the HTTP client are classes that log
  what is done to them. The result future also keeps a single-use slot where
  the first completion attempt wins. All three also append to one shared ghost
  effect log, which records in order what happens across them. Every path is
  specified by an ordered trace of effects (`InvokeEffects`,
  `TimeoutEffects`). The methods are proved to append exactly that trace to the
  shared log, and its projections to the three logs. Lemmas then
  state what the traces contain: which events fire, in what order, how many
  completions are attempted and which one decides the record.
- **The `Features` aggregate function** (`FeaturesUdf`, `features.dfy`).
  `accumulate` rejects an odd number of arguments. Otherwise it adds one
  key/value feature per argument pair, in order, to a mutable accumulator. Only
  the key is stringified. `createAccumulator` and `getValue` complete the
  lifecycle.
- **The boolean primitive type handler** (`BooleanTypeHandler`,
  `boolean_handler.dfy`). It accepts exactly the `BOOLEAN` Java type.
  Coercion is lenient: `null` becomes `false` through the `"false"` default,
  and only a case spelling of `"true"` gives `true`. The handler is an
  immutable value, so `canHandle` is fixed by the descriptor it was built with.
- **The Ashiko post-processor** (`Ashiko`, `ashiko_processor.dfy`). It walks
  the fields of the output descriptor, which is looked up under
  `prefix + "Message"`. For every field that has an entry in the async
  configuration:
  - it writes the field's name into the column-name array at the field's index;
  - it sets the field-name key in that field's configuration;
  - it parses the capacity (the default when none is configured);
  - it wraps the stream in one more decorator.

`values.dfy` (`Values`) holds the Java values a row carries, `String.valueOf`,
and `Integer.valueOf` in radix 10, with its 32-bit range check.

## Model

| member | source | states |
|---|---|---|
| HttpConnector.HttpAsyncConnector.GetBodyVariablesValues | src/main/java/com/gojek/daggers/postProcessors/external/http/HttpAsyncConnector.java:120-136 | It returns the resolved values in request-variable order. At the first unknown column it instead logs exactly `INVALID_CONFIGURATION` and then one exceptional completion naming that column, in that order, and returns no values. The first-wins slot stays consistent. |
| HttpConnector.HttpAsyncConnector.ReportUnknownColumn | src/main/java/com/gojek/daggers/postProcessors/external/http/HttpAsyncConnector.java:126-127 | `INVALID_CONFIGURATION` is marked, then the future is completed exceptionally with the error naming the column. Nothing else happens. |
| HttpConnector.HttpAsyncConnector.AddCustomHeaders | src/main/java/com/gojek/daggers/postProcessors/external/http/HttpAsyncConnector.java:138-144 | The builder keeps its body and earlier headers. Every configured header key is appended exactly once, with the value the map gives it. |
| HttpConnector.HeadersAddedStep | src/main/java/com/gojek/daggers/postProcessors/external/http/HttpAsyncConnector.java:141-143 | Adding one more configured key keeps the headers distinct and correct. Once no key remains, the added headers are exactly the configured map. |
| HttpConnector.HttpAsyncConnector.AsyncInvoke | src/main/java/com/gojek/daggers/postProcessors/external/http/HttpAsyncConnector.java:80-109 | The shared log grows by exactly `InvokeEffects` for the row, so the order across events, completions and requests is fixed. The events marked, the completions attempted and the requests executed (with their headers) are its projections. |
| HttpConnector.HttpAsyncConnector.SendRequest | src/main/java/com/gojek/daggers/postProcessors/external/http/HttpAsyncConnector.java:85-107 | Once the body variables are known, the shared log grows by `RequestEffects`, and each log by its projection: pass-through, dispatch, or one of the two format failures. |
| HttpConnector.HttpAsyncConnector.Dispatch | src/main/java/com/gojek/daggers/postProcessors/external/http/HttpAsyncConnector.java:91-100 | `TOTAL_HTTP_CALLS` is marked once, before the request is executed. Exactly one request is executed, to the configured endpoint, with the formatted body and every configured header. |
| HttpConnector.HttpAsyncConnector.Timeout | src/main/java/com/gojek/daggers/postProcessors/external/http/HttpAsyncConnector.java:111-118 | The shared log grows by exactly `TimeoutEffects`: `TIMEOUTS` first, then the `TimeoutException` when failing on errors, then the unchanged row. Each log grows by its projection. |
| HttpConnector.TimeoutOutcome | src/main/java/com/gojek/daggers/postProcessors/external/http/HttpAsyncConnector.java:111-118 | `TIMEOUTS` is the only event and nothing is sent. With fail-on-errors, the `TimeoutException` is attempted before the unchanged row and decides the record; without it, the unchanged row does. |
| HttpConnector.JavaSplitCommaShape | src/main/java/com/gojek/daggers/postProcessors/external/http/HttpAsyncConnector.java:121 | `split(",")` yields comma-free names: all comma-separated pieces in order, minus trailing empty ones. When the text holds a comma, no empty name is left at the end. It yields none exactly when the text is made of commas only. |
| HttpConnector.JoinSplitAll | src/main/java/com/gojek/daggers/postProcessors/external/http/HttpAsyncConnector.java:121 | Joining the comma-separated pieces with commas restores the request-variables text. |
| HttpConnector.IndexOf | src/main/java/com/gojek/daggers/postProcessors/external/http/HttpAsyncConnector.java:124-125 | It returns -1 exactly when the name is not an input column. Otherwise it returns the index of the name's first occurrence. |
| HttpConnector.ResolveValuesOk | src/main/java/com/gojek/daggers/postProcessors/external/http/HttpAsyncConnector.java:121-131 | Resolution succeeds if and only if every name is an input column. The values then follow the names' order, each read from the input at its name's index. |
| HttpConnector.ResolveValuesStops | src/main/java/com/gojek/daggers/postProcessors/external/http/HttpAsyncConnector.java:123-129 | The first unknown name ends resolution with that name, whatever names follow it. |
| HttpConnector.ResolutionSendsNothing | src/main/java/com/gojek/daggers/postProcessors/external/http/HttpAsyncConnector.java:123-129 | Resolution never executes a request. |
| HttpConnector.InvokeProjections | src/main/java/com/gojek/daggers/postProcessors/external/http/HttpAsyncConnector.java:84-85 | `asyncInvoke`'s logs are those of resolution followed by those of the request step. Every request is sent in the request step. |
| HttpConnector.UnknownColumnEffects | src/main/java/com/gojek/daggers/postProcessors/external/http/HttpAsyncConnector.java:84-89 | The effect trace of an unknown column, whatever the pattern, is `INVALID_CONFIGURATION`, the error naming the column, the unchanged row, `EMPTY_INPUT`. That is two completion attempts, the error wins, and no request is sent. |
| HttpConnector.PassThroughEffects | src/main/java/com/gojek/daggers/postProcessors/external/http/HttpAsyncConnector.java:85-89 | With every variable known but an empty pattern or no variables, the row is completed unchanged and `EMPTY_INPUT` is marked. Nothing else happens. |
| HttpConnector.RequestEffectsShape | src/main/java/com/gojek/daggers/postProcessors/external/http/HttpAsyncConnector.java:90-107 | A formatted body gives `TOTAL_HTTP_CALLS`, then one request, and no completion. Either format failure gives `INVALID_CONFIGURATION` and an `InvalidConfigurationException` quoting the pattern with the matching message, and no request. |
| HttpConnector.RequestPathEffects | src/main/java/com/gojek/daggers/postProcessors/external/http/HttpAsyncConnector.java:84-90 | With every variable known, the pattern is formatted with the variables' values in name order, each read at its name's column index. |
| HttpConnector.InvokeCompletesOrSends | src/main/java/com/gojek/daggers/postProcessors/external/http/HttpAsyncConnector.java:81-109 | On every row, either exactly one request is sent and no completion is attempted, or nothing is sent and one or two completions are attempted. `TOTAL_HTTP_CALLS` is marked exactly when a request is sent. |
| HttpConnector.FirstWinsStays | src/main/java/com/gojek/daggers/postProcessors/external/http/HttpAsyncConnector.java:116-117 | Once a completion has been attempted, later attempts do not change the record's outcome. |
| FeaturesUdf.CreateAccumulator | dagger-functions/src/main/java/io/odpf/dagger/functions/udfs/aggregate/Features.java:14-16 | It returns a fresh accumulator holding no features. |
| FeaturesUdf.GetValue | dagger-functions/src/main/java/io/odpf/dagger/functions/udfs/aggregate/Features.java:19-21 | It returns exactly the accumulator's features, element by element. |
| FeaturesUdf.Accumulate | dagger-functions/src/main/java/io/odpf/dagger/functions/udfs/aggregate/Features.java:33-40 | An odd argument count fails with `OddNumberOfArgumentsException` and leaves the accumulator unchanged. Otherwise it succeeds and appends the argument pairs, in order. |
| FeaturesUdf.AccumulateOnce | dagger-functions/src/main/java/io/odpf/dagger/functions/udfs/aggregate/Features.java:14-40 | Create, accumulate, get value: success exactly on an even argument count, with k features for 2k arguments. The i-th feature has key `String.valueOf(objects[2i])` and value `objects[2i+1]`. On failure no feature is present. |
| FeaturesUdf.PairsAt | dagger-functions/src/main/java/io/odpf/dagger/functions/udfs/aggregate/Features.java:37-39 | 2k arguments give k features. The i-th has the stringified key `objects[2i]` and the unmodified value `objects[2i+1]`. |
| FeaturesUdf.PairsLength | dagger-functions/src/main/java/io/odpf/dagger/functions/udfs/aggregate/Features.java:37-39 | 2k arguments give exactly k features. |
| FeaturesUdf.PairsAppend | dagger-functions/src/main/java/io/odpf/dagger/functions/udfs/aggregate/Features.java:37-39 | The features of two even argument lists put together are the features of the first followed by those of the second. |
| FeaturesUdf.PairsOfFlatten | dagger-functions/src/main/java/io/odpf/dagger/functions/udfs/aggregate/Features.java:38 | Any feature sequence, written out as a flat argument list and accumulated, comes back unchanged. |
| FeaturesUdf.FlattenOfPairs | dagger-functions/src/main/java/io/odpf/dagger/functions/udfs/aggregate/Features.java:38 | When every key argument is already a string, flattening the features gives the arguments back: values pass through unmodified. |
| BooleanTypeHandler.BooleanPrimitiveTypeHandler.CanHandle | src/main/java/com/gojek/daggers/protoHandler/typeHandler/BooleanPrimitiveTypeHandler.java:14-16 | The handler accepts its field exactly when the field's Java type is none of the eight other Java types. |
| BooleanTypeHandler.CanHandleOnlyBoolean | src/main/java/com/gojek/daggers/protoHandler/typeHandler/BooleanPrimitiveTypeHandler.java:14-16 | The handler accepts a field if and only if its Java type is `BOOLEAN`, whatever the field's name. |
| BooleanTypeHandler.ParseBoolean | src/main/java/com/gojek/daggers/protoHandler/typeHandler/BooleanPrimitiveTypeHandler.java:20 | `Boolean.parseBoolean` is true exactly for the four-letter case spellings of `"true"`. |
| BooleanTypeHandler.BooleanPrimitiveTypeHandler.GetValue | src/main/java/com/gojek/daggers/protoHandler/typeHandler/BooleanPrimitiveTypeHandler.java:19-21 | The result is always a `Boolean`: `false` for null and for numbers, the value itself for a `Boolean`, and for a string true exactly when it is a case spelling of `"true"`. |
| BooleanTypeHandler.GetValueSamples | src/main/java/com/gojek/daggers/protoHandler/typeHandler/BooleanPrimitiveTypeHandler.java:20 | `"1"`, `"yes"`, `""`, `"false"`, `" true"`, the number 1 and null give `false`, not an error. `"TRUE"` and `"tRuE"` give `true`. |
| Ashiko.AshikoProcessor.Process | src/main/java/com/gojek/daggers/postprocessor/AshikoProcessor.java:29-51 | The descriptor is looked up under the prefix followed by `Message`. The result is the input stream wrapped in `Decorators` and the column array `ColumnNames`. If a configured field's capacity is not an `int`, the result is that field's `NumberFormatException`. |
| Ashiko.ColumnNames | src/main/java/com/gojek/daggers/postprocessor/AshikoProcessor.java:34-47 | The array has one slot per descriptor field. A configured field's slot holds its name; a skipped field's slot stays null. |
| Ashiko.ConfiguredFieldsInOrder | src/main/java/com/gojek/daggers/postprocessor/AshikoProcessor.java:37-41 | The fields visited are exactly the descriptor fields with an async configuration, in strictly increasing index order. |
| Ashiko.DecoratorsPerField | src/main/java/com/gojek/daggers/postprocessor/AshikoProcessor.java:42-48 | There is one decorator per configured field, in field order. Each gets its field's configuration with the field-name key set to the field's name, the field's index, the parsed capacity and the field count. |
| Ashiko.DecoratorsFail | src/main/java/com/gojek/daggers/postprocessor/AshikoProcessor.java:43 | Processing fails if and only if some configured field's capacity text (the default when absent) is not a Java `int`. |
| Ashiko.DecoratorsFirstFailure | src/main/java/com/gojek/daggers/postprocessor/AshikoProcessor.java:37-43 | The error is the `NumberFormatException` of the capacity text of the first configured field, in field order, whose capacity is not a Java `int`. |
| Ashiko.GetOrDefault | src/main/java/com/gojek/daggers/postprocessor/AshikoProcessor.java:43 | The configured capacity when the key is present, the default otherwise. |
| Ashiko.Decorate | src/main/java/com/gojek/daggers/postprocessor/AshikoProcessor.java:48 | Decorating keeps the source stream and wraps it in the new decorator outside the earlier ones. |
| Values.ParseJavaInt | src/main/java/com/gojek/daggers/postprocessor/AshikoProcessor.java:43 | `Integer.valueOf` gives a number exactly when the text is an optional `-` or `+` followed by at least one decimal digit and denotes a value in the 32-bit range. The number is that signed value. |
| Values.ParseIntToString | src/main/java/com/gojek/daggers/postprocessor/AshikoProcessor.java:43 | Parsing the decimal rendering of any 32-bit integer gives that integer back. The rendering of any integer outside that range is rejected. |
| Values.ParsePlusSign | src/main/java/com/gojek/daggers/postprocessor/AshikoProcessor.java:43 | A leading `+` before a digit string changes nothing. |
| Values.ParseSamples | src/main/java/com/gojek/daggers/postprocessor/AshikoProcessor.java:43 | `""`, `"-"`, `"+"`, `"1a"` and `" 1"` are rejected. `"+7"`, `"-07"` and `"42"` give 7, -7 and 42. |
| Values.StringValueOf | dagger-functions/src/main/java/io/odpf/dagger/functions/udfs/aggregate/Features.java:38 | `String.valueOf` gives `"null"` for null, a string unchanged, and `"true"` or `"false"` for a boolean. For a number it gives a text that `Integer.valueOf` reads back as that number when it fits an `int` and rejects otherwise. |

## Left out

- HTTP I/O: response handling (`HttpResponseHandler` is not part of this model), `startTimer`, `open` and `close`. The request is recorded in the client's log at `execute`; what happens after it is not modelled.
- Concurrency between records and the Flink runtime. The model handles one record at a time.
- `String.format` is a parameter of the connector. It yields a body or one of the two `IllegalFormatException` kinds the connector catches.
- The async configuration (parsed by Gson) and the output descriptor (resolved by Stencil) are given inputs. So are the values in `Constants`, which is not part of this model. The `null` map Gson returns for an empty configuration string, and the `ClassCastException` of a non-map entry, are not modelled.
- A null request pattern or null request variables are not modelled. The pattern is a string, and an empty one is what `StringUtils.isEmpty` tests.
- HttpConnector.HttpAsyncConnector.AsyncInvoke: requires the row's input segment to match the input column names one to one. An index past the row, which would throw in `RowManager`, is not modelled.
- Ashiko.AshikoProcessor.Process: requires the descriptor's fields to be numbered by position, as protobuf numbers them.
- Ashiko.AshikoProcessor.Process: the `put` into the field's own configuration map is modelled on a copy, so the shared async configuration is not updated in place. Each field's name is read once, so no later step can observe the difference.
- A row value is null, a `String`, an integral number or a `Boolean`. A `Double`, a `Float` or any other object cannot be represented. So `String.valueOf` of such a value (for example `"1.0"`) is not modelled, whether it is a `Features` key or a value reaching the boolean handler. The boolean handler's "false for numbers" covers integral numbers only.
- Ashiko.AshikoProcessor.Process: each field's async configuration is a map from strings to strings. Gson decodes a capacity given as a JSON number as a `Double`, and the cast at `getOrDefault` then throws `ClassCastException`; that case cannot be represented.
- `Integer.valueOf` accepts only ASCII digits here. Java also accepts other Unicode decimal digits.
- `equalsIgnoreCase` folds ASCII letters only. That is exact for comparison with `"true"`.
- `getValueOrDefault` comes from `PrimitiveTypeHandler`, which is not part of this model. It is taken as the default for null and `String.valueOf` otherwise.
- `FeatureAccumulator` is not part of this model. Its `add` is an append to the feature sequence, and `getFeatures` returns that sequence.
- `RowManager.getAll` is the row itself.
- The empty `forEach` after the resolution loop does nothing and is not modelled.
- `addCustomHeaders` visits the keys in the map's unspecified order. The model picks any order and proves the set of headers, not their order.
- The other `HttpAsyncConnector` (package `async.connector`), `InvalidDataTypeException` and `InternalDecoratorTest` are not part of this model.
