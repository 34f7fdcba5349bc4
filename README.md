# Ollama IDE plugin: client, analysis service and settings

This project models the core of an IntelliJ/PhpStorm plugin that talks to a
local Ollama server. The model covers four parts:

- **The HTTP client** (`OllamaClient`). It probes the server, lists the
  installed models, sends a prompt for a non-streamed generation and reads
  the memory used by the loaded model. Each call is modelled as one
  synchronous exchange over a `Transport`, a function from request to
  outcome. The outcome is either an exception message or a status code with
  a body. The body is absent, unreadable, or parsed into a JSON tree.
- **The three value classes** (`OllamaResponse`, `OllamaModel`,
  `OllamaMetrics`). They are datatypes, and their getters are the fields.
  Both human-readable byte sizes are one definition, `ByteSize.Format`,
  used with one decimal and with two.
- **The code-analysis service** (`CodeAnalysisService`). It covers the five
  prompt templates, the request they are sent with, the language guessed
  from a file name, the selected text, and the insert and replace edits on
  the editor's document. The document is a class whose text is changed in
  place.
- **The settings** (`OllamaSettingsService`, `OllamaSettingsPanel`). The
  persisted settings and the panel that edits them are classes whose fields
  the methods update.

Java's own semantics are written out wherever they show:

- `long` and `int` are range-limited subset types (`Numbers.Long`,
  `Numbers.Int32`).
- Gson's `getAsLong` narrows a JSON number with wrap-around
  (`Numbers.Wrap64`). For a string it parses with `Long.parseLong`
  (`Numbers.ParseLong`).
- `Math.abs(Long.MIN_VALUE)` stays negative (`ByteSize.Abs`).
- `Long.numberOfLeadingZeros` is defined by bit length.
- `Long.toString` is `Numbers.Decimal`.
- `double` arithmetic is done over the reals.
- The digits printed by `String.format("%.1f")` and `"%.2f"` are a
  parameter `fmt`. The choice of unit, the unit letter and the layout are
  modelled exactly. The scaled value is an exact real quotient (see
  "Left out").

Gson is modelled as an abstract JSON tree (`Json.Json`). Member objects are
ordered lists. `addProperty` replaces a key in place or appends it. `get`
finds a key, and `getAsString`/`getAsLong` follow Gson's conversions and
failures. A failing conversion is a `Json.Fault`; the code catches these
where it catches exceptions.

## Model

| member | source | states |
|---|---|---|
| Client.IsConnected | src/main/java/com/ollama/plugin/client/OllamaClient.java:35-49 | GET `baseUrl + "/api/tags"` answers connected exactly when a status in 200..299 comes back; an exception means not connected |
| Client.ParseModel | src/main/java/com/ollama/plugin/client/OllamaClient.java:72-76 | an entry reads as a model exactly when it is an object whose `name` reads as a string and whose `size` reads as a long, and then the model has those two values |
| Client.ParsedPrefix | src/main/java/com/ollama/plugin/client/OllamaClient.java:71-78 | the models collected before the loop is cut short: each is the parse of the entry at its position, and the entry after the last one (if any) fails to parse |
| Client.PrefixUnique | src/main/java/com/ollama/plugin/client/OllamaClient.java:71-78 | any sequence with those three properties is exactly the collected prefix |
| Client.FetchModels | src/main/java/com/ollama/plugin/client/OllamaClient.java:55-87 | the loop returns `ModelList` of the answer to GET `/api/tags`: nothing on failure, an exception or a missing `models`; otherwise the models parsed before the first malformed entry |
| Client.EntryParses | src/main/java/com/ollama/plugin/client/OllamaClient.java:72-76 | an object holding a model's name and size reads back as that model |
| Client.AllEntriesListed | src/main/java/com/ollama/plugin/client/OllamaClient.java:64-80 | when every entry of a successful answer reads as a model, whatever other members it has, all of them are returned, each in its entry's position |
| Client.MalformedEntryKeepsPrefix | src/main/java/com/ollama/plugin/client/OllamaClient.java:71-85 | when entry k is the first malformed one, exactly the k models before it are returned (the exception leaves the list as built so far) |
| Client.MalformedEntries | src/main/java/com/ollama/plugin/client/OllamaClient.java:72-75 | a non-object entry, or one without `name` or without `size`, is malformed |
| Client.NothingListed | src/main/java/com/ollama/plugin/client/OllamaClient.java:64-69 | a failed status, a missing body, an exception or an object without `models` lists no model |
| Client.UnreadableBodyGivesNothing | src/main/java/com/ollama/plugin/client/OllamaClient.java:64-87 | a 2xx body that is not JSON, not an object, or whose `models` is not an array throws inside the `try`: no model is listed and no memory is reported |
| Client.GenerateBodyInOrder | src/main/java/com/ollama/plugin/client/OllamaClient.java:95-98 | the generate body holds `model`, `prompt` and `stream: false`, in that order |
| Client.GenerateRequest | src/main/java/com/ollama/plugin/client/OllamaClient.java:95-108 | the request is a POST to `baseUrl + "/api/generate"` with an `application/json` body of exactly those three members |
| Client.SendPrompt | src/main/java/com/ollama/plugin/client/OllamaClient.java:92-140 | the callback hears exactly when one is given; a delivered response is the one returned; an error notice goes with all-zero counters; a transport exception, a 2xx body that is not an object, and a field that does not convert all return "Error: " + the exception's message and pass that message to `onError`; a failed status returns "Error: " + the code and tells the callback "Failed to get response from Ollama" |
| Client.ReadFields | src/main/java/com/ollama/plugin/client/OllamaClient.java:115-120 | a reply object, whatever other members it carries, whose `response` is absent or text and whose three counts are absent or numbers reads as the response of the values present, with "" or 0 for each missing one |
| Client.SuccessDelivered | src/main/java/com/ollama/plugin/client/OllamaClient.java:110-125 | a 2xx answer whose object reads as a response returns that response and delivers it to the callback |
| Client.FieldsDefault | src/main/java/com/ollama/plugin/client/OllamaClient.java:110-125 | a 2xx reply of any shape whose four fields read returns, and delivers, the values present with "" or 0 for the missing ones |
| Client.FetchMetrics | src/main/java/com/ollama/plugin/client/OllamaClient.java:145-175 | CPU and tokens per second are always 0; the memory is the first loaded model's `size` from GET `/api/ps` (0 when there is none, or when anything fails) |
| Client.FirstSizeReported | src/main/java/com/ollama/plugin/client/OllamaClient.java:159-167 | a first model with a numeric `size` reports that size |
| Client.NoSizeReportsZero | src/main/java/com/ollama/plugin/client/OllamaClient.java:159-167 | no loaded model, or a first model without `size`, reports 0 bytes |
| Client.FailureReportsZero | src/main/java/com/ollama/plugin/client/OllamaClient.java:153-173 | a non-2xx status or an exception reports 0 bytes |
| Client.FirstEntryFailureReportsZero | src/main/java/com/ollama/plugin/client/OllamaClient.java:160-173 | a first loaded model that is not an object, or whose `size` does not convert, throws and reports 0 bytes |
| Http.TopObject | src/main/java/com/ollama/plugin/client/OllamaClient.java:112-113 | the body reads as a JSON object exactly when it was parsed to an object (JSON `null` fails the type check), and then gives that object's members; an unreadable body fails with its own message |
| Json.Get | src/main/java/com/ollama/plugin/client/OllamaClient.java:74-75 | `get` finds nothing exactly when no member has the key, and otherwise gives a member's value for that key |
| Json.AddProperty | src/main/java/com/ollama/plugin/client/OllamaClient.java:95-98 | after `addProperty` the key maps to the new value and every other key keeps its value; a new key is appended, and an existing one is replaced with every key staying in its place |
| Json.AsObject | src/main/java/com/ollama/plugin/client/OllamaClient.java:72 | `getAsJsonObject` succeeds exactly on objects |
| Json.MemberAsArray | src/main/java/com/ollama/plugin/client/OllamaClient.java:70 | `getAsJsonArray(key)` succeeds exactly when the key holds an array, and gives its elements (an absent key, where Gson returns `null`, is never reached: both callers test `has` first) |
| Json.AsString | src/main/java/com/ollama/plugin/client/OllamaClient.java:74 | strings read as themselves and numbers as the canonical decimal of their value, which parses back to the number when it fits a long (literal text such as `1e3` is left out); null, objects and arrays other than singletons fail |
| Json.AsLong | src/main/java/com/ollama/plugin/client/OllamaClient.java:75 | numbers narrow to 64 bits with wrap-around; strings read exactly when `Long.parseLong` accepts them; booleans, null, objects and arrays other than singletons fail |
| Json.MemberAsString | src/main/java/com/ollama/plugin/client/OllamaClient.java:74 | `get(key).getAsString()` dereferences null when the key is absent |
| Json.MemberAsLong | src/main/java/com/ollama/plugin/client/OllamaClient.java:75 | `get(key).getAsLong()` dereferences null when the key is absent |
| Json.ParseOrFault | src/main/java/com/ollama/plugin/client/OllamaClient.java:75 | the parse of a string succeeds exactly when `Long.parseLong` accepts it, with its value |
| Json.ParseOutOfRange | src/main/java/com/ollama/plugin/client/OllamaClient.java:75 | the decimal text of a number outside the long range is refused |
| Numbers.Wrap64 | src/main/java/com/ollama/plugin/client/OllamaClient.java:75 | the narrowed value is congruent to the number modulo 2^64, and a value in range is unchanged |
| Numbers.DigitsCorrect | src/main/java/com/ollama/plugin/client/OllamaModel.java:23 | a count's decimal digits are digits, denote the count and have no leading zero |
| Numbers.ParseDecimal | src/main/java/com/ollama/plugin/client/OllamaClient.java:75 | `Long.parseLong(Long.toString(n)) == n` for every long |
| Numbers.DecimalOfMinValue | src/main/java/com/ollama/plugin/client/OllamaModel.java:22-23 | `Long.toString(Long.MIN_VALUE)` is "-9223372036854775808" |
| Numbers.NumberOfLeadingZeros | src/main/java/com/ollama/plugin/client/OllamaModel.java:24 | 64 for zero, 0 for negatives, and for positives the r with 2^(63-r) <= x < 2^(64-r) |
| ByteSize.Abs | src/main/java/com/ollama/plugin/client/OllamaModel.java:22 | `Math.abs` is the magnitude, except that `Long.MIN_VALUE` stays itself |
| ByteSize.UnitIndex | src/main/java/com/ollama/plugin/client/OllamaModel.java:24 | from 1024 up, `(63 - numberOfLeadingZeros(bytes)) / 10` is the z from 1 to 6 with 1024^z <= bytes < 1024^(z+1) |
| ByteSize.BracketUnique | src/main/java/com/ollama/plugin/client/OllamaModel.java:24-25 | only one power of 1024 brackets a count, so the unit is unique |
| ByteSize.ScaledRange | src/main/java/com/ollama/plugin/client/OllamaModel.java:25 | the exact quotient passed to the formatter lies in [1, 1024) |
| ByteSize.FormatZero | src/main/java/com/ollama/plugin/client/OllamaModel.java:21 | zero bytes print as "0 B" |
| ByteSize.FormatSmall | src/main/java/com/ollama/plugin/client/OllamaModel.java:22-23 | below 1024 in magnitude the count prints whole, without its sign, followed by " B" |
| ByteSize.FormatMinValue | src/main/java/com/ollama/plugin/client/OllamaModel.java:22-23 | `Long.MIN_VALUE` passes the "below 1024" test and prints as "-9223372036854775808 B" |
| ByteSize.FormatScaled | src/main/java/com/ollama/plugin/client/OllamaModel.java:24-25 | from 1024 up the text is the number scaled by 1024^z, a space, one of K M G T P E, and "B" |
| Responses.Response.TokensPerSecond | src/main/java/com/ollama/plugin/client/OllamaResponse.java:32-35 | 0 when nothing was timed, otherwise the rate r with r * evalDuration = tokenCount * 10^9, non-negative for non-negative counts |
| Responses.ErrorResponse | src/main/java/com/ollama/plugin/client/OllamaClient.java:130 | an error response carries its text, all counters 0 and a rate of 0 |
| Responses.FiftyTokensPerSecond | src/main/java/com/ollama/plugin/client/OllamaResponse.java:32-35 | 100 tokens in 2 * 10^9 ns is 50 tokens per second |
| Models.Model.SizeFormatted | src/main/java/com/ollama/plugin/client/OllamaModel.java:20-26 | "0 B" for zero, the whole count below 1024, "-9223372036854775808 B" for the minimum long |
| Models.SizeFormattedScaled | src/main/java/com/ollama/plugin/client/OllamaModel.java:24-25 | from 1024 up, the one-decimal scaled size with the unit letter of the unique bracketing power |
| Models.Model.ToText | src/main/java/com/ollama/plugin/client/OllamaModel.java:28-31 | the name, " (", the formatted size and ")" |
| Metrics.Metrics.MemoryUsageFormatted | src/main/java/com/ollama/plugin/client/OllamaMetrics.java:18-24 | "0 B" for zero, the whole count below 1024, "-9223372036854775808 B" for the minimum long |
| Metrics.MemoryUsageFormattedScaled | src/main/java/com/ollama/plugin/client/OllamaMetrics.java:22-23 | from 1024 up, the two-decimal scaled memory with the unit letter of the unique bracketing power |
| Metrics.SameUnitAsModelSize | src/main/java/com/ollama/plugin/client/OllamaMetrics.java:18-24 | memory text and model size text for one byte count agree below 1024 and otherwise differ only in decimals, with the same unit |
| CodeAnalysis.Prompt | src/main/java/com/ollama/plugin/service/CodeAnalysisService.java:26-71 | each template places the code, unchanged, between a fixed head (request, language, fence tagged with the language) and a fixed tail (closing fence and the template's last sentence) |
| CodeAnalysis.CodeRoundTrip | src/main/java/com/ollama/plugin/service/CodeAnalysisService.java:26-71 | the code can be read back from its prompt |
| CodeAnalysis.PromptOfCode | src/main/java/com/ollama/plugin/service/CodeAnalysisService.java:26-71 | every text of a template's shape is that template's prompt for the code it holds |
| CodeAnalysis.PromptOfCodeUnique | src/main/java/com/ollama/plugin/service/CodeAnalysisService.java:26-71 | the prompt is the only text of the template's shape that holds the given code |
| CodeAnalysis.PromptInjective | src/main/java/com/ollama/plugin/service/CodeAnalysisService.java:26-71 | different code gives different prompts |
| CodeAnalysis.PerformAnalysis | src/main/java/com/ollama/plugin/service/CodeAnalysisService.java:73-92 | the prompt goes to model "llama2" at the configured base URL; a success hands on only the response text, an error its message; an absent callback hears nothing |
| CodeAnalysis.Analyze | src/main/java/com/ollama/plugin/service/CodeAnalysisService.java:26-71 | each of the five actions analyses the text of its template's shape from which the selected code reads back; its callback hears exactly when one is given |
| CodeAnalysis.DetectLanguage | src/main/java/com/ollama/plugin/service/CodeAnalysisService.java:147-168 | "unknown" exactly when the file name ends with none of the nine suffixes; otherwise a language named in the table |
| CodeAnalysis.SuffixesExclusive | src/main/java/com/ollama/plugin/service/CodeAnalysisService.java:150-165 | a name ends with at most one of the suffixes, so the order of the tests does not matter |
| CodeAnalysis.DetectBySuffix | src/main/java/com/ollama/plugin/service/CodeAnalysisService.java:147-168 | a name ending in a table suffix is detected as that suffix's language (".cpp" and ".cc" both give "cpp") |
| CodeAnalysis.GetSelectedCode | src/main/java/com/ollama/plugin/service/CodeAnalysisService.java:139-142 | nothing exactly when the selection is missing or empty, otherwise the selection |
| CodeAnalysis.Inserted | src/main/java/com/ollama/plugin/service/CodeAnalysisService.java:103-105 | the code sits at the offset, with the text before and after it unchanged |
| CodeAnalysis.Replaced | src/main/java/com/ollama/plugin/service/CodeAnalysisService.java:122-129 | the code replaces the range; the text before and after it is unchanged |
| CodeAnalysis.EmptyReplaceInserts | src/main/java/com/ollama/plugin/service/CodeAnalysisService.java:122-129 | replacing an empty range is inserting |
| CodeAnalysis.RemoveInserted | src/main/java/com/ollama/plugin/service/CodeAnalysisService.java:97-111 | removing what was inserted restores the document |
| CodeAnalysis.ReplaceBySelf | src/main/java/com/ollama/plugin/service/CodeAnalysisService.java:116-134 | replacing a selection by its own text changes nothing |
| CodeAnalysis.InsertCodeAtCursor | src/main/java/com/ollama/plugin/service/CodeAnalysisService.java:97-111 | the document's new text is its old text with the code inserted at the caret |
| CodeAnalysis.ReplaceSelectedCode | src/main/java/com/ollama/plugin/service/CodeAnalysisService.java:116-134 | a non-empty selection is replaced by the new code; an empty one leaves the document unchanged |
| Settings.SettingsService.constructor | src/main/java/com/ollama/plugin/settings/OllamaSettingsService.java:19-22 | defaults: host "localhost", port 11434, no selected model, no auto-connect |
| Settings.SettingsService.GetBaseUrl | src/main/java/com/ollama/plugin/settings/OllamaSettingsService.java:39-41 | an "http://" URL from which exactly the host and port read back |
| Settings.BaseUrlRoundTrip | src/main/java/com/ollama/plugin/settings/OllamaSettingsService.java:39-41 | host and port are recovered from `http://host:port` by splitting at the last colon, whatever the host contains |
| Settings.DefaultBaseUrl | src/main/java/com/ollama/plugin/settings/OllamaSettingsService.java:19-41 | the default settings address "http://localhost:11434" |
| Settings.SettingsService.GetState | src/main/java/com/ollama/plugin/settings/OllamaSettingsService.java:28-32 | the persisted state is the service itself |
| Settings.SettingsService.LoadState | src/main/java/com/ollama/plugin/settings/OllamaSettingsService.java:34-37 | every field takes the loaded state's value |
| SettingsPanel.SettingsPanel.IsModified | src/main/java/com/ollama/plugin/settings/OllamaSettingsPanel.java:83-88 | true exactly when the host text, the port or the auto-connect box differs from the stored settings |
| SettingsPanel.SettingsPanel.constructor | src/main/java/com/ollama/plugin/settings/OllamaSettingsPanel.java:14-17 | the fields show the stored settings, the label reads "Not connected", and nothing is modified |
| SettingsPanel.SettingsPanel.EditPort | src/main/java/com/ollama/plugin/settings/OllamaSettingsPanel.java:37 | the spinner accepts only ports 1..65535, so an in-range port stays in range |
| SettingsPanel.SettingsPanel.Apply | src/main/java/com/ollama/plugin/settings/OllamaSettingsPanel.java:90-95 | host, port and auto-connect are stored, the selected model is kept, and the panel is no longer modified |
| SettingsPanel.SettingsPanel.Reset | src/main/java/com/ollama/plugin/settings/OllamaSettingsPanel.java:97-103 | the fields show the stored settings, the label reads "Not connected", and the panel is not modified |
| SettingsPanel.SettingsPanel.TestConnection | src/main/java/com/ollama/plugin/settings/OllamaSettingsPanel.java:63-77 | an empty host only adds the warning "Please enter a host"; otherwise the label reads "Testing..." and a test of `http://host:port` starts |

## Left out

- Asynchrony: `CompletableFuture.supplyAsync` and `invokeLater` are left out. Each call is one synchronous exchange, and the value the future completes with is the result.
- The OkHttp client, its 30 s and 60 s timeouts, and the network itself: these are the `Transport` parameter. A timeout is an outcome carrying an exception.
- The JSON text: serialising the request body and parsing the response text are not modelled. Requests carry the tree, and responses arrive parsed or unreadable.
- Gson's exception messages are modelled approximately. Where the code only prints a failure, just the fact of failing matters.
- JSON numbers with a fractional part are left out. Numbers are integers, so `getAsLong` on a fraction is not modelled.
- `Long.parseLong` is modelled for ASCII digits only. Other Unicode digits are not modelled.
- The digits `String.format("%.1f")`/`"%.2f"` prints, and its locale, are a parameter. The `double` rounding in the division is not modelled; the division is exact over the reals. Near the top of a unit Java's rounded quotient can reach 1024.0: a size of 2^60 - 1 prints as "1024.0 PB". The bound [1, 1024) of `ByteSize.ScaledRange` holds only for the exact quotient.
- Settings.BaseUrl: `%d` in `getBaseUrl` formats the port in the default locale's digits; the model always writes ASCII digits.
- Json.AsString: Gson returns a number's literal text as it stood in the reply, such as `1e3` or `-0`. The model returns the canonical decimal of the number's value instead, so text that `Long.parseLong` would refuse is not modelled.
- Strings and offsets count Unicode scalar values, while Java strings and editor offsets count UTF-16 code units. With characters outside the Basic Multilingual Plane, `InsertCodeAtCursor` and `ReplaceSelectedCode` take offsets on a different scale than the editor, and lone surrogates cannot be represented.
- Responses.Response.TokensPerSecond: exact real division, without `double` rounding.
- Exceptions thrown by a callback are not modelled. Only what the callback is told is recorded.
- `e.printStackTrace()` is logging only and is not modelled.
- Singletons (`getInstance`) are not modelled. The settings instance is passed to whoever uses it.
- The editor's caret and selection models are not modelled. The caret offset and selection bounds are parameters within the document, as the editor guarantees.
- CommandProcessor and write actions are not modelled. The undo grouping and write lock around an edit do not change the text.
- Widget layout (`createUI`, `getPanel`), the message dialog (recorded as a warning) and `SettingsConnectionTest`'s own dialogs are not modelled. A connection test is recorded as the base URL it probes.
- SettingsPanel.SettingsPanel.Reset: `JSpinner.setValue` on the spinner model does not enforce the 1..65535 bound, so a stored port out of range is shown as is. The bound holds only for user edits (`EditPort`).
- The chat panel, the generate-tests action and the configurable wrapper are callers of this core and are not part of this model.
