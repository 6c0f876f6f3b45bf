# Telemetry extraction and receivers, modelled in Dafny

This project models two parts of the telemetry pipeline.

**The Fluentd telemetry filter plugin** (`filter_telemetry.rb`) takes a log record. It looks in the record's `log` line for the key `"telemetry-source"`, either plain or backslash-escaped. From that key, `JSONObjectBorderScanner` scans backwards to the `{` that opens the surrounding JSON object and forwards past the `}` that closes it. The scanner counts braces and skips strings. The plugin then decodes that slice, merges in the agent version, and keeps the message only when its `telemetry-time` is an RFC 3339 date-time. Every failure turns the record into `nil`.

**The two Go acceptance-test telemetry receivers** (`main.go` in `acceptance_tests_audit_mode` and in `acceptance_tests`) check a bearer token and keep, per user, the newest messages up to a configured limit. They answer reads with the stored list, clear a user's lists, and turn a tar batch into one record per `metadata` entry.

The modules follow the source's structure:

- `Strings`, `Json`, `Wrappers`: characters, decoded JSON values, Option/Result.
- `TelemetryToken`: `match_telemetry_token`.
- `BorderScanner`:
  - the meaning of one scan step (`Step`) and of a whole scan (`Run`, `ObjectBorder`);
  - the class `JsonObjectBorderScanner`, whose cursor and nesting level change in place. Its `FindEndOfJsonObj` is proved to compute `Run`.
- `JsonText`: JSON object text as the scanner sees it: plain characters, strings of literal and escaped units, and nested objects. It also gives the text reversed.
- `BorderProofs`: a scan reads over any well-formed piece of JSON text and comes out at the level it went in.
- `TelemetryExtractor`: `extract_message`. The function `Extract` takes a backslash rule; the method `ExtractMessage` runs two scanner objects.
- `ExtractionProofs`: the round trip. A line holding a rendered object, whose `"telemetry-source"` key is the first token, yields exactly that object.
- `EscapeFinding`: the counterexample line for the finding below.
- `TelemetryFilter` and `FilterProofs`: `filter` and `validate_telemetry_time`.
- `GoStrings`: `strings.Split`, `strings.HasSuffix`, `filepath.Dir`.
- `ReceiverCommon`: `tokenFromHeader`, `authenticated`, `getString`, and the eviction rule of `updateMessages`.
- `TelemetryReceiver`: the class `Receiver`, holding the `messages` and `batchMessages` maps and the handlers that update, read and clear them.
- `TarBatch`: `readTarBatch`.

Outside influences are parameters:
- JSON decoding is a `Decoder` (two partial functions).
- `DateTime.rfc3339` is a predicate on strings.
- An HTTP request is its header map plus what the message reader (`readJSONBatch` or `readTarBatch`) made of its body, as an Option.
- A tar archive is its sequence of entries.

Decisions:
- The plugin's scanner reads characters with `scan(/./)`, which does not match a newline. The model therefore treats a newline as the end of the input, as the plugin does.
- A Go slice that goes out of range panics. The model keeps that panic as an outcome (`None`, `Panicked`) that leaves the state unchanged. It is not turned into a precondition.

## Model

| member | source | states |
|---|---|---|
| TelemetryToken.IndexOf | src/fluentd/telemetry-filter-plugin/lib/fluent/plugin/filter_telemetry.rb:175-178 | `String#index`: the result is an occurrence of the pattern with none before it, and `None` means no occurrence at all |
| TelemetryToken.MatchIsFirstToken | src/fluentd/telemetry-filter-plugin/lib/fluent/plugin/filter_telemetry.rb:140-141 | the plain token wins wherever it occurs; a plain match is its first occurrence; an escaped match is the first escaped occurrence, and only when no plain one exists; no match exactly when neither occurs |
| TelemetryToken.MatchTelemetryToken | src/fluentd/telemetry-filter-plugin/lib/fluent/plugin/filter_telemetry.rb:174-180 | a match lies inside the line (its full characterisation is `MatchIsFirstToken`) |
| TelemetryToken.FirstPlainTokenMatches | src/fluentd/telemetry-filter-plugin/lib/fluent/plugin/filter_telemetry.rb:175-176 | a plain token with none before it is the match, not escaped |
| BorderScanner.BackslashRunIsMaximal | src/fluentd/telemetry-filter-plugin/lib/fluent/plugin/filter_telemetry.rb:302-310 | the counted backslashes form the maximal run ending just before the quote |
| BorderScanner.BackslashRunFromIsMaximal | src/fluentd/telemetry-filter-plugin/lib/fluent/plugin/filter_telemetry.rb:298-314 | the corrected rule's count is the maximal backslash run just after the quote in the reversed buffer, which is just before it in the line |
| BorderScanner.Step | src/fluentd/telemetry-filter-plugin/lib/fluent/plugin/filter_telemetry.rb:237-271 | the level rises exactly on the direction's opening brace and falls exactly on its closing brace, both outside strings; inside a string it never changes; only a quote enters or leaves a string |
| BorderScanner.RunSpan | src/fluentd/telemetry-filter-plugin/lib/fluent/plugin/filter_telemetry.rb:242-252 | a successful forward scan ends just past a `}` after its start; a backward scan ends on a `{` before it |
| BorderScanner.ObjectBorder | src/fluentd/telemetry-filter-plugin/lib/fluent/plugin/filter_telemetry.rb:230-276 | the forward border is past the start and follows a `}`; the backward border is before the start and is a `{` |
| BorderScanner.JsonObjectBorderScanner.constructor | src/fluentd/telemetry-filter-plugin/lib/fluent/plugin/filter_telemetry.rb:200-220 | the buffer is the line or the reversed line; the cursor is the start, mirrored when backwards; the level is 1; the brace roles follow the direction |
| BorderScanner.JsonObjectBorderScanner.ScanChar | src/fluentd/telemetry-filter-plugin/lib/fluent/plugin/filter_telemetry.rb:235 | `scan(/./)` yields the next character and advances, or yields nothing at the end or at a newline and stays put |
| BorderScanner.JsonObjectBorderScanner.CountPrecedingBackslashes | src/fluentd/telemetry-filter-plugin/lib/fluent/plugin/filter_telemetry.rb:298-314 | the `while` loop counts exactly the backslash run before the quote in the scanner's buffer |
| BorderScanner.EscapedQuoteRule | src/fluentd/telemetry-filter-plugin/lib/fluent/plugin/filter_telemetry.rb:254-285 | in the escaped dialect, whichever the direction, a quote opens a string exactly when a backslash comes just before it in the line, and closes one unless the three characters just before it in the line are all backslashes (`adjacent_n_chars` read on the line, also through the reversed buffer) |
| BorderScanner.JsonObjectBorderScanner.QuoteCloses | src/fluentd/telemetry-filter-plugin/lib/fluent/plugin/filter_telemetry.rb:259-269 | a quote closes a string on an even count (plain dialect), or unless exactly three backslashes are adjacent (escaped dialect) |
| BorderScanner.JsonObjectBorderScanner.SkipString | src/fluentd/telemetry-filter-plugin/lib/fluent/plugin/filter_telemetry.rb:257-271 | the inner loop leaves the scan's outcome unchanged; it fails only where the buffer stops |
| BorderScanner.JsonObjectBorderScanner.FindEndOfJsonObj | src/fluentd/telemetry-filter-plugin/lib/fluent/plugin/filter_telemetry.rb:230-276 | the nested loops compute the scan `Run`; success exactly when the level reached 0; failure only where the buffer stops, with the level still at least 1 |
| BorderProofs.SkipObjForward | src/fluentd/telemetry-filter-plugin/lib/fluent/plugin/filter_telemetry.rb:237-241 | forwards, a nested object, whatever braces and quotes its strings hold, is read over whole and leaves the level as it was |
| BorderProofs.SkipStrForward | src/fluentd/telemetry-filter-plugin/lib/fluent/plugin/filter_telemetry.rb:254-271 | forwards, a JSON string with any escapes is skipped whole: only its closing quote has an even backslash run |
| BorderProofs.SkipObjBackward | src/fluentd/telemetry-filter-plugin/lib/fluent/plugin/filter_telemetry.rb:219 | backwards, with `}` opening and `{` closing, a nested object is read over whole; with the plugin's count this holds only for escape-free text |
| BorderProofs.SkipStrBackward | src/fluentd/telemetry-filter-plugin/lib/fluent/plugin/filter_telemetry.rb:262-264 | backwards, a string is skipped whole under the corrected count, and under the plugin's count when it holds no escape |
| BorderProofs.CloseAfterItemsForward | src/fluentd/telemetry-filter-plugin/lib/fluent/plugin/filter_telemetry.rb:240-246 | from level 1, members then `}` make the forward scan report just past that brace |
| BorderProofs.CloseAfterItemsBackward | src/fluentd/telemetry-filter-plugin/lib/fluent/plugin/filter_telemetry.rb:247-251 | from level 1, reversed members then `{` make the backward scan report that brace's line index |
| TelemetryExtractor.LocateMessage | src/fluentd/telemetry-filter-plugin/lib/fluent/plugin/filter_telemetry.rb:153-162 | no token gives no span; a span keeps the token's dialect, strictly contains the token's index, starts with `{` and ends with `}` |
| TelemetryExtractor.Decode | src/fluentd/telemetry-filter-plugin/lib/fluent/plugin/filter_telemetry.rb:164-168 | found exactly when `JSON.parse` succeeds, with its value; otherwise an error naming the text and the line |
| TelemetryExtractor.DecodeSpan | src/fluentd/telemetry-filter-plugin/lib/fluent/plugin/filter_telemetry.rb:162-168 | a located span never yields `nil`; an error names the line; in the plain dialect it is `JSON.parse` of the slice; in the escaped dialect the slice is first decoded as the body of a string literal, an error there names the slice, and otherwise the result is `JSON.parse` of the decoded text, whose error names that text |
| TelemetryExtractor.Extract | src/fluentd/telemetry-filter-plugin/lib/fluent/plugin/filter_telemetry.rb:152-169 | `nil` exactly when no span is located; every raised error carries the line |
| TelemetryExtractor.ExtractMessage | src/fluentd/telemetry-filter-plugin/lib/fluent/plugin/filter_telemetry.rb:152-169 | the two scanner objects, run as the plugin runs them, give `Extract` with the plugin's backslash count |
| ExtractionProofs.ForwardBorder | src/fluentd/telemetry-filter-plugin/lib/fluent/plugin/filter_telemetry.rb:158-159 | from any member of a rendered object, the forward scan reports the end of that object |
| ExtractionProofs.BackwardBorder | src/fluentd/telemetry-filter-plugin/lib/fluent/plugin/filter_telemetry.rb:155-156 | from a member, the backward scan reports the object's `{`: always under the corrected count; under the plugin's count when the earlier members hold no escape |
| ExtractionProofs.KeyMatched | src/fluentd/telemetry-filter-plugin/lib/fluent/plugin/filter_telemetry.rb:174-176 | a `"telemetry-source"` key with no token before it is where the token is matched |
| ExtractionProofs.LocateKeyedObject | src/fluentd/telemetry-filter-plugin/lib/fluent/plugin/filter_telemetry.rb:152-162 | the located span is exactly the object around the key |
| ExtractionProofs.ExtractKeyedObject | src/fluentd/telemetry-filter-plugin/lib/fluent/plugin/filter_telemetry.rb:152-169 | round trip: a line of any prefix, a rendered object keyed by the first token, and any suffix yields what decoding the object's own text yields |
| EscapeFinding.EscapeLineBackwardScan | src/fluentd/telemetry-filter-plugin/lib/fluent/plugin/filter_telemetry.rb:262-264 | on `{"k":"\n","telemetry-source":1}` the plugin's backward scan finds no opening brace |
| EscapeFinding.EscapeLineMatch | src/fluentd/telemetry-filter-plugin/lib/fluent/plugin/filter_telemetry.rb:174-176 | on that line the token is matched at index 10, plain |
| EscapeFinding.EscapeLineLostAsWritten | src/fluentd/telemetry-filter-plugin/lib/fluent/plugin/filter_telemetry.rb:155-156 | as written, that line yields `nil` whatever the decoder |
| EscapeFinding.EscapeLineLocatedCorrected | src/fluentd/telemetry-filter-plugin/lib/fluent/plugin/filter_telemetry.rb:152-162 | with the corrected count the span is the whole line |
| EscapeFinding.EscapeLineFoundCorrected | src/fluentd/telemetry-filter-plugin/lib/fluent/plugin/filter_telemetry.rb:152-169 | with the corrected count that line yields what decoding the whole line yields |
| TelemetryFilter.LogLine | src/fluentd/telemetry-filter-plugin/lib/fluent/plugin/filter_telemetry.rb:95 | the line is the record's `log` value exactly when that is a string |
| TelemetryFilter.VersionInfo | src/fluentd/telemetry-filter-plugin/lib/fluent/plugin/filter_telemetry.rb:96-97 | `telemetry-agent-version` is set, to `agent-version`, exactly when that is present and truthy, and nothing else is set |
| TelemetryFilter.Message | src/fluentd/telemetry-filter-plugin/lib/fluent/plugin/filter_telemetry.rb:99 | only a found, decoded hash can be merged |
| TelemetryFilter.Filtered | src/fluentd/telemetry-filter-plugin/lib/fluent/plugin/filter_telemetry.rb:94-107 | no string `log` gives `nil`; a result has exactly the message's keys plus the version key, keeps every message field the version info does not override, has the version info's `telemetry-agent-version` when there is one, and has an RFC 3339 `telemetry-time` taken from the message; a decoded hash is dropped only for its time |
| TelemetryFilter.Filter | src/fluentd/telemetry-filter-plugin/lib/fluent/plugin/filter_telemetry.rb:94-107 | the filter as the plugin runs it, through the scanner objects, is `Filtered` with the plugin's count |
| FilterProofs.KeepDecodedMessage | src/fluentd/telemetry-filter-plugin/lib/fluent/plugin/filter_telemetry.rb:99-101 | a decoded hash with a valid time is returned merged with the version info |
| FilterProofs.DropUntimedMessage | src/fluentd/telemetry-filter-plugin/lib/fluent/plugin/filter_telemetry.rb:115-120 | a decoded hash without a string RFC 3339 `telemetry-time` is dropped, whatever the version info |
| FilterProofs.FilterKeyedObject | src/fluentd/telemetry-filter-plugin/lib/fluent/plugin/filter_telemetry.rb:94-107 | round trip through the filter: a record whose line holds a rendered telemetry object gives that object plus the version info, or `nil` exactly when its time is invalid |
| FilterProofs.EscapeRecordDroppedAsWritten | src/fluentd/telemetry-filter-plugin/lib/fluent/plugin/filter_telemetry.rb:102-105 | as written, a record whose line is the finding's line is dropped |
| FilterProofs.EscapeRecordKeptCorrected | src/fluentd/telemetry-filter-plugin/lib/fluent/plugin/filter_telemetry.rb:98-103 | with the corrected count, that record is kept when the line decodes to a hash with a valid time |
| GoStrings.JoinSplit | src/acceptance_tests_audit_mode/telemetry_receiver/main.go:179 | joining the fields of `strings.Split` gives back the header, and no field holds a space |
| GoStrings.SplitJoin | src/acceptance_tests_audit_mode/telemetry_receiver/main.go:179 | splitting a join of space-free fields gives back exactly those fields |
| GoStrings.DirOfJoin | src/acceptance_tests_audit_mode/telemetry_receiver/main.go:270 | `filepath.Dir` of `dir/name` is `dir` |
| ReceiverCommon.HeaderValue | src/acceptance_tests_audit_mode/telemetry_receiver/main.go:178 | `Header.Get` is the field's first value whenever it has one, and `""` when the field is absent or has no value |
| ReceiverCommon.TokenHeaderForm | src/acceptance_tests_audit_mode/telemetry_receiver/main.go:177-184 | a non-empty token comes only from the header `Bearer <token>`, and the token holds no space |
| ReceiverCommon.BearerHeaderToken | src/acceptance_tests_audit_mode/telemetry_receiver/main.go:177-184 | the header `Bearer <token>` yields that token |
| ReceiverCommon.ThreeFieldHeader | src/acceptance_tests_audit_mode/telemetry_receiver/main_test.go:454-465 | a three-field header such as `no good token` yields no token |
| ReceiverCommon.Authenticated | src/acceptance_tests_audit_mode/telemetry_receiver/main.go:165-175 | success names a user who owns the header's token; failure, with `""`, exactly when no user owns it (the locked receiver's loop, at its lines 205-215, is the same) |
| ReceiverCommon.GetString | src/acceptance_tests_audit_mode/telemetry_receiver/main.go:156-163 | the value when present and a string; the default otherwise; a non-default result is the stored string |
| ReceiverCommon.UpdatedMessages | src/acceptance_tests_audit_mode/telemetry_receiver/main.go:92-97 | a panic exactly when more messages arrive than the limit; otherwise the newest `limit` of the old list followed by the received ones |
| ReceiverCommon.UpdateKeepsReceived | src/acceptance_tests_audit_mode/telemetry_receiver/main.go:94-97 | the kept list is within the limit and ends with every received message, after a suffix of the old list, in order |
| ReceiverCommon.UpdateSizeBound | src/acceptance_tests/telemetry_receiver/main.go:111-116 | nothing is evicted while the lists fit; otherwise exactly `limit` are kept |
| ReceiverCommon.NewestAppend | src/acceptance_tests_audit_mode/telemetry_receiver/main.go:92-97 | evicting twice, with messages appended between, is evicting once from everything |
| ReceiverCommon.PostSinglesKeepNewest | src/acceptance_tests_audit_mode/telemetry_receiver/main_test.go:216-221 | posting messages one by one keeps the newest `limit` of them |
| ReceiverCommon.FiftyOnePostsKeepFifty | src/acceptance_tests_audit_mode/telemetry_receiver/main_test.go:213-232 | 51 posts numbered 0 to 50 under limit 50 keep 50, from number 1 to number 50 |
| TelemetryReceiver.MessagesOf | src/acceptance_tests_audit_mode/telemetry_receiver/main.go:87-90 | an absent user has the empty list |
| TelemetryReceiver.Receiver.constructor | src/acceptance_tests_audit_mode/telemetry_receiver/main.go:43-44 | both maps start empty |
| TelemetryReceiver.Receiver.UpdateMessages | src/acceptance_tests_audit_mode/telemetry_receiver/main.go:86-98 | only the user's entry in the chosen map changes, to the evicted-then-appended list; a panic changes nothing (the locked receiver's lines 102-117 have the same effect under its lock) |
| TelemetryReceiver.Receiver.PostMessages | src/acceptance_tests_audit_mode/telemetry_receiver/main.go:59-84 | 401 exactly when no user owns the token; 400 when the message reader (`readJSONBatch` or `readTarBatch`) rejects the body; otherwise the update, with 201 or a panic; only a 201 changes state |
| TelemetryReceiver.Receiver.ReadMessagesForUser | src/acceptance_tests_audit_mode/telemetry_receiver/main.go:100-119 | 401 exactly when no user owns the token; otherwise an owner's stored list, `[]` when the user has none |
| TelemetryReceiver.Receiver.ReadMessagesCopy | src/acceptance_tests/telemetry_receiver/main.go:119-152 | the copy-based read answers exactly what the audit-mode read answers |
| TelemetryReceiver.Receiver.ClearMessages | src/acceptance_tests_audit_mode/telemetry_receiver/main.go:121-129 | an owner is removed from both maps and nothing else changes; 401 changes nothing (the same in the locked receiver, lines 154-165) |
| TarBatch.Record | src/acceptance_tests_audit_mode/telemetry_receiver/main.go:267-271 | a record has exactly the three fields: `FoundationId` and `CollectedAt` are the decoded metadata's values, and `Dataset` is the entry's directory |
| TarBatch.BatchIsSelected | src/acceptance_tests_audit_mode/telemetry_receiver/main.go:255-271 | a read batch has one record per regular `...metadata` entry, in archive order, and every header was readable; `SelectedEntries`, the definition of those entries in archive order, keeps every regular `...metadata` entry of the archive and nothing else |
| TarBatch.BatchFailure | src/acceptance_tests_audit_mode/telemetry_receiver/main.go:251-265 | a refused batch is stopped by an unreadable header or an undecodable metadata entry, with every earlier entry read |
| TarBatch.ReadTarBatch | src/acceptance_tests_audit_mode/telemetry_receiver/main.go:245-276 | the loop over the entries computes `Batch` |
| TarBatch.OpsManagerBatch | src/acceptance_tests_audit_mode/telemetry_receiver/main_test.go:253-270 | the test archive `opsmanager/metadata` gives one record with dataset `opsmanager` |

## Left out

- Byte and character offsets: the scanner's conversions (`filter_telemetry.rb:204-214`, `244-251`) and `adjacent_n_chars` indexing by byte `pos` are not modelled. Each character is one position, as for ASCII text.
- `JSON.parse` is not implemented. It is the `Decoder` parameter. JSON numbers are kept as integers, because no modelled operation looks inside them.
- `DateTime.rfc3339` is a predicate parameter. Ruby's exact leniencies are not visible in the source.
- `count_preceding_backslashes` for a look-ahead of 3 (`filter_telemetry.rb:316-327`) is not modelled. It is unreachable: the method is called only with 1.
- ExtractionProofs.ExtractKeyedObject: the round trip is proved for the plain dialect only. The escaped dialect is modelled as written, with no round-trip theorem about it: its three-backslash test does not close a string whose text ends in a backslash (escaped as `\"C:\\\\\"`, the closing quote has three backslashes before it), so a general round trip does not hold. `BorderScanner.EscapedQuoteRule` states the rule it follows.
- TelemetryToken.MatchTelemetryToken: its own contract only bounds the index. The full characterisation is the lemma `MatchIsFirstToken`.
- `log.info`, the Fluentd registration and the performance commentary are left out: they are logging and plumbing, not behaviour of the filter.
- HTTP plumbing in the Go receivers is left out: `ListenAndServe`, environment validation with `os.Exit`, `upHandler`, `readJSONBatch`, and reading a request body (its 500 path). A post takes what the message reader made of the body, as an Option; a body that cannot be read at all (500) is not modelled.
- `json.Marshal` of a stored list is taken to succeed, so its 500 path is left out. The values were decoded from JSON, so they always encode.
- gzip decompression and tar header parsing are left out. `readTarBatch` takes the archive's entries, and each metadata entry's decoding result, as given.
- GoStrings.Dir: of `filepath.Clean`'s normalisation, only trailing slashes are modelled. The `.` and `..` elements and repeated interior slashes are not.
- The `sync.RWMutex` of the locked receiver is left out. Only the sequential effect of each handler is modelled.
- Go's map iteration order is left out: `authenticated` picks users in an unspecified order, and any owner may be returned.

## Findings

| source | as written | input that shows it | evidently intended | confidence | as-written member | corrected member |
|---|---|---|---|---|---|---|
| src/fluentd/telemetry-filter-plugin/lib/fluent/plugin/filter_telemetry.rb:262-264 | When scanning backwards, `count_preceding_backslashes` counts the backslashes before a quote in the reversed line. Those are the backslashes that follow the quote in the log line. So the opening quote of a string value that starts with an escape looks escaped, and the scan loses track of strings. | the log line `{"k":"\n","telemetry-source":1}`: the backward scan returns `nil`, and the whole message is dropped | count the backslashes that precede the quote in the log line, which are the ones after it in the reversed buffer. With that count, every well-formed object around the first token is found. | high; not executed | EscapeFinding.EscapeLineLostAsWritten | ExtractionProofs.ExtractKeyedObject |
