# logzzap in Dafny

A model of logzzap, a Go adapter that plugs a logz.io sender into the zap
logging framework as a `zapcore.Core`. It covers the adapter's core:

- the field helpers of `utils.go`: `fieldsToMap`, which flattens typed zap
  fields into a key/value map (last writer wins), and `extractError`, which
  picks out the error of the last error-typed field;
- the `LogzCore` of `logzzap.go`: construction with the `WithAppName` /
  `WithEnvironment` options, `With` (merges fields into the core's own map),
  `Check` (the level gate), `Write` (builds one document, encodes it into
  the core's buffer and hands the buffer to the sender) and `Sync`.

Modules, one per concern:

- `Wrappers` (wrappers.dfy): `Option`.
- `ZapCore` (zapcore.dfy): the zap interface the adapter uses: levels and
  their order, `Level.String()`, fields, entries, `CheckedEntry.AddCore`.
- `Fmt` (fmt.dfy): the `%d` rendering of an int, with a parser as its inverse (`ParseDecimal(Decimal(n)) == n`).
- `Utils` (utils.dfy): `Flatten` (the fold that specifies `fieldsToMap`),
  `FieldsToMap`, `LastError` (the fold that specifies `extractError`),
  `ExtractError`.
- `LogzZap` (logzzap.dfy): options, the `Document` that `Write` builds,
  the `Sender` collaborator and the `LogzCore` class.

`LogzCore` is a class. `coreFields` is a `map<string, Value>` field and the
buffer a `seq<byte>` field. The minimum level, the sender and the encoder
are `const`: the package's own code never reassigns them after construction
(see `LogzZap.LogzCore.New` under "## Left out" for options written outside
the package). JSON encoding is a
function `encode: Doc -> EncodeResult` given to the constructor. It either
yields bytes, which `Write` appends to the buffer, or an error, in which case
nothing is written (this is what `json.Encoder.Encode` does). The sender is
an object that records every `Send` and `Sync` call together with its
answer. The model leaves that answer undetermined, so every property of
`Write` and `Sync` holds whatever the sender does.

## Behaviour of the code

- The package takes no lock anywhere.
- `Write` (logzzap.go:89-118) builds its document from the call-site fields,
  the entry and the two settings only. The fields bound with `With` are
  never read by it, never put into a document and never removed.
- `With` (logzzap.go:71-78) updates the core's own map and returns that same
  core, so every core derived from it by `With` is one object with one map.
- The buffer is reset only after a successful `Send` (logzzap.go:112-116).
  After a failed `Send` the undelivered bytes stay in the buffer, and the
  next `Write` whose encoding succeeds sends them ahead of its own document.
  A `Write` whose encoding fails sends nothing and leaves them in place. `LogzCore.Write`
  states this: the payload is always `old(buffer) + bytes`.
- A document has `caller.file` and `caller.function` exactly when the caller
  is defined OR a call-site field already uses that key. The same holds for
  `app` and `environment`. `Document` states the exact key set.

## Model

| member | source | states |
|---|---|---|
| ZapCore.Rank | logzzap.go:82 | a level's rank is its zap int8 constant, between -1 (Debug) and 5 (Fatal) |
| ZapCore.Enabled | logzzap.go:82 | `Level.Enabled`: every level enables itself, Debug enables every level, and every threshold enables Fatal |
| ZapCore.LevelName | logzzap.go:92 | `Level.String()` gives each named level a name of four to six characters |
| ZapCore.LevelNameLowercase | logzzap.go:92 | every level name is a lower-case word |
| ZapCore.RankInjective | logzzap.go:82 | distinct levels have distinct ranks, so Debug < Info < Warn < Error < DPanic < Panic < Fatal is a total order |
| ZapCore.EnabledMonotone | logzzap.go:82 | a threshold that enables a level also enables every more severe level |
| ZapCore.EnabledAntitone | logzzap.go:82 | lowering the threshold never rejects a level that was accepted |
| ZapCore.LevelNameInjective | logzzap.go:92 | the name written under "level" determines the level |
| ZapCore.AddCore | logzzap.go:83 | adding a core to a nil checked entry starts one for the entry; otherwise the core is appended and the entry kept |
| Fmt.DigitChar | logzzap.go:96 | a digit below ten renders as a decimal digit character |
| Fmt.DigitValue | logzzap.go:96 | a digit character has a value below ten |
| Fmt.NatDecimal | logzzap.go:96 | a natural number renders as a non-empty string of digits with no leading zero |
| Fmt.Decimal | logzzap.go:96 | `%d` renders any int as an optional '-' followed by digits |
| Fmt.NatDecimalRoundTrip | logzzap.go:96 | parsing the digits of n gives back n |
| Fmt.DecimalRoundTrip | logzzap.go:96 | parsing the `%d` rendering of any int, negative ones included, gives back the int |
| Fmt.DecimalInjective | logzzap.go:96 | distinct line numbers render differently |
| Utils.Flatten | utils.go:20-31 | the flattened map's key set is exactly the set of keys occurring in the fields, so empty input gives an empty map |
| Utils.FlattenLastWins | utils.go:21-24 | a field that no later field overrides leaves its own value under its key (last writer wins) |
| Utils.FlattenLastWriter | utils.go:21-30 | every key present holds the value of the last field with that key |
| Utils.FlattenAppend | utils.go:21-24 | flattening a concatenation is flattening both parts with the later part overriding, so two With calls equal one With of the joined fields |
| Utils.FieldsToMap | utils.go:20-31 | feeding the fields to an encoder and copying its map entry by entry yields exactly the last-writer-wins fold of the fields |
| Utils.LastError | utils.go:11-17 | the second loop of extractError as a fold; an error it finds is the Interface of some ErrorType field of the input |
| Utils.PanicIsFinal | utils.go:12-16 | once the type assertion has panicked on a prefix, the result for the whole list is that panic |
| Utils.LastErrorPanicIff | utils.go:12-16 | extractError panics exactly when some ErrorType field's Interface is not an error |
| Utils.LastErrorNilIff | utils.go:11-17 | extractError returns nil exactly when no field has ErrorType |
| Utils.LastErrorIsLast | utils.go:11-17 | when no assertion panics, extractError returns the error held by the last ErrorType field |
| Utils.ExtractError | utils.go:5-18 | the two loops compute the last-error fold; the first loop's discarded encoder has no effect on the result |
| LogzZap.ApplyOption | logzzap.go:39-49 | a WithAppName option sets the app name and leaves the environment; a WithEnvironment option sets the environment and leaves the app name |
| LogzZap.ApplyAll | logzzap.go:63-65 | the options loop; each resulting setting is either its initial value or the value of one of the options |
| LogzZap.ApplyAllAppend | logzzap.go:63-65 | options run in list order: running two lists in turn is running their concatenation |
| LogzZap.LastOptionWins | logzzap.go:39-65 | the last WithAppName option sets the app name and the last WithEnvironment the environment |
| LogzZap.UnsetOptionsKeep | logzzap.go:53-65 | a field that no option names keeps its initial value, so with no options both strings stay empty |
| LogzZap.CallerFunction | logzzap.go:96 | "caller.function" is the function name, a colon and the `%d` of the line, so its length is the sum of theirs plus one |
| LogzZap.CallerFunctionParses | logzzap.go:96 | "caller.function" starts with the function name and a colon, and what follows parses back to the line number |
| LogzZap.CallerLineRecoverable | logzzap.go:96 | two callers in the same function with the same "caller.function" value are on the same line |
| LogzZap.Document | logzzap.go:89-105 | the document's keys are the call-site keys plus message, level, the caller keys when the caller is defined, app and environment when non-empty; message and level always hold the entry's message and level name; the synthetic keys override call-site keys; every other call-site key passes through with its flattened value |
| LogzZap.CheckMonotone | logzzap.go:81-87 | a core that accepts an entry accepts every entry at least as severe |
| LogzZap.Sender.Send | logzzap.go:16 | a Send call is recorded with its payload and its answer |
| LogzZap.Sender.Sync | logzzap.go:15 | a Sync call is recorded with its answer |
| LogzZap.LogzCore.New | logzzap.go:53-68 | a new core has the given minimum level, sender and encoder, empty coreFields, an empty buffer, and the settings of its options applied in order to empty strings |
| LogzZap.LogzCore.With | logzzap.go:71-78 | coreFields becomes the old map overridden by the flattened fields, nothing else changes, and the same core is returned |
| LogzZap.LogzCore.Check | logzzap.go:81-87 | the checked entry is returned unchanged exactly when the entry's level is below the minimum level; otherwise this core is appended to its cores |
| LogzZap.LogzCore.Write | logzzap.go:89-118 | coreFields and the settings are unchanged; on an encode failure a marshaling error is returned, the buffer is unchanged and Send is not called; otherwise Send is called once with the old buffer plus the encoded document, a send failure is returned wrapped with the buffer left as sent, and on success no error is returned and the buffer is empty |
| LogzZap.LogzCore.Sync | logzzap.go:120-122 | Sync makes exactly one Sync call on the sender and returns its answer unchanged |

## Left out

- JSON encoding (encoding/json) is an abstract function from documents to bytes or an error. JSON syntax, escaping and key order are not modelled.
- The logz.io sender's network, batching and disk queue are not modelled. The sender's `io.Writer` method is not modelled either, because the adapter never calls it.
- The sender may keep the payload slice, which aliases the buffer that `Reset` then reuses. This aliasing is not modelled: payloads are values.
- `fieldsToMap` returns a fresh Go map. In Dafny maps are values, so freshness and absence of aliasing hold trivially and are not stated.
- `Field.AddTo` is modelled as writing the field's key to an opaque value. Several of its behaviours are not modelled, and they would change what `Flatten` says about keys: SkipType fields write nothing; `zap.Inline` fields and namespaces write the keys of nested encoders; an ErrorType field may also write `<key>Verbose`; a failing marshaler adds an extra `<key>Error` key. AddTo's own panics are not modelled either. Its ErrorType case runs the same `f.Interface.(error)` assertion as extractError, so a field that claims ErrorType without holding an error already panics in extractError's first loop and in fieldsToMap, and so in `With` and `Write`. The model records that panic only in `ExtractError`, as its result.
- Levels are the seven named zap levels. Other int8 values and their `Level(n)` names are not modelled.
- `Level.String()` is a total table from level to name; zap's implementation is not modelled.
- `CheckedEntry.AddCore` is modelled as appending to a value. The pooling and in-place mutation of zap's checked entries are not modelled.
- Entry fields that `Write` does not read (time, logger name, stack) are not modelled.
- The wrapped error texts ("marshaling fields: ", "sending bytes: ") appear as constructor names with the cause kept. The formatted message strings are not modelled.
- A zero-value `LogzCore` has a nil map, and `With` on it panics once it is given a field. This is not modelled: cores exist only through the constructor.
- Concurrency is not modelled. The code has no locking. Two concurrent `With` calls race on writes to the `coreFields` map (logzzap.go:73-75). Two concurrent `Write` calls race on the shared encoder and `bytes.Buffer` (logzzap.go:107-116), and one call's `Reset` can drop bytes that the other appended. A `With` and a `Write` share no state.
- `example/main.go` and `logzzap_test.go` are not part of this model. The tests need a live token and the network. Their assertions on the minimum level (logzzap_test.go:56, 65, 81) and on the fields stored by `With` (logzzap_test.go:87-93) correspond to the contracts of `LogzZap.LogzCore.New` and `LogzZap.LogzCore.With`.
- LogzZap.LogzCore.New: models only the package's two options, `WithAppName` and `WithEnvironment`, as the closed datatype `CoreOption`. Go's `Option` is an exported `func(*LogzCore)` type (logzzap.go:37), so callers can write options of their own. Such an option can call `With`, which leaves `coreFields` non-empty after construction. It can also reassign the exported embedded `LevelEnabler` (logzzap.go:27), which the model's `const minLevel: Level` rules out. `New`'s promises of empty `coreFields` and of the given minimum level hold only for the package's own options.
