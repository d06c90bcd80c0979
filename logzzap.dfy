/**
 * The zap core that ships log entries to logz.io (logzzap.go): its state,
 * construction with functional options, the With/Check/Write/Sync
 * operations, and the document that Write builds.
 *
 * JSON encoding and the logz.io sender are external: the encoder is a
 * function from documents to bytes-or-error given at construction, and the
 * sender is an object that records every call made to it together with
 * the result it returned, which the model leaves undetermined.
 */
module LogzZap {
  import opened Wrappers
  import opened ZapCore
  import opened Fmt
  import opened Utils

  newtype byte = x: int | 0 <= x < 256

  /**
   * What json.Encoder.Encode does with a document: it either appends the
   * document's bytes to its writer or fails without writing anything.
   */
  datatype EncodeResult = Encoded(bytes: seq<byte>) | EncodeFailed(cause: GoError)

  /** A call made to the sender, and what the sender answered. */
  datatype Call = SendCall(payload: seq<byte>) | SyncCall
  datatype Exchange = Exchange(call: Call, result: Option<GoError>)

  /** The logzSender collaborator: opaque, possibly failing calls. */
  class Sender {
    /** Every call made to this sender so far, oldest first. */
    var log: seq<Exchange>

    constructor ()
      ensures log == []
    {
      log := [];
    }

    method Send(payload: seq<byte>) returns (err: Option<GoError>)
      modifies this
      ensures log == old(log) + [Exchange(SendCall(payload), err)]
    {
      err :| true;
      log := log + [Exchange(SendCall(payload), err)];
    }

    method Sync() returns (err: Option<GoError>)
      modifies this
      ensures log == old(log) + [Exchange(SyncCall, err)]
    {
      err :| true;
      log := log + [Exchange(SyncCall, err)];
    }
  }

  /** The two Option constructors of the package: WithAppName and WithEnvironment. */
  datatype CoreOption = WithAppName(name: string) | WithEnvironment(env: string)

  /** The part of the core's state that options set. */
  datatype Settings = Settings(appName: string, env: string)

  /** Running one option against the core: it overwrites the one field it names. */
  function ApplyOption(s: Settings, o: CoreOption): (r: Settings)
    ensures o.WithAppName? ==> r.appName == o.name && r.env == s.env
    ensures o.WithEnvironment? ==> r.env == o.env && r.appName == s.appName
  {
    match o
    case WithAppName(n) => s.(appName := n)
    case WithEnvironment(e) => s.(env := e)
  }

  /** Running a list of options in order. */
  function ApplyAll(s: Settings, options: seq<CoreOption>): (r: Settings)
    ensures r.appName == s.appName || WithAppName(r.appName) in options
    ensures r.env == s.env || WithEnvironment(r.env) in options
    decreases |options|
  {
    if options == [] then s
    else ApplyOption(ApplyAll(s, options[..|options| - 1]), options[|options| - 1])
  }

  /** Running two lists of options one after the other is running their concatenation. */
  lemma {:induction false} ApplyAllAppend(s: Settings, a: seq<CoreOption>, b: seq<CoreOption>)
    ensures ApplyAll(s, a + b) == ApplyAll(ApplyAll(s, a), b)
    decreases |b|
  {
    if b == [] {
      assert a + b == a;
    } else {
      assert (a + b)[..|a + b| - 1] == a + b[..|b| - 1];
      ApplyAllAppend(s, a, b[..|b| - 1]);
    }
  }

  /** The last WithAppName option decides the application name, the last WithEnvironment the environment. */
  lemma {:induction false} LastOptionWins(s: Settings, options: seq<CoreOption>, i: int)
    requires 0 <= i < |options|
    ensures options[i].WithAppName? && (forall j :: i < j < |options| ==> !options[j].WithAppName?)
            ==> ApplyAll(s, options).appName == options[i].name
    ensures options[i].WithEnvironment? && (forall j :: i < j < |options| ==> !options[j].WithEnvironment?)
            ==> ApplyAll(s, options).env == options[i].env
    decreases |options|
  {
    var n := |options| - 1;
    if i < n {
      var init := options[..n];
      forall j | i < j < |init| ensures init[j] == options[j] {
      }
      LastOptionWins(s, init, i);
    }
  }

  /** A field that no option names keeps its initial value; with no options both stay as they were. */
  lemma {:induction false} UnsetOptionsKeep(s: Settings, options: seq<CoreOption>)
    ensures (forall j :: 0 <= j < |options| ==> !options[j].WithAppName?) ==> ApplyAll(s, options).appName == s.appName
    ensures (forall j :: 0 <= j < |options| ==> !options[j].WithEnvironment?) ==> ApplyAll(s, options).env == s.env
    decreases |options|
  {
    if options != [] {
      var init := options[..|options| - 1];
      forall j | 0 <= j < |init| ensures init[j] == options[j] {
      }
      UnsetOptionsKeep(s, init);
    }
  }

  const MessageKey := "message"
  const LevelKey := "level"
  const CallerFileKey := "caller.file"
  const CallerFunctionKey := "caller.function"
  const AppKey := "app"
  const EnvironmentKey := "environment"

  /** fmt.Sprintf("%s:%d", Function, Line). */
  function CallerFunction(c: EntryCaller): (r: string)
    ensures |r| == |c.funcName| + 1 + |Decimal(c.line)|
  {
    c.funcName + ":" + Decimal(c.line)
  }

  /**
   * The function name comes first in "caller.function", and what follows
   * its colon parses back to the line number.
   */
  lemma CallerFunctionParses(c: EntryCaller)
    ensures CallerFunction(c)[..|c.funcName|] == c.funcName && CallerFunction(c)[|c.funcName|] == ':'
    ensures IsDecimal(CallerFunction(c)[|c.funcName| + 1..])
    ensures ParseDecimal(CallerFunction(c)[|c.funcName| + 1..]) == c.line
  {
    assert CallerFunction(c)[|c.funcName| + 1..] == Decimal(c.line);
    DecimalRoundTrip(c.line);
  }

  /** Two callers in the same function with the same "caller.function" value are on the same line. */
  lemma CallerLineRecoverable(c1: EntryCaller, c2: EntryCaller)
    requires c1.funcName == c2.funcName && CallerFunction(c1) == CallerFunction(c2)
    ensures c1.line == c2.line
  {
    CallerFunctionParses(c1);
    CallerFunctionParses(c2);
  }

  /** The keys Write sets itself, overriding any call-site field of the same name. */
  function SyntheticKeys(entry: Entry, appName: string, env: string): set<string> {
    {MessageKey, LevelKey}
    + (if entry.caller.defined then {CallerFileKey, CallerFunctionKey} else {})
    + (if |appName| > 0 then {AppKey} else {})
    + (if |env| > 0 then {EnvironmentKey} else {})
  }

  /**
   * The document Write encodes: call-site fields first, then message and
   * level, then the caller keys when the caller is defined, then app and
   * environment when they are non-empty. The core's bound fields take no
   * part in it.
   */
  function Document(entry: Entry, fields: seq<Field>, appName: string, env: string): (doc: Doc)
    ensures doc.Keys == KeysOf(fields) + SyntheticKeys(entry, appName, env)
    ensures doc[MessageKey] == Str(entry.message)
    ensures doc[LevelKey] == Str(LevelName(entry.level))
    ensures entry.caller.defined ==> doc[CallerFileKey] == Str(entry.caller.file)
    ensures entry.caller.defined ==> doc[CallerFunctionKey] == Str(CallerFunction(entry.caller))
    ensures |appName| > 0 ==> doc[AppKey] == Str(appName)
    ensures |env| > 0 ==> doc[EnvironmentKey] == Str(env)
    ensures forall k :: k in Flatten(fields) && k !in SyntheticKeys(entry, appName, env) ==> doc[k] == Flatten(fields)[k]
  {
    var base := Flatten(fields)[MessageKey := Str(entry.message)][LevelKey := Str(LevelName(entry.level))];
    var withCaller :=
      if entry.caller.defined then
        base[CallerFileKey := Str(entry.caller.file)][CallerFunctionKey := Str(CallerFunction(entry.caller))]
      else base;
    var withApp := if |appName| > 0 then withCaller[AppKey := Str(appName)] else withCaller;
    if |env| > 0 then withApp[EnvironmentKey := Str(env)] else withApp
  }

  /** The errors Write returns, each wrapping its cause with %w. */
  datatype WriteError =
    | MarshalingFailed(cause: GoError)   // "marshaling fields: <cause>"
    | SendingFailed(cause: GoError)      // "sending bytes: <cause>"

  /**
   * LogzCore, the adapter's zapcore.Core. Its mutable state is coreFields,
   * the fields bound with With, and buffer, the bytes the encoder has
   * written and no successful Send has yet consumed.
   */
  class LogzCore {
    /** The embedded LevelEnabler: the minimum level, never reassigned. */
    const minLevel: Level
    const sender: Sender
    /** The JSON encoder writing into `buffer`. */
    const encode: Doc -> EncodeResult

    var coreFields: Doc
    var buffer: seq<byte>
    var appName: string
    var env: string

    function Config(): Settings
      reads this
    {
      Settings(appName, env)
    }

    /** NewLogzCore: a fresh core with no bound fields and an empty buffer, then each option in turn. */
    constructor New(sender: Sender, minLevel: Level, encode: Doc -> EncodeResult, options: seq<CoreOption>)
      ensures this.sender == sender && this.minLevel == minLevel && this.encode == encode
      ensures coreFields == map[] && buffer == []
      ensures Config() == ApplyAll(Settings("", ""), options)
    {
      this.minLevel := minLevel;
      this.sender := sender;
      this.encode := encode;
      coreFields := map[];
      buffer := [];
      appName := "";
      env := "";
      new;
      for i := 0 to |options|
        invariant coreFields == map[] && buffer == []
        invariant Config() == ApplyAll(Settings("", ""), options[..i])
      {
        assert options[..i + 1][..i] == options[..i];
        match options[i]
        case WithAppName(n) => appName := n;
        case WithEnvironment(e) => env := e;
      }
      assert options[..|options|] == options;
    }

    /**
     * With merges the flattened fields into the core's own map, in place,
     * and hands back the same core: every logger derived this way shares
     * one coreFields map.
     */
    method With(fields: seq<Field>) returns (r: LogzCore)
      modifies this`coreFields
      ensures r == this
      ensures coreFields == old(coreFields) + Flatten(fields)
    {
      var fieldMap := FieldsToMap(fields);
      var rest := fieldMap.Keys;
      while rest != {}
        invariant rest <= fieldMap.Keys
        invariant coreFields.Keys == old(coreFields).Keys + (fieldMap.Keys - rest)
        invariant forall k :: k in fieldMap && k !in rest ==> coreFields[k] == fieldMap[k]
        invariant forall k :: k in old(coreFields) && (k !in fieldMap || k in rest) ==> coreFields[k] == old(coreFields)[k]
        decreases rest
      {
        var k :| k in rest;
        coreFields := coreFields[k := fieldMap[k]];
        rest := rest - {k};
      }
      assert coreFields == old(coreFields) + fieldMap;
      r := this;
    }

    /** Check adds this core to the checked entry exactly when the entry's level is enabled. */
    function Check(entry: Entry, checked: Option<CheckedEntry<LogzCore>>): (r: Option<CheckedEntry<LogzCore>>)
      ensures r == checked <==> !Enabled(minLevel, entry.level)
      ensures Enabled(minLevel, entry.level) ==> r.Some? && r.value.cores == (if checked.Some? then checked.value.cores else []) + [this]
    {
      if Enabled(minLevel, entry.level) then AddCore(checked, entry, this) else checked
    }

    /**
     * Write builds the document, encodes it into the shared buffer and sends
     * the whole buffer. The buffer is reset only after a successful Send, so
     * after a failed Send the next payload still starts with the bytes that
     * were not delivered. coreFields is neither read nor written.
     */
    method Write(entry: Entry, fields: seq<Field>) returns (err: Option<WriteError>)
      modifies this`buffer, sender
      ensures coreFields == old(coreFields) && Config() == old(Config())
      ensures match encode(Document(entry, fields, appName, env))
        case EncodeFailed(cause) =>
          err == Some(MarshalingFailed(cause)) && buffer == old(buffer) && sender.log == old(sender.log)
        case Encoded(bytes) =>
          && |sender.log| == |old(sender.log)| + 1
          && sender.log == old(sender.log) + [Exchange(SendCall(old(buffer) + bytes), sender.log[|sender.log| - 1].result)]
          && match sender.log[|sender.log| - 1].result
             case None => err == None && buffer == []
             case Some(cause) => err == Some(SendingFailed(cause)) && buffer == old(buffer) + bytes
    {
      var fieldsMap := FieldsToMap(fields);
      fieldsMap := fieldsMap[MessageKey := Str(entry.message)];
      fieldsMap := fieldsMap[LevelKey := Str(LevelName(entry.level))];

      if entry.caller.defined {
        fieldsMap := fieldsMap[CallerFileKey := Str(entry.caller.file)];
        fieldsMap := fieldsMap[CallerFunctionKey := Str(CallerFunction(entry.caller))];
      }

      if |appName| > 0 {
        fieldsMap := fieldsMap[AppKey := Str(appName)];
      }

      if |env| > 0 {
        fieldsMap := fieldsMap[EnvironmentKey := Str(env)];
      }
      assert fieldsMap == Document(entry, fields, appName, env);

      var encoded := encode(fieldsMap);
      if encoded.EncodeFailed? {
        return Some(MarshalingFailed(encoded.cause));
      }
      buffer := buffer + encoded.bytes;

      var sendErr := sender.Send(buffer);
      if sendErr.Some? {
        return Some(SendingFailed(sendErr.value));
      }

      buffer := [];
      return None;
    }

    /** Sync delegates to the sender and returns its answer unchanged. */
    method Sync() returns (err: Option<GoError>)
      modifies sender
      ensures sender.log == old(sender.log) + [Exchange(SyncCall, err)]
    {
      err := sender.Sync();
    }
  }

  /** A core that accepts an entry accepts every entry of at least that severity. */
  lemma CheckMonotone(c: LogzCore, e1: Entry, e2: Entry, checked: Option<CheckedEntry<LogzCore>>)
    requires c.Check(e1, checked) != checked && Rank(e1.level) <= Rank(e2.level)
    ensures c.Check(e2, checked) != checked
  {
    EnabledMonotone(c.minLevel, e1.level, e2.level);
  }
}
