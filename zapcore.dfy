/**
 * The parts of zap's zapcore package that the adapter touches: levels,
 * typed fields, entries and the checked-entry hand-off. Only their
 * interface is modelled; zap's own implementation is not.
 */
module ZapCore {
  import opened Wrappers

  /** zapcore.Level, restricted to its seven named levels. */
  datatype Level = Debug | Info | Warn | Error | DPanic | Panic | Fatal

  /** The int8 constant zap gives each level (DebugLevel = -1 ... FatalLevel = 5). */
  function Rank(l: Level): (r: int)
    ensures -1 <= r <= 5
  {
    match l
    case Debug => -1
    case Info => 0
    case Warn => 1
    case Error => 2
    case DPanic => 3
    case Panic => 4
    case Fatal => 5
  }

  /** Distinct levels have distinct ranks, so the rank order is a total order on levels. */
  lemma RankInjective(a: Level, b: Level)
    ensures Rank(a) == Rank(b) ==> a == b
  {
  }

  /** Level.Enabled: a threshold `min` enables `l` when `l >= min`. */
  predicate Enabled(min: Level, l: Level)
    ensures min == l ==> Enabled(min, l)
    ensures min == Debug ==> Enabled(min, l)
    ensures l == Fatal ==> Enabled(min, l)
  {
    Rank(l) >= Rank(min)
  }

  /** A threshold that enables a level enables every more severe level. */
  lemma EnabledMonotone(min: Level, l1: Level, l2: Level)
    requires Enabled(min, l1) && Rank(l1) <= Rank(l2)
    ensures Enabled(min, l2)
  {
  }

  /** Lowering the threshold never rejects a level that was accepted. */
  lemma EnabledAntitone(min1: Level, min2: Level, l: Level)
    requires Rank(min1) <= Rank(min2) && Enabled(min2, l)
    ensures Enabled(min1, l)
  {
  }

  /** Level.String() for the named levels. */
  function LevelName(l: Level): (r: string)
    ensures 4 <= |r| <= 6
  {
    match l
    case Debug => "debug"
    case Info => "info"
    case Warn => "warn"
    case Error => "error"
    case DPanic => "dpanic"
    case Panic => "panic"
    case Fatal => "fatal"
  }

  /** Every level name is a lower-case word. */
  lemma LevelNameLowercase(l: Level)
    ensures forall i :: 0 <= i < |LevelName(l)| ==> 'a' <= LevelName(l)[i] <= 'z'
  {
  }

  /** The level name determines the level, so the "level" key of a document identifies it. */
  lemma LevelNameInjective(a: Level, b: Level)
    ensures LevelName(a) == LevelName(b) ==> a == b
  {
  }

  /** A Go `error` value, identified by its message. */
  datatype GoError = GoError(msg: string)

  /** A value as the map encoder stores it: a string, or anything else (opaque). */
  datatype Value = Str(s: string) | Opaque(id: nat)

  /** zapcore.FieldType; only ErrorType is distinguished by the adapter. */
  datatype FieldType =
    | StringType | Int64Type | BoolType | Float64Type | DurationType | TimeType
    | ErrorType | ReflectType | ObjectMarshalerType | ArrayMarshalerType | StringerType
    | OtherType

  /** The dynamic content of a Field's Interface slot. */
  datatype Iface = IfaceNil | IfaceError(err: GoError) | IfaceOther(id: nat)

  /**
   * A zapcore.Field. `written` is what Field.AddTo stores under `key` in a
   * map object encoder; `iface` is the Interface slot.
   */
  datatype Field = Field(key: string, typ: FieldType, written: Value, iface: Iface)

  /** zapcore.EntryCaller. */
  datatype EntryCaller = EntryCaller(defined: bool, file: string, line: int, funcName: string)

  /** The parts of zapcore.Entry that the adapter reads. */
  datatype Entry = Entry(level: Level, message: string, caller: EntryCaller)

  /** zapcore.CheckedEntry: an entry and the cores that will write it. */
  datatype CheckedEntry<C> = CheckedEntry(entry: Entry, cores: seq<C>)

  /**
   * CheckedEntry.AddCore: on a nil checked entry it starts a new one for
   * `ent`; otherwise it appends `core` to the existing one.
   */
  function AddCore<C>(ce: Option<CheckedEntry<C>>, ent: Entry, core: C): (r: Option<CheckedEntry<C>>)
    ensures r.Some?
    ensures r.value.entry == (if ce.Some? then ce.value.entry else ent)
    ensures r.value.cores == (if ce.Some? then ce.value.cores else []) + [core]
  {
    match ce
    case None => Some(CheckedEntry(ent, [core]))
    case Some(c) => Some(c.(cores := c.cores + [core]))
  }
}
