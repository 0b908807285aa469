/** The log level shared with the UI (`LogEntryLevel`), its `u8` wire form,
    its correspondence with the tracing crate's `Level`, and its ordering. */
module TsLog {
  import opened Prelude

  /** The UI-facing level; the Rust enum is `#[repr(u8)]` with
      discriminants TRACE = 0 up to ERROR = 4. */
  datatype LogEntryLevel = TRACE | DEBUG | INFO | WARN | ERROR

  /** The tracing crate's `Level`. */
  datatype Level = TRACE | DEBUG | INFO | WARN | ERROR

  /** Rust's `std::cmp::Ordering` */
  datatype Ordering = Less | Equal | Greater

  /** Why a `u8` is not a level. */
  datatype LevelError = InvalidLogEntryLevel(value: U8)

  // ---------------------------------------------------------------------------
  // The tracing crate's `Level`, as far as this core relies on it
  // ---------------------------------------------------------------------------

  /** tracing stores a level as TRACE = 0, DEBUG = 1, INFO = 2, WARN = 3,
      ERROR = 4 and compares the stored numbers in reverse, so that a more
      verbose level is the greater one. */
  function LevelInner(l: Level): nat {
    match l
    case TRACE => 0
    case DEBUG => 1
    case INFO => 2
    case WARN => 3
    case ERROR => 4
  }

  function CompareNat(x: nat, y: nat): (r: Ordering)
    ensures r == Equal <==> x == y
    ensures r == Less <==> x < y
  {
    if x < y then Less else if x == y then Equal else Greater
  }

  /** `Ord for Level`: TRACE is the greatest level and ERROR the least. */
  function LevelCmp(a: Level, b: Level): Ordering {
    CompareNat(LevelInner(b), LevelInner(a))
  }

  /** The name tracing's `Display for Level` prints. */
  function LevelName(l: Level): string {
    match l
    case TRACE => "TRACE"
    case DEBUG => "DEBUG"
    case INFO => "INFO"
    case WARN => "WARN"
    case ERROR => "ERROR"
  }

  // ---------------------------------------------------------------------------
  // Conversions of LogEntryLevel
  // ---------------------------------------------------------------------------

  /** `Default for LogEntryLevel`: the level with discriminant 2. */
  function DefaultLevel(): (l: LogEntryLevel)
    ensures ToU8(l) == 2
  {
    LogEntryLevel.INFO
  }

  /** `From<LogEntryLevel> for u8`: the enum's discriminant. */
  function ToU8(l: LogEntryLevel): (r: U8)
    ensures r < 5
  {
    match l
    case TRACE => 0
    case DEBUG => 1
    case INFO => 2
    case WARN => 3
    case ERROR => 4
  }

  /** `TryFrom<u8> for LogEntryLevel`: only the five discriminants are levels. */
  function TryFromU8(v: U8): (r: Result<LogEntryLevel, LevelError>)
    ensures r.Ok? <==> v < 5
    ensures r.Err? ==> r.error == InvalidLogEntryLevel(v)
  {
    match v
    case 0 => Ok(LogEntryLevel.TRACE)
    case 1 => Ok(LogEntryLevel.DEBUG)
    case 2 => Ok(LogEntryLevel.INFO)
    case 3 => Ok(LogEntryLevel.WARN)
    case 4 => Ok(LogEntryLevel.ERROR)
    case _ => Err(InvalidLogEntryLevel(v))
  }

  /** `From<&Level> for LogEntryLevel` (and `From<Level>`, which delegates to it). */
  function FromLevel(l: Level): (r: LogEntryLevel)
    ensures ToU8(r) == LevelInner(l)
  {
    match l
    case TRACE => LogEntryLevel.TRACE
    case DEBUG => LogEntryLevel.DEBUG
    case INFO => LogEntryLevel.INFO
    case WARN => LogEntryLevel.WARN
    case ERROR => LogEntryLevel.ERROR
  }

  /** `From<&LogEntryLevel> for Level` */
  function ToLevel(l: LogEntryLevel): (r: Level)
    ensures LevelInner(r) == ToU8(l)
  {
    match l
    case TRACE => Level.TRACE
    case DEBUG => Level.DEBUG
    case INFO => Level.INFO
    case WARN => Level.WARN
    case ERROR => Level.ERROR
  }

  /** `From<&str> for LogEntryLevel`: parse with tracing's `Level::from_str`
      (given here as `parse`) and fall back to INFO when it rejects `s`. */
  function FromStr(s: string, parse: string -> Option<Level>): (r: LogEntryLevel)
    ensures parse(s).None? ==> r == DefaultLevel()
    ensures parse(s).Some? ==> ToLevel(r) == parse(s).value
  {
    match parse(s)
    case None => FromLevel(Level.INFO)
    case Some(l) => FromLevel(l)
  }

  /** `Ord for LogEntryLevel`: compare the corresponding tracing levels.
      `PartialOrd::partial_cmp` is `Some` of this. */
  function Cmp(a: LogEntryLevel, b: LogEntryLevel): (r: Ordering)
    ensures r == Equal <==> a == b
    ensures r == Less <==> ToU8(b) < ToU8(a)
  {
    LevelCmp(ToLevel(a), ToLevel(b))
  }

  // ---------------------------------------------------------------------------
  // Properties
  // ---------------------------------------------------------------------------

  /** Every level survives the trip through its `u8` discriminant. */
  lemma U8RoundTrip(l: LogEntryLevel)
    ensures TryFromU8(ToU8(l)) == Ok(l)
  {
  }

  /** Every byte below 5 is the discriminant of exactly the level it decodes
      to; every other byte is rejected. */
  lemma TryFromU8Inverse(v: U8)
    ensures v < 5 ==> TryFromU8(v).Ok? && ToU8(TryFromU8(v).value) == v
    ensures 5 <= v ==> TryFromU8(v) == Err(InvalidLogEntryLevel(v))
  {
  }

  /** The discriminants are the ones the enum declares. */
  lemma DiscriminantValues()
    ensures ToU8(LogEntryLevel.TRACE) == 0 && ToU8(LogEntryLevel.DEBUG) == 1
    ensures ToU8(LogEntryLevel.INFO) == 2 && ToU8(LogEntryLevel.WARN) == 3
    ensures ToU8(LogEntryLevel.ERROR) == 4
  {
  }

  /** `LogEntryLevel` and tracing's `Level` are in bijection. */
  lemma LevelRoundTrip(l: LogEntryLevel, t: Level)
    ensures FromLevel(ToLevel(l)) == l
    ensures ToLevel(FromLevel(t)) == t
  {
  }

  /** Names keep their meaning: a level is converted to the tracing level
      with the same name. */
  lemma ToLevelKeepsName(l: LogEntryLevel)
    ensures LevelName(ToLevel(l)) == ["TRACE", "DEBUG", "INFO", "WARN", "ERROR"][ToU8(l)]
  {
  }

  /** A string tracing does not recognise becomes INFO; one it does becomes
      the matching level. */
  lemma FromStrFallback(s: string, parse: string -> Option<Level>)
    ensures parse(s).None? ==> FromStr(s, parse) == LogEntryLevel.INFO
    ensures parse(s).Some? ==> FromStr(s, parse) == FromLevel(parse(s).value)
  {
  }

  /** Two levels compare Equal exactly when they are the same level. */
  lemma CmpEqualIff(a: LogEntryLevel, b: LogEntryLevel)
    ensures Cmp(a, b) == Equal <==> a == b
  {
  }

  /** Under tracing's order the comparison is the reverse of the comparison
      of the `u8` discriminants. */
  lemma CmpReversesDiscriminants(a: LogEntryLevel, b: LogEntryLevel)
    ensures Cmp(a, b) == CompareNat(ToU8(b), ToU8(a))
  {
  }

  /** The comparison is a total order: antisymmetric and transitive, with
      TRACE the greatest and ERROR the least level. */
  lemma CmpTotalOrder(a: LogEntryLevel, b: LogEntryLevel, c: LogEntryLevel)
    ensures Cmp(a, b) == Less <==> Cmp(b, a) == Greater
    ensures Cmp(a, b) == Less && Cmp(b, c) == Less ==> Cmp(a, c) == Less
    ensures Cmp(a, LogEntryLevel.TRACE) != Greater
    ensures Cmp(LogEntryLevel.ERROR, a) != Greater
  {
  }
}
