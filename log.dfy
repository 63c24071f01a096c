/**
 * The level filter of log.c: the global settings hold a verbosity clamped
 * into NONE..FATAL, a message is written when its level is among the
 * `verbosity` most severe ones, and the level picks the stream. Timestamps,
 * colours and the writing itself are not part of this model.
 */
module Log {
  /** enum LogLevel. */
  const LevelNone: int := 0
  const LevelTrace: int := 1
  const LevelDebug: int := 2
  const LevelInfo: int := 3
  const LevelWarning: int := 4
  const LevelError: int := 5
  const LevelFatal: int := 6

  /** The stream a message goes to. */
  datatype Stream = Stdout | Stderr

  /**
   * _log_check_level for a given verbosity: never at NONE, otherwise a level
   * between TRACE and FATAL passes when it is above FATAL - verbosity.
   */
  predicate Emits(verbosity: int, level: int)
  {
    verbosity > LevelNone && LevelTrace <= level <= LevelFatal && level > LevelFatal - verbosity
  }

  /** _log_get_file: levels below WARNING go to stdout, the others to stderr. */
  function FileFor(level: int): (r: Stream)
    ensures r == Stdout <==> level < LevelWarning
  {
    if level < LevelWarning then Stdout else Stderr
  }

  /** With verbosity NONE nothing is ever written. */
  lemma NoneIsSilent(level: int)
    ensures !Emits(LevelNone, level)
  {
  }

  /** Raising the verbosity only adds levels. */
  lemma EmitsMonotone(v1: int, v2: int, level: int)
    requires v1 <= v2 && Emits(v1, level)
    ensures Emits(v2, level)
  {
  }

  /** The levels from lo to hi. */
  function Levels(lo: int, hi: int): (r: set<int>)
    ensures forall l :: l in r <==> lo <= l <= hi
    decreases hi - lo
  {
    if lo > hi then {} else {lo} + Levels(lo + 1, hi)
  }

  lemma {:induction false} LevelsCount(lo: int, hi: int)
    requires lo <= hi + 1
    ensures |Levels(lo, hi)| == hi - lo + 1
    decreases hi - lo
  {
    if lo <= hi {
      LevelsCount(lo + 1, hi);
      assert lo !in Levels(lo + 1, hi);
    }
  }

  /** At verbosity v in NONE..FATAL exactly the v most severe levels are written. */
  lemma EmittedLevels(v: int)
    requires LevelNone <= v <= LevelFatal
    ensures (set l | LevelTrace <= l <= LevelFatal && Emits(v, l)) == Levels(LevelFatal - v + 1, LevelFatal)
    ensures |set l | LevelTrace <= l <= LevelFatal && Emits(v, l)| == v
  {
    assert (set l | LevelTrace <= l <= LevelFatal && Emits(v, l)) == Levels(LevelFatal - v + 1, LevelFatal);
    LevelsCount(LevelFatal - v + 1, LevelFatal);
  }

  /** Up to verbosity INFO only WARNING, ERROR and FATAL can pass, so nothing is written to stdout. */
  lemma QuietVerbosityUsesStderr(v: int, level: int)
    requires v <= LevelInfo && Emits(v, level)
    ensures FileFor(level) == Stderr
  {
  }

  /** The static _log_settings. */
  class LogSettings {
    var verbosity: int
    var enableColor: bool

    predicate Valid()
      reads this
    {
      LevelNone <= verbosity <= LevelFatal
    }

    /** The initial settings: verbosity NONE, colours on. */
    constructor ()
      ensures Valid() && verbosity == LevelNone && enableColor
    {
      verbosity := LevelNone;
      enableColor := true;
    }

    /** log_set_verbosity: the level clamped into NONE..FATAL. */
    method SetVerbosity(level: int)
      modifies this
      ensures Valid() && enableColor == old(enableColor)
      ensures LevelNone <= level <= LevelFatal ==> verbosity == level
      ensures level < LevelNone ==> verbosity == LevelNone
      ensures level > LevelFatal ==> verbosity == LevelFatal
    {
      if level < LevelNone {
        verbosity := LevelNone;
      } else if level > LevelFatal {
        verbosity := LevelFatal;
      } else {
        verbosity := level;
      }
    }

    /** log_enable_color. */
    method EnableColor(enable: bool)
      modifies this
      ensures enableColor == enable && verbosity == old(verbosity)
    {
      enableColor := enable;
    }

    /** _log_check_level. */
    function CheckLevel(level: int): (r: bool)
      reads this
      ensures r == Emits(verbosity, level)
    {
      if verbosity > LevelNone then
        if LevelTrace <= level <= LevelFatal then level > LevelFatal - verbosity else false
      else false
    }
  }
}
