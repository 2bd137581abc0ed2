/** Log levels, their names and the threshold gate. */
module Levels {

  /** The levels, from least to most severe, then the "no level" pass-through
      and the "disabled" sentinel. */
  datatype Level = Trace | Debug | Info | Warn | Error | Fatal | Panic | NoLevel | Disabled

  /** The level's place in the order (the library's numeric level value). */
  function Rank(l: Level): int
  {
    match l
    case Trace => -1
    case Debug => 0
    case Info => 1
    case Warn => 2
    case Error => 3
    case Fatal => 4
    case Panic => 5
    case NoLevel => 6
    case Disabled => 7
  }

  /** The text a level is written as in the level field. */
  function Name(l: Level): string
  {
    match l
    case Trace => "trace"
    case Debug => "debug"
    case Info => "info"
    case Warn => "warn"
    case Error => "error"
    case Fatal => "fatal"
    case Panic => "panic"
    case NoLevel => ""
    case Disabled => "disabled"
  }

  /** The threshold gate: a call at `level` on a logger whose threshold is
      `threshold` yields a live event. */
  predicate Passes(threshold: Level, level: Level)
  {
    level != Disabled && Rank(level) >= Rank(threshold)
  }

  /** A disabled logger lets nothing through, whatever the call's level. */
  lemma DisabledBlocksAll(level: Level)
    ensures !Passes(Disabled, level)
  {
  }

  /** The gate is monotone: what passes a threshold passes every lower one,
      and a more severe call passes wherever a less severe one does. */
  lemma PassesMonotone(t: Level, t': Level, l: Level, l': Level)
    requires Passes(t, l) && Rank(t') <= Rank(t)
    requires l' != Disabled && Rank(l) <= Rank(l')
    ensures Passes(t', l')
  {
  }

  /** Level names are distinct, so the level field identifies the level. */
  lemma NameInjective(l: Level, l': Level)
    requires Name(l) == Name(l')
    ensures l == l'
  {
  }
}
