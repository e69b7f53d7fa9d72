/** What all that deals with conditions agrees on. */
module ConditionCommon {
  /** How many skills and stats a player has. */
  const SKILLS := 7
  const STATS := 5

  /** One round of damage: what is left of its time, the damage, and the time between rounds. */
  datatype Interval<+T> = Interval(timeLeft: T, value: T, interval: T)

  /** Whether a condition outlives its creature's leaving. */
  predicate IsPersistent(ticks: int, id: int) {
    ticks > 0 && (id == -1 || id != 0)
  }
}
