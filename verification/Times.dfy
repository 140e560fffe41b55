/** Times as seconds since the Unix epoch. */
module Times {
  /** The zero time, year 1. */
  const ZERO_TIME := -62135596800
}
