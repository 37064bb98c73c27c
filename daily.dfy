/** The common daily-summary shape both forecast sources are normalised into. */
module Daily {

  /** At most this many days are shown per source (`.slice(0, 6)`). */
  const MaxDays: nat := 6

  /**
   * One day of forecast: the local calendar date, the temperature range,
   * the precipitation total, a Norwegian description and the MET-style
   * symbol key the icon is chosen from.
   */
  datatype DailySummary = DailySummary(
    date: string,
    min: real,
    max: real,
    precip: real,
    description: string,
    symbolCode: string)

  function Min(a: int, b: int): int {
    if a <= b then a else b
  }

  /** `Math.min` on two temperatures. */
  function MinReal(a: real, b: real): real {
    if a <= b then a else b
  }

  /** `Math.max` on two temperatures. */
  function MaxReal(a: real, b: real): real {
    if a >= b then a else b
  }
}
