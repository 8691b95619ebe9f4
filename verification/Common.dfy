/** Small shared vocabulary. */
module Common {
  datatype Option<+T> = None | Some(value: T)

  /** The length of a day in milliseconds. */
  const DAY: int := 24 * 60 * 60 * 1000

  function Min(a: nat, b: nat): nat { if a < b then a else b }

  /** A table of counters: codes that were never counted stand at zero. */
  function At(counters: map<string, nat>, code: string): nat {
    if code in counters then counters[code] else 0
  }
}
