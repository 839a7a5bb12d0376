/** Values shared by every controller: optional request fields, JavaScript
    truthiness, the HTTP reply shape and millisecond timestamps. */
module Common {

  datatype Option<+T> = None | Some(value: T)

  type UserId = nat

  /** `!field` in a handler is false exactly for a present, non-empty string:
      a missing field and "" are both falsy. */
  predicate Truthy(field: Option<string>) {
    field.Some? && field.value != ""
  }

  /** What a handler sends back: the status code, the `message` or `error`
      text, and the JSON payload when there is one. */
  datatype Response<+T> = Response(status: int, text: string, payload: Option<T>)

  function Reply<T>(status: int, text: string): Response<T> {
    Response(status, text, None)
  }

  /** Timestamps are integer milliseconds since the epoch; a calendar day is
      an integer day index (the time zone is abstracted away). */
  const MsPerDay: int := 86_400_000

  /** The day a timestamp falls on (`setHours(0, 0, 0, 0)` of its date). */
  function DayOf(t: int): int {
    t / MsPerDay
  }

  /** 00:00:00.000 of day `d`. */
  function DayStart(d: int): int {
    d * MsPerDay
  }

  /** 23:59:59.999 of day `d`. */
  function DayEnd(d: int): int {
    d * MsPerDay + MsPerDay - 1
  }

  /** The suffix of `s` from `a` is its part up to position `j`, the element
      at `j` and its part after. */
  lemma CutAt<T>(s: seq<T>, a: nat, j: nat)
    requires a <= j < |s|
    ensures s[a..] == s[a..j] + [s[j]] + s[j + 1..]
  {
  }

  /** The bounds `[start, end]` built with `setHours` enclose exactly the
      timestamps of that day. */
  lemma WithinDayBounds(t: int, d: int)
    ensures DayStart(d) <= t <= DayEnd(d) <==> DayOf(t) == d
  {
    var q, r := t / MsPerDay, t % MsPerDay;
    assert t == q * MsPerDay + r && 0 <= r < MsPerDay;
    if q < d {
      assert q * MsPerDay <= (d - 1) * MsPerDay;
    } else if q > d {
      assert (d + 1) * MsPerDay <= q * MsPerDay;
    }
  }
}
