/** Vocabulary shared by every part of the monitoring backend. */
module Types {

  type MonitorId = string
  type Region = string
  type UserId = string
  type OrgId = string

  datatype Option<+T> = None | Some(value: T)

  /** Outcome of one check, and the severity of an incident. */
  datatype Status = UP | DEGRADED | DOWN

  /** Times and durations of the alerting tables are whole milliseconds. */
  const SECOND: int := 1000

  /** COALESCE(x, y) over nullable columns. */
  function OrElse<T>(x: Option<T>, y: T): T {
    if x.Some? then x.value else y
  }

  /** Integer division that truncates toward zero. */
  function TruncDiv(a: int, b: int): int
    requires b > 0
  {
    if a >= 0 then a / b else -((-a) / b)
  }

  lemma SubsetSize<T>(a: set<T>, b: set<T>)
    requires a <= b
    ensures |a| <= |b|
  {
    assert b == a + (b - a);
  }
}
