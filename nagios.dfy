/** The Nagios plugin status codes shared by every probe, and their names. */
module Nagios {

  const StatusUnknown: int := -1
  const StatusOk: int := 0
  const StatusWarning: int := 1
  const StatusCritical: int := 2

  /** The name table used to render a status code as text. */
  const StatusNames: map<int, string> :=
    map[StatusOk := "OK", StatusWarning := "WARNING", StatusCritical := "CRITICAL", StatusUnknown := "UNKNOWN"]

  /** Severity order: UNKNOWN < OK < WARNING < CRITICAL, which is the order of the codes. */
  function MaxStatus(a: int, b: int): (r: int)
    ensures r >= a && r >= b
    ensures r == a || r == b
  {
    if a >= b then a else b
  }
}
