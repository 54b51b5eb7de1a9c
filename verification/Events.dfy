/** Event kinds, modes and the timestamp match that the scheduler and the clock share. */
module Events {
  datatype EventType =
    | INVALID | CONFIGURE | START | DATA | PARAMETER_CHANGE | STOP | TEARDOWN
    | DATAFLOW_NO_OP | DATAFLOW_STOP

  datatype SourceMode = WAIT_FOR_BUFFER | IMMEDIATE_RETURN

  datatype MissingSourceEventMode = WAIT_FOR_EVENT | CANCEL_OLDEST

  /** An entry of the scheduler's queue; `invalidSources` lists sources that will not deliver. */
  datatype ScheduledEvent = ScheduledEvent(
    timestamp: int,
    kind: EventType,
    invalidSources: seq<nat>,
    changedPattern: string)

  /** Two timestamps match when the intervals of `offset` around them overlap. */
  predicate IsWithinRange(a: int, b: int, offset: int) {
    a + offset >= b - offset && a - offset <= b + offset
  }

  const TIMESTAMP_ZERO := 0
}
