/** Values that one report cycle of the unit status reporter reads and produces. */
module StatusTypes {

  /** What the runtime's fresh inspection of one container returned. */
  datatype Inspection =
    | NotManaged                                  // the container lacks the unit's environment markers
    | InspectError                                // any other inspection failure
    | Inspected(restarting: bool, running: bool)  // the container's state flags

  /** One entry of the runtime's container list (all containers, stopped ones too). */
  datatype ApiContainer = ApiContainer(id: string, names: seq<string>)

  /** A listed container together with what inspecting it returns in this cycle. */
  datatype Listed = Listed(container: ApiContainer, inspection: Inspection)

  /** One entry of the report sent to the remote. */
  datatype ContainerStatus = ContainerStatus(id: string, name: string, status: string)

  /** One entry of the remote's reply: whether it still tracks the unit. */
  datatype RespUnit = RespUnit(id: string, found: bool)

  /** The reporter's configuration; immutable for the reporter's lifetime. */
  datatype ReporterConfig = ReporterConfig(
    interval: nat,           // nanoseconds between cycles
    dockerEndpoint: string,
    tsuruEndpoint: string,
    tsuruToken: string)

  /** An optional value; an absent error stands for Go's nil. */
  datatype Option<T> = None | Some(value: T)

  /** An operation that yields a value or fails with a message. */
  datatype Result<T> = Ok(value: T) | Err(error: string)

  const StatusStarted: string := "started"
  const StatusStopped: string := "stopped"
  const StatusError: string := "error"

  /** The three labels a reported unit can carry. */
  predicate IsLabel(s: string) {
    s == StatusStarted || s == StatusStopped || s == StatusError
  }
}
