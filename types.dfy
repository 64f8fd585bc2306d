/** Result wrapper used for error returns (Go's `(value, error)` pairs). */
module Wrappers {
  datatype Result<+T, +E> = Success(value: T) | Failure(error: E)
}

/**
  The values that flow through `Connect` in internal/databases/postgres/connect.go:
  the connection settings it negotiates with, the outcomes reported by the driver
  (`pgx.ConnectConfig`, `QueryRow(...).Scan`), the errors it returns and the log lines
  it writes.
 */
module ConnTypes {
  import opened Wrappers

  /** `pgx.ConnConfig.Port` is a `uint16`. */
  type Port = p: int | 0 <= p < 0x1_0000

  /** The fields of `pgx.ConnConfig` that the negotiation reads or overwrites. */
  datatype Settings = Settings(host: string, port: Port, runtimeParams: map<string, string>)

  /** An error reported by the driver or by a config option; its text is opaque. */
  datatype DriverError = DriverError(message: string)

  /** An established session (`*pgx.Conn`), opaque here. */
  datatype Conn = Conn(id: nat)

  /** Outcome of one `pgx.ConnectConfig` call. */
  datatype Dialed = Connected(conn: Conn) | Refused(cause: DriverError)

  /**
    The driver seen as an oracle: the outcome of the attempt with the given
    number (0 for the first attempt of a `Connect` call) made with the given settings.
   */
  type Dial = (nat, Settings) -> Dialed

  /** The two health-check statements `Connect` issues. */
  datatype Query = ShowArchiveMode | ShowArchiveCommand

  /** Outcome of `QueryRow(...).Scan` into a string. */
  datatype Row = Row(value: string) | QueryFailed(cause: DriverError)

  /** The server seen as an oracle: what a statement returns on a connection. */
  type QueryOracle = (Conn, Query) -> Row

  /** A config option (`func(*pgx.ConnConfig) error`): new settings, or an error. */
  type ConfigOption = Settings -> Result<Settings, DriverError>

  /** The context `errors.Wrap` adds in front of a cause. */
  datatype Context =
    | EnvironmentUnreadable   // "Connect: unable to read environment variables"
    | ConnectionFailed        // "Connect: postgres connection failed"
    | ArchiveModeTestFailed   // "Connect: postgres archive_mode test failed"

  /** The error `Connect` returns: an option's error as-is, or a wrapped cause. */
  datatype ConnectError = Bare(cause: DriverError) | Wrapped(context: Context, cause: DriverError)

  /** The lines `Connect` writes to the error and warning loggers. */
  datatype LogLine =
    | SegmentError(cause: DriverError)   // error log: the utility-mode step's error
    | TryingLocalhost                    // error log: announces the localhost:5432 attempt
    | ArchiveModeWarning                 // warning log: archive_mode is not enabled
    | ArchiveCommandWarning              // warning log: archive_command is not configured

  predicate IsWarning(l: LogLine) {
    l.ArchiveModeWarning? || l.ArchiveCommandWarning?
  }
}
