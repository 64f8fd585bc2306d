# wal-g PostgreSQL connection negotiation, in Dafny

This project models `Connect` and `tryConnectToGpSegment` from wal-g's
`internal/databases/postgres/connect.go`. These functions open the agent's
connection to PostgreSQL or Greenplum. A call does the following:

- It reads a connection config from the environment and applies the caller's
  config options in order.
- It tries the config as it is. If that fails, it tries the two Greenplum
  utility-mode variants (`gp_role=utility`, then `gp_session_role=utility`).
- If those fail too and the host is not `localhost`, it makes a last attempt
  on `localhost:5432`.
- On a connection, it checks `archive_mode` and, only when that is `on` or
  `always`, checks `archive_command`. It warns when archiving looks off.

Files:

- `types.dfy`: modules `Wrappers` and `ConnTypes`. These hold the settings
  (`host`, `port` as a `uint16`, `runtimeParams`), the driver and server
  outcomes, the errors and the log lines.
- `negotiation.dfy`: module `Negotiation`. It is a reference description of a
  whole call. The attempts are a fixed list of candidate settings
  (`Candidates`) tried in order until one connects (`FirstSuccess`). The
  health check is a function of the two query results. The lemmas prove the
  properties the code promises about that description.
- `connect.dfy`: module `Postgres`. This is the code, step by step. A `Config`
  class is changed in place by the options, by `TryConnectToGpSegment` and by
  the localhost fallback. `Connect` is proved to return exactly the result,
  attempts, statements and log lines that `Negotiation.ConnectTrace`
  describes. For the proof, the body of `Connect` is split into three methods,
  one per phase: `ApplyConfigOptions`, `DialWithFallback` and `CheckArchiving`.
  `ConnectConfig` and `QueryRow` are stand-ins for the `pgx.ConnectConfig` and
  `QueryRow` calls: they only consult the oracles and record the attempt or
  statement, and their contracts prove nothing about the source.

The outside world enters as parameters:

- `pgx.ParseConfig("")` is the input `env`: settings or an error.
- `pgx.ConnectConfig` is the oracle `dial`. It gives the outcome of attempt
  number `n` of the call, made with the given settings, so each attempt's
  outcome can be chosen independently.
- `QueryRow(...).Scan` is the oracle `query`. It gives what a statement
  returns on a connection.
- The two loggers are the returned `log` sequence of `LogLine` values.

Errors are tagged, not text. `Bare(e)` is an option's error returned
unwrapped, as the code does. `Wrapped(context, e)` stands for `errors.Wrap`.
When the `archive_command` query fails, the source wraps the error with the
same "archive_mode test failed" message as an `archive_mode` failure. The
model keeps this: both failures use the context `ArchiveModeTestFailed`.

Points of the code's behaviour worth knowing:

- The config is changed in place, not copied per attempt.
- The localhost attempt keeps `gp_session_role=utility`, left over from the
  second utility-mode attempt. It does not fall back to a clean map.
- At most one warning can fire in a call, because `archive_command` is only
  read when `archive_mode` is enabled.
- A connection whose health check fails is not closed.

## Model

| member | source | states |
|---|---|---|
| `Postgres.Connect` | internal/databases/postgres/connect.go:17-78 | Returns exactly the result, attempt list, statements and log lines of `ConnectTrace`, on every environment, option list, driver and server. |
| `Postgres.Config.constructor` | internal/databases/postgres/connect.go:18 | The config built from the environment's settings holds exactly those settings. |
| `Postgres.ApplyConfigOptions` | internal/databases/postgres/connect.go:23-29 | Applies the options to the shared config in order. It fails exactly when `ApplyOptions` does, with the same error. Otherwise the config then holds the settings all options produced. |
| `Postgres.TryConnectToGpSegment` | internal/databases/postgres/connect.go:80-90 | First attempts with runtime params replaced by exactly `{gp_role: utility}`. Only if that is refused, attempts with exactly `{gp_session_role: utility}`. Host and port are unchanged. The config keeps the map of the last attempt. The result is the last attempt's outcome. |
| `Postgres.DialWithFallback` | internal/databases/postgres/connect.go:31-46 | Makes exactly the attempts and log lines of `DialInOrder` on the config as it was. Connects exactly when `DialInOrder` does; otherwise its error wraps the cause returned. Leaves the config holding the settings of the last attempt. |
| `Postgres.CheckArchiving` | internal/databases/postgres/connect.go:48-77 | Issues exactly the statements, and writes exactly the warnings, of `HealthCheck`, with the same result. |
| `Negotiation.FailureSticks` | internal/databases/postgres/connect.go:24-29 | Once an option has failed, applying more options leaves the failure unchanged. |
| `Negotiation.FirstRejectionIsReturned` | internal/databases/postgres/connect.go:24-29 | When option `i` is the first to fail, applying all options yields that option's error. |
| `Negotiation.RejectionHasFirstCause` | internal/databases/postgres/connect.go:24-29 | Applying the first `n` options fails if and only if one of them is the first to fail. |
| `Negotiation.OptionsAppliedInOrder` | internal/databases/postgres/connect.go:24-29 | Applying the options fails if and only if some option is the first to fail, and then the result is that option's error. |
| `Negotiation.OptionErrorReturnedAsIs` | internal/databases/postgres/connect.go:24-29 | When an option fails, the call returns the first failing option's error unwrapped. It makes no attempt, issues no statement and writes no log line. |
| `Negotiation.EnvironmentFailureMakesNoAttempt` | internal/databases/postgres/connect.go:18-21 | When the environment cannot be read, the call returns that error wrapped as "unable to read environment variables", and nothing else happens. |
| `Negotiation.FirstSuccess` | internal/databases/postgres/connect.go:31-44 | The position found is within bounds. Every attempt before it is refused. The attempt at it, if any, connects. |
| `Negotiation.DialInOrderCases` | internal/databases/postgres/connect.go:31-46 | The first-success description of the attempts agrees with the code's nested fallbacks, case by case, in attempts, log lines and result. |
| `Negotiation.DirectAttemptFirst` | internal/databases/postgres/connect.go:31-33 | The first attempt uses the configured settings unchanged. It is the only attempt if and only if it connects; the call then returns its connection and logs nothing. |
| `Negotiation.SegmentAttempts` | internal/databases/postgres/connect.go:81-89 | The second attempt happens if and only if the first is refused, with runtime params exactly `{gp_role: utility}`. The third happens if and only if the second is refused too, with exactly `{gp_session_role: utility}`. Neither changes host or port, and neither sets both keys. |
| `Negotiation.LocalhostFallback` | internal/databases/postgres/connect.go:35-40 | A fourth attempt happens if and only if the host is not "localhost" and the first three attempts were refused. It uses `localhost:5432` with `{gp_session_role: utility}`. The error log carries the utility-mode error and the announcement exactly then, and is empty otherwise. |
| `Negotiation.AttemptBound` | internal/databases/postgres/connect.go:31-41 | Between one and four attempts are made, always a prefix of the candidate list. With host "localhost" there are at most three, and the candidate list has no fallback entry. |
| `Negotiation.LastErrorSurfaced` | internal/databases/postgres/connect.go:43-44 | Every attempt before the last was refused. The call fails if and only if the last attempt was refused, and then the error wraps the last attempt's cause. Otherwise the connection is the last attempt's. |
| `Negotiation.ArchiveCommandQueriedIffEnabled` | internal/databases/postgres/connect.go:51-64 | `show archive_mode` is always issued first. `show archive_command` is issued, once, if and only if archive_mode was read as "on" or "always". |
| `Negotiation.HealthWarnings` | internal/databases/postgres/connect.go:57-74 | The archive_mode warning fires if and only if archive_mode was read and is neither "on" nor "always". The archive_command warning fires if and only if archiving is enabled and the command read is empty or "(disabled)". At most one warning fires. |
| `Negotiation.HealthCheckResult` | internal/databases/postgres/connect.go:51-77 | The health check fails if and only if a query it issued failed, with that query's error. Otherwise it returns the connection, whatever it warned. |
| `Negotiation.QueriesOnlyAfterConnect` | internal/databases/postgres/connect.go:31-51 | A call makes at most four attempts. It issues statements if and only if its last attempt connected. |
| `Negotiation.AtMostOneWarning` | internal/databases/postgres/connect.go:35-74 | A whole call never writes two warnings. |
| `Negotiation.RemoteHostFallsBackToLocalhost` | internal/databases/postgres/connect.go:31-77 | Setup: host 10.0.0.1 whose first three attempts fail, a localhost attempt that connects, archive_mode "on" and an empty archive_command. The call succeeds after four attempts, issues both statements, and logs the fallback lines and only the archive_command warning. |
| `Negotiation.LocalhostGetsNoFallback` | internal/databases/postgres/connect.go:31-45 | Setup: host "localhost" whose first three attempts fail. The call fails with the third attempt's error after exactly those three attempts, with no localhost attempt, statement or log line. |

## Left out

- The `pgx` wire protocol, authentication and sockets: each attempt is one answer of the `dial` oracle.
- Reading PGHOST/PGPORT in `pgx.ParseConfig("")`: its outcome is the input `env`.
- Executing `show archive_mode` / `show archive_command`: their rows are answers of the `query` oracle.
- `context.Context` cancellation and timeouts: they belong to the driver.
- Log message texts and the exact `errors.Wrap` texts: they are tags (`LogLine`, `Context`).
- Closing the connection and resource ownership: the code never closes a connection whose health check failed.
- Config options that change the config and then fail: only the outcome is modelled, because the config is then discarded and the partial change cannot be seen.
