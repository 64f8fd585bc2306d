/**
  internal/databases/postgres/connect.go, step by step: one `Config` object is
  created from the environment, changed in place by the options, by the
  utility-mode step and by the localhost fallback, and handed to the driver at
  each attempt.

  The driver and the server are oracles (`Dial`, `QueryOracle`). Each call
  hands back, beside its result, the settings of every attempt, the
  statements issued and the log lines written, and `Connect` is proved to
  produce exactly `Negotiation.ConnectTrace`.
 */
module Postgres {
  import opened Wrappers
  import opened ConnTypes
  import opened Negotiation

  /** The `*pgx.ConnConfig` shared by `Connect`, its options and `tryConnectToGpSegment`. */
  class Config {
    var host: string
    var port: Port
    var runtimeParams: map<string, string>

    constructor (s: Settings)
      ensures Current() == s
    {
      host, port, runtimeParams := s.host, s.port, s.runtimeParams;
    }

    /** The settings the driver sees if handed this config now. */
    function Current(): (s: Settings)
      reads this
    {
      Settings(host, port, runtimeParams)
    }
  }

  /**
    Stand-in for `pgx.ConnectConfig`: one attempt with the config as it is
    now; `made` holds the settings of the earlier attempts of this call.
   */
  method ConnectConfig(dial: Dial, config: Config, made: seq<Settings>)
    returns (d: Dialed, made': seq<Settings>)
    ensures made' == made + [config.Current()]
    ensures d == dial(|made|, config.Current())
  {
    d := dial(|made|, config.Current());
    made' := made + [config.Current()];
  }

  /** Stand-in for `conn.QueryRow(ctx, q).Scan(&s)`; `issued` holds the earlier statements. */
  method QueryRow(query: QueryOracle, conn: Conn, q: Query, issued: seq<Query>)
    returns (row: Row, issued': seq<Query>)
    ensures issued' == issued + [q]
    ensures row == query(conn, q)
  {
    row := query(conn, q);
    issued' := issued + [q];
  }

  /**
    `tryConnectToGpSegment`: replace the runtime parameters by `gp_role=utility`
    and try; if that fails, replace them by `gp_session_role=utility` and try
    again. Host and port are left alone; the config keeps the last map set.
   */
  method TryConnectToGpSegment(dial: Dial, config: Config, made: seq<Settings>)
    returns (d: Dialed, made': seq<Settings>)
    modifies config
    ensures config.host == old(config.host) && config.port == old(config.port)
    ensures var first := UtilityMode(old(config.Current()));
      var second := SessionUtilityMode(old(config.Current()));
      if dial(|made|, first).Connected? then
        && made' == made + [first]
        && d == dial(|made|, first)
        && config.runtimeParams == map["gp_role" := "utility"]
      else
        && made' == made + [first, second]
        && d == dial(|made| + 1, second)
        && config.runtimeParams == map["gp_session_role" := "utility"]
  {
    config.runtimeParams := map[GpRole := Utility];
    d, made' := ConnectConfig(dial, config, made);
    if d.Refused? {
      config.runtimeParams := map[GpSessionRole := Utility];
      d, made' := ConnectConfig(dial, config, made');
    }
  }

  /**
    The option loop of `Connect`: apply each option to the config in order,
    stopping at the first that fails and handing back its error.
   */
  method ApplyConfigOptions(config: Config, options: seq<ConfigOption>) returns (r: Result<(), DriverError>)
    modifies config
    ensures var applied := ApplyOptions(old(config.Current()), options);
      && (r.Failure? <==> applied.Failure?)
      && (r.Failure? ==> r.error == applied.error)
      && (r.Success? ==> config.Current() == applied.value)
  {
    ghost var s := config.Current();
    var i := 0;
    while i < |options|
      invariant i <= |options|
      invariant AppliedPrefix(s, options, i) == Success(config.Current())
    {
      var applied := options[i](config.Current());
      if applied.Failure? {
        FirstRejectionIsReturned(s, options, i);
        return Failure(applied.error);
      }
      config.host, config.port, config.runtimeParams := applied.value.host, applied.value.port, applied.value.runtimeParams;
      i := i + 1;
    }
    return Success(());
  }

  /**
    The attempts of `Connect`: the config as it is, then `tryConnectToGpSegment`,
    then, unless the host is "localhost", localhost:5432 on the same config.
   */
  method DialWithFallback(dial: Dial, config: Config) returns (d: Dialed, attempts: seq<Settings>, log: seq<LogLine>)
    modifies config
    ensures var dialing := DialInOrder(old(config.Current()), dial);
      && attempts == dialing.attempts
      && log == dialing.log
      && (d.Connected? <==> dialing.result.Success?)
      && (d.Connected? ==> dialing.result.value == d.conn)
      && (d.Refused? ==> dialing.result.error == Wrapped(ConnectionFailed, d.cause))
    ensures |attempts| >= 1 && config.Current() == attempts[|attempts| - 1]
  {
    ghost var base := config.Current();
    ghost var c := Candidates(base);
    DialInOrderCases(base, dial);
    log := [];
    d, attempts := ConnectConfig(dial, config, []);
    if d.Refused? {
      d, attempts := TryConnectToGpSegment(dial, config, attempts);
      if d.Refused? && config.host != "localhost" {
        log := log + [SegmentError(d.cause), TryingLocalhost];
        config.host := "localhost";
        config.port := 5432;
        assert config.Current() == c[3];
        d, attempts := ConnectConfig(dial, config, attempts);
      }
    }
  }

  /**
    The health check of `Connect` on a fresh connection: `show archive_mode`,
    and `show archive_command` only when archive_mode is "on" or "always".
   */
  method CheckArchiving(query: QueryOracle, conn: Conn) returns (r: Result<Conn, ConnectError>, queries: seq<Query>, log: seq<LogLine>)
    ensures Health(queries, log, r) == HealthCheck(conn, query)
  {
    log := [];
    var mode;
    mode, queries := QueryRow(query, conn, ShowArchiveMode, []);
    if mode.QueryFailed? {
      return Failure(Wrapped(ArchiveModeTestFailed, mode.cause)), queries, log;
    }
    if mode.value != "on" && mode.value != "always" {
      log := log + [ArchiveModeWarning];
    } else {
      var command;
      command, queries := QueryRow(query, conn, ShowArchiveCommand, queries);
      if command.QueryFailed? {
        return Failure(Wrapped(ArchiveModeTestFailed, command.cause)), queries, log;
      }
      if |command.value| == 0 || command.value == "(disabled)" {
        log := log + [ArchiveCommandWarning];
      }
    }
    r := Success(conn);
  }

  /**
    `Connect`: `env` is what `pgx.ParseConfig("")` made of the environment.
    Apply the options in order, make the attempts, and on a connection run
    the health check.
   */
  method Connect(env: Result<Settings, DriverError>, options: seq<ConfigOption>, dial: Dial, query: QueryOracle)
    returns (r: Result<Conn, ConnectError>, attempts: seq<Settings>, queries: seq<Query>, log: seq<LogLine>)
    ensures Trace(attempts, queries, log, r) == ConnectTrace(env, options, dial, query)
  {
    attempts, queries, log := [], [], [];
    if env.Failure? {
      r := Failure(Wrapped(EnvironmentUnreadable, env.error));
      return;
    }
    var config := new Config(env.value);
    var applied := ApplyConfigOptions(config, options);
    if applied.Failure? {
      r := Failure(Bare(applied.error));
      return;
    }
    ConnectTracePhases(env.value, options, config.Current(), dial, query);

    var d;
    d, attempts, log := DialWithFallback(dial, config);
    if d.Refused? {
      r := Failure(Wrapped(ConnectionFailed, d.cause));
      return;
    }

    var healthLog;
    r, queries, healthLog := CheckArchiving(query, d.conn);
    log := log + healthLog;
  }
}
