/**
  Reference definitions for `Connect` (internal/databases/postgres/connect.go):
  what a call does, described as a whole rather than step by step, and the
  properties the code promises, proved about those definitions.

  The connection attempts are a fixed list of candidate settings tried in order
  until one connects; the post-connect health check is a function of the two
  query results. The imperative model in module Postgres is proved to produce
  exactly the trace that `ConnectTrace` describes.
 */
module Negotiation {
  import opened Wrappers
  import opened ConnTypes

  const Localhost: string := "localhost"
  const DefaultPort: Port := 5432
  const GpRole: string := "gp_role"
  const GpSessionRole: string := "gp_session_role"
  const Utility: string := "utility"

  // ---------------------------------------------------------------------------
  // Config options

  /**
    The settings after the first `n` options, each applied to what the ones
    before it produced, or the error of the first of them that fails.
   */
  function AppliedPrefix(s: Settings, options: seq<ConfigOption>, n: nat): (r: Result<Settings, DriverError>)
    requires n <= |options|
  {
    if n == 0 then Success(s)
    else match AppliedPrefix(s, options, n - 1)
      case Failure(e) => Failure(e)
      case Success(t) => options[n - 1](t)
  }

  /** The settings after every option has been applied in order. */
  function ApplyOptions(s: Settings, options: seq<ConfigOption>): (r: Result<Settings, DriverError>) {
    AppliedPrefix(s, options, |options|)
  }

  /** Option `i` is the first to fail: every option before it succeeded, and it did not. */
  predicate FirstRejection(s: Settings, options: seq<ConfigOption>, i: int) {
    && 0 <= i < |options|
    && AppliedPrefix(s, options, i).Success?
    && options[i](AppliedPrefix(s, options, i).value).Failure?
  }

  /** Once an option has failed, no later option changes the outcome. */
  lemma {:induction false} FailureSticks(s: Settings, options: seq<ConfigOption>, i: nat, n: nat)
    requires i <= n <= |options|
    requires AppliedPrefix(s, options, i).Failure?
    ensures AppliedPrefix(s, options, n) == AppliedPrefix(s, options, i)
  {
    if n > i {
      FailureSticks(s, options, i, n - 1);
    }
  }

  /** The error of the first option that fails is the error of the whole application. */
  lemma FirstRejectionIsReturned(s: Settings, options: seq<ConfigOption>, i: nat)
    requires FirstRejection(s, options, i)
    ensures ApplyOptions(s, options) == options[i](AppliedPrefix(s, options, i).value)
  {
    FailureSticks(s, options, i + 1, |options|);
  }

  /** Applying the first `n` options fails exactly when one of them is the first to fail. */
  lemma {:induction false} RejectionHasFirstCause(s: Settings, options: seq<ConfigOption>, n: nat)
    requires n <= |options|
    ensures AppliedPrefix(s, options, n).Failure? <==> exists i :: 0 <= i < n && FirstRejection(s, options, i)
  {
    if n > 0 {
      RejectionHasFirstCause(s, options, n - 1);
      if AppliedPrefix(s, options, n - 1).Failure? {
        var i :| 0 <= i < n - 1 && FirstRejection(s, options, i);
        assert 0 <= i < n && FirstRejection(s, options, i);
      } else if AppliedPrefix(s, options, n).Failure? {
        assert FirstRejection(s, options, n - 1);
      }
    }
  }

  /**
    Options are applied in order and the first one that fails decides the
    outcome: the application fails if and only if some option is the first to
    fail, and then its error is the result.
   */
  lemma OptionsAppliedInOrder(s: Settings, options: seq<ConfigOption>)
    ensures ApplyOptions(s, options).Failure? <==> exists i :: FirstRejection(s, options, i)
    ensures forall i :: 0 <= i && FirstRejection(s, options, i) ==>
      ApplyOptions(s, options) == options[i](AppliedPrefix(s, options, i).value)
  {
    RejectionHasFirstCause(s, options, |options|);
    forall i | 0 <= i && FirstRejection(s, options, i)
      ensures ApplyOptions(s, options) == options[i](AppliedPrefix(s, options, i).value)
    {
      FirstRejectionIsReturned(s, options, i);
    }
  }

  // ---------------------------------------------------------------------------
  // Connection attempts

  /** The settings with their runtime parameters replaced by `gp_role=utility` alone. */
  function UtilityMode(s: Settings): (r: Settings) {
    s.(runtimeParams := map[GpRole := Utility])
  }

  /** The settings with their runtime parameters replaced by `gp_session_role=utility` alone. */
  function SessionUtilityMode(s: Settings): (r: Settings) {
    s.(runtimeParams := map[GpSessionRole := Utility])
  }

  /**
    The settings `Connect` tries, in order: the configured ones, the two
    utility-mode variants, and, unless the host already is "localhost",
    localhost:5432 with whatever the second variant left in the runtime
    parameters.
   */
  function Candidates(base: Settings): (c: seq<Settings>) {
    [base, UtilityMode(base), SessionUtilityMode(base)]
    + if base.host != Localhost then [SessionUtilityMode(base).(host := Localhost, port := DefaultPort)] else []
  }

  /** The first position, at or after `from`, whose attempt connects; `|c|` when none does. */
  function FirstSuccess(dial: Dial, c: seq<Settings>, from: nat): (k: nat)
    requires from <= |c|
    ensures from <= k <= |c|
    ensures forall j :: from <= j < k ==> dial(j, c[j]).Refused?
    ensures k < |c| ==> dial(k, c[k]).Connected?
    decreases |c| - from
  {
    if from == |c| || dial(from, c[from]).Connected? then from else FirstSuccess(dial, c, from + 1)
  }

  /** What the attempts of one call produce. */
  datatype Dialing = Dialing(attempts: seq<Settings>, log: seq<LogLine>, result: Result<Conn, ConnectError>)

  /**
    The attempts made from `base`: the candidates up to and including the
    first that connects, or all of them, failing with the last one's error.
    The error log announces the localhost attempt when it is made.
   */
  function DialInOrder(base: Settings, dial: Dial): (d: Dialing) {
    var c := Candidates(base);
    var k := FirstSuccess(dial, c, 0);
    var attempts := if k < |c| then c[..k + 1] else c;
    Dialing(
      attempts,
      if |attempts| == 4 then [SegmentError(dial(2, c[2]).cause), TryingLocalhost] else [],
      if k < |c| then Success(dial(k, c[k]).conn)
      else Failure(Wrapped(ConnectionFailed, dial(|c| - 1, c[|c| - 1]).cause)))
  }

  /**
    `DialInOrder` spelled out attempt by attempt, in the shape of the nested
    fallbacks of `Connect`.
   */
  lemma DialInOrderCases(base: Settings, dial: Dial)
    ensures var c := Candidates(base);
      var d := DialInOrder(base, dial);
      if dial(0, c[0]).Connected? then d == Dialing([c[0]], [], Success(dial(0, c[0]).conn))
      else if dial(1, c[1]).Connected? then d == Dialing(c[..2], [], Success(dial(1, c[1]).conn))
      else if dial(2, c[2]).Connected? then d == Dialing(c[..3], [], Success(dial(2, c[2]).conn))
      else if |c| == 3 then d == Dialing(c, [], Failure(Wrapped(ConnectionFailed, dial(2, c[2]).cause)))
      else
        && d.attempts == c
        && d.log == [SegmentError(dial(2, c[2]).cause), TryingLocalhost]
        && d.result == if dial(3, c[3]).Connected? then Success(dial(3, c[3]).conn)
                       else Failure(Wrapped(ConnectionFailed, dial(3, c[3]).cause))
  {
  }

  /** Both utility-mode keys set in one runtime-parameter map. */
  predicate BothRoleKeys(s: Settings) {
    GpRole in s.runtimeParams && GpSessionRole in s.runtimeParams
  }

  /**
    The first attempt uses the settings as configured, and it is the only
    attempt exactly when it connects.
   */
  lemma DirectAttemptFirst(base: Settings, dial: Dial)
    ensures var d := DialInOrder(base, dial);
      && |d.attempts| >= 1
      && d.attempts[0] == base
      && (dial(0, base).Connected? <==> d.attempts == [base])
      && (dial(0, base).Connected? ==> d.log == [] && d.result == Success(dial(0, base).conn))
  {
  }

  /**
    The utility-mode step: the second attempt happens exactly when the first
    fails and sets `gp_role=utility` alone; the third happens exactly when the
    second fails too and sets `gp_session_role=utility` alone. Neither changes
    host or port, and neither sets both keys.
   */
  lemma SegmentAttempts(base: Settings, dial: Dial)
    ensures var d := DialInOrder(base, dial);
      && (|d.attempts| >= 2 <==> dial(0, base).Refused?)
      && (|d.attempts| >= 2 ==> d.attempts[1] == base.(runtimeParams := map["gp_role" := "utility"]))
      && (|d.attempts| >= 3 <==> dial(0, base).Refused? && dial(1, UtilityMode(base)).Refused?)
      && (|d.attempts| >= 3 ==> d.attempts[2] == base.(runtimeParams := map["gp_session_role" := "utility"]))
      && (forall i :: 1 <= i < |d.attempts| && i <= 2 ==>
            d.attempts[i].host == base.host && d.attempts[i].port == base.port && !BothRoleKeys(d.attempts[i]))
  {
  }

  /**
    The localhost fallback: a fourth attempt happens exactly when the host is
    not "localhost" and the first three attempts failed. It uses
    localhost:5432 and keeps `gp_session_role=utility` from the utility-mode
    step; the error log then carries that step's error and the announcement,
    and stays empty otherwise.
   */
  lemma LocalhostFallback(base: Settings, dial: Dial)
    ensures var d := DialInOrder(base, dial);
      && (|d.attempts| == 4 <==>
            && base.host != "localhost"
            && dial(0, base).Refused? && dial(1, UtilityMode(base)).Refused?
            && dial(2, SessionUtilityMode(base)).Refused?)
      && (|d.attempts| == 4 ==>
            && d.attempts[3] == Settings("localhost", 5432, map["gp_session_role" := "utility"])
            && d.log == [SegmentError(dial(2, SessionUtilityMode(base)).cause), TryingLocalhost])
      && (|d.attempts| < 4 ==> d.log == [])
  {
    var c := Candidates(base);
    var k := FirstSuccess(dial, c, 0);
    if dial(0, base).Connected? {
      assert k == 0;
    } else if dial(1, c[1]).Connected? {
      assert k == 1;
    } else if dial(2, c[2]).Connected? {
      assert k == 2;
    } else {
      assert k >= 3;
    }
  }

  /**
    At most four attempts are made, always a prefix of the candidates; with
    host "localhost" at most three, none of them the fallback.
   */
  lemma AttemptBound(base: Settings, dial: Dial)
    ensures var d := DialInOrder(base, dial);
      && 1 <= |d.attempts| <= 4
      && d.attempts == Candidates(base)[..|d.attempts|]
      && (base.host == "localhost" ==> |d.attempts| <= 3 && |Candidates(base)| == 3)
  {
  }

  /**
    The call fails exactly when every attempt made was refused, and then the
    error wraps the cause of the last attempt made; otherwise the connection
    is the one the last attempt returned and every earlier attempt was refused.
   */
  lemma LastErrorSurfaced(base: Settings, dial: Dial)
    ensures var d := DialInOrder(base, dial);
      var n := |d.attempts|;
      && n >= 1
      && (forall i :: 0 <= i < n - 1 ==> dial(i, d.attempts[i]).Refused?)
      && (d.result.Failure? <==> dial(n - 1, d.attempts[n - 1]).Refused?)
      && (d.result.Failure? ==> d.result.error == Wrapped(ConnectionFailed, dial(n - 1, d.attempts[n - 1]).cause))
      && (d.result.Success? ==> d.result.value == dial(n - 1, d.attempts[n - 1]).conn)
  {
  }

  // ---------------------------------------------------------------------------
  // Health check

  /** `archive_mode` values under which WAL archiving runs. */
  predicate ArchivingEnabled(mode: string) {
    mode == "on" || mode == "always"
  }

  /** `archive_command` values that mean no command is configured. */
  predicate CommandMissing(command: string) {
    |command| == 0 || command == "(disabled)"
  }

  /** What the health check on a fresh connection produces. */
  datatype Health = Health(queries: seq<Query>, log: seq<LogLine>, result: Result<Conn, ConnectError>)

  /**
    `show archive_mode`; when archiving is enabled, `show archive_command`.
    A failed query fails the call, with the same error context for both.
   */
  function HealthCheck(conn: Conn, query: QueryOracle): (h: Health) {
    match query(conn, ShowArchiveMode)
    case QueryFailed(e) => Health([ShowArchiveMode], [], Failure(Wrapped(ArchiveModeTestFailed, e)))
    case Row(mode) =>
      if !ArchivingEnabled(mode) then Health([ShowArchiveMode], [ArchiveModeWarning], Success(conn))
      else match query(conn, ShowArchiveCommand)
        case QueryFailed(e) =>
          Health([ShowArchiveMode, ShowArchiveCommand], [], Failure(Wrapped(ArchiveModeTestFailed, e)))
        case Row(command) =>
          Health([ShowArchiveMode, ShowArchiveCommand],
                 if CommandMissing(command) then [ArchiveCommandWarning] else [],
                 Success(conn))
  }

  /**
    `show archive_mode` is always the first statement; `show archive_command`
    is issued, once, if and only if archive_mode came back "on" or "always".
   */
  lemma ArchiveCommandQueriedIffEnabled(conn: Conn, query: QueryOracle)
    ensures var h := HealthCheck(conn, query);
      var mode := query(conn, ShowArchiveMode);
      && h.queries[0] == ShowArchiveMode
      && (ShowArchiveCommand in h.queries <==> mode.Row? && (mode.value == "on" || mode.value == "always"))
      && (ShowArchiveCommand in h.queries ==> h.queries == [ShowArchiveMode, ShowArchiveCommand])
      && (ShowArchiveCommand !in h.queries ==> h.queries == [ShowArchiveMode])
  {
  }

  /**
    The archive_mode warning is written exactly when archive_mode was read
    and is neither "on" nor "always"; the archive_command warning exactly when
    archive_command was read and is empty or "(disabled)"; never both.
   */
  lemma HealthWarnings(conn: Conn, query: QueryOracle)
    ensures var h := HealthCheck(conn, query);
      var mode := query(conn, ShowArchiveMode);
      var command := query(conn, ShowArchiveCommand);
      && (ArchiveModeWarning in h.log <==> mode.Row? && mode.value != "on" && mode.value != "always")
      && (ArchiveCommandWarning in h.log <==>
            mode.Row? && ArchivingEnabled(mode.value)
            && command.Row? && (command.value == "" || command.value == "(disabled)"))
      && |h.log| <= 1
      && (forall l :: l in h.log ==> IsWarning(l))
  {
  }

  /**
    The health check fails exactly when a query it issued fails, with that
    query's error; otherwise it hands back the connection, whatever it warned.
   */
  lemma HealthCheckResult(conn: Conn, query: QueryOracle)
    ensures var h := HealthCheck(conn, query);
      var mode := query(conn, ShowArchiveMode);
      var command := query(conn, ShowArchiveCommand);
      && (h.result.Failure? <==>
            mode.QueryFailed? || (ArchivingEnabled(mode.value) && command.QueryFailed?))
      && (mode.QueryFailed? ==> h.result == Failure(Wrapped(ArchiveModeTestFailed, mode.cause)))
      && (mode.Row? && ArchivingEnabled(mode.value) && command.QueryFailed? ==>
            h.result == Failure(Wrapped(ArchiveModeTestFailed, command.cause)))
      && (h.result.Success? ==> h.result.value == conn)
  {
  }

  // ---------------------------------------------------------------------------
  // The whole call

  /** Everything one `Connect` call does: attempts, statements, log lines and the result. */
  datatype Trace = Trace(attempts: seq<Settings>, queries: seq<Query>, log: seq<LogLine>, result: Result<Conn, ConnectError>)

  /**
    `Connect`: read the environment (`env`), apply the options, make the
    attempts, then run the health check on the connection obtained.
   */
  function ConnectTrace(env: Result<Settings, DriverError>, options: seq<ConfigOption>, dial: Dial, query: QueryOracle): (t: Trace) {
    match env
    case Failure(e) => Trace([], [], [], Failure(Wrapped(EnvironmentUnreadable, e)))
    case Success(s) =>
      match ApplyOptions(s, options)
      case Failure(e) => Trace([], [], [], Failure(Bare(e)))
      case Success(base) =>
        var d := DialInOrder(base, dial);
        match d.result
        case Failure(_) => Trace(d.attempts, [], d.log, d.result)
        case Success(conn) =>
          var h := HealthCheck(conn, query);
          Trace(d.attempts, h.queries, d.log + h.log, h.result)
  }

  /** A call whose options all apply is the attempts from their result, then the health check. */
  lemma ConnectTracePhases(s: Settings, options: seq<ConfigOption>, base: Settings, dial: Dial, query: QueryOracle)
    requires ApplyOptions(s, options) == Success(base)
    ensures var d := DialInOrder(base, dial);
      var t := ConnectTrace(Success(s), options, dial, query);
      && (d.result.Failure? ==> t == Trace(d.attempts, [], d.log, d.result))
      && (d.result.Success? ==>
            var h := HealthCheck(d.result.value, query);
            t == Trace(d.attempts, h.queries, d.log + h.log, h.result))
  {
  }

  /** When the environment cannot be read, nothing else happens. */
  lemma EnvironmentFailureMakesNoAttempt(env: Result<Settings, DriverError>, options: seq<ConfigOption>, dial: Dial, query: QueryOracle)
    requires env.Failure?
    ensures ConnectTrace(env, options, dial, query)
      == Trace([], [], [], Failure(Wrapped(EnvironmentUnreadable, env.error)))
  {
  }

  /**
    When an option fails, the first one to fail has its error returned
    unwrapped, and no attempt, statement or log line happens.
   */
  lemma OptionErrorReturnedAsIs(s: Settings, options: seq<ConfigOption>, dial: Dial, query: QueryOracle, i: nat)
    requires FirstRejection(s, options, i)
    ensures var t := ConnectTrace(Success(s), options, dial, query);
      && t.attempts == [] && t.queries == [] && t.log == []
      && t.result == Failure(Bare(options[i](AppliedPrefix(s, options, i).value).error))
  {
    FirstRejectionIsReturned(s, options, i);
  }

  /** No statement is issued unless an attempt connected. */
  lemma QueriesOnlyAfterConnect(env: Result<Settings, DriverError>, options: seq<ConfigOption>, dial: Dial, query: QueryOracle)
    ensures var t := ConnectTrace(env, options, dial, query);
      var n := |t.attempts|;
      && n <= 4
      && (t.queries != [] <==> n >= 1 && dial(n - 1, t.attempts[n - 1]).Connected?)
  {
  }

  /** A single call writes at most one warning, whatever path it takes. */
  lemma AtMostOneWarning(env: Result<Settings, DriverError>, options: seq<ConfigOption>, dial: Dial, query: QueryOracle)
    ensures var t := ConnectTrace(env, options, dial, query);
      forall i, j :: 0 <= i < j < |t.log| ==> !(IsWarning(t.log[i]) && IsWarning(t.log[j]))
  {
  }

  /**
    A remote host whose configured and utility-mode attempts all fail, whose
    localhost attempt connects, with archive_mode "on" and an empty
    archive_command: the call succeeds with that connection after four
    attempts, and its only warning is the archive_command one.
   */
  lemma RemoteHostFallsBackToLocalhost(env: Result<Settings, DriverError>, dial: Dial, query: QueryOracle, conn: Conn)
    requires env == Success(Settings("10.0.0.1", 5432, map[]))
    requires forall i, s :: i < 3 ==> dial(i, s).Refused?
    requires dial(3, Settings("localhost", 5432, map["gp_session_role" := "utility"])) == Connected(conn)
    requires query(conn, ShowArchiveMode) == Row("on")
    requires query(conn, ShowArchiveCommand) == Row("")
    ensures var t := ConnectTrace(env, [], dial, query);
      && |t.attempts| == 4
      && t.result == Success(conn)
      && t.queries == [ShowArchiveMode, ShowArchiveCommand]
      && t.log == [SegmentError(dial(2, t.attempts[2]).cause), TryingLocalhost, ArchiveCommandWarning]
  {
  }

  /**
    Host "localhost" with the configured and both utility-mode attempts
    failing: the call fails with the last attempt's error after three
    attempts, and no localhost attempt is recorded.
   */
  lemma LocalhostGetsNoFallback(s: Settings, dial: Dial, query: QueryOracle)
    requires s.host == "localhost"
    requires dial(0, s).Refused? && dial(1, UtilityMode(s)).Refused? && dial(2, SessionUtilityMode(s)).Refused?
    ensures var t := ConnectTrace(Success(s), [], dial, query);
      && t.attempts == [s, UtilityMode(s), SessionUtilityMode(s)]
      && t.result == Failure(Wrapped(ConnectionFailed, dial(2, SessionUtilityMode(s)).cause))
      && t.queries == [] && t.log == []
  {
  }
}
