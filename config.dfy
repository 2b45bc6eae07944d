/**
 * Shared constants of the program (callers, action and task names, message
 * prefixes, category maps) and its three wrappers: the bounded retry around
 * external calls, the error exit, and the parallel map.
 */
module Config {
  import opened Wrappers

  /** Who launched the program (`CALLER`). */
  const CallerMain := "main"
  const CallerSnowflake := "init_snowflake"
  const CallerCompet := "init_compet"

  /** `MESSAGE_ACTION_MAP`, `GAME_ACTION_MAP` and `TASK_RUN_MAP`. */
  const ActionRun := "RUN"
  const ActionCheck := "CHECK"
  const ActionAvoid := "AVOID"
  const TaskUpdateGames := "UPDATEGAMES"
  const TaskCheck := "CHECK"
  const TaskCalculate := "CALCULATE"
  const TaskInit := "INIT"

  /** `DATABASE_RUN_CATEGORY_MAP`. */
  const CategoryInitCompet := "INIT_COMPET"
  const CategoryMessageCheck := "MESSAGE_CHECK"
  const CategoryMessageRun := "MESSAGE_RUN"
  const CategoryGameRun := "GAME_RUN"
  const CategoryCalculation := "CALCULATION"

  /** Messages the program itself posts start with this prefix. */
  const ProgramPrefix := "+++++"
  /** The prefix of technical messages. */
  const TechnicalPrefix := "*****"

  const LocalFolder := "../TMP_FOLDER"
  const LocalDatabase := "../TMP_DATABASE"

  const DownloadInitialMap: map<string, string> :=
    map["main" := "INITIAL_MAIN", "init_snowflake" := "INITIAL_SNOWFLAKE",
        "init_compet" := "INITIAL_COMPET"]

  const UploadFolderMap: map<string, seq<string>> :=
    map["main" := [LocalFolder, LocalDatabase], "init_compet" := [LocalFolder, LocalDatabase],
        "init_snowflake" := [LocalFolder]]

  /** One call of a wrapped external function: it returns a value or raises. */
  datatype Attempt = Success(value: string) | Failure(error: string)

  /**
   * What the retry wrapper gives back: the returned value, the exception of
   * the last attempt re-raised, or Python's implicit `None` when the loop
   * never runs (`max_attempts <= 0`).
   */
  datatype RetryOutcome = Returned(value: string) | Raised(error: string) | NothingReturned

  /**
   * `retry_function`: calls `call(1)`, `call(2)`, ... until one succeeds or
   * `maxAttempts` calls have failed, sleeping `delay` seconds after every
   * failed call except the last. `call(k)` is what the k-th call does.
   */
  method Retry(call: nat -> Attempt, maxAttempts: int, delay: nat)
    returns (outcome: RetryOutcome, calls: nat, slept: nat)
    ensures maxAttempts <= 0 ==> outcome == NothingReturned && calls == 0 && slept == 0
    ensures maxAttempts > 0 ==> 1 <= calls <= maxAttempts && !outcome.NothingReturned?
    ensures outcome.Returned? ==>
              call(calls) == Success(outcome.value)
              && forall k :: 1 <= k < calls ==> call(k).Failure?
    ensures outcome.Raised? ==>
              calls == maxAttempts && call(calls) == Failure(outcome.error)
              && forall k :: 1 <= k <= calls ==> call(k).Failure?
    ensures calls > 0 ==> slept == delay * (calls - 1)
  {
    var attempt: nat := 1;
    slept := 0;
    calls := 0;
    outcome := NothingReturned;
    while attempt <= maxAttempts
      invariant 1 <= attempt && calls == attempt - 1
      invariant maxAttempts > 0 ==> attempt <= maxAttempts
      invariant slept == delay * (attempt - 1)
      invariant forall k :: 1 <= k < attempt ==> call(k).Failure?
      invariant outcome == NothingReturned
      decreases maxAttempts - attempt
    {
      calls := attempt;
      var result := call(attempt);
      if result.Success? {
        return Returned(result.value), calls, delay * (calls - 1);
      }
      if attempt == maxAttempts {
        return Raised(result.error), calls, delay * (calls - 1);
      }
      slept := slept + delay;
      attempt := attempt + 1;
    }
    calls := 0;
    slept := 0;
  }

  /** A call that fails once and then succeeds is made exactly twice. */
  method RetrySecondAttempt() returns (outcome: RetryOutcome, calls: nat)
    ensures outcome == Returned("success") && calls == 2
  {
    var call := (k: nat) => if k == 1 then Failure("Temporary failure") else Success("success");
    assert call(1) == Failure("Temporary failure") && call(2) == Success("success");
    var slept;
    outcome, calls, slept := Retry(call, 3, 0);
  }

  /** What a run ends with: the wrapped function's value, or `sys.exit` after cleanup. */
  datatype Termination<T> = Completed(value: T) | Exited(code: int, cleanup: seq<CleanupStep>)

  /** `onError_final_execute`: placeholders restored in profiles.yml, then the local folders removed. */
  datatype CleanupStep = ParametrizeProfiles | DestroyLocalFolders

  /**
   * `exit_program`: a raised exception becomes the cleanup followed by exit
   * code 1; a returned value passes through.
   */
  function ExitProgram<T>(r: Result<T>): (t: Termination<T>)
    ensures t.Completed? <==> r.Ok?
    ensures r.Ok? ==> t.value == r.value
    ensures t.Exited? ==> t.code == 1 && t.cleanup == [ParametrizeProfiles, DestroyLocalFolders]
  {
    match r
    case Ok(v) => Completed(v)
    case Err(_) => Exited(1, [ParametrizeProfiles, DestroyLocalFolders])
  }

  /**
   * `multithreading_run` as a sequential map: one result per argument, and
   * no call at all for an empty argument list.
   */
  method MultithreadingRun<A, B>(fn: A -> B, args: seq<A>) returns (results: seq<B>)
    ensures |args| == 0 ==> results == []
    ensures |results| == |args|
    ensures forall i :: 0 <= i < |args| ==> results[i] == fn(args[i])
  {
    if |args| == 0 {
      return [];
    }
    results := [];
    for i := 0 to |args|
      invariant |results| == i
      invariant forall j :: 0 <= j < i ==> results[j] == fn(args[j])
    {
      results := results + [fn(args[i])];
    }
  }
}
