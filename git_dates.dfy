/** The git side of `Util`: the repository probe of the constructor, the
    `git_is_valid` flag it sets, and `get_file_dates`, which reads a file's
    creation and last-change timestamps from `git log` and falls back to the
    build timestamp. Git itself is not modelled: every invocation is given
    by its outcome. */
module GitDates {
  import opened Wrappers
  import opened PyBuiltins

  /** How `Repo(path, search_parent_directories=True)` ended. */
  datatype RepoProbe = Opened | InvalidRepository | OtherFailure

  /** How one `git log` call ended: its (stripped) standard output,
      `GitCommandError`, or `GitCommandNotFound`. */
  datatype LogOutcome = Output(text: string) | CommandError | CommandNotFound

  /** The two history queries: the first commit that added or renamed the
      file (`--diff-filter=AR`), and the last commit that touched it. */
  datatype LogQuery = AddedOrRenamed | LastCommit

  /** `int()` refused a log output; `get_file_dates` does not catch it. */
  datatype DatesError = ValueError

  datatype Dates = Dates(created: int, updated: int)

  /** The exception the constructor raises as written: `git_repo` is unbound
      when `Repo` failed. */
  datatype InitError = UnboundGitRepo

  /** A call whose outcomes are these ends with git marked missing: git was
      not found on the first query, or on the second one, which is only
      made after the first produced output. */
  predicate DisablesGit(created: LogOutcome, updated: LogOutcome) {
    created.CommandNotFound? || (created.Output? && updated.CommandNotFound?)
  }

  /** The flag after one `get_file_dates` call. */
  function ValidityAfter(valid: bool, created: LogOutcome, updated: LogOutcome): (v: bool)
    ensures v ==> valid
  {
    valid && !DisablesGit(created, updated)
  }

  /** The flag after a series of `get_file_dates` calls with these outcomes. */
  function ValidityAfterCalls(valid: bool, calls: seq<(LogOutcome, LogOutcome)>): bool
  {
    if calls == [] then valid
    else ValidityAfterCalls(ValidityAfter(valid, calls[0].0, calls[0].1), calls[1..])
  }

  /** Git stays usable through a series of calls exactly when it was usable
      at the start and no call found it missing; once disabled, it is never
      enabled again. */
  lemma {:induction false} ValidityAfterCallsIff(valid: bool, calls: seq<(LogOutcome, LogOutcome)>)
    ensures ValidityAfterCalls(valid, calls) <==>
              valid && forall i :: 0 <= i < |calls| ==> !DisablesGit(calls[i].0, calls[i].1)
  {
    if calls != [] {
      ValidityAfterCallsIff(ValidityAfter(valid, calls[0].0, calls[0].1), calls[1..]);
      assert forall i :: 1 <= i < |calls| ==> calls[i] == calls[1..][i - 1];
    }
  }

  /** Both log outputs were obtained and are truthy, so the dates come from
      history. */
  predicate HistoryRead(valid: bool, created: LogOutcome, updated: LogOutcome) {
    valid && created.Output? && updated.Output? && Truthy(created.text) && Truthy(updated.text)
  }

  /** `__init__` as written: the CI check on its last line reads `git_repo`,
      which is only bound when `Repo` succeeded. */
  function InitAsWritten(probe: RepoProbe): (r: Result<bool, InitError>)
    ensures r.Success? <==> probe.Opened?
    ensures r.Success? ==> r.value
  {
    if probe.Opened? then Success(true) else Failure(UnboundGitRepo)
  }

  /** Without a repository, construction as written fails instead of
      disabling git. */
  lemma InitAsWrittenFailsWithoutRepository()
    ensures InitAsWritten(InvalidRepository) == Failure(UnboundGitRepo)
    ensures InitAsWritten(OtherFailure) == Failure(UnboundGitRepo)
  {
  }

  class Util {
    /** `git_is_valid`: history may be queried. */
    var gitIsValid: bool

    /** `__init__` with the degradation it intends: the flag records whether
        a repository was found, and construction never fails. */
    constructor (probe: RepoProbe)
      ensures gitIsValid <==> probe.Opened?
    {
      gitIsValid := probe.Opened?;
    }

    /** `get_file_dates` for one file, given what its two `git log`
        queries would yield and what the two `get_build_timestamp()` calls
        of the fallback would read. Returns the dates (or the ValueError of
        `int()`) and the queries actually issued. */
    method GetFileDates(created: LogOutcome, updated: LogOutcome, firstClockRead: int, secondClockRead: int)
      returns (dates: Result<Dates, DatesError>, queries: seq<LogQuery>)
      modifies this
      ensures gitIsValid == ValidityAfter(old(gitIsValid), created, updated)
      ensures gitIsValid ==> old(gitIsValid)
      ensures !old(gitIsValid) ==> queries == []
      ensures old(gitIsValid) ==>
                queries == if created.Output? then [AddedOrRenamed, LastCommit] else [AddedOrRenamed]
      ensures !HistoryRead(old(gitIsValid), created, updated) ==>
                dates == Success(Dates(firstClockRead, secondClockRead))
      ensures HistoryRead(old(gitIsValid), created, updated) ==>
                (dates.Success? <==> IsDecimal(created.text) && IsDecimal(updated.text))
      ensures HistoryRead(old(gitIsValid), created, updated) && dates.Success? ==>
                && ParseInt(created.text) == Some(dates.value.created)
                && ParseInt(updated.text) == Some(dates.value.updated)
    {
      var createdText: Option<string> := None;
      var updatedText: Option<string> := None;
      queries := [];
      if gitIsValid {
        queries := queries + [AddedOrRenamed];
        match created
        case CommandError =>
        case CommandNotFound =>
          gitIsValid := false;
        case Output(c) =>
          createdText := Some(c);
          queries := queries + [LastCommit];
          match updated
          case CommandError =>
          case CommandNotFound =>
            gitIsValid := false;
          case Output(u) =>
            updatedText := Some(u);
      }
      if TruthyOption(createdText) && TruthyOption(updatedText) {
        var createdAt := ParseInt(createdText.value);
        var updatedAt := ParseInt(updatedText.value);
        if createdAt.Some? && updatedAt.Some? {
          dates := Success(Dates(createdAt.value, updatedAt.value));
        } else {
          dates := Failure(ValueError);
        }
      } else {
        dates := Success(Dates(firstClockRead, secondClockRead));
      }
    }
  }

  /** When git printed two timestamps, they are the dates returned. */
  lemma HistoryTimestampsReadBack(created: nat, updated: nat)
    ensures HistoryRead(true, Output(DecimalText(created)), Output(DecimalText(updated)))
    ensures ParseInt(DecimalText(created)) == Some(created)
    ensures ParseInt(DecimalText(updated)) == Some(updated)
  {
    ParseDecimalText(created);
    ParseDecimalText(updated);
  }
}
