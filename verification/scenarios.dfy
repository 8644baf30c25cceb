/** Concrete cases worked through the model. The
    exclusion facts are proved once per name and the filter is unfolded over
    symbolic patterns, which keeps the solver from evaluating the string
    functions on literals. */
module Scenarios {
  import opened Wrappers
  import opened GoStrings
  import opened Exclusion
  import opened Checks
  import opened Verdicts
  import opened Events

  const Lint := StatusEntry("lint", "success")
  const Build := CheckRun("build", "completed", "success")

  lemma FlakyExcludesNeitherLintNorBuild()
    ensures !IsExcluded("lint", ["flaky"]) && !IsExcluded("build", ["flaky"])
  {
    TrimSpaceOfTrimmed("flaky");
    assert ToLower("flaky") == "flaky";
    assert ToLower("lint") == "lint";
    assert ToLower("build") == "build";
    FirstCharAbsent("lint", "flaky");
    FirstCharAbsent("build", "flaky");
  }

  lemma FlakyExcludesFlakyTest()
    ensures IsExcluded("flaky-test", ["flaky"])
  {
    TrimSpaceOfTrimmed("flaky");
    assert ToLower("flaky") == "flaky";
    assert ToLower("flaky-test") == "flaky-test";
    assert "flaky-test"[0..5] == "flaky";
    assert OccursAt("flaky-test", "flaky", 0);
    assert Matches("flaky-test", ["flaky"][0]);
  }

  lemma RelevantOfOneEach(e: StatusEntry, run: CheckRun, patterns: seq<string>)
    ensures RelevantChecks([e], [run], patterns)
         == (if IsExcluded(e.context, patterns) then [] else [FromStatusEntry(e)])
          + (if IsExcluded(run.name, patterns) then [] else [FromCheckRun(run)])
  {
    assert FromStatusEntries([e]) == [FromStatusEntry(e)];
    assert FromCheckRuns([run]) == [FromCheckRun(run)];
    KeepSingleton(FromStatusEntry(e), patterns);
    KeepSingleton(FromCheckRun(run), patterns);
  }

  lemma RelevantOfOneRun(run: CheckRun, patterns: seq<string>)
    ensures RelevantChecks([], [run], patterns) == if IsExcluded(run.name, patterns) then [] else [FromCheckRun(run)]
  {
    assert FromStatusEntries([]) == [];
    assert FromCheckRuns([run]) == [FromCheckRun(run)];
    KeepSingleton(FromCheckRun(run), patterns);
  }

  /** A passing commit status and a passing check run, with an exclusion that
      matches neither: both are relevant, statuses first. */
  lemma PassingChecksAreRelevant()
    ensures RelevantChecks([Lint], [Build], ["flaky"])
         == [CheckStatus("lint", "completed", "success"), CheckStatus("build", "completed", "success")]
  {
    FlakyExcludesNeitherLintNorBuild();
    RelevantOfOneEach(Lint, Build, ["flaky"]);
  }

  /** ... and together they make the verdict a pass. */
  lemma PassingChecksArePassed()
    ensures Evaluate(RelevantChecks([Lint], [Build], ["flaky"])) == AllPassed
  {
    PassingChecksAreRelevant();
    var checks := [CheckStatus("lint", "completed", "success"), CheckStatus("build", "completed", "success")];
    assert Passed(checks[0]) && Passed(checks[1]);
    assert Evaluate(checks) == AllPassed;
  }

  /** The same checks with the `excluded-checks` input unset: nothing is relevant. */
  lemma PassingChecksWithUnsetInput()
    ensures Evaluate(RelevantChecks([Lint], [Build], ParseExcludedChecks(""))) == NoRelevantChecks
  {
    UnsetInputExcludesEverything("");
    assert AllSpace(ParseExcludedChecks("")[0]);
    BlankPatternEmptiesRelevant([Lint], [Build], ParseExcludedChecks(""));
  }

  /** The only check is excluded: the list is empty and nothing fires. */
  lemma ExcludedFailureLeavesNothing()
    ensures Evaluate(RelevantChecks([], [CheckRun("flaky-test", "completed", "failure")], ["flaky"])) == NoRelevantChecks
  {
    FlakyExcludesFlakyTest();
    RelevantOfOneRun(CheckRun("flaky-test", "completed", "failure"), ["flaky"]);
  }

  /** A run still in progress is not passed. */
  lemma InProgressRunIsPending()
    ensures Evaluate(RelevantChecks([], [CheckRun("build", "in_progress", "")], ["flaky"])) == SomePendingOrFailed
  {
    FlakyExcludesNeitherLintNorBuild();
    RelevantOfOneRun(CheckRun("build", "in_progress", ""), ["flaky"]);
  }

  /** A check reported both ways appears twice: nothing is merged. */
  lemma BothReportsAreKept()
    ensures RelevantChecks([StatusEntry("build", "success")], [Build], ["flaky"])
         == [CheckStatus("build", "completed", "success"), CheckStatus("build", "completed", "success")]
  {
    FlakyExcludesNeitherLintNorBuild();
    RelevantOfOneEach(StatusEntry("build", "success"), Build, ["flaky"]);
  }

  /** A pull_request event gives its head SHA and number directly. */
  lemma PullRequestEventResolves()
    ensures ResolveEvent("pull_request", Payload("abc123", 42, "")) == Ok(Trigger("abc123", 42))
  {
  }

  /** Conclusions and statuses are compared case-sensitively. */
  lemma PassRuleIsCaseSensitive()
    ensures !Passed(CheckStatus("build", "completed", "SUCCESS"))
    ensures !Passed(CheckStatus("build", "Completed", "success"))
    ensures Passed(CheckStatus("build", "completed", "neutral"))
  {
  }
}
