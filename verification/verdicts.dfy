/** The per-check pass rule and the aggregate verdict over the relevant list. */
module Verdicts {
  import opened Checks

  /** Conclusions that count as a pass, compared case-sensitively. */
  const PassingConclusions: set<string> := {"success", "neutral", "skipped"}

  /** A check passed when it is completed with a passing conclusion. */
  predicate Passed(c: CheckStatus) {
    c.status == "completed" && c.conclusion in PassingConclusions
  }

  datatype Verdict = AllPassed | SomePendingOrFailed | NoRelevantChecks

  /** The loop that clears `allPassed` at every check that did not pass. */
  function AllPass(checks: seq<CheckStatus>): (r: bool)
    ensures r <==> forall i :: 0 <= i < |checks| ==> Passed(checks[i])
  {
    if |checks| == 0 then true
    else Passed(checks[0]) && AllPass(checks[1..])
  }

  /** The verdict: the notification path is taken only for a non-empty list in
      which every check passed; an empty list is not a pass. */
  function Evaluate(checks: seq<CheckStatus>): (v: Verdict)
    ensures v == AllPassed <==> |checks| > 0 && forall i :: 0 <= i < |checks| ==> Passed(checks[i])
    ensures v == NoRelevantChecks <==> |checks| == 0
    ensures v == SomePendingOrFailed <==> exists i :: 0 <= i < |checks| && !Passed(checks[i])
  {
    if AllPass(checks) && |checks| > 0 then AllPassed
    else if |checks| == 0 then NoRelevantChecks
    else SomePendingOrFailed
  }

  /** A commit status passes exactly when its state is a passing conclusion, so
      "pending", "failure" and "error" entries are completed but not passed. */
  lemma StatusEntryPassedIff(e: StatusEntry)
    ensures Passed(FromStatusEntry(e)) <==> e.state in PassingConclusions
    ensures e.state in {"pending", "failure", "error"} ==> FromStatusEntry(e).status == "completed" && !Passed(FromStatusEntry(e))
  {
  }

  /** The verdict does not depend on the order of the checks. */
  lemma {:induction false} EvaluateIgnoresOrder(a: seq<CheckStatus>, b: seq<CheckStatus>)
    requires multiset(a) == multiset(b)
    ensures Evaluate(a) == Evaluate(b)
  {
    assert |a| == |multiset(a)| == |multiset(b)| == |b|;
    forall i | 0 <= i < |a| && !Passed(a[i])
      ensures exists j :: 0 <= j < |b| && !Passed(b[j])
    {
      assert a[i] in multiset(a);
      assert a[i] in b;
    }
    forall i | 0 <= i < |b| && !Passed(b[i])
      ensures exists j :: 0 <= j < |a| && !Passed(a[j])
    {
      assert b[i] in multiset(b);
      assert b[i] in a;
    }
  }
}
