/** The two kinds of report found for a commit, the unified `CheckStatus`
    view they are mapped into, and the exclusion filter over that view. */
module Checks {
  import opened GoStrings
  import opened Exclusion

  /** A legacy commit-status entry: its context name and its state
      ("success", "failure", "error" or "pending"). */
  datatype StatusEntry = StatusEntry(context: string, state: string)

  /** A check run. A run with no conclusion yet carries the empty conclusion. */
  datatype CheckRun = CheckRun(name: string, status: string, conclusion: string)

  /** The unified view of one check. */
  datatype CheckStatus = CheckStatus(name: string, status: string, conclusion: string)

  /** A commit status counts as completed, with its state as the conclusion. */
  function FromStatusEntry(e: StatusEntry): (r: CheckStatus)
    ensures r.status == "completed"
    ensures StatusEntry(r.name, r.conclusion) == e
  {
    CheckStatus(e.context, "completed", e.state)
  }

  /** A check run keeps its own status and conclusion. */
  function FromCheckRun(c: CheckRun): (r: CheckStatus)
    ensures CheckRun(r.name, r.status, r.conclusion) == c
  {
    CheckStatus(c.name, c.status, c.conclusion)
  }

  function FromStatusEntries(entries: seq<StatusEntry>): (r: seq<CheckStatus>)
    ensures |r| == |entries|
    ensures forall i :: 0 <= i < |entries| ==> r[i] == FromStatusEntry(entries[i])
  {
    seq(|entries|, i requires 0 <= i < |entries| => FromStatusEntry(entries[i]))
  }

  function FromCheckRuns(runs: seq<CheckRun>): (r: seq<CheckStatus>)
    ensures |r| == |runs|
    ensures forall i :: 0 <= i < |runs| ==> r[i] == FromCheckRun(runs[i])
  {
    seq(|runs|, i requires 0 <= i < |runs| => FromCheckRun(runs[i]))
  }

  /** `a` is obtained from `b` by deleting elements, keeping the order of the rest. */
  ghost predicate Subseq<T>(a: seq<T>, b: seq<T>)
    decreases |b|
  {
    || |a| == 0
    || (|b| > 0 && ((a[0] == b[0] && Subseq(a[1..], b[1..])) || Subseq(a, b[1..])))
  }

  lemma {:induction false} SubseqLength<T>(a: seq<T>, b: seq<T>)
    requires Subseq(a, b)
    ensures |a| <= |b|
    decreases |b|
  {
    if |a| > 0 {
      if a[0] == b[0] && Subseq(a[1..], b[1..]) {
        SubseqLength(a[1..], b[1..]);
      } else {
        SubseqLength(a, b[1..]);
      }
    }
  }

  lemma {:induction false} SubseqConcat<T>(a1: seq<T>, b1: seq<T>, a2: seq<T>, b2: seq<T>)
    requires Subseq(a1, b1) && Subseq(a2, b2)
    ensures Subseq(a1 + a2, b1 + b2)
    decreases |b1|
  {
    if |a1| == 0 {
      assert a1 + a2 == a2;
      SubseqAppendLeft(a2, b2, b1);
    } else if a1[0] == b1[0] && Subseq(a1[1..], b1[1..]) {
      SubseqConcat(a1[1..], b1[1..], a2, b2);
      assert (a1 + a2)[1..] == a1[1..] + a2;
      assert (b1 + b2)[1..] == b1[1..] + b2;
    } else {
      SubseqConcat(a1, b1[1..], a2, b2);
      assert (b1 + b2)[1..] == b1[1..] + b2;
    }
  }

  lemma {:induction false} SubseqAppendLeft<T>(a: seq<T>, b: seq<T>, prefix: seq<T>)
    requires Subseq(a, b)
    ensures Subseq(a, prefix + b)
    decreases |prefix|
  {
    if |prefix| > 0 {
      SubseqAppendLeft(a, b, prefix[1..]);
      assert (prefix + b)[1..] == prefix[1..] + b;
    } else {
      assert prefix + b == b;
    }
  }

  /** The checks whose names no pattern excludes, in their original order and
      with repetitions kept. */
  function Keep(checks: seq<CheckStatus>, patterns: seq<string>): (r: seq<CheckStatus>)
    ensures Subseq(r, checks)
  {
    if |checks| == 0 then []
    else
      var rest := Keep(checks[1..], patterns);
      if IsExcluded(checks[0].name, patterns) then rest
      else
        assert ([checks[0]] + rest)[1..] == rest;
        [checks[0]] + rest
  }

  /** A check is kept iff it is in the input and its name is not excluded. */
  lemma {:induction false} KeepMembers(checks: seq<CheckStatus>, patterns: seq<string>)
    ensures forall c :: c in Keep(checks, patterns) <==> c in checks && !IsExcluded(c.name, patterns)
    decreases |checks|
  {
    if |checks| > 0 {
      KeepMembers(checks[1..], patterns);
      assert checks == [checks[0]] + checks[1..];
    }
  }

  /** Each kept check keeps its full multiplicity, so nothing is merged or dropped twice. */
  lemma {:induction false} KeepCounts(checks: seq<CheckStatus>, patterns: seq<string>)
    ensures forall c :: multiset(Keep(checks, patterns))[c]
                     == if IsExcluded(c.name, patterns) then 0 else multiset(checks)[c]
    decreases |checks|
  {
    if |checks| > 0 {
      KeepCounts(checks[1..], patterns);
      assert checks == [checks[0]] + checks[1..];
      assert multiset(checks) == multiset{checks[0]} + multiset(checks[1..]);
    }
  }

  /** One check is kept exactly when no pattern excludes it. */
  lemma KeepSingleton(c: CheckStatus, patterns: seq<string>)
    ensures Keep([c], patterns) == if IsExcluded(c.name, patterns) then [] else [c]
  {
    assert [c][1..] == [];
  }

  /** The filter distributes over concatenation: it keeps the input order. */
  lemma {:induction false} KeepConcat(a: seq<CheckStatus>, b: seq<CheckStatus>, patterns: seq<string>)
    ensures Keep(a + b, patterns) == Keep(a, patterns) + Keep(b, patterns)
    decreases |a|
  {
    if |a| > 0 {
      assert (a + b)[0] == a[0];
      assert (a + b)[1..] == a[1..] + b;
      KeepConcat(a[1..], b, patterns);
    } else {
      assert a + b == b;
    }
  }

  /** With no patterns the filter keeps everything. */
  lemma {:induction false} KeepWithoutPatterns(checks: seq<CheckStatus>)
    ensures Keep(checks, []) == checks
    decreases |checks|
  {
    if |checks| > 0 {
      KeepWithoutPatterns(checks[1..]);
    }
  }

  /** More patterns keep a subsequence of what fewer patterns keep. */
  lemma {:induction false} MorePatternsKeepLess(checks: seq<CheckStatus>, a: seq<string>, b: seq<string>)
    requires forall p :: p in a ==> p in b
    ensures Subseq(Keep(checks, b), Keep(checks, a))
    decreases |checks|
  {
    if |checks| > 0 {
      var c := checks[0];
      MorePatternsKeepLess(checks[1..], a, b);
      MorePatternsExcludeMore(c.name, a, b);
      var ka := Keep(checks[1..], a);
      var kb := Keep(checks[1..], b);
      if !IsExcluded(c.name, b) {
        assert ([c] + kb)[1..] == kb;
        assert ([c] + ka)[1..] == ka;
      } else if !IsExcluded(c.name, a) {
        SubseqAppendLeft(kb, ka, [c]);
      }
    }
  }

  /** The relevant list: the unexcluded commit statuses, then the unexcluded
      check runs, each in the order the API returned them. */
  function RelevantChecks(statuses: seq<StatusEntry>, runs: seq<CheckRun>, patterns: seq<string>): (r: seq<CheckStatus>)
    ensures |r| <= |statuses| + |runs|
    ensures forall c :: c in r <==>
      (c in FromStatusEntries(statuses) || c in FromCheckRuns(runs)) && !IsExcluded(c.name, patterns)
  {
    var fromStatuses := Keep(FromStatusEntries(statuses), patterns);
    var fromRuns := Keep(FromCheckRuns(runs), patterns);
    SubseqLength(fromStatuses, FromStatusEntries(statuses));
    SubseqLength(fromRuns, FromCheckRuns(runs));
    KeepMembers(FromStatusEntries(statuses), patterns);
    KeepMembers(FromCheckRuns(runs), patterns);
    fromStatuses + fromRuns
  }

  /** The relevant list is one order-preserving, duplicate-keeping filter over
      the statuses followed by the check runs. */
  lemma RelevantChecksIsOneFilter(statuses: seq<StatusEntry>, runs: seq<CheckRun>, patterns: seq<string>)
    ensures RelevantChecks(statuses, runs, patterns)
         == Keep(FromStatusEntries(statuses) + FromCheckRuns(runs), patterns)
  {
    KeepConcat(FromStatusEntries(statuses), FromCheckRuns(runs), patterns);
  }

  /** Adding exclusion patterns never grows the relevant list. */
  lemma MorePatternsNeverGrowRelevant(statuses: seq<StatusEntry>, runs: seq<CheckRun>, a: seq<string>, b: seq<string>)
    requires forall p :: p in a ==> p in b
    ensures Subseq(RelevantChecks(statuses, runs, b), RelevantChecks(statuses, runs, a))
    ensures |RelevantChecks(statuses, runs, b)| <= |RelevantChecks(statuses, runs, a)|
  {
    MorePatternsKeepLess(FromStatusEntries(statuses), a, b);
    MorePatternsKeepLess(FromCheckRuns(runs), a, b);
    SubseqConcat(Keep(FromStatusEntries(statuses), b), Keep(FromStatusEntries(statuses), a),
                 Keep(FromCheckRuns(runs), b), Keep(FromCheckRuns(runs), a));
    SubseqLength(RelevantChecks(statuses, runs, b), RelevantChecks(statuses, runs, a));
  }

  /** A blank pattern empties the relevant list. */
  lemma BlankPatternEmptiesRelevant(statuses: seq<StatusEntry>, runs: seq<CheckRun>, patterns: seq<string>)
    requires exists k :: 0 <= k < |patterns| && AllSpace(patterns[k])
    ensures RelevantChecks(statuses, runs, patterns) == []
  {
    var r := RelevantChecks(statuses, runs, patterns);
    if |r| > 0 {
      assert r[0] in r;
      BlankItemExcludesEverything(r[0].name, patterns);
    }
  }
}
