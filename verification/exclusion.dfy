/** The `excluded-checks` input and the `isExcluded` test of a check name. */
module Exclusion {
  import opened GoStrings

  /** The raw input split on commas. Like Go's `strings.Split`, an empty input
      yields one empty item rather than no items. */
  function ParseExcludedChecks(raw: string): (patterns: seq<string>)
    ensures |patterns| >= 1
    ensures Join(patterns, ",") == raw
    ensures forall k :: 0 <= k < |patterns| ==> !Contains(patterns[k], ",")
  {
    Split(raw, ",")
  }

  /** Pattern `p`, trimmed and case-folded, is a substring of the case-folded name. */
  predicate Matches(name: string, p: string) {
    Contains(ToLower(name), ToLower(TrimSpace(p)))
  }

  /** The loop of `isExcluded`: true at the first pattern that matches. */
  function IsExcluded(name: string, patterns: seq<string>): (r: bool)
    ensures r <==> exists k :: 0 <= k < |patterns| && Matches(name, patterns[k])
  {
    if |patterns| == 0 then false
    else if Matches(name, patterns[0]) then true
    else IsExcluded(name, patterns[1..])
  }

  /** Exclusion does not see the case of the check name. */
  lemma ExclusionIgnoresCase(name: string, patterns: seq<string>)
    ensures IsExcluded(ToLower(name), patterns) == IsExcluded(name, patterns)
  {
    ToLowerIdempotent(name);
    forall k | 0 <= k < |patterns|
      ensures Matches(ToLower(name), patterns[k]) == Matches(name, patterns[k])
    {
    }
  }

  /** Only which patterns are present matters, not their order or repetition. */
  lemma ExclusionIgnoresOrder(name: string, a: seq<string>, b: seq<string>)
    requires forall p :: p in a <==> p in b
    ensures IsExcluded(name, a) == IsExcluded(name, b)
  {
    if IsExcluded(name, a) {
      var k :| 0 <= k < |a| && Matches(name, a[k]);
      assert a[k] in b;
    }
    if IsExcluded(name, b) {
      var k :| 0 <= k < |b| && Matches(name, b[k]);
      assert b[k] in a;
    }
  }

  /** Adding patterns can only exclude more names. */
  lemma MorePatternsExcludeMore(name: string, a: seq<string>, b: seq<string>)
    requires forall p :: p in a ==> p in b
    ensures IsExcluded(name, a) ==> IsExcluded(name, b)
  {
    if IsExcluded(name, a) {
      var k :| 0 <= k < |a| && Matches(name, a[k]);
      assert a[k] in b;
    }
  }

  /** A pattern that is empty or only white space matches every name, because
      every string contains the empty string. */
  lemma BlankPatternMatchesEverything(name: string, p: string)
    requires AllSpace(p)
    ensures Matches(name, p)
  {
    assert ToLower(TrimSpace(p)) == "";
  }

  /** One blank item in the list excludes every check. */
  lemma BlankItemExcludesEverything(name: string, patterns: seq<string>)
    requires exists k :: 0 <= k < |patterns| && AllSpace(patterns[k])
    ensures IsExcluded(name, patterns)
  {
    var k :| 0 <= k < |patterns| && AllSpace(patterns[k]);
    BlankPatternMatchesEverything(name, patterns[k]);
  }

  /** An unset `excluded-checks` input parses to one empty item and so excludes every check. */
  lemma UnsetInputExcludesEverything(name: string)
    ensures ParseExcludedChecks("") == [""]
    ensures IsExcluded(name, ParseExcludedChecks(""))
  {
    assert Index("", ",").None?;
    assert AllSpace([""][0]);
    BlankItemExcludesEverything(name, [""]);
  }

  /** A trailing comma leaves an empty last item and so excludes every check. */
  lemma TrailingCommaExcludesEverything(name: string, raw: string)
    requires |raw| > 0 && raw[|raw| - 1] == ','
    ensures IsExcluded(name, ParseExcludedChecks(raw))
  {
    SplitEndingInSeparator(raw, ",");
    var patterns := ParseExcludedChecks(raw);
    assert patterns[|patterns| - 1] == "";
    BlankItemExcludesEverything(name, patterns);
  }
}
