# pr-status-notifier, modelled in Dafny

pr-status-notifier is a GitHub Action. On each `pull_request` or `status`
event it finds the commit under review and its pull request. It gathers the
commit's legacy commit statuses and its check runs into one list of
`CheckStatus` records, drops the checks whose names match the
`excluded-checks` input, and decides whether every remaining check passed. If
so, and no existing comment on the pull request carries the phrase
"All checks have passed!", it posts the `notification-message` template with
`{user}` replaced by the pull request author's login.

This project models that decision logic from `go-action-code.go` as pure
functions. Every remote answer is an input:

- the pull requests containing a commit;
- the author of a pull request;
- the commit statuses and check runs of a commit;
- the comment bodies of a pull request;
- whether creating a comment succeeded.

The environment (event name, `owner/repo`, event payload file) and the
action's inputs are plain records. A fatal `fail(...)` becomes an `Err` of a
`Result`. Every other ending of a run is one of four `Outcome`s:
`NoPullRequest`, `ChecksNotPassed`, `AlreadyNotified` or `CommentPosted`.

Modules, leaf first:

- `Wrappers`: `Option`, and a `Result` that supports `:-`.
- `GoStrings`: the Go `strings` functions the code relies on. These are
  `Index`, `Contains`, `Split`, `Join`, `ReplaceAll`, `TrimSpace` and
  `ToLower`, with Go's semantics (an empty pattern is contained everywhere;
  splitting `""` yields `[""]`).
- `Exclusion`: parsing `excluded-checks` (line 46) and `isExcluded`
  (lines 204-212).
- `Checks`: the two report kinds, the mapping into `CheckStatus`, and the
  filtering loops (lines 129-148).
- `Verdicts`: the per-check pass rule and the aggregate verdict (lines 153-172).
- `Notifier`: the marker scan and the template rendering (lines 181-198).
- `Failures`: the fatal conditions, and `Reply` for a remote answer.
- `Events`: `owner/repo` splitting, event dispatch and pull-request selection
  (lines 60-61, 74-107).
- `Action`: the whole run (`Run`) and the properties that relate its stages.
- `Scenarios`: concrete worked cases.

## Behaviour worth knowing

- The `excluded-checks` input is split on `,` with Go's `strings.Split`.
  So an unset input becomes `[""]`. Every item is trimmed, and the empty
  string is a substring of every name. An unset input, a trailing comma or
  any blank item therefore excludes every check. The relevant list is then
  empty, and the run can never post. The model follows the code here.
  `UnsetInputExcludesEverything`, `TrailingCommaExcludesEverything`,
  `BlankPatternEmptiesRelevant` and `UnsetExclusionsNeverNotify` prove it.
  A list with no patterns at all does exclude nothing (`IsExcluded`,
  `KeepWithoutPatterns`), but no value of the input produces such a list.
- An unset input is not "no exclusions": only a non-blank pattern that
  matches no name lets every check through. The scenarios use the pattern
  `flaky` for this reason.
- The code has only two branches after the verdict loop: an empty relevant
  list takes the same "pending or failed" branch as a failing check. The
  model names the three cases (`AllPassed`, `SomePendingOrFailed`,
  `NoRelevantChecks`), and both non-pass verdicts end in `ChecksNotPassed`.
- The lookup of the pull request is triggered by a pull request number of 0,
  not by the event kind. A `status` event always has number 0.
- Idempotence rests entirely on the marker phrase. A rendered message that
  lacks "All checks have passed!" is posted again on every passing run
  (`SecondRunRepostsWithoutMarker`).
- A repository string without `/` makes the source index out of range. Here
  it is the error `MalformedRepository`.

## Model

| member | source | states |
|---|---|---|
| GoStrings.Contains | go-action-code.go:207 | `Contains(s, p)` holds iff `p` occurs in `s` at some position, and it always holds for an empty `p` |
| GoStrings.Split | go-action-code.go:46 | the pieces, joined with the separator, give back the input; no piece contains the separator |
| GoStrings.SplitSingleIffAbsent | go-action-code.go:46 | there is exactly one piece iff the input has no separator |
| GoStrings.JoinEndsWithLast | go-action-code.go:46 | the joined string ends with the last part |
| GoStrings.SplitEndingInSeparator | go-action-code.go:46 | a string that ends in a one-character separator splits into pieces the last of which is empty |
| GoStrings.ReplaceAll | go-action-code.go:190 | replacing every occurrence equals splitting on the target and joining with the replacement |
| GoStrings.TrimSpace | go-action-code.go:207 | the trimmed string is empty iff the input is all white space; otherwise it begins and ends with a non-space character |
| GoStrings.TrimSpaceIsMiddle | go-action-code.go:207 | the trimmed string is the part of the input between an all-white-space prefix and an all-white-space suffix |
| GoStrings.TrimSpaceOfTrimmed | go-action-code.go:207 | a string that neither begins nor ends with white space is left unchanged |
| GoStrings.TrimSpaceIdempotent | go-action-code.go:207 | trimming twice gives the same as trimming once |
| GoStrings.ToLower | go-action-code.go:205-207 | the folded string has the input's length and each character is the input's character with ASCII `A`-`Z` folded to lower case |
| GoStrings.ToLowerIdempotent | go-action-code.go:205 | folding a folded name again changes nothing |
| Exclusion.ParseExcludedChecks | go-action-code.go:46 | the comma split yields at least one item, the items joined with commas give back the input, and no item holds a comma |
| Exclusion.IsExcluded | go-action-code.go:204-212 | a name is excluded iff some pattern, trimmed and folded, is a substring of the folded name; an empty pattern list excludes nothing |
| Exclusion.ExclusionIgnoresCase | go-action-code.go:205-207 | a name and its folded form are excluded alike |
| Exclusion.ExclusionIgnoresOrder | go-action-code.go:206-210 | two pattern lists with the same members exclude the same names, whatever the order or repetition |
| Exclusion.MorePatternsExcludeMore | go-action-code.go:206-210 | adding patterns never un-excludes a name |
| Exclusion.BlankPatternMatchesEverything | go-action-code.go:207 | a blank pattern matches every name |
| Exclusion.BlankItemExcludesEverything | go-action-code.go:206-210 | one blank item in the list excludes every name |
| Exclusion.UnsetInputExcludesEverything | go-action-code.go:46 | an unset input parses to `[""]`, which excludes every name |
| Exclusion.TrailingCommaExcludesEverything | go-action-code.go:46 | an input that ends in a comma excludes every name |
| Checks.FromStatusEntry | go-action-code.go:132-136 | a commit status becomes a completed check, and its context and state come back unchanged as name and conclusion |
| Checks.FromCheckRun | go-action-code.go:142-146 | a check run becomes a check with its name, status and conclusion unchanged |
| Checks.Keep | go-action-code.go:130-148 | the kept checks are a subsequence of the input: order is kept and nothing is invented |
| Checks.KeepMembers | go-action-code.go:130-148 | a check is kept iff it is in the input and its name is not excluded |
| Checks.KeepCounts | go-action-code.go:130-148 | each kept check keeps its full multiplicity and each excluded one vanishes, so nothing is merged |
| Checks.KeepSingleton | go-action-code.go:131-137 | one check is kept exactly when its name is not excluded |
| Checks.KeepConcat | go-action-code.go:129-148 | filtering a concatenation equals concatenating the filtered parts, so input order is preserved |
| Checks.KeepWithoutPatterns | go-action-code.go:129-148 | with no patterns every check is kept, unchanged and in order |
| Checks.MorePatternsKeepLess | go-action-code.go:129-148 | with more patterns the kept list is a subsequence of the kept list with fewer patterns |
| Checks.RelevantChecks | go-action-code.go:129-148 | the relevant list is at most as long as both inputs together; it holds exactly the mapped statuses and runs whose names are not excluded |
| Checks.RelevantChecksIsOneFilter | go-action-code.go:129-148 | the relevant list is one order-preserving filter over the mapped statuses followed by the mapped check runs |
| Checks.MorePatternsNeverGrowRelevant | go-action-code.go:129-148 | adding exclusion patterns yields a subsequence of the relevant list, never a longer one |
| Checks.BlankPatternEmptiesRelevant | go-action-code.go:129-148 | a blank pattern leaves the relevant list empty |
| Verdicts.Passed | go-action-code.go:155-161 | a check passed iff its status is exactly `completed` and its conclusion is exactly `success`, `neutral` or `skipped` |
| Verdicts.AllPass | go-action-code.go:153-164 | the loop's flag stays true iff every check is completed with conclusion success, neutral or skipped |
| Verdicts.Evaluate | go-action-code.go:153-172 | the verdict is a pass iff the list is non-empty and every check passed; "no relevant checks" iff the list is empty; "pending or failed" iff some check did not pass |
| Verdicts.StatusEntryPassedIff | go-action-code.go:130-161 | a commit status passes iff its state is a passing conclusion; pending, failure and error statuses are completed but not passed |
| Verdicts.EvaluateIgnoresOrder | go-action-code.go:153-172 | two lists that are permutations of each other get the same verdict |
| Notifier.HasNotification | go-action-code.go:181-187 | the scan finds a notification iff some comment body contains the marker phrase |
| Notifier.Render | go-action-code.go:190 | the message is the template's `{user}`-separated pieces joined with the login; a template without `{user}` is returned unchanged |
| Notifier.RenderWithPlaceholderIsIdentity | go-action-code.go:190 | rendering with `{user}` as the login gives back the template |
| Notifier.Decide | go-action-code.go:181-198 | the decision is to skip iff some body carries the marker, whatever the template; otherwise it posts the rendered template |
| Notifier.PostedMarkerSuppressesRepost | go-action-code.go:181-198 | once a body with the marker is among the comments, the next decision is to skip |
| Notifier.PostedBodyWithoutMarkerIsPostedAgain | go-action-code.go:181-198 | a posted body without the marker does not stop the same body being posted again |
| Events.SplitRepository | go-action-code.go:60-61 | the split succeeds iff the name contains `/`; owner and repository hold no `/`; `owner/repo` is a prefix of the input that ends at the input's end or at its next `/`, so the repository is the whole second `/`-separated part |
| Events.SplitRepositoryOfJoined | go-action-code.go:60-61 | splitting `owner/name` gives back owner and name when neither holds `/` |
| Events.ResolveEvent | go-action-code.go:68-94 | an unreadable payload is fatal first; a pull_request event yields the head SHA and number; a status event yields the SHA with number 0; an unparseable payload or any other event name is fatal |
| Events.SelectPullRequest | go-action-code.go:96-107 | a non-zero number is used without a lookup; with 0, a failed lookup is fatal, an empty answer ends the run, and otherwise the first pull request is taken |
| Action.Call | go-action-code.go:98-101 | a failed remote reply becomes the fatal error naming the call, and a successful one yields its value |
| Action.Locate | go-action-code.go:41-107 | an empty token is fatal before anything else; a located pull request carries the split repository and the event's SHA |
| Action.Conclude | go-action-code.go:109-201 | a not-passed ending never carries a pass verdict; a comment or skip concerns the located pull request |
| Action.Deliver | go-action-code.go:189-197 | only a decision to post depends on the create call, whose failure is fatal |
| Action.Run | go-action-code.go:39-202 | an empty token is fatal; the run ends without a pull request iff the lookup found none |
| Action.ConcludePosted | go-action-code.go:109-198 | a decision to post needs every reply, a pass verdict and no marker, and its body is the rendered template |
| Action.ConcludeBeforePass | go-action-code.go:172-201 | checks that did not all pass end the decision with their verdict, before the comments are read |
| Action.ConcludeAfterPass | go-action-code.go:172-198 | after a pass, the comment list alone chooses between skipping and posting the rendered template |
| Action.RunOfFound | go-action-code.go:109-201 | for a located pull request, the run is the decision, followed by the create call when a comment is to be posted |
| Action.PostsIff | go-action-code.go:153-198 | when every call succeeds, the run posts the rendered template iff the relevant checks all passed, the list is non-empty, and no comment carries the marker |
| Action.MarkerPreventsComment | go-action-code.go:181-198 | a marker among the existing comments means no comment is created, whatever the template and the checks |
| Action.PostingNeedsEveryFetch | go-action-code.go:109-198 | a posted comment implies that every fetch and the create call succeeded, the verdict was a pass, and no comment carried the marker |
| Action.SecondRunDoesNotRepost | go-action-code.go:176-198 | rerunning after a posted comment that holds the marker, with that comment now listed, posts nothing |
| Action.SecondRunRepostsWithoutMarker | go-action-code.go:176-198 | rerunning after a posted comment that lacks the marker posts the same comment again |
| Action.UnsetExclusionsNeverNotify | go-action-code.go:46-201 | with `excluded-checks` unset, a run that does not fail ends without a pull request or with no relevant checks |
| Action.PullRequestEventSkipsLookup | go-action-code.go:74-107 | for a pull_request event with a non-zero number, the lookup's answers do not matter, and the pull request is the payload's SHA and number |
| Action.RunDependsOnLookupOnlyThroughLocate | go-action-code.go:96-202 | two APIs that locate the same pull request and agree on every later call give the same run |
| Action.StatusEventWithoutPullRequest | go-action-code.go:84-105 | a status event whose commit has no pull request ends quietly, before any check is fetched |
| Action.NoPullRequestStopsEarly | go-action-code.go:102-105 | once the lookup finds nothing, no other answer of the API affects the run |
| Action.FailedStatusFetchIsFatal | go-action-code.go:116-120 | a failed commit-status fetch is fatal, whatever the checks would have said |
| Scenarios.PassingChecksAreRelevant | go-action-code.go:129-148 | a passing status "lint" and a passing run "build", with pattern "flaky", both stay relevant, status first |
| Scenarios.PassingChecksArePassed | go-action-code.go:153-172 | those two checks make the verdict a pass |
| Scenarios.PassingChecksWithUnsetInput | go-action-code.go:46 | the same checks with the input unset leave no relevant checks |
| Scenarios.ExcludedFailureLeavesNothing | go-action-code.go:140-172 | a failing "flaky-test" run excluded by "flaky" leaves no relevant checks |
| Scenarios.InProgressRunIsPending | go-action-code.go:140-164 | an in-progress run with an empty conclusion is "pending or failed" |
| Scenarios.BothReportsAreKept | go-action-code.go:129-148 | a check reported both as a status and as a run appears twice |
| Scenarios.PullRequestEventResolves | go-action-code.go:75-82 | a pull_request payload with head SHA "abc123" and number 42 resolves to exactly those |
| Scenarios.PassRuleIsCaseSensitive | go-action-code.go:155-161 | "SUCCESS" and "Completed" do not pass; "neutral" does |

## Left out

- Reading inputs and the environment (`getInput`, `os.Getenv`). Reading the
  event file is reduced to whether it could be read. Printing the token at
  line 42 is also left out. All of these are I/O.
- JSON decoding of the payload, because it is a foreign library. The payload
  is either malformed or the three fields the run reads. A field missing
  from valid JSON makes the source dereference nil and panic. That panic is
  not modelled.
- A check run without a conclusion also makes the source dereference nil
  (line 145). The model gives such a run the empty conclusion.
- The OAuth2 client and the GitHub client, because they are network calls.
  Their answers are the functions of the `Api` record.
- Pagination. The source passes `nil` options, so only the first page of each
  list is seen, and that page is simply the list the model is given.
- The notice, warning, `log.Printf` and `::error::` output, and the process
  exit codes. They are output only and do not affect any decision.
- Fetching the pull request's title (line 114). It is used only in a notice.
- Two runs racing between listing the comments and creating one. This is
  concurrency, and the model is sequential.
- GoStrings.ToLower: folds ASCII letters only, where Go folds all of Unicode.
  Exclusion matching of non-ASCII names is therefore weaker than the source.
- GoStrings.TrimSpace: treats text as code points. It uses Go's
  `unicode.IsSpace` set but does not model invalid UTF-8 bytes.
