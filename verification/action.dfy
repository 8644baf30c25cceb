/** One run of the action: configuration and event in, either a fatal failure
    or one of the four quiet endings out. The remote API is a record of the
    answers it would give, keyed by the arguments of each call. */
module Action {
  import opened Wrappers
  import opened GoStrings
  import opened Failures
  import opened Exclusion
  import opened Checks
  import opened Verdicts
  import opened Notifier
  import opened Events

  /** The action's inputs. */
  datatype Config = Config(githubToken: string, excludedChecks: string, notificationMessage: string)

  /** What the CI environment supplies: event name, `owner/repo`, payload file. */
  datatype Environment = Environment(eventName: string, repository: string, eventFile: EventFile)

  /** The answers of the remote calls the run makes. */
  datatype Api = Api(
    pullRequestsWithCommit: (Repo, string) -> Reply<seq<int>>,
    pullRequestAuthor: (Repo, int) -> Reply<string>,
    combinedStatus: (Repo, string) -> Reply<seq<StatusEntry>>,
    checkRuns: (Repo, string) -> Reply<seq<CheckRun>>,
    commentBodies: (Repo, int) -> Reply<seq<string>>,
    createComment: (Repo, int, string) -> Reply<()>)

  /** How a run that does not fail ends. */
  datatype Outcome =
    | NoPullRequest(sha: string)
    | ChecksNotPassed(verdict: Verdict)
    | AlreadyNotified(pr: int)
    | CommentPosted(pr: int, body: string)

  /** A remote reply, with its error made fatal. */
  function Call<T>(reply: Reply<T>, call: ApiCall): (r: Result<T, Failure>)
    ensures r.Ok? <==> reply.Answer?
    ensures r.Ok? ==> r.value == reply.value
    ensures r.Err? ==> r.error == RemoteError(call)
  {
    match reply
    case Answer(v) => Ok(v)
    case ApiError => Err(RemoteError(call))
  }

  /** Everything up to knowing which pull request to report on: the token
      check, the repository split, the event dispatch and the lookup. */
  function Locate(cfg: Config, env: Environment, api: Api): (r: Result<Located, Failure>)
    ensures cfg.githubToken == "" ==> r == Err(MissingToken)
    ensures r.Ok? ==> (cfg.githubToken != "" && SplitRepository(env.repository).Ok?
                       && ResolveEvent(env.eventName, env.eventFile).Ok?)
    ensures r.Ok? && r.value.Found? ==> r.value.target.repo == SplitRepository(env.repository).value
    ensures r.Ok? && r.value.Found? ==> r.value.target.sha == ResolveEvent(env.eventName, env.eventFile).value.sha
  {
    if cfg.githubToken == "" then Err(MissingToken)
    else
      var repo :- SplitRepository(env.repository);
      var trigger :- ResolveEvent(env.eventName, env.eventFile);
      SelectPullRequest(repo, trigger, api.pullRequestsWithCommit(repo, trigger.sha))
  }

  /** The relevant list a run computes for the pull request it found. */
  function RelevantFor(cfg: Config, statuses: seq<StatusEntry>, runs: seq<CheckRun>): seq<CheckStatus> {
    RelevantChecks(statuses, runs, ParseExcludedChecks(cfg.excludedChecks))
  }

  /** Everything after the pull request is known, given the replies of the
      calls that follow: its author, the two kinds of report, the verdict,
      and the notification decision. */
  function Conclude(cfg: Config, pr: int, author: Reply<string>, statuses: Reply<seq<StatusEntry>>,
                    runs: Reply<seq<CheckRun>>, comments: Reply<seq<string>>): (r: Result<Outcome, Failure>)
    ensures r.Ok? && r.value.ChecksNotPassed? ==> r.value.verdict != AllPassed
    ensures r.Ok? ==> r.value.AlreadyNotified? || r.value.CommentPosted? || r.value.ChecksNotPassed?
    ensures r.Ok? && !r.value.ChecksNotPassed? ==> r.value.pr == pr
  {
    var login :- Call(author, GetPullRequest);
    var statusEntries :- Call(statuses, GetCombinedStatus);
    var checkRuns :- Call(runs, ListCheckRunsForRef);
    var verdict := Evaluate(RelevantFor(cfg, statusEntries, checkRuns));
    if verdict != AllPassed then Ok(ChecksNotPassed(verdict))
    else
      var bodies :- Call(comments, ListComments);
      match Decide(bodies, cfg.notificationMessage, login)
      case Skip => Ok(AlreadyNotified(pr))
      case Post(body) => Ok(CommentPosted(pr, body))
  }

  /** The creation of the comment the run decided to post; its error is fatal too. */
  function Deliver(decided: Result<Outcome, Failure>, created: Reply<()>): (r: Result<Outcome, Failure>)
    ensures !(decided.Ok? && decided.value.CommentPosted?) ==> r == decided
    ensures decided.Ok? && decided.value.CommentPosted? && created.Answer? ==> r == decided
    ensures decided.Ok? && decided.value.CommentPosted? && created.ApiError? ==> r == Err(RemoteError(CreateComment))
  {
    if decided.Ok? && decided.value.CommentPosted? then
      var _ :- Call(created, CreateComment);
      decided
    else decided
  }

  /** The decision for a located pull request, from the API's replies for it. */
  function DecideFor(cfg: Config, api: Api, t: Target): Result<Outcome, Failure> {
    Conclude(cfg, t.pr, api.pullRequestAuthor(t.repo, t.pr), api.combinedStatus(t.repo, t.sha),
             api.checkRuns(t.repo, t.sha), api.commentBodies(t.repo, t.pr))
  }

  /** The whole run. */
  function Run(cfg: Config, env: Environment, api: Api): (r: Result<Outcome, Failure>)
    ensures cfg.githubToken == "" ==> r == Err(MissingToken)
    ensures r.Ok? ==> cfg.githubToken != "" && Locate(cfg, env, api).Ok?
    ensures r.Ok? && r.value.NoPullRequest? <==> Locate(cfg, env, api).Ok? && Locate(cfg, env, api).value.NoPullRequestFor?
    ensures r.Ok? && r.value.ChecksNotPassed? ==> r.value.verdict != AllPassed
  {
    var located :- Locate(cfg, env, api);
    match located
    case NoPullRequestFor(sha) => Ok(NoPullRequest(sha))
    case Found(t) =>
      var decided := DecideFor(cfg, api, t);
      Deliver(decided, if decided.Ok? && decided.value.CommentPosted?
                       then api.createComment(t.repo, t.pr, decided.value.body) else Answer(()))
  }

  /** A decision to post needs every reply, a pass, and no marker, and posts the rendered template. */
  lemma ConcludePosted(cfg: Config, pr: int, author: Reply<string>, statuses: Reply<seq<StatusEntry>>,
                       runs: Reply<seq<CheckRun>>, comments: Reply<seq<string>>, body: string)
    requires Conclude(cfg, pr, author, statuses, runs, comments) == Ok(CommentPosted(pr, body))
    ensures author.Answer? && statuses.Answer? && runs.Answer? && comments.Answer?
    ensures Evaluate(RelevantFor(cfg, statuses.value, runs.value)) == AllPassed
    ensures !HasNotification(comments.value)
    ensures body == Render(cfg.notificationMessage, author.value)
  {
  }

  /** Checks that did not all pass end the decision before the comments are read. */
  lemma ConcludeBeforePass(cfg: Config, pr: int, login: string, statuses: seq<StatusEntry>,
                           runs: seq<CheckRun>, comments: Reply<seq<string>>)
    requires Evaluate(RelevantFor(cfg, statuses, runs)) != AllPassed
    ensures Conclude(cfg, pr, Answer(login), Answer(statuses), Answer(runs), comments)
         == Ok(ChecksNotPassed(Evaluate(RelevantFor(cfg, statuses, runs))))
  {
  }

  /** Once the checks passed, the comments alone decide between skipping and posting. */
  lemma ConcludeAfterPass(cfg: Config, pr: int, login: string, statuses: seq<StatusEntry>,
                          runs: seq<CheckRun>, bodies: seq<string>)
    requires Evaluate(RelevantFor(cfg, statuses, runs)) == AllPassed
    ensures Conclude(cfg, pr, Answer(login), Answer(statuses), Answer(runs), Answer(bodies))
         == if HasNotification(bodies) then Ok(AlreadyNotified(pr))
            else Ok(CommentPosted(pr, Render(cfg.notificationMessage, login)))
  {
  }

  /** For a located pull request the run is the decision, followed by the
      creation of the comment when one is to be posted. */
  lemma RunOfFound(cfg: Config, env: Environment, api: Api, t: Target)
    requires Locate(cfg, env, api) == Ok(Found(t))
    ensures (!(DecideFor(cfg, api, t).Ok? && DecideFor(cfg, api, t).value.CommentPosted?))
              ==> Run(cfg, env, api) == DecideFor(cfg, api, t)
    ensures (DecideFor(cfg, api, t).Ok? && DecideFor(cfg, api, t).value.CommentPosted?)
              ==> Run(cfg, env, api) == (if api.createComment(t.repo, t.pr, DecideFor(cfg, api, t).value.body).Answer?
                                         then DecideFor(cfg, api, t) else Err(RemoteError(CreateComment)))
  {
  }

  /** Once every fetch succeeds, a comment is posted exactly when every
      relevant check passed, the list is not empty, and no comment carries
      the marker; the comment is the rendered template. */
  lemma PostsIff(cfg: Config, env: Environment, api: Api, t: Target,
                 login: string, statuses: seq<StatusEntry>, runs: seq<CheckRun>, bodies: seq<string>)
    requires Locate(cfg, env, api) == Ok(Found(t))
    requires api.pullRequestAuthor(t.repo, t.pr) == Answer(login)
    requires api.combinedStatus(t.repo, t.sha) == Answer(statuses)
    requires api.checkRuns(t.repo, t.sha) == Answer(runs)
    requires api.commentBodies(t.repo, t.pr) == Answer(bodies)
    requires api.createComment(t.repo, t.pr, Render(cfg.notificationMessage, login)).Answer?
    ensures Run(cfg, env, api).Ok?
    ensures Run(cfg, env, api) == Ok(CommentPosted(t.pr, Render(cfg.notificationMessage, login)))
        <==> Evaluate(RelevantFor(cfg, statuses, runs)) == AllPassed && !HasNotification(bodies)
    ensures Run(cfg, env, api).value.CommentPosted?
        ==> Run(cfg, env, api).value == CommentPosted(t.pr, Render(cfg.notificationMessage, login))
  {
    RunOfFound(cfg, env, api, t);
    if Evaluate(RelevantFor(cfg, statuses, runs)) == AllPassed {
      ConcludeAfterPass(cfg, t.pr, login, statuses, runs, bodies);
    } else {
      ConcludeBeforePass(cfg, t.pr, login, statuses, runs, Answer(bodies));
    }
  }

  /** A marker in the existing comments stops any new comment, whatever the
      template and the checks. */
  lemma MarkerPreventsComment(cfg: Config, env: Environment, api: Api, t: Target, bodies: seq<string>)
    requires Locate(cfg, env, api) == Ok(Found(t))
    requires api.commentBodies(t.repo, t.pr) == Answer(bodies)
    requires exists k :: 0 <= k < |bodies| && Contains(bodies[k], Marker)
    ensures !(Run(cfg, env, api).Ok? && Run(cfg, env, api).value.CommentPosted?)
  {
    RunOfFound(cfg, env, api, t);
    var decided := DecideFor(cfg, api, t);
    if decided.Ok? && decided.value.CommentPosted? {
      ConcludePosted(cfg, t.pr, api.pullRequestAuthor(t.repo, t.pr), api.combinedStatus(t.repo, t.sha),
                     api.checkRuns(t.repo, t.sha), api.commentBodies(t.repo, t.pr), decided.value.body);
    }
  }

  /** A comment is posted only after every fetch the run makes succeeded. */
  lemma PostingNeedsEveryFetch(cfg: Config, env: Environment, api: Api)
    requires Run(cfg, env, api).Ok? && Run(cfg, env, api).value.CommentPosted?
    ensures Locate(cfg, env, api).Ok? && Locate(cfg, env, api).value.Found?
    ensures var t := Locate(cfg, env, api).value.target;
      && api.pullRequestAuthor(t.repo, t.pr).Answer?
      && api.combinedStatus(t.repo, t.sha).Answer?
      && api.checkRuns(t.repo, t.sha).Answer?
      && api.commentBodies(t.repo, t.pr).Answer?
      && api.createComment(t.repo, t.pr, Run(cfg, env, api).value.body).Answer?
      && Evaluate(RelevantFor(cfg, api.combinedStatus(t.repo, t.sha).value, api.checkRuns(t.repo, t.sha).value)) == AllPassed
      && !HasNotification(api.commentBodies(t.repo, t.pr).value)
  {
  }

  /** After a posted comment that carries the marker, the same run again
      (same answers, the new comment now listed) posts nothing. */
  lemma SecondRunDoesNotRepost(cfg: Config, env: Environment, api: Api, t: Target,
                               bodies: seq<string>, body: string, comments': (Repo, int) -> Reply<seq<string>>)
    requires Locate(cfg, env, api) == Ok(Found(t))
    requires api.commentBodies(t.repo, t.pr) == Answer(bodies)
    requires Run(cfg, env, api) == Ok(CommentPosted(t.pr, body))
    requires Contains(body, Marker)
    requires comments'(t.repo, t.pr) == Answer(bodies + [body])
    ensures Run(cfg, env, api.(commentBodies := comments')) == Ok(AlreadyNotified(t.pr))
  {
    var api' := api.(commentBodies := comments');
    assert Locate(cfg, env, api') == Locate(cfg, env, api);
    RunOfFound(cfg, env, api, t);
    RunOfFound(cfg, env, api', t);
    var author, statuses, runs := api.pullRequestAuthor(t.repo, t.pr), api.combinedStatus(t.repo, t.sha), api.checkRuns(t.repo, t.sha);
    ConcludePosted(cfg, t.pr, author, statuses, runs, Answer(bodies), body);
    assert (bodies + [body])[|bodies|] == body;
    ConcludeAfterPass(cfg, t.pr, author.value, statuses.value, runs.value, bodies + [body]);
  }

  /** Without the marker in the posted body, the same run again posts the same comment again. */
  lemma SecondRunRepostsWithoutMarker(cfg: Config, env: Environment, api: Api, t: Target,
                                      bodies: seq<string>, body: string, comments': (Repo, int) -> Reply<seq<string>>)
    requires Locate(cfg, env, api) == Ok(Found(t))
    requires api.commentBodies(t.repo, t.pr) == Answer(bodies)
    requires Run(cfg, env, api) == Ok(CommentPosted(t.pr, body))
    requires !Contains(body, Marker)
    requires comments'(t.repo, t.pr) == Answer(bodies + [body])
    ensures Run(cfg, env, api.(commentBodies := comments')) == Ok(CommentPosted(t.pr, body))
  {
    var api' := api.(commentBodies := comments');
    assert Locate(cfg, env, api') == Locate(cfg, env, api);
    RunOfFound(cfg, env, api, t);
    RunOfFound(cfg, env, api', t);
    var author, statuses, runs := api.pullRequestAuthor(t.repo, t.pr), api.combinedStatus(t.repo, t.sha), api.checkRuns(t.repo, t.sha);
    ConcludePosted(cfg, t.pr, author, statuses, runs, Answer(bodies), body);
    var after := bodies + [body];
    forall k | 0 <= k < |after|
      ensures !Contains(after[k], Marker)
    {
      if k < |bodies| {
        assert after[k] == bodies[k];
      }
    }
    ConcludeAfterPass(cfg, t.pr, author.value, statuses.value, runs.value, after);
  }

  /** An unset `excluded-checks` input empties the relevant list, so the run
      can never post: it ends without a pull request, with no relevant
      checks, or in a failure. */
  lemma UnsetExclusionsNeverNotify(cfg: Config, env: Environment, api: Api)
    requires cfg.excludedChecks == ""
    ensures Run(cfg, env, api).Ok? ==>
      Run(cfg, env, api).value.NoPullRequest? || Run(cfg, env, api).value == ChecksNotPassed(NoRelevantChecks)
  {
    var located := Locate(cfg, env, api);
    if located.Ok? && located.value.Found? {
      var t := located.value.target;
      var statuses := api.combinedStatus(t.repo, t.sha);
      var runs := api.checkRuns(t.repo, t.sha);
      if statuses.Answer? && runs.Answer? {
        UnsetInputExcludesEverything("");
        assert AllSpace(ParseExcludedChecks("")[0]);
        BlankPatternEmptiesRelevant(statuses.value, runs.value, ParseExcludedChecks(""));
        assert Evaluate(RelevantFor(cfg, statuses.value, runs.value)) == NoRelevantChecks;
      }
      var decided := DecideFor(cfg, api, t);
      assert decided.Ok? ==> decided.value == ChecksNotPassed(NoRelevantChecks);
      RunOfFound(cfg, env, api, t);
    }
  }

  /** A pull_request event with a non-zero number takes the head SHA and the
      number from the payload and never asks the lookup. */
  lemma PullRequestEventSkipsLookup(cfg: Config, env: Environment, api: Api, lookup': (Repo, string) -> Reply<seq<int>>)
    requires env.eventName == "pull_request" && env.eventFile.Payload? && env.eventFile.pullRequestNumber != 0
    ensures Locate(cfg, env, api.(pullRequestsWithCommit := lookup')) == Locate(cfg, env, api)
    ensures Locate(cfg, env, api).Ok? ==>
      Locate(cfg, env, api).value == Found(Target(SplitRepository(env.repository).value,
                                                  env.eventFile.pullRequestHeadSha, env.eventFile.pullRequestNumber))
  {
    if cfg.githubToken != "" && SplitRepository(env.repository).Ok? {
      var repo := SplitRepository(env.repository).value;
      var trigger := ResolveEvent(env.eventName, env.eventFile).value;
      assert trigger.prNumber != 0;
    }
  }

  /** The run's result depends on the lookup only through the pull request it locates. */
  lemma RunDependsOnLookupOnlyThroughLocate(cfg: Config, env: Environment, api: Api, other: Api)
    requires Locate(cfg, env, other) == Locate(cfg, env, api)
    requires other.pullRequestAuthor == api.pullRequestAuthor
    requires other.combinedStatus == api.combinedStatus
    requires other.checkRuns == api.checkRuns
    requires other.commentBodies == api.commentBodies
    requires other.createComment == api.createComment
    ensures Run(cfg, env, other) == Run(cfg, env, api)
  {
    if Locate(cfg, env, api).Ok? && Locate(cfg, env, api).value.Found? {
      var t := Locate(cfg, env, api).value.target;
      assert other.pullRequestAuthor(t.repo, t.pr) == api.pullRequestAuthor(t.repo, t.pr);
      assert other.combinedStatus(t.repo, t.sha) == api.combinedStatus(t.repo, t.sha);
      assert other.checkRuns(t.repo, t.sha) == api.checkRuns(t.repo, t.sha);
      assert other.commentBodies(t.repo, t.pr) == api.commentBodies(t.repo, t.pr);
    }
  }

  /** A status event whose commit belongs to no pull request ends the run
      quietly, before any check is fetched. */
  lemma StatusEventWithoutPullRequest(cfg: Config, env: Environment, api: Api)
    requires cfg.githubToken != "" && SplitRepository(env.repository).Ok?
    requires env.eventName == "status" && env.eventFile.Payload?
    requires api.pullRequestsWithCommit(SplitRepository(env.repository).value, env.eventFile.sha) == Answer([])
    ensures Run(cfg, env, api) == Ok(NoPullRequest(env.eventFile.sha))
  {
  }

  /** When the lookup finds no pull request the run ends there: no other
      answer of the API affects it. */
  lemma NoPullRequestStopsEarly(cfg: Config, env: Environment, api: Api, other: Api, sha: string)
    requires Locate(cfg, env, api) == Ok(NoPullRequestFor(sha))
    requires other.pullRequestsWithCommit == api.pullRequestsWithCommit
    ensures Run(cfg, env, other) == Ok(NoPullRequest(sha))
  {
    assert Locate(cfg, env, other) == Locate(cfg, env, api);
  }

  /** A failed status fetch is fatal, whatever the checks would have said. */
  lemma FailedStatusFetchIsFatal(cfg: Config, env: Environment, api: Api, t: Target)
    requires Locate(cfg, env, api) == Ok(Found(t))
    requires api.pullRequestAuthor(t.repo, t.pr).Answer?
    requires api.combinedStatus(t.repo, t.sha) == ApiError
    ensures Run(cfg, env, api) == Err(RemoteError(GetCombinedStatus))
  {
  }
}
