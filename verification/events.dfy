/** The repository name, the triggering event and the choice of pull request. */
module Events {
  import opened Wrappers
  import opened GoStrings
  import opened Failures

  datatype Repo = Repo(owner: string, name: string)

  /** `owner/repo` split on `/`: the first two pieces. A name without `/` has
      no second piece, which is an error here. */
  function SplitRepository(repository: string): (r: Result<Repo, Failure>)
    ensures r.Ok? <==> Contains(repository, "/")
    ensures r.Err? ==> r.error == MalformedRepository(repository)
    ensures r.Ok? ==> !Contains(r.value.owner, "/") && !Contains(r.value.name, "/")
    ensures r.Ok? ==> r.value.owner + "/" + r.value.name <= repository
    ensures r.Ok? ==> var n := |r.value.owner| + 1 + |r.value.name|;
                      n == |repository| || repository[n] == '/'
  {
    var parts := Split(repository, "/");
    SplitSingleIffAbsent(repository, "/");
    if |parts| < 2 then Err(MalformedRepository(repository))
    else
      assert repository == parts[0] + "/" + Join(parts[1..], "/");
      assert parts[1..][0] == parts[1];
      assert |parts| > 2 ==> Join(parts[1..], "/") == parts[1] + "/" + Join(parts[2..], "/") by {
        if |parts| > 2 {
          assert parts[1..][1..] == parts[2..];
        }
      }
      assert |parts| == 2 ==> Join(parts[1..], "/") == parts[1];
      Ok(Repo(parts[0], parts[1]))
  }

  /** Splitting `owner/name` gives back the owner and the name. */
  lemma SplitRepositoryOfJoined(owner: string, name: string)
    requires !Contains(owner, "/") && !Contains(name, "/")
    ensures SplitRepository(owner + "/" + name) == Ok(Repo(owner, name))
  {
    var s := owner + "/" + name;
    assert s[|owner|..|owner| + 1] == "/";
    assert s == owner + ("/" + name);
    forall j | 0 <= j < |owner|
      ensures !OccursAt(s, "/", j)
    {
      OccursAtExtension(owner, "/" + name, "/", j);
    }
    IndexIsLeftmost(s, "/", |owner|);
    assert s[..|owner|] == owner;
    assert s[|owner| + 1..] == name;
    SplitAtInto(s, "/", |owner|, owner, name);
    SplitSingleIffAbsent(name, "/");
  }

  /** The event payload file: unreadable, not valid JSON, or the fields the
      run reads from it (the pull request's head SHA and number for a
      pull_request event, the commit SHA for a status event). */
  datatype EventFile =
    | Unreadable
    | Malformed
    | Payload(pullRequestHeadSha: string, pullRequestNumber: int, sha: string)

  /** The commit to inspect, and the pull request number; 0 means not yet known. */
  datatype Trigger = Trigger(sha: string, prNumber: int)

  const SupportedEvents: set<string> := {"pull_request", "status"}

  /** The dispatch on the event name, after the payload file has been read. */
  function ResolveEvent(eventName: string, file: EventFile): (r: Result<Trigger, Failure>)
    ensures file.Unreadable? ==> r == Err(EventFileUnreadable)
    ensures !file.Unreadable? && eventName !in SupportedEvents ==> r == Err(UnsupportedEvent(eventName))
    ensures file.Malformed? && eventName in SupportedEvents ==> r == Err(PayloadParseError(eventName))
    ensures r.Ok? <==> file.Payload? && eventName in SupportedEvents
    ensures (r.Ok? && eventName == "pull_request")
              ==> r.value == Trigger(file.pullRequestHeadSha, file.pullRequestNumber)
    ensures r.Ok? && eventName == "status" ==> r.value == Trigger(file.sha, 0)
  {
    if file.Unreadable? then Err(EventFileUnreadable)
    else if eventName == "pull_request" then
      if file.Malformed? then Err(PayloadParseError(eventName))
      else Ok(Trigger(file.pullRequestHeadSha, file.pullRequestNumber))
    else if eventName == "status" then
      if file.Malformed? then Err(PayloadParseError(eventName))
      else Ok(Trigger(file.sha, 0))
    else Err(UnsupportedEvent(eventName))
  }

  /** The pull request the run reports on. */
  datatype Target = Target(repo: Repo, sha: string, pr: int)

  datatype Located = Found(target: Target) | NoPullRequestFor(sha: string)

  /** A known number is used as is; number 0 asks the lookup, whose first
      result is taken and whose empty answer ends the run quietly. */
  function SelectPullRequest(repo: Repo, trigger: Trigger, lookup: Reply<seq<int>>): (r: Result<Located, Failure>)
    ensures trigger.prNumber != 0 ==> r == Ok(Found(Target(repo, trigger.sha, trigger.prNumber)))
    ensures trigger.prNumber == 0 && lookup.ApiError? ==> r == Err(RemoteError(ListPullRequestsWithCommit))
    ensures r.Ok? && r.value.NoPullRequestFor? <==> trigger.prNumber == 0 && lookup == Answer([])
    ensures r.Ok? && r.value.NoPullRequestFor? ==> r.value.sha == trigger.sha
    ensures (trigger.prNumber == 0 && lookup.Answer? && |lookup.value| > 0)
              ==> r == Ok(Found(Target(repo, trigger.sha, lookup.value[0])))
  {
    if trigger.prNumber != 0 then Ok(Found(Target(repo, trigger.sha, trigger.prNumber)))
    else
      match lookup
      case ApiError => Err(RemoteError(ListPullRequestsWithCommit))
      case Answer(prs) =>
        if |prs| == 0 then Ok(NoPullRequestFor(trigger.sha))
        else Ok(Found(Target(repo, trigger.sha, prs[0])))
  }
}
