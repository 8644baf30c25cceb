/** The fatal conditions that end a run through `fail`, and the replies of the remote API. */
module Failures {

  /** The remote calls whose error is fatal. */
  datatype ApiCall =
    | ListPullRequestsWithCommit
    | GetPullRequest
    | GetCombinedStatus
    | ListCheckRunsForRef
    | ListComments
    | CreateComment

  datatype Failure =
    | MissingToken
    | MalformedRepository(repository: string)
    | EventFileUnreadable
    | PayloadParseError(eventName: string)
    | UnsupportedEvent(eventName: string)
    | RemoteError(call: ApiCall)

  /** What a remote call returned: a value, or an error. */
  datatype Reply<+T> = Answer(value: T) | ApiError
}
