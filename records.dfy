/**
  The flat local records the fetcher builds from API responses
  (github/fetcher.go): pull-request comments, repository events and team
  discussion comments. Field names follow the Go structs; `Type` is
  `eventType` because `type` is a Dafny keyword.
*/
module Records {
  import opened Selection

  datatype PullComment = PullComment(
    handle: string,
    id: int,
    body: string,
    reactionTotalCount: int,
    reactionPlusOne: int,
    reactionMinusOne: int,
    reactionLaugh: int,
    reactionConfused: int,
    reactionHeart: int,
    reactionHooray: int,
    createdAt: string)

  datatype RepoEvent = RepoEvent(
    handle: string,
    repo: string,
    eventType: string,
    payload: string,
    createdAt: string)

  datatype DiscussionComment = DiscussionComment(
    handle: string,
    id: int,
    title: string,
    body: string,
    reactionTotalCount: int,
    reactionPlusOne: int,
    reactionMinusOne: int,
    reactionLaugh: int,
    reactionConfused: int,
    reactionHeart: int,
    reactionHooray: int,
    createdAt: string)

  /** The two fields every command filters on. */
  function PullStamp(c: PullComment): Stamp {
    Stamp(c.handle, c.createdAt)
  }

  function EventStamp(e: RepoEvent): Stamp {
    Stamp(e.handle, e.createdAt)
  }

  function DiscussionStamp(c: DiscussionComment): Stamp {
    Stamp(c.handle, c.createdAt)
  }
}
