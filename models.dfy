/** The records of the `comments` collection (src/models/mod.rs) and the
    result types the store and the handlers return. */
module Models {
  import opened Uuids

  datatype Option<T> = None | Some(value: T)

  /** `anyhow::Result` of the store and `Result<_, ServerError>` of the handlers. */
  datatype Result<T, E> = Ok(value: T) | Err(error: E)

  datatype CommentType = Root | Branch

  /** A snapshot of the author's account at the time of posting. */
  datatype Commenter = Commenter(accountId: Uuid, username: string)

  datatype CommentReactor = CommentReactor(accountId: Uuid, username: string)

  datatype CommentReaction = CommentReaction(reactor: CommentReactor, emojiUnifiedCode: string)

  /** One document of the collection. `commentedTimestamp` is the creation
      time as an integer; `branchCommentIds` is carried but no operation
      writes or reads it. */
  datatype Comment = Comment(
    commentId: Uuid,
    commentType: CommentType,
    commenter: Commenter,
    commentedTimestamp: int,
    commentText: string,
    reactions: seq<CommentReaction>,
    branchCommentIds: seq<Uuid>,
    materializedPath: string)
}
