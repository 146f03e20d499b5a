/** The persistence layer (src/persistent/mongo.rs): the `comments`
    collection is the state, each method sends one command to it. */
module Store {
  import opened Uuids
  import opened Paths
  import opened Models
  import opened Collection

  /** The failures the store itself reports. */
  datatype StoreError =
    | CommentNotFound        // "comment not found"
    | ReactionNotAppended    // "error updating (appending reaction to) comment documents"
    | ReactionNotRemoved     // "error updating (removing reaction from) comment documents"

  class PersistentLayer {
    /** The documents of the `comments` collection, in natural order. */
    var comments: seq<Comment>

    constructor ()
      ensures comments == []
    {
      comments := [];
    }

    /** `insert_comment_mongo`: `insert_one` adds the document. */
    method InsertComment(comment: Comment)
      modifies this
      ensures comments == old(comments) + [comment]
    {
      comments := comments + [comment];
    }

    /** `append_reaction_to_comment_mongo`: `$push` onto the first record with
        the id; zero modified documents (no such record) is an error. */
    method AppendReactionToComment(commentId: Uuid, reaction: CommentReaction)
      returns (r: Result<(), StoreError>)
      modifies this
      ensures comments == Pushed(old(comments), commentId, reaction)
      ensures r.Ok? <==> commentId in Ids(old(comments))
      ensures r.Err? <==> comments == old(comments)
      ensures r.Err? ==> r.error == ReactionNotAppended
    {
      match FindFirst(comments, commentId)
      case None =>
        r := Err(ReactionNotAppended);
      case Some(i) =>
        var target := comments[i];
        comments := comments[i := target.(reactions := target.reactions + [reaction])];
        assert |comments[i].reactions| != |target.reactions|;
        r := Ok(());
    }

    /** `remove_reaction_from_comment_mongo`: `$pull` from the first record
        with the id; zero modified documents (no such record, or it does not
        hold the reaction) is an error. */
    method RemoveReactionFromComment(commentId: Uuid, reaction: CommentReaction)
      returns (r: Result<(), StoreError>)
      modifies this
      ensures comments == Pulled(old(comments), commentId, reaction)
      ensures r.Ok? <==> PullApplies(old(comments), commentId, reaction)
      ensures r.Err? <==> comments == old(comments)
      ensures r.Err? ==> r.error == ReactionNotRemoved
    {
      match FindFirst(comments, commentId)
      case None =>
        r := Err(ReactionNotRemoved);
      case Some(i) =>
        var target := comments[i];
        var kept := RemoveAll(target.reactions, reaction);
        if reaction in target.reactions {
          assert reaction !in multiset(kept);
          comments := comments[i := target.(reactions := kept)];
          assert comments[i] != target;
          r := Ok(());
        } else {
          assert comments[i := target.(reactions := kept)] == comments;
          r := Err(ReactionNotRemoved);
        }
    }

    /** `update_comment_mongo`: `$set` of every field on the first record with
        the id. Nothing matched is only logged: the call succeeds either way. */
    method UpdateComment(commentId: Uuid, newComment: Comment)
      modifies this
      ensures comments == Replaced(old(comments), commentId, newComment)
    {
      match FindFirst(comments, commentId)
      case None =>
      case Some(i) =>
        comments := comments[i := newComment];
    }

    /** `prune_comments_mongo`: `delete_many` of every record whose path
        starts with the given text. Nothing deleted is only logged. */
    method PruneComments(materializedPath: string)
      modifies this
      ensures comments == Pruned(old(comments), materializedPath)
      ensures forall c | c in comments :: !StartsWith(c.materializedPath, materializedPath)
      ensures forall c | c in old(comments) && !StartsWith(c.materializedPath, materializedPath) ::
                c in comments
    {
      comments := Pruned(comments, materializedPath);
    }

    /** `find_comment`: the first record with the id, or "comment not found". */
    method FindComment(commentId: Uuid) returns (r: Result<Comment, StoreError>)
      ensures r.Ok? <==> commentId in Ids(comments)
      ensures r.Ok? ==> r.value in comments && r.value.commentId == commentId
      ensures r.Ok? ==> Lookup(comments, commentId) == Some(r.value)
      ensures r.Err? ==> r.error == CommentNotFound
    {
      match Lookup(comments, commentId)
      case None =>
        r := Err(CommentNotFound);
      case Some(c) =>
        r := Ok(c);
    }

    /** One loop for the database's `$match` and `$sort` stages together
        with the loop that drains the cursor into a vector
        (src/persistent/mongo.rs:193-197 and 233-237): it walks the whole
        collection and places each matching record at its position in the
        sort order. Only the result is claimed to agree with the database's,
        not the way it is computed. */
    method Query(pattern: PathPattern, order: SortOrder) returns (results: seq<Comment>)
      ensures multiset(results) == multiset(Filter(comments, pattern, true))
      ensures SortedBy(order, results)
    {
      results := [];
      var i := 0;
      while i < |comments|
        invariant 0 <= i <= |comments|
        invariant multiset(results) == multiset(Filter(comments[..i], pattern, true))
        invariant SortedBy(order, results)
      {
        var c := comments[i];
        FilterExtend(comments, i, pattern);
        if Matches(pattern, c.materializedPath) {
          results := InsertSorted(order, c, results);
        }
        i := i + 1;
      }
      assert comments[..i] == comments;
    }

    /** `find_next_level_comments`: the records one id below `currentPath`,
        latest first. */
    method FindNextLevelComments(currentPath: string) returns (results: seq<Comment>)
      ensures forall c :: c in results <==> c in comments && IsChildPath(c.materializedPath, currentPath)
      ensures multiset(results) == multiset(Filter(comments, ChildOf(currentPath), true))
      ensures SortedBy(NewestFirst, results)
    {
      results := Query(ChildOf(currentPath), NewestFirst);
      SameElements(results, Filter(comments, ChildOf(currentPath), true));
    }

    /** `find_all_comments`: the records whose path starts with `currentPath`,
        shortest path first and latest first among equal lengths. */
    method FindAllComments(currentPath: string) returns (results: seq<Comment>)
      ensures forall c :: c in results <==> c in comments && StartsWith(c.materializedPath, currentPath)
      ensures multiset(results) == multiset(Filter(comments, PrefixedBy(currentPath), true))
      ensures SortedBy(ShallowestThenNewestFirst, results)
    {
      results := Query(PrefixedBy(currentPath), ShallowestThenNewestFirst);
      SameElements(results, Filter(comments, PrefixedBy(currentPath), true));
    }
  }

  /** Filtering one more record of the collection adds that record when it matches. */
  lemma FilterExtend(cs: seq<Comment>, i: nat, pattern: PathPattern)
    requires i < |cs|
    ensures Filter(cs[..i + 1], pattern, true) ==
            Filter(cs[..i], pattern, true) + if Matches(pattern, cs[i].materializedPath) then [cs[i]] else []
  {
    assert cs[..i + 1][..i] == cs[..i];
  }

  /** Sequences with the same multiset hold the same elements. */
  lemma SameElements(a: seq<Comment>, b: seq<Comment>)
    requires multiset(a) == multiset(b)
    ensures forall c :: c in a <==> c in b
  {
    forall c ensures c in a <==> c in b {
      assert c in a <==> c in multiset(a);
      assert c in b <==> c in multiset(b);
    }
  }
}
