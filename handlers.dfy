/** The request handlers (src/handlers/mod.rs). Each one optionally looks up
    a comment, then sends one command to the store. A failed lookup answers
    403 Forbidden; a failed store command answers 500 Internal Server Error.
    The id minted by `Uuid::new_v4()` and the instant read from `Utc::now()`
    are parameters (`newId`, `now`). */
module Handlers {
  import opened Uuids
  import opened Paths
  import opened Models
  import opened Collection
  import opened Store
  import opened Tree

  /** The two answers a handler gives instead of a success (src/common/errors.rs). */
  datatype ServerError = Forbidden | InternalServerError

  /** The HTTP status each answer is sent with. */
  function StatusCode(e: ServerError): nat {
    match e
    case Forbidden => 403
    case InternalServerError => 500
  }

  /** The document `create_root_comment` inserts: a root directly below the
      resource, with no reactions yet. */
  function RootRecord(resourceId: Uuid, commentId: Uuid, accountId: Uuid, username: string,
                      commentText: string, now: int): (c: Comment)
    ensures c.commentId == commentId && c.commentType == Root
    ensures c.commenter == Commenter(accountId, username) && c.commentText == commentText
    ensures c.commentedTimestamp == now
    ensures c.reactions == [] && c.branchCommentIds == []
    ensures Split(c.materializedPath) == [resourceId, commentId]
    ensures c.materializedPath == resourceId + Separator + commentId
    ensures WellPlaced(c) && ParentPath(c) == resourceId
  {
    var path := Join([resourceId, commentId]);
    SplitJoin([resourceId, commentId]);
    assert [resourceId, commentId][1..] == [commentId];
    assert path[..36] == resourceId;
    var c := Comment(commentId, Root, Commenter(accountId, username), now, commentText, [], [], path);
    assert IsChainOf([resourceId, commentId], c);
    c
  }

  /** The document `create_branch_comment` inserts below `parent`: its path
      is the parent's chain extended by the new id, at any depth. */
  function BranchRecord(parent: Comment, commentId: Uuid, accountId: Uuid, username: string,
                        commentText: string, now: int): (c: Comment)
    ensures c.commentId == commentId && c.commentType == Branch
    ensures c.commenter == Commenter(accountId, username) && c.commentText == commentText
    ensures c.commentedTimestamp == now
    ensures c.reactions == [] && c.branchCommentIds == []
    ensures forall chain :: Join(chain) == parent.materializedPath ==>
              c.materializedPath == Join(chain + [commentId])
    ensures parent.materializedPath != "" ==> IsChildPath(c.materializedPath, parent.materializedPath)
    ensures WellPlaced(parent) ==> WellPlaced(c) && ParentPath(c) == parent.materializedPath
  {
    var path := Append(parent.materializedPath, commentId);
    var c := Comment(commentId, Branch, Commenter(accountId, username), now, commentText, [], [], path);
    BranchBelowPlacedParent(parent, c);
    c
  }

  /** A branch whose path appends its id to a placed parent's path is placed
      itself, one step below the parent, its chain the parent's plus its id. */
  lemma BranchBelowPlacedParent(parent: Comment, c: Comment)
    requires c.commentType == Branch
    requires c.materializedPath == Append(parent.materializedPath, c.commentId)
    ensures forall chain :: Join(chain) == parent.materializedPath ==>
              c.materializedPath == Join(chain + [c.commentId])
    ensures parent.materializedPath != "" ==> IsChildPath(c.materializedPath, parent.materializedPath)
    ensures WellPlaced(parent) ==> WellPlaced(c) && ParentPath(c) == parent.materializedPath
  {
    AppendExtendsChain(parent.materializedPath, c.commentId);
    if WellPlaced(parent) {
      AppendJoin(ChainOf(parent), c.commentId);
      assert IsChainOf(ChainOf(parent) + [c.commentId], c);
    }
  }

  /** Appending an id below a path puts it one level below that path, and
      extends the chain the path was joined from. */
  lemma AppendExtendsChain(existing: string, id: Uuid)
    ensures existing != "" ==> IsChildPath(Append(existing, id), existing)
    ensures forall chain :: Join(chain) == existing ==> Append(existing, id) == Join(chain + [id])
  {
    if existing != "" {
      AppendIsChildPath(existing, id);
    }
    forall chain | Join(chain) == existing
      ensures Append(existing, id) == Join(chain + [id])
    {
      AppendJoin(chain, id);
    }
  }

  /** The reaction value the react and undo handlers build from the request. */
  function ReactionOf(accountId: Uuid, username: string, emoji: string): CommentReaction {
    CommentReaction(CommentReactor(accountId, username), emoji)
  }

  /** What `update_comment_text` leaves in the collection: the record found
      for the id written back with the new text, or nothing changed. */
  /** Editing changes the text of the first record with the id and nothing
      else; a missing id changes nothing. */
  function TextEdited(cs: seq<Comment>, id: Uuid, text: string): (r: seq<Comment>)
    ensures id !in Ids(cs) ==> r == cs
    ensures id in Ids(cs) ==>
              var i := FindFirst(cs, id).value;
              r == cs[i := cs[i].(commentText := text)]
  {
    match Lookup(cs, id)
    case None => cs
    case Some(c) =>
      ReplaceTextOnly(cs, id, text);
      Replaced(cs, id, c.(commentText := text))
  }

  /** Editing to the same text twice leaves what editing once left. */
  lemma TextEditIdempotent(cs: seq<Comment>, id: Uuid, text: string)
    ensures TextEdited(TextEdited(cs, id, text), id, text) == TextEdited(cs, id, text)
  {
    if id in Ids(cs) {
      var i := FindFirst(cs, id).value;
      var once := TextEdited(cs, id, text);
      FindFirstSameIds(cs, once, id);
      assert id in Ids(once) by {
        assert once[i] in once;
      }
    }
  }

  /** `create_root_comment`: inserts a root below the resource and answers
      with the new id. */
  method CreateRootComment(layer: PersistentLayer, resourceId: Uuid, accountId: Uuid,
                           username: string, commentText: string, newId: Uuid, now: int)
    returns (r: Result<Uuid, ServerError>)
    modifies layer
    ensures r == Ok(newId)
    ensures layer.comments ==
            old(layer.comments) + [RootRecord(resourceId, newId, accountId, username, commentText, now)]
    ensures WellFormed(old(layer.comments)) && newId !in Ids(old(layer.comments)) ==>
              WellFormed(layer.comments)
  {
    var comment := RootRecord(resourceId, newId, accountId, username, commentText, now);
    if WellFormed(layer.comments) && newId !in Ids(layer.comments) {
      InsertKeepsWellFormed(layer.comments, comment);
    }
    layer.InsertComment(comment);
    r := Ok(newId);
  }

  /** `create_branch_comment`: looks up the comment branched from (Forbidden
      when it is missing, and nothing is inserted), then inserts a branch
      below it and answers with the new id. */
  method CreateBranchComment(layer: PersistentLayer, branchedFrom: Uuid, accountId: Uuid,
                             username: string, commentText: string, newId: Uuid, now: int)
    returns (r: Result<Uuid, ServerError>)
    modifies layer
    ensures r.Err? <==> branchedFrom !in Ids(old(layer.comments))
    ensures r.Err? ==> r.error == Forbidden && layer.comments == old(layer.comments)
    ensures r.Ok? ==> r.value == newId
    ensures r.Ok? ==>
              layer.comments == old(layer.comments) +
                [BranchRecord(Lookup(old(layer.comments), branchedFrom).value,
                              newId, accountId, username, commentText, now)]
    ensures WellFormed(old(layer.comments)) && newId !in Ids(old(layer.comments)) ==>
              WellFormed(layer.comments)
  {
    var found := layer.FindComment(branchedFrom);
    if found.Err? {
      return Err(Forbidden);
    }
    var parent := found.value;
    var comment := BranchRecord(parent, newId, accountId, username, commentText, now);
    if WellFormed(layer.comments) && newId !in Ids(layer.comments) {
      assert HasPath(layer.comments, ParentPath(comment));
      InsertKeepsWellFormed(layer.comments, comment);
    }
    layer.InsertComment(comment);
    r := Ok(newId);
  }

  /** `react_to_comment`: pushes the reaction onto the comment; any store
      failure, a missing comment included, answers Internal Server Error. */
  method ReactToComment(layer: PersistentLayer, accountId: Uuid, username: string,
                        emoji: string, reactedCommentId: Uuid)
    returns (r: Result<(), ServerError>)
    modifies layer
    ensures layer.comments ==
            Pushed(old(layer.comments), reactedCommentId, ReactionOf(accountId, username, emoji))
    ensures r.Ok? <==> reactedCommentId in Ids(old(layer.comments))
    ensures r.Err? ==> r.error == InternalServerError && layer.comments == old(layer.comments)
    ensures WellFormed(old(layer.comments)) ==> WellFormed(layer.comments)
  {
    var reaction := ReactionOf(accountId, username, emoji);
    PushedKeepsShape(layer.comments, reactedCommentId, reaction);
    if WellFormed(layer.comments) {
      SameShapeKeepsWellFormed(layer.comments, Pushed(layer.comments, reactedCommentId, reaction));
    }
    var stored := layer.AppendReactionToComment(reactedCommentId, reaction);
    if stored.Err? {
      return Err(InternalServerError);
    }
    r := Ok(());
  }

  /** `undo_react_to_comment`: pulls the reaction from the comment; a missing
      comment or a reaction it does not hold answers Internal Server Error. */
  method UndoReactToComment(layer: PersistentLayer, accountId: Uuid, username: string,
                            emoji: string, reactedCommentId: Uuid)
    returns (r: Result<(), ServerError>)
    modifies layer
    ensures layer.comments ==
            Pulled(old(layer.comments), reactedCommentId, ReactionOf(accountId, username, emoji))
    ensures r.Ok? <==>
            PullApplies(old(layer.comments), reactedCommentId, ReactionOf(accountId, username, emoji))
    ensures r.Err? ==> r.error == InternalServerError && layer.comments == old(layer.comments)
    ensures WellFormed(old(layer.comments)) ==> WellFormed(layer.comments)
  {
    var reaction := ReactionOf(accountId, username, emoji);
    PulledKeepsShape(layer.comments, reactedCommentId, reaction);
    if WellFormed(layer.comments) {
      SameShapeKeepsWellFormed(layer.comments, Pulled(layer.comments, reactedCommentId, reaction));
    }
    var stored := layer.RemoveReactionFromComment(reactedCommentId, reaction);
    if stored.Err? {
      return Err(InternalServerError);
    }
    r := Ok(());
  }

  /** `update_comment_text`: looks the comment up (Forbidden when missing),
      changes the text of that copy and writes the copy back. */
  method UpdateCommentText(layer: PersistentLayer, commentId: Uuid, newCommentText: string)
    returns (r: Result<(), ServerError>)
    modifies layer
    ensures r.Err? <==> commentId !in Ids(old(layer.comments))
    ensures r.Err? ==> r.error == Forbidden
    ensures layer.comments == TextEdited(old(layer.comments), commentId, newCommentText)
    ensures WellFormed(old(layer.comments)) ==> WellFormed(layer.comments)
  {
    var found := layer.FindComment(commentId);
    if found.Err? {
      return Err(Forbidden);
    }
    var comment := found.value;
    comment := comment.(commentText := newCommentText);
    ReplaceTextKeepsShape(layer.comments, commentId, newCommentText);
    if WellFormed(layer.comments) {
      SameShapeKeepsWellFormed(layer.comments, Replaced(layer.comments, commentId, comment));
    }
    layer.UpdateComment(commentId, comment);
    r := Ok(());
  }

  /** `delete_comment`: looks the comment up (Forbidden when missing) and
      prunes by its path: the comment and everything below it go, every
      record outside that subtree stays, and no branch is left without its
      parent. */
  method DeleteComment(layer: PersistentLayer, commentId: Uuid)
    returns (r: Result<(), ServerError>)
    modifies layer
    ensures r.Err? <==> commentId !in Ids(old(layer.comments))
    ensures r.Err? ==> r.error == Forbidden && layer.comments == old(layer.comments)
    ensures r.Ok? ==>
              layer.comments == Pruned(old(layer.comments), Lookup(old(layer.comments), commentId).value.materializedPath)
    ensures r.Ok? ==>
              forall c | c in layer.comments ::
                !StartsWith(c.materializedPath, Lookup(old(layer.comments), commentId).value.materializedPath)
    ensures r.Ok? ==>
              forall c | c in old(layer.comments) &&
                         !StartsWith(c.materializedPath, Lookup(old(layer.comments), commentId).value.materializedPath) ::
                c in layer.comments
    ensures r.Ok? && WellFormed(old(layer.comments)) ==> commentId !in Ids(layer.comments)
    ensures r.Ok? && WellFormed(old(layer.comments)) ==>
              var target := Lookup(old(layer.comments), commentId).value;
              forall d | d in old(layer.comments) ::
                d in layer.comments <==> !ChainPrefix(ChainOf(target), ChainOf(d))
    ensures WellFormed(old(layer.comments)) ==> WellFormed(layer.comments)
  {
    var found := layer.FindComment(commentId);
    if found.Err? {
      return Err(Forbidden);
    }
    var comment := found.value;
    var path := comment.materializedPath;
    ghost var before := layer.comments;
    if WellFormed(before) {
      PruneKeepsWellFormed(before, path);
      PruneRemovesComment(before, comment);
      forall d | d in before
        ensures d in Pruned(before, path) <==> !ChainPrefix(ChainOf(comment), ChainOf(d))
      {
        PrefixMatchIsDescent(comment, d);
      }
    }
    layer.PruneComments(path);
    r := Ok(());
  }

  /** `get_root_comments`: the next level below the bare resource id, latest
      first; in a well-formed collection exactly the roots created on that
      resource. */
  method GetRootComments(layer: PersistentLayer, resourceId: Uuid)
    returns (r: Result<seq<Comment>, ServerError>)
    ensures r.Ok?
    ensures multiset(r.value) == multiset(Filter(layer.comments, ChildOf(resourceId), true))
    ensures SortedBy(NewestFirst, r.value)
    ensures WellFormed(layer.comments) ==>
              forall c :: c in r.value <==>
                c in layer.comments && WellPlaced(c) && c.commentType == Root && ParentPath(c) == resourceId
    ensures WellFormed(layer.comments) ==>
              forall c :: c in r.value <==> c in layer.comments && ChainOf(c) == [resourceId, c.commentId]
  {
    var roots := layer.FindNextLevelComments(resourceId);
    if WellFormed(layer.comments) {
      RootsOfResource(layer.comments, resourceId);
      forall c | c in layer.comments
        ensures IsChildPath(c.materializedPath, resourceId) <==> ChainOf(c) == [resourceId, c.commentId]
      {
        ChildOfResourceIsRootChain(c, resourceId);
      }
    }
    r := Ok(roots);
  }

  /** `get_branch_comments_next`: looks the comment up (Forbidden when
      missing) and answers the next level below its path, latest first; in a
      well-formed collection exactly the branches created from it. */
  method GetBranchCommentsNext(layer: PersistentLayer, branchedFrom: Uuid)
    returns (r: Result<seq<Comment>, ServerError>)
    ensures r.Err? <==> branchedFrom !in Ids(layer.comments)
    ensures r.Err? ==> r.error == Forbidden
    ensures r.Ok? ==>
              var parent := Lookup(layer.comments, branchedFrom).value;
              multiset(r.value) == multiset(Filter(layer.comments, ChildOf(parent.materializedPath), true)) &&
              SortedBy(NewestFirst, r.value)
    ensures r.Ok? && WellFormed(layer.comments) ==>
              var parent := Lookup(layer.comments, branchedFrom).value;
              forall c :: c in r.value <==>
                c in layer.comments && WellPlaced(c) && c.commentType == Branch &&
                ParentPath(c) == parent.materializedPath
    ensures r.Ok? && WellFormed(layer.comments) ==>
              var parent := Lookup(layer.comments, branchedFrom).value;
              forall c :: c in r.value <==>
                c in layer.comments &&
                |ChainOf(c)| == |ChainOf(parent)| + 1 && ChainPrefix(ChainOf(parent), ChainOf(c))
  {
    var found := layer.FindComment(branchedFrom);
    if found.Err? {
      return Err(Forbidden);
    }
    var parent := found.value;
    var branches := layer.FindNextLevelComments(parent.materializedPath);
    if WellFormed(layer.comments) {
      BranchesOfComment(layer.comments, parent);
      forall c | c in layer.comments
        ensures IsChildPath(c.materializedPath, parent.materializedPath) <==>
                |ChainOf(c)| == |ChainOf(parent)| + 1 && ChainPrefix(ChainOf(parent), ChainOf(c))
      {
        ChildMatchIsOneLevelDown(parent, c);
      }
    }
    r := Ok(branches);
  }

  /** `get_branch_comments_rest`: looks the comment up (Forbidden when
      missing) and answers its whole subtree, shallowest first and latest
      first within a level; the comment itself comes first. */
  method GetBranchCommentsRest(layer: PersistentLayer, branchedFrom: Uuid)
    returns (r: Result<seq<Comment>, ServerError>)
    ensures r.Err? <==> branchedFrom !in Ids(layer.comments)
    ensures r.Err? ==> r.error == Forbidden
    ensures r.Ok? ==>
              var parent := Lookup(layer.comments, branchedFrom).value;
              (forall c :: c in r.value <==>
                 c in layer.comments && StartsWith(c.materializedPath, parent.materializedPath)) &&
              multiset(r.value) == multiset(Filter(layer.comments, PrefixedBy(parent.materializedPath), true)) &&
              SortedBy(ShallowestThenNewestFirst, r.value)
    ensures r.Ok? && WellFormed(layer.comments) ==>
              r.value != [] && r.value[0] == Lookup(layer.comments, branchedFrom).value
    ensures r.Ok? && WellFormed(layer.comments) ==>
              var parent := Lookup(layer.comments, branchedFrom).value;
              forall c :: c in r.value <==> c in layer.comments && ChainPrefix(ChainOf(parent), ChainOf(c))
  {
    var found := layer.FindComment(branchedFrom);
    if found.Err? {
      return Err(Forbidden);
    }
    var parent := found.value;
    var subtree := layer.FindAllComments(parent.materializedPath);
    if WellFormed(layer.comments) {
      SubtreeStartsWithItsRoot(layer.comments, parent, subtree);
      forall c | c in layer.comments
        ensures StartsWith(c.materializedPath, parent.materializedPath) <==> ChainPrefix(ChainOf(parent), ChainOf(c))
      {
        PrefixMatchIsDescent(parent, c);
      }
    }
    r := Ok(subtree);
  }

  /** `get_all_comments`: every record whose path starts with the resource
      id, shallowest first and latest first within a level; in a well-formed
      collection the roots come before every branch. */
  method GetAllComments(layer: PersistentLayer, resourceId: Uuid)
    returns (r: Result<seq<Comment>, ServerError>)
    ensures r.Ok?
    ensures forall c :: c in r.value <==> c in layer.comments && StartsWith(c.materializedPath, resourceId)
    ensures multiset(r.value) == multiset(Filter(layer.comments, PrefixedBy(resourceId), true))
    ensures SortedBy(ShallowestThenNewestFirst, r.value)
    ensures WellFormed(layer.comments) ==>
              forall i, j | 0 <= i < j < |r.value| ::
                r.value[j].commentType == Root ==> r.value[i].commentType == Root
    ensures WellFormed(layer.comments) ==>
              forall c :: c in r.value <==> c in layer.comments && ChainOf(c)[0] == resourceId
  {
    var all := layer.FindAllComments(resourceId);
    if WellFormed(layer.comments) {
      RootsFirst(layer.comments, all);
      forall c | c in layer.comments
        ensures StartsWith(c.materializedPath, resourceId) <==> ChainOf(c)[0] == resourceId
      {
        ResourcePrefixIsFirstId(c, resourceId);
      }
    }
    r := Ok(all);
  }

  /** In a shallowest-first listing of well-formed records, nothing precedes a
      root but another root: a root's path has the least length a record can have. */
  lemma RootsFirst(cs: seq<Comment>, listing: seq<Comment>)
    requires WellFormed(cs)
    requires forall c | c in listing :: c in cs
    requires SortedBy(ShallowestThenNewestFirst, listing)
    ensures forall i, j | 0 <= i < j < |listing| ::
              listing[j].commentType == Root ==> listing[i].commentType == Root
  {
    forall i, j | 0 <= i < j < |listing| && listing[j].commentType == Root
      ensures listing[i].commentType == Root
    {
      var a, b := listing[i], listing[j];
      assert a in listing && b in listing;
      assert WellPlaced(a) && WellPlaced(b);
      assert Precedes(ShallowestThenNewestFirst, a, b);
    }
  }
}
