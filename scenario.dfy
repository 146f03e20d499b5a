/** The life of a two-level thread, driven through the handlers on a fresh
    collection: a root on a resource, a branch below it, the queries that
    read them back, and the deletion that removes both. */
module Scenario {
  import opened Uuids
  import opened Paths
  import opened Models
  import opened Collection
  import opened Store
  import opened Tree
  import opened Handlers

  /** Create a root `c1` on `resourceId`, a branch `c2` below it, list the
      next level and the subtree of `c1`, delete `c1`, then look both ids up. */
  method TreeLifecycle(resourceId: Uuid, c1: Uuid, c2: Uuid, accountId: Uuid, username: string,
                       rootText: string, branchText: string, t1: int, t2: int)
    returns (rootId: Result<Uuid, ServerError>, branchId: Result<Uuid, ServerError>,
             children: Result<seq<Comment>, ServerError>, subtree: Result<seq<Comment>, ServerError>,
             deleted: Result<(), ServerError>,
             rootAfter: Result<Comment, StoreError>, branchAfter: Result<Comment, StoreError>)
    requires c1 != c2
    ensures rootId == Ok(c1) && branchId == Ok(c2)
    ensures children.Ok? && |children.value| == 1
    ensures children.value[0].commentId == c2
    ensures children.value[0].materializedPath == Join([resourceId, c1, c2])
    ensures subtree.Ok? && |subtree.value| == 2
    ensures subtree.value[0].commentId == c1
    ensures subtree.value[0].materializedPath == Join([resourceId, c1])
    ensures subtree.value[1].commentId == c2
    ensures deleted.Ok?
    ensures rootAfter == Err(CommentNotFound) && branchAfter == Err(CommentNotFound)
  {
    var layer := new PersistentLayer();
    var root := RootRecord(resourceId, c1, accountId, username, rootText, t1);
    var branch := BranchRecord(root, c2, accountId, username, branchText, t2);
    rootId, branchId := CreateThread(layer, resourceId, c1, c2, accountId, username, rootText, branchText, t1, t2);
    children, subtree := ReadThread(layer, resourceId, c1, c2, root, branch);
    deleted, rootAfter, branchAfter := DeleteThread(layer, resourceId, c1, c2, root, branch);
  }

  /** The two create handlers on an empty collection leave the root and the branch. */
  method CreateThread(layer: PersistentLayer, resourceId: Uuid, c1: Uuid, c2: Uuid, accountId: Uuid,
                      username: string, rootText: string, branchText: string, t1: int, t2: int)
    returns (rootId: Result<Uuid, ServerError>, branchId: Result<Uuid, ServerError>)
    requires layer.comments == []
    modifies layer
    ensures rootId == Ok(c1) && branchId == Ok(c2)
    ensures var root := RootRecord(resourceId, c1, accountId, username, rootText, t1);
            layer.comments == [root, BranchRecord(root, c2, accountId, username, branchText, t2)]
  {
    rootId := CreateRootComment(layer, resourceId, accountId, username, rootText, c1, t1);
    var root := RootRecord(resourceId, c1, accountId, username, rootText, t1);
    assert root in layer.comments;
    branchId := CreateBranchComment(layer, c1, accountId, username, branchText, c2, t2);
  }

  /** Listing the next level and the subtree of the root of the thread. */
  method ReadThread(layer: PersistentLayer, resourceId: Uuid, c1: Uuid, c2: Uuid, root: Comment, branch: Comment)
    returns (children: Result<seq<Comment>, ServerError>, subtree: Result<seq<Comment>, ServerError>)
    requires IsThread(resourceId, c1, c2, root, branch)
    requires WellPlaced(root) && ParentPath(root) == resourceId
    requires layer.comments == [root, branch]
    ensures children.Ok? && children.value == [branch]
    ensures subtree.Ok? && subtree.value == [root, branch]
    ensures root.materializedPath == Join([resourceId, c1])
    ensures branch.materializedPath == Join([resourceId, c1, c2])
  {
    ThreadIsWellFormed(resourceId, c1, c2, root, branch);
    ThreadChildren(resourceId, c1, c2, root, branch);
    ThreadSubtree(resourceId, c1, c2, root, branch);
    ThreadChains(resourceId, c1, c2, root, branch);
    children := GetBranchCommentsNext(layer, c1);
    OneElement(children.value, branch);
    subtree := GetBranchCommentsRest(layer, c1);
    TwoElements(subtree.value, root, branch);
  }

  /** Deleting the root of the thread takes the branch with it. */
  method DeleteThread(layer: PersistentLayer, resourceId: Uuid, c1: Uuid, c2: Uuid, root: Comment, branch: Comment)
    returns (deleted: Result<(), ServerError>,
             rootAfter: Result<Comment, StoreError>, branchAfter: Result<Comment, StoreError>)
    requires IsThread(resourceId, c1, c2, root, branch)
    requires WellPlaced(root) && ParentPath(root) == resourceId
    requires layer.comments == [root, branch]
    modifies layer
    ensures deleted.Ok?
    ensures rootAfter == Err(CommentNotFound) && branchAfter == Err(CommentNotFound)
    ensures layer.comments == []
  {
    ThreadIsWellFormed(resourceId, c1, c2, root, branch);
    ThreadSubtree(resourceId, c1, c2, root, branch);
    assert root in layer.comments && c1 in Ids(layer.comments);
    deleted := DeleteComment(layer, c1);
    rootAfter := layer.FindComment(c1);
    branchAfter := layer.FindComment(c2);
  }

  /** The two records the thread's inserts leave, as the create handlers build them. */
  predicate IsThread(resourceId: Uuid, c1: Uuid, c2: Uuid, root: Comment, branch: Comment) {
    c1 != c2 && root.commentId == c1 && branch.commentId == c2 &&
    root.commentType == Root && branch.commentType == Branch &&
    root.materializedPath == resourceId + Separator + c1 &&
    branch.materializedPath == Append(root.materializedPath, c2)
  }

  /** The thread is a well-formed tree, and its branch sits two ids below the resource. */
  lemma ThreadIsWellFormed(resourceId: Uuid, c1: Uuid, c2: Uuid, root: Comment, branch: Comment)
    requires IsThread(resourceId, c1, c2, root, branch)
    requires WellPlaced(root) && ParentPath(root) == resourceId
    ensures WellFormed([root, branch])
    ensures Lookup([root, branch], c1) == Some(root)
  {
    var p := root.materializedPath;
    assert StartsWith(p, p);
    ThreadChains(resourceId, c1, c2, root, branch);
    assert IsChainOf([resourceId, c1, c2], branch);
    assert WellPlaced(branch);
    assert ParentPath(branch) == p;
    assert [root] + [branch] == [root, branch];
    assert WellFormed([root]);
    InsertKeepsWellFormed([root], branch);
  }

  /** The root's path joins the resource and the root; the branch's adds the branch. */
  lemma ThreadChains(resourceId: Uuid, c1: Uuid, c2: Uuid, root: Comment, branch: Comment)
    requires IsThread(resourceId, c1, c2, root, branch)
    ensures root.materializedPath == Join([resourceId, c1])
    ensures branch.materializedPath == Join([resourceId, c1, c2])
  {
    assert [resourceId, c1][1..] == [c1];
    AppendJoin([resourceId, c1], c2);
    assert [resourceId, c1] + [c2] == [resourceId, c1, c2];
  }

  /** The next level below the root holds the branch alone. */
  lemma ThreadChildren(resourceId: Uuid, c1: Uuid, c2: Uuid, root: Comment, branch: Comment)
    requires IsThread(resourceId, c1, c2, root, branch)
    ensures Filter([root, branch], ChildOf(root.materializedPath), true) == [branch]
  {
    var p := root.materializedPath;
    AppendIsChildPath(p, c2);
    assert [root, branch][..1] == [root];
    assert [root][..0] == [];
  }

  /** The subtree of the root holds the root, then the branch; deleting it leaves nothing. */
  lemma ThreadSubtree(resourceId: Uuid, c1: Uuid, c2: Uuid, root: Comment, branch: Comment)
    requires IsThread(resourceId, c1, c2, root, branch)
    ensures Filter([root, branch], PrefixedBy(root.materializedPath), true) == [root, branch]
    ensures Pruned([root, branch], root.materializedPath) == []
  {
    var p := root.materializedPath;
    assert StartsWith(p, p);
    assert StartsWith(branch.materializedPath, p);
    assert Filter([root], PrefixedBy(p), false) == [];
    assert [root, branch][..1] == [root];
    assert [root][..0] == [];
  }

  /** A sequence with the multiset of one element is that element alone. */
  lemma OneElement(s: seq<Comment>, x: Comment)
    requires multiset(s) == multiset([x])
    ensures s == [x]
  {
    assert |s| == |multiset(s)| == 1;
    assert s[0] in multiset(s);
  }

  /** A sequence with the multiset of two distinct elements, the first of
      which it starts with, is those two in that order. */
  lemma TwoElements(s: seq<Comment>, x: Comment, y: Comment)
    requires x != y
    requires multiset(s) == multiset([x, y])
    requires s != [] && s[0] == x
    ensures s == [x, y]
  {
    assert |s| == |multiset(s)| == 2;
    assert s == [s[0], s[1]];
    assert s[1] in multiset(s);
    assert multiset(s)[x] == 1;
  }
}
