/** The tree the handlers keep in the collection. Every record they insert
    has a path that ends with "->" and its own id, a root sits directly below
    a resource id, and a branch below a path that is stored. Prefix queries
    and prefix deletion rely on these facts. */
module Tree {
  import opened Uuids
  import opened Paths
  import opened Models
  import opened Collection

  /** Width of one "->" plus one id. */
  const Step: nat := 38

  /** Length of a root path: a resource id, "->" and the comment's id. */
  const RootPathLength: nat := 74

  /** `chain` is the record's position: a resource id first, the record's
      own id last, and the record's path is their join. */
  predicate IsChainOf(chain: seq<Uuid>, c: Comment) {
    |chain| >= 2 && chain[|chain| - 1] == c.commentId && Join(chain) == c.materializedPath
  }

  /** A record as the create handlers build it: its path is the join of a
      chain of ids that starts with a resource id and ends with its own id,
      and it is a root exactly when its path is a resource id plus one step. */
  ghost predicate WellPlaced(c: Comment) {
    var p := c.materializedPath;
    |p| >= RootPathLength &&
    p[|p| - Step..|p| - 36] == Separator &&
    p[|p| - 36..] == c.commentId &&
    (c.commentType == Root <==> |p| == RootPathLength) &&
    exists chain :: IsChainOf(chain, c)
  }

  /** The chain of ids a placed record's path was joined from (it is unique,
      by `Paths.JoinInjective`). */
  ghost function ChainOf(c: Comment): (chain: seq<Uuid>)
    requires WellPlaced(c)
    ensures IsChainOf(chain, c)
  {
    var chain :| IsChainOf(chain, c); chain
  }

  /** `a` is an initial part of `b`: `b` lies in the subtree of `a`. */
  predicate ChainPrefix(a: seq<Uuid>, b: seq<Uuid>) {
    |a| <= |b| && b[..|a|] == a
  }

  /** The path of the resource or comment the record hangs from: appending
      the record's id to it gives back the record's path. */
  function ParentPath(c: Comment): (p: string)
    requires WellPlaced(c)
    ensures StartsWith(c.materializedPath, p)
    ensures |p| + Step == |c.materializedPath|
    ensures Append(p, c.commentId) == c.materializedPath
  {
    var path := c.materializedPath;
    var p := path[..|path| - Step];
    assert path == p + path[|p|..|p| + 2] + path[|p| + 2..];
    p
  }

  /** The parent path is the join of the record's chain without its own id. */
  lemma ParentPathIsParentChain(c: Comment)
    requires WellPlaced(c)
    ensures var chain := ChainOf(c);
            ParentPath(c) == Join(chain[..|chain| - 1])
  {
    var chain := ChainOf(c);
    var init := chain[..|chain| - 1];
    AppendJoin(init, c.commentId);
    assert init + [c.commentId] == chain;
    var q := Join(init);
    assert c.materializedPath[..|q|] == q;
  }

  /** A placed record's path starts with another's exactly when the other's
      chain is an initial part of its own: the `^{path}` filter of a stored
      comment selects that comment's subtree of ids and nothing else. */
  lemma PrefixMatchIsDescent(c: Comment, d: Comment)
    requires WellPlaced(c) && WellPlaced(d)
    ensures StartsWith(d.materializedPath, c.materializedPath) <==> ChainPrefix(ChainOf(c), ChainOf(d))
  {
    PrefixMatchIsChainPrefix(ChainOf(c), ChainOf(d));
  }

  /** A placed record's path starts with a resource id exactly when its chain
      starts with that id. */
  lemma ResourcePrefixIsFirstId(d: Comment, resourceId: Uuid)
    requires WellPlaced(d)
    ensures StartsWith(d.materializedPath, resourceId) <==> ChainOf(d)[0] == resourceId
  {
    assert Join([resourceId]) == resourceId;
    PrefixMatchIsChainPrefix([resourceId], ChainOf(d));
  }

  /** A placed record matches the next-level pattern of another's path
      exactly when its chain is the other's plus one id. */
  lemma ChildMatchIsOneLevelDown(c: Comment, d: Comment)
    requires WellPlaced(c) && WellPlaced(d)
    ensures IsChildPath(d.materializedPath, c.materializedPath) <==>
            |ChainOf(d)| == |ChainOf(c)| + 1 && ChainPrefix(ChainOf(c), ChainOf(d))
  {
    ChildPathIsOneMoreId(ChainOf(c), ChainOf(d));
  }

  /** A placed record matches the next-level pattern of a bare resource id
      exactly when its chain is that id and its own. */
  lemma ChildOfResourceIsRootChain(d: Comment, resourceId: Uuid)
    requires WellPlaced(d)
    ensures IsChildPath(d.materializedPath, resourceId) <==> ChainOf(d) == [resourceId, d.commentId]
  {
    var chain := ChainOf(d);
    assert Join([resourceId]) == resourceId;
    ChildPathIsOneMoreId([resourceId], chain);
    if |chain| == 2 {
      assert chain == [chain[0], chain[1]];
    }
  }

  /** No two documents share an id. */
  predicate UniqueIds(cs: seq<Comment>) {
    forall i, j | 0 <= i < |cs| && 0 <= j < |cs| && cs[i].commentId == cs[j].commentId :: i == j
  }

  predicate HasPath(cs: seq<Comment>, path: string) {
    exists d | d in cs :: d.materializedPath == path
  }

  /** The collection invariant: unique ids, well-placed records, and no
      branch whose parent is missing. */
  ghost predicate WellFormed(cs: seq<Comment>) {
    UniqueIds(cs) &&
    (forall c | c in cs :: WellPlaced(c)) &&
    (forall c | c in cs && WellPlaced(c) && c.commentType == Branch :: HasPath(cs, ParentPath(c)))
  }

  lemma StartsWithTransitive(s: string, t: string, u: string)
    requires StartsWith(s, t) && StartsWith(t, u)
    ensures StartsWith(s, u)
  {
    assert s[..|u|] == s[..|t|][..|u|];
  }

  /** Under the invariant a path identifies its record. */
  lemma PathIdentifiesRecord(cs: seq<Comment>, c: Comment, d: Comment)
    requires WellFormed(cs) && c in cs && d in cs
    requires c.materializedPath == d.materializedPath
    ensures c == d
  {
    assert WellPlaced(c) && WellPlaced(d);
    var p := c.materializedPath;
    assert c.commentId == p[|p| - 36..] == d.commentId;
    IdIdentifiesRecord(cs, c, d);
  }

  /** Under the invariant an id identifies its record. */
  lemma IdIdentifiesRecord(cs: seq<Comment>, c: Comment, d: Comment)
    requires UniqueIds(cs) && c in cs && d in cs
    requires c.commentId == d.commentId
    ensures c == d
  {
    var i :| 0 <= i < |cs| && cs[i] == c;
    var j :| 0 <= j < |cs| && cs[j] == d;
  }

  /** A record with a fresh id keeps the ids unique. */
  lemma UniqueIdsAppend(cs: seq<Comment>, c: Comment)
    requires UniqueIds(cs) && c.commentId !in Ids(cs)
    ensures UniqueIds(cs + [c])
  {
    var ds := cs + [c];
    forall i, j | 0 <= i < |ds| && 0 <= j < |ds| && ds[i].commentId == ds[j].commentId
      ensures i == j
    {
      if i < |cs| { assert cs[i] in cs; }
      if j < |cs| { assert cs[j] in cs; }
    }
  }

  /** Inserting a well-placed record with a fresh id whose parent (if it is a
      branch) is stored keeps the invariant. */
  lemma InsertKeepsWellFormed(cs: seq<Comment>, c: Comment)
    requires WellFormed(cs)
    requires c.commentId !in Ids(cs) && WellPlaced(c)
    requires c.commentType == Branch ==> HasPath(cs, ParentPath(c))
    ensures WellFormed(cs + [c])
  {
    var ds := cs + [c];
    UniqueIdsAppend(cs, c);
    forall b | b in ds && WellPlaced(b) && b.commentType == Branch
      ensures HasPath(ds, ParentPath(b))
    {
      var d :| d in cs && d.materializedPath == ParentPath(b);
      assert d in ds;
    }
  }

  /** Records that agree on id, kind and path position by position. */
  predicate SameShape(cs: seq<Comment>, ds: seq<Comment>) {
    |cs| == |ds| &&
    forall k | 0 <= k < |cs| ::
      ds[k].commentId == cs[k].commentId &&
      ds[k].commentType == cs[k].commentType &&
      ds[k].materializedPath == cs[k].materializedPath
  }

  lemma SameShapeKeepsUniqueIds(cs: seq<Comment>, ds: seq<Comment>)
    requires UniqueIds(cs) && SameShape(cs, ds)
    ensures UniqueIds(ds)
  {
    forall i, j | 0 <= i < |ds| && 0 <= j < |ds| && ds[i].commentId == ds[j].commentId
      ensures i == j
    {
      assert cs[i].commentId == cs[j].commentId;
    }
  }

  lemma SameShapeKeepsPlacement(cs: seq<Comment>, ds: seq<Comment>)
    requires (forall c | c in cs :: WellPlaced(c)) && SameShape(cs, ds)
    ensures forall b | b in ds :: WellPlaced(b)
  {
    forall b | b in ds ensures WellPlaced(b) {
      var k :| 0 <= k < |ds| && ds[k] == b;
      assert cs[k] in cs;
      assert IsChainOf(ChainOf(cs[k]), b);
    }
  }

  lemma SameShapeKeepsParents(cs: seq<Comment>, ds: seq<Comment>)
    requires WellFormed(cs) && SameShape(cs, ds)
    ensures forall b | b in ds && WellPlaced(b) && b.commentType == Branch :: HasPath(ds, ParentPath(b))
  {
    forall b | b in ds && WellPlaced(b) && b.commentType == Branch
      ensures HasPath(ds, ParentPath(b))
    {
      var k :| 0 <= k < |ds| && ds[k] == b;
      var c := cs[k];
      assert c in cs;
      var d :| d in cs && d.materializedPath == ParentPath(c);
      var m :| 0 <= m < |cs| && cs[m] == d;
      assert ds[m] in ds && ds[m].materializedPath == ParentPath(b);
    }
  }

  /** A change that keeps every record's id, kind and path in place keeps the invariant. */
  lemma SameShapeKeepsWellFormed(cs: seq<Comment>, ds: seq<Comment>)
    requires WellFormed(cs) && SameShape(cs, ds)
    ensures WellFormed(ds)
  {
    SameShapeKeepsUniqueIds(cs, ds);
    SameShapeKeepsPlacement(cs, ds);
    SameShapeKeepsParents(cs, ds);
  }

  /** `$push` on a reaction list touches neither ids, kinds nor paths. */
  lemma PushedKeepsShape(cs: seq<Comment>, id: Uuid, reaction: CommentReaction)
    ensures SameShape(cs, Pushed(cs, id, reaction))
  {
    match FindFirst(cs, id)
    case None =>
    case Some(i) =>
  }

  /** Nor does `$pull`. */
  lemma PulledKeepsShape(cs: seq<Comment>, id: Uuid, reaction: CommentReaction)
    ensures SameShape(cs, Pulled(cs, id, reaction))
  {
    match FindFirst(cs, id)
    case None =>
    case Some(i) =>
  }

  /** Nor does writing back the record found for an id with only its text changed. */
  lemma ReplaceTextKeepsShape(cs: seq<Comment>, id: Uuid, text: string)
    requires id in Ids(cs)
    ensures SameShape(cs, Replaced(cs, id, Lookup(cs, id).value.(commentText := text)))
  {
  }

  /** Records and ids of a filter come from the filtered collection. */
  lemma FilterKeepsUniqueIds(cs: seq<Comment>, pattern: PathPattern, keep: bool)
    requires UniqueIds(cs)
    ensures UniqueIds(Filter(cs, pattern, keep))
    decreases |cs|
  {
    if cs != [] {
      var init, last := cs[..|cs| - 1], cs[|cs| - 1];
      assert UniqueIds(init) by {
        forall i, j | 0 <= i < |init| && 0 <= j < |init| && init[i].commentId == init[j].commentId
          ensures i == j
        {
          assert cs[i] == init[i] && cs[j] == init[j];
        }
      }
      FilterKeepsUniqueIds(init, pattern, keep);
      var f := Filter(init, pattern, keep);
      if Matches(pattern, last.materializedPath) == keep {
        assert last.commentId !in Ids(f);
        UniqueIdsAppend(f, last);
      }
    }
  }

  /** Deleting every record under a prefix leaves no orphan: a surviving
      branch's parent does not start with the prefix either, since the
      parent's path is an initial part of the branch's own. */
  lemma PruneKeepsWellFormed(cs: seq<Comment>, prefix: string)
    requires WellFormed(cs)
    ensures WellFormed(Pruned(cs, prefix))
  {
    var ds := Pruned(cs, prefix);
    FilterKeepsUniqueIds(cs, PrefixedBy(prefix), false);
    forall b | b in ds && WellPlaced(b) && b.commentType == Branch
      ensures HasPath(ds, ParentPath(b))
    {
      var d :| d in cs && d.materializedPath == ParentPath(b);
      if StartsWith(d.materializedPath, prefix) {
        StartsWithTransitive(b.materializedPath, d.materializedPath, prefix);
      }
      assert d in ds;
    }
  }

  /** A well-placed record's path is a child path of exactly one path: its parent's. */
  lemma ChildPathIsParentLink(c: Comment, parent: string)
    requires WellPlaced(c)
    ensures IsChildPath(c.materializedPath, parent) <==> ParentPath(c) == parent
  {
    var p := c.materializedPath;
    if ParentPath(c) == parent {
      CanonicalIsShaped(c.commentId);
      assert p[|parent|..|parent| + 2] == Separator;
      assert p[|parent| + 2..] == c.commentId;
    }
  }

  /** The next level below a resource id is exactly its root comments. */
  lemma RootsOfResource(cs: seq<Comment>, resourceId: Uuid)
    requires WellFormed(cs)
    ensures forall c | c in cs ::
              IsChildPath(c.materializedPath, resourceId) <==>
              c.commentType == Root && ParentPath(c) == resourceId
  {
    forall c | c in cs
      ensures IsChildPath(c.materializedPath, resourceId) <==>
              c.commentType == Root && ParentPath(c) == resourceId
    {
      ChildPathIsParentLink(c, resourceId);
    }
  }

  /** The next level below a stored comment is exactly the branches created
      from it. */
  lemma BranchesOfComment(cs: seq<Comment>, parent: Comment)
    requires WellFormed(cs) && parent in cs
    ensures forall c | c in cs ::
              IsChildPath(c.materializedPath, parent.materializedPath) <==>
              c.commentType == Branch && ParentPath(c) == parent.materializedPath
  {
    forall c | c in cs
      ensures IsChildPath(c.materializedPath, parent.materializedPath) <==>
              c.commentType == Branch && ParentPath(c) == parent.materializedPath
    {
      ChildPathIsParentLink(c, parent.materializedPath);
    }
  }

  /** The subtree query of a stored comment, sorted shortest path first,
      starts with that comment: nothing else matching is as short. */
  lemma SubtreeStartsWithItsRoot(cs: seq<Comment>, parent: Comment, results: seq<Comment>)
    requires WellFormed(cs) && parent in cs
    requires multiset(results) == multiset(Filter(cs, PrefixedBy(parent.materializedPath), true))
    requires SortedBy(ShallowestThenNewestFirst, results)
    ensures results != [] && results[0] == parent
  {
    var p := parent.materializedPath;
    assert StartsWith(p, p);
    assert parent in multiset(results);
    var k :| 0 <= k < |results| && results[k] == parent;
    var first := results[0];
    assert first in multiset(results);
    assert first in cs && StartsWith(first.materializedPath, p);
    if k != 0 {
      assert Precedes(ShallowestThenNewestFirst, first, parent);
    }
    assert first.materializedPath == p;
    PathIdentifiesRecord(cs, first, parent);
  }

  /** Deleting by a stored comment's path removes the comment's id from the
      collection (the other records that go are those whose path starts with
      the comment's, `Collection.Pruned`). */
  lemma PruneRemovesComment(cs: seq<Comment>, c: Comment)
    requires WellFormed(cs) && c in cs
    ensures c.commentId !in Ids(Pruned(cs, c.materializedPath))
  {
    var ds := Pruned(cs, c.materializedPath);
    assert StartsWith(c.materializedPath, c.materializedPath);
    forall d | d in ds ensures d.commentId != c.commentId {
      if d.commentId == c.commentId {
        IdIdentifiesRecord(cs, c, d);
      }
    }
  }
}
