/** What the document database does with the `comments` collection for each
    command the store sends (src/persistent/mongo.rs), as functions of the
    collection's records in their natural (insertion) order. */
module Collection {
  import opened Uuids
  import opened Paths
  import opened Models

  /** The ids of the records. */
  function Ids(cs: seq<Comment>): set<Uuid> {
    set c | c in cs :: c.commentId
  }

  /** Position of the first record with the id: the document that
      `find_one` and `update_one` filtered on `comment_id` act on. */
  function FindFirst(cs: seq<Comment>, id: Uuid): (r: Option<nat>)
    ensures r.Some? ==> r.value < |cs| && cs[r.value].commentId == id
    ensures r.Some? ==> forall j | 0 <= j < r.value :: cs[j].commentId != id
    ensures r.None? <==> id !in Ids(cs)
  {
    if cs == [] then None
    else if cs[0].commentId == id then Some(0)
    else
      match FindFirst(cs[1..], id)
      case None => None
      case Some(k) => Some(k + 1)
  }

  /** The document `find_one` returns for the id, if any. */
  function Lookup(cs: seq<Comment>, id: Uuid): (r: Option<Comment>)
    ensures r.Some? <==> id in Ids(cs)
    ensures r.Some? ==> r.value in cs && r.value.commentId == id
  {
    match FindFirst(cs, id)
    case None => None
    case Some(i) => Some(cs[i])
  }

  /** `{"$push": {"reactions": reaction}}` on the first record with the id. */
  function Pushed(cs: seq<Comment>, id: Uuid, reaction: CommentReaction): (r: seq<Comment>)
    ensures |r| == |cs|
    ensures forall k: nat | k < |cs| && FindFirst(cs, id) != Some(k) :: r[k] == cs[k]
    ensures id in Ids(cs) ==>
              var i := FindFirst(cs, id).value;
              r[i].(reactions := cs[i].reactions) == cs[i] &&
              |r[i].reactions| == |cs[i].reactions| + 1 &&
              r[i].reactions[..|cs[i].reactions|] == cs[i].reactions &&
              multiset(r[i].reactions) == multiset(cs[i].reactions) + multiset{reaction}
  {
    match FindFirst(cs, id)
    case None => cs
    case Some(i) => cs[i := cs[i].(reactions := cs[i].reactions + [reaction])]
  }

  /** `$pull` on an array: every element equal to `x` goes, the others stay
      in order. */
  function RemoveAll(rs: seq<CommentReaction>, x: CommentReaction): (r: seq<CommentReaction>)
    ensures multiset(r) == multiset(rs)[x := 0]
    ensures x !in rs ==> r == rs
  {
    if rs == [] then []
    else
      assert rs == [rs[0]] + rs[1..];
      if rs[0] == x then RemoveAll(rs[1..], x)
      else [rs[0]] + RemoveAll(rs[1..], x)
  }

  /** `{"$pull": {"reactions": reaction}}` on the first record with the id. */
  function Pulled(cs: seq<Comment>, id: Uuid, reaction: CommentReaction): (r: seq<Comment>)
    ensures |r| == |cs|
    ensures forall k: nat | k < |cs| && FindFirst(cs, id) != Some(k) :: r[k] == cs[k]
    ensures id in Ids(cs) ==>
              var i := FindFirst(cs, id).value;
              r[i].(reactions := cs[i].reactions) == cs[i] &&
              multiset(r[i].reactions) == multiset(cs[i].reactions)[reaction := 0]
  {
    match FindFirst(cs, id)
    case None => cs
    case Some(i) => cs[i := cs[i].(reactions := RemoveAll(cs[i].reactions, reaction))]
  }

  /** Whether the `$pull` changes a document: the record exists and holds
      the reaction. */
  predicate PullApplies(cs: seq<Comment>, id: Uuid, reaction: CommentReaction) {
    match FindFirst(cs, id)
    case None => false
    case Some(i) => reaction in cs[i].reactions
  }

  /** `{"$set": comment}` on the first record with the id: every field of the
      document takes the value of the given record. */
  function Replaced(cs: seq<Comment>, id: Uuid, comment: Comment): (r: seq<Comment>)
    ensures |r| == |cs|
    ensures forall k: nat | k < |cs| && FindFirst(cs, id) != Some(k) :: r[k] == cs[k]
    ensures id in Ids(cs) ==> r[FindFirst(cs, id).value] == comment
  {
    match FindFirst(cs, id)
    case None => cs
    case Some(i) => cs[i := comment]
  }

  /** The two `$regex` filters on `materialized_path` the store builds. */
  datatype PathPattern =
    | ChildOf(parent: string)       // "^{parent}->UUID$"
    | PrefixedBy(prefix: string)    // "^{prefix}"

  predicate Matches(pattern: PathPattern, path: string) {
    match pattern
    case ChildOf(parent) => IsChildPath(path, parent)
    case PrefixedBy(prefix) => StartsWith(path, prefix)
  }

  /** The records whose path matches the pattern (`keep`) or does not
      (`!keep`), in their natural order. */
  function Filter(cs: seq<Comment>, pattern: PathPattern, keep: bool): (r: seq<Comment>)
    ensures forall c :: c in r <==> c in cs && Matches(pattern, c.materializedPath) == keep
    ensures |r| <= |cs|
  {
    if cs == [] then []
    else
      var last := cs[|cs| - 1];
      Filter(cs[..|cs| - 1], pattern, keep) +
        (if Matches(pattern, last.materializedPath) == keep then [last] else [])
  }

  /** `delete_many` with the filter `^{prefix}`: what survives. */
  function Pruned(cs: seq<Comment>, prefix: string): (r: seq<Comment>)
    ensures forall c :: c in r <==> c in cs && !StartsWith(c.materializedPath, prefix)
    ensures |r| <= |cs|
  {
    Filter(cs, PrefixedBy(prefix), false)
  }

  /** The two `$sort` specifications the store uses. */
  datatype SortOrder =
    | NewestFirst                  // {"commented_timestamp": -1}
    | ShallowestThenNewestFirst    // {"path_length": 1, "commented_timestamp": -1}

  /** `a` may come before `b` in the sorted output. `$strLenCP` counts code
      points, which is the length of the path as a sequence of characters. */
  predicate Precedes(order: SortOrder, a: Comment, b: Comment) {
    match order
    case NewestFirst =>
      a.commentedTimestamp >= b.commentedTimestamp
    case ShallowestThenNewestFirst =>
      |a.materializedPath| < |b.materializedPath| ||
      (|a.materializedPath| == |b.materializedPath| && a.commentedTimestamp >= b.commentedTimestamp)
  }

  predicate SortedBy(order: SortOrder, s: seq<Comment>) {
    forall i, j | 0 <= i < j < |s| :: Precedes(order, s[i], s[j])
  }

  /** Places `x` before the first element it may precede. */
  function InsertSorted(order: SortOrder, x: Comment, s: seq<Comment>): (r: seq<Comment>)
    requires SortedBy(order, s)
    ensures multiset(r) == multiset(s) + multiset{x}
    ensures SortedBy(order, r)
  {
    if s == [] then [x]
    else if Precedes(order, x, s[0]) then
      ConsSorted(order, x, s);
      [x] + s
    else
      var rest := InsertSorted(order, x, s[1..]);
      FirstAfterInsert(order, x, s, rest);
      ConsSorted(order, s[0], rest);
      assert s == [s[0]] + s[1..];
      [s[0]] + rest
  }

  /** Either of two records may come first under either order: the sort key
      compares any two documents. */
  lemma PrecedesTotal(order: SortOrder, a: Comment, b: Comment)
    ensures Precedes(order, a, b) || Precedes(order, b, a)
  {
  }

  /** A listing is sorted exactly when each record may precede the next one,
      the order in which the cursor hands out a sorted result. */
  lemma {:induction false} SortedByAdjacent(order: SortOrder, s: seq<Comment>)
    ensures SortedBy(order, s) <==> forall i | 0 <= i < |s| - 1 :: Precedes(order, s[i], s[i + 1])
  {
    if |s| > 1 && forall i | 0 <= i < |s| - 1 :: Precedes(order, s[i], s[i + 1]) {
      var tail := s[1..];
      assert forall i | 0 <= i < |tail| - 1 :: Precedes(order, tail[i], tail[i + 1]) by {
        forall i | 0 <= i < |tail| - 1 ensures Precedes(order, tail[i], tail[i + 1]) {
          assert tail[i] == s[i + 1] && tail[i + 1] == s[i + 2];
        }
      }
      SortedByAdjacent(order, tail);
      ConsSorted(order, s[0], tail);
      assert [s[0]] + tail == s;
    }
  }

  /** Both orders are transitive. */
  lemma PrecedesTransitive(order: SortOrder, a: Comment, b: Comment, c: Comment)
    requires Precedes(order, a, b) && Precedes(order, b, c)
    ensures Precedes(order, a, c)
  {
  }

  /** An element that may precede the head of a sorted sequence may precede all of it. */
  lemma ConsSorted(order: SortOrder, a: Comment, s: seq<Comment>)
    requires SortedBy(order, s)
    requires s != [] ==> Precedes(order, a, s[0])
    ensures SortedBy(order, [a] + s)
  {
    var t := [a] + s;
    forall i, j | 0 <= i < j < |t| ensures Precedes(order, t[i], t[j]) {
      if i == 0 && j > 1 {
        PrecedesTransitive(order, a, s[0], s[j - 1]);
      }
    }
  }

  /** When `x` does not go before the head of a sorted sequence, the head
      may precede whatever comes first once `x` is placed in the tail. */
  lemma FirstAfterInsert(order: SortOrder, x: Comment, s: seq<Comment>, rest: seq<Comment>)
    requires SortedBy(order, s) && s != [] && !Precedes(order, x, s[0])
    requires multiset(rest) == multiset(s[1..]) + multiset{x}
    ensures rest != [] ==> Precedes(order, s[0], rest[0])
  {
    if rest != [] {
      assert rest[0] in multiset(rest);
      if rest[0] != x {
        assert rest[0] in multiset(s[1..]);
        var k :| 0 <= k < |s[1..]| && s[1..][k] == rest[0];
        assert s[k + 1] == rest[0];
      }
    }
  }

  /** Records that keep their ids position by position are searched alike. */
  lemma {:induction false} FindFirstSameIds(cs: seq<Comment>, ds: seq<Comment>, id: Uuid)
    requires |cs| == |ds|
    requires forall k | 0 <= k < |cs| :: cs[k].commentId == ds[k].commentId
    ensures FindFirst(cs, id) == FindFirst(ds, id)
  {
    if cs != [] && cs[0].commentId != id {
      FindFirstSameIds(cs[1..], ds[1..], id);
    }
  }

  /** After an insert, the new record is found by its (fresh) id and every
      other id finds what it found before. */
  lemma {:induction false} LookupAfterInsert(cs: seq<Comment>, c: Comment, id: Uuid)
    requires c.commentId !in Ids(cs)
    ensures Lookup(cs + [c], id) == if id == c.commentId then Some(c) else Lookup(cs, id)
  {
    if cs == [] {
      assert cs + [c] == [c];
    } else {
      assert (cs + [c])[1..] == cs[1..] + [c];
      assert c.commentId !in Ids(cs[1..]) by {
        assert forall d | d in cs[1..] :: d in cs;
      }
      LookupAfterInsert(cs[1..], c, id);
    }
  }

  /** `$pull` of an element that was just pushed takes the pushed copy away
      together with every earlier copy. */
  lemma {:induction false} RemoveAllAfterAppend(rs: seq<CommentReaction>, x: CommentReaction)
    ensures RemoveAll(rs + [x], x) == RemoveAll(rs, x)
  {
    if rs == [] {
      assert [] + [x] == [x];
      assert [x][1..] == [];
    } else {
      assert (rs + [x])[1..] == rs[1..] + [x];
      RemoveAllAfterAppend(rs[1..], x);
    }
  }

  /** `update_one` with `$push` modifies a document exactly when a record has
      the id, so the store's "nothing modified" error means a missing comment. */
  lemma PushModifiesExactlyWhenStored(cs: seq<Comment>, id: Uuid, reaction: CommentReaction)
    ensures Pushed(cs, id, reaction) != cs <==> id in Ids(cs)
  {
    if id in Ids(cs) {
      var i := FindFirst(cs, id).value;
      assert |Pushed(cs, id, reaction)[i].reactions| != |cs[i].reactions|;
    }
  }

  /** `update_one` with `$pull` modifies a document exactly when the first
      record with the id holds the reaction. */
  lemma PullModifiesExactlyWhenApplies(cs: seq<Comment>, id: Uuid, reaction: CommentReaction)
    ensures Pulled(cs, id, reaction) != cs <==> PullApplies(cs, id, reaction)
  {
    match FindFirst(cs, id)
    case None =>
    case Some(i) =>
      if reaction in cs[i].reactions {
        assert reaction in multiset(cs[i].reactions);
        assert reaction !in multiset(Pulled(cs, id, reaction)[i].reactions);
      } else {
        assert cs[i := cs[i]] == cs;
      }
  }

  /** Undoing a reaction right after making it restores the collection
      exactly, provided the comment did not hold that reaction already. */
  lemma PullAfterPush(cs: seq<Comment>, id: Uuid, reaction: CommentReaction)
    requires !PullApplies(cs, id, reaction)
    ensures Pulled(Pushed(cs, id, reaction), id, reaction) == cs
  {
    var pushed := Pushed(cs, id, reaction);
    FindFirstSameIds(cs, pushed, id);
    match FindFirst(cs, id)
    case None =>
    case Some(i) =>
      RemoveAllAfterAppend(cs[i].reactions, reaction);
      assert pushed[i := pushed[i].(reactions := cs[i].reactions)] == cs;
  }

  /** When the comment already held the reaction, the same round trip leaves
      no copy of it at all. */
  lemma PullAfterPushRemovesEveryCopy(cs: seq<Comment>, id: Uuid, reaction: CommentReaction)
    requires id in Ids(cs)
    ensures var after := Pulled(Pushed(cs, id, reaction), id, reaction);
            |after| == |cs| &&
            reaction !in after[FindFirst(cs, id).value].reactions
  {
    var pushed := Pushed(cs, id, reaction);
    FindFirstSameIds(cs, pushed, id);
    var i := FindFirst(cs, id).value;
    var rs := RemoveAll(pushed[i].reactions, reaction);
    assert reaction !in multiset(rs);
  }

  /** Writing the same record back twice leaves what writing it once left,
      as long as the record keeps the id the update is filtered on. */
  lemma ReplaceIdempotent(cs: seq<Comment>, id: Uuid, comment: Comment)
    requires comment.commentId == id
    ensures Replaced(Replaced(cs, id, comment), id, comment) == Replaced(cs, id, comment)
  {
    var once := Replaced(cs, id, comment);
    FindFirstSameIds(cs, once, id);
  }

  /** Writing back the found record with a new text changes that text and
      nothing else in the collection. */
  lemma ReplaceTextOnly(cs: seq<Comment>, id: Uuid, text: string)
    requires id in Ids(cs)
    ensures var i := FindFirst(cs, id).value;
            Replaced(cs, id, Lookup(cs, id).value.(commentText := text)) ==
            cs[i := cs[i].(commentText := text)]
  {
  }
}
