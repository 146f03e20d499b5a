/** The materialized-path codec (src/common/utils.rs): a tree position is the
    chain of ids from the resource down to the comment, joined with "->". */
module Paths {
  import opened Uuids

  const Separator: string := "->"

  /** `uuid_list_to_materialized_path`: the ids' texts joined by "->". Every id
      is 36 characters wide, so a path of k ids has 38 * k - 2 characters and
      the length of a path grows strictly with its depth. */
  function Join(ids: seq<Uuid>): (path: string)
    ensures |path| == if ids == [] then 0 else 38 * |ids| - 2
  {
    if ids == [] then ""
    else if |ids| == 1 then ids[0]
    else ids[0] + Separator + Join(ids[1..])
  }

  /** `append_uuid_to_materialized_path`: the id alone below an empty path,
      otherwise the existing path, the separator and the id. */
  function Append(existing: string, id: Uuid): (path: string)
    ensures StartsWith(path, existing)
    ensures |path| == if existing == "" then 36 else |existing| + 38
    ensures path[|path| - 36..] == id
  {
    if existing == "" then id else existing + Separator + id
  }

  /** Rust's `str::split("->")`: the pieces between the separators, left to
      right; a string without separator (the empty one included) is one piece. */
  function Split(s: string): (parts: seq<string>)
    ensures |parts| >= 1
    decreases |s|
  {
    if |s| >= 2 && s[0] == '-' && s[1] == '>' then [""] + Split(s[2..])
    else if s == "" then [""]
    else
      var rest := Split(s[1..]);
      [[s[0]] + rest[0]] + rest[1..]
  }

  /** The `^{prefix}` pattern: `prefix` is an initial segment of `s`. */
  predicate StartsWith(s: string, prefix: string) {
    |prefix| <= |s| && s[..|prefix|] == prefix
  }

  /** The predicate is the pattern's meaning: `s` is `prefix` followed by
      some text, possibly none. */
  lemma StartsWithMeansExtension(s: string, prefix: string)
    ensures StartsWith(s, prefix) <==> exists rest :: s == prefix + rest
  {
    if StartsWith(s, prefix) {
      assert s == prefix + s[|prefix|..];
    }
    if exists rest :: s == prefix + rest {
      var rest :| s == prefix + rest;
      assert s[..|prefix|] == prefix;
    }
  }

  /** The `^{parent}->UUID$` pattern, written out: `path` is `parent`, the
      separator, and one uuid-shaped segment, and nothing after it. */
  predicate IsChildPath(path: string, parent: string) {
    |path| == |parent| + 38 &&
    path[..|parent|] == parent &&
    path[|parent|..|parent| + 2] == Separator &&
    UuidShaped(path[|parent| + 2..])
  }

  /** A piece without `>` holds no separator, so it does not split. */
  lemma {:induction false} SplitWithoutSeparator(w: string)
    requires '>' !in w
    ensures Split(w) == [w]
    decreases |w|
  {
    if w != "" {
      assert w[1..] + [] == w[1..];
      SplitWithoutSeparator(w[1..]);
      assert [w[0]] + w[1..] == w;
    }
  }

  /** Splitting a piece without `>` followed by the separator peels off that piece. */
  lemma {:induction false} SplitAfterPiece(w: string, rest: string)
    requires '>' !in w
    ensures Split(w + Separator + rest) == [w] + Split(rest)
    decreases |w|
  {
    var s := w + Separator + rest;
    if w == "" {
      assert s == "->" + rest;
      assert s[2..] == rest;
    } else {
      assert s[0] == w[0];
      assert s[1] == (if |w| >= 2 then w[1] else '-');
      assert s[1..] == w[1..] + Separator + rest;
      SplitAfterPiece(w[1..], rest);
      assert [w[0]] + w[1..] == w;
    }
  }

  /** Splitting a joined path on "->" gives back the ids, because no rendered
      id holds a `>`; the empty chain joins to "" and splits to one empty piece. */
  lemma {:induction false} SplitJoin(ids: seq<Uuid>)
    ensures Split(Join(ids)) == if ids == [] then [""] else ids
  {
    if |ids| == 1 {
      CanonicalIsShaped(ids[0]);
      SplitWithoutSeparator(ids[0]);
    } else if |ids| > 1 {
      CanonicalIsShaped(ids[0]);
      SplitAfterPiece(ids[0], Join(ids[1..]));
      SplitJoin(ids[1..]);
      assert [ids[0]] + ids[1..] == ids;
    }
  }

  /** Distinct chains give distinct paths. */
  lemma JoinInjective(a: seq<Uuid>, b: seq<Uuid>)
    requires Join(a) == Join(b)
    ensures a == b
  {
    if a != [] && b != [] {
      SplitJoin(a);
      SplitJoin(b);
    }
  }

  /** Appending an id to a joined chain is joining the chain extended by that
      id, for the empty chain as for any other. */
  lemma {:induction false} AppendJoin(ids: seq<Uuid>, id: Uuid)
    ensures Append(Join(ids), id) == Join(ids + [id])
  {
    if |ids| == 1 {
      assert (ids + [id])[1..] == [id];
    } else if |ids| > 1 {
      AppendJoin(ids[1..], id);
      assert (ids + [id])[1..] == ids[1..] + [id];
    }
  }

  /** Joining two non-empty chains one after the other puts one separator between them. */
  lemma {:induction false} JoinConcat(a: seq<Uuid>, b: seq<Uuid>)
    requires a != [] && b != []
    ensures Join(a + b) == Join(a) + Separator + Join(b)
  {
    if |a| == 1 {
      assert (a + b)[1..] == b;
    } else {
      JoinConcat(a[1..], b);
      assert (a + b)[1..] == a[1..] + b;
    }
  }

  /** The path of a chain starts with the path of any non-empty initial part of it. */
  lemma ConcatStartsWith(a: seq<Uuid>, b: seq<Uuid>)
    requires a != []
    ensures StartsWith(Join(a + b), Join(a))
  {
    if b == [] {
      assert a + b == a;
    } else {
      JoinConcat(a, b);
    }
  }

  /** A chain's path starts with the path of each of its non-empty initial segments. */
  lemma ExtensionStartsWith(ancestor: seq<Uuid>, chain: seq<Uuid>)
    requires ancestor != [] && |ancestor| <= |chain| && chain[..|ancestor|] == ancestor
    ensures StartsWith(Join(chain), Join(ancestor))
  {
    var rest := chain[|ancestor|..];
    assert chain == ancestor + rest;
    ConcatStartsWith(ancestor, rest);
  }

  /** A path that starts with a chain's path is at least as deep. */
  lemma StartsWithIsDeeper(ancestor: seq<Uuid>, chain: seq<Uuid>)
    requires ancestor != [] && StartsWith(Join(chain), Join(ancestor))
    ensures |ancestor| <= |chain|
  {
    LengthOfPrefix(Join(chain), Join(ancestor));
    DepthOfLength(ancestor, chain);
  }

  lemma LengthOfPrefix(s: string, p: string)
    requires StartsWith(s, p)
    ensures |p| <= |s|
  {
  }

  /** Path length orders chains by depth. */
  lemma DepthOfLength(ancestor: seq<Uuid>, chain: seq<Uuid>)
    requires ancestor != [] && |Join(ancestor)| <= |Join(chain)|
    ensures |ancestor| <= |chain|
  {
  }

  /** The initial part of a chain as long as the ancestor has the ancestor's path. */
  lemma StartsWithSamePrefixPath(ancestor: seq<Uuid>, chain: seq<Uuid>)
    requires ancestor != [] && |ancestor| <= |chain| && StartsWith(Join(chain), Join(ancestor))
    ensures Join(chain[..|ancestor|]) == Join(ancestor)
  {
    var n := |ancestor|;
    var head, rest := chain[..n], chain[n..];
    TakeDrop(chain, n);
    ConcatStartsWith(head, rest);
    assert |head| == n;
    assert |Join(head)| == |Join(ancestor)|;
  }

  lemma TakeDrop(s: seq<Uuid>, n: nat)
    requires n <= |s|
    ensures s[..n] + s[n..] == s
  {
  }

  /** A chain whose path starts with the path of a non-empty chain extends that chain. */
  lemma StartsWithIsExtension(ancestor: seq<Uuid>, chain: seq<Uuid>)
    requires ancestor != [] && StartsWith(Join(chain), Join(ancestor))
    ensures |ancestor| <= |chain| && chain[..|ancestor|] == ancestor
  {
    StartsWithIsDeeper(ancestor, chain);
    StartsWithSamePrefixPath(ancestor, chain);
    JoinInjective(chain[..|ancestor|], ancestor);
  }

  /** The bridge between the store's string prefix match and the tree: a path
      starts with the path of a (non-empty) chain exactly when its own chain
      extends that chain. It holds because every id has the same width and no
      `>`, so a prefix can never end inside an id. */
  lemma PrefixMatchIsChainPrefix(ancestor: seq<Uuid>, chain: seq<Uuid>)
    requires ancestor != []
    ensures StartsWith(Join(chain), Join(ancestor)) <==>
            |ancestor| <= |chain| && chain[..|ancestor|] == ancestor
  {
    if |ancestor| <= |chain| && chain[..|ancestor|] == ancestor {
      ExtensionStartsWith(ancestor, chain);
    }
    if StartsWith(Join(chain), Join(ancestor)) {
      StartsWithIsExtension(ancestor, chain);
    }
  }

  /** One id appended to a non-empty path gives a child path of it. */
  lemma AppendIsChildPath(parent: string, id: Uuid)
    requires parent != ""
    ensures IsChildPath(Append(parent, id), parent)
  {
    var path := parent + Separator + id;
    CanonicalIsShaped(id);
    assert path[..|parent|] == parent;
    assert path[|parent|..|parent| + 2] == Separator;
    assert path[|parent| + 2..] == id;
  }

  /** A path 38 characters longer than a chain's path is exactly one id deeper. */
  lemma ChildPathDepth(parent: seq<Uuid>, chain: seq<Uuid>)
    requires parent != [] && |Join(chain)| == |Join(parent)| + 38
    ensures |chain| == |parent| + 1
  {
    assert chain != [];
    assert 38 * |chain| - 2 == 38 * |parent| - 2 + 38;
  }

  /** A chain one id longer than a non-empty chain has a child path of it. */
  lemma ExtensionIsChildPath(parent: seq<Uuid>, chain: seq<Uuid>)
    requires parent != [] && |chain| == |parent| + 1 && chain[..|parent|] == parent
    ensures IsChildPath(Join(chain), Join(parent))
  {
    var id := chain[|parent|];
    assert parent + [id] == chain;
    AppendJoin(parent, id);
    AppendIsChildPath(Join(parent), id);
  }

  /** The bridge for the next-level pattern: a path is a child path of a
      (non-empty) chain's path exactly when its chain is that chain plus one
      id, so grandchildren and deeper descendants never match. */
  lemma ChildPathIsOneMoreId(parent: seq<Uuid>, chain: seq<Uuid>)
    requires parent != []
    ensures IsChildPath(Join(chain), Join(parent)) <==>
            |chain| == |parent| + 1 && chain[..|parent|] == parent
  {
    if |chain| == |parent| + 1 && chain[..|parent|] == parent {
      ExtensionIsChildPath(parent, chain);
    }
    if IsChildPath(Join(chain), Join(parent)) {
      ChildPathDepth(parent, chain);
      StartsWithIsExtension(parent, chain);
    }
  }

  /** The written-out predicate is the pattern's meaning: the parent, the
      separator and some uuid-shaped text, and nothing more. */
  lemma ChildPathMeansUuidSuffix(path: string, parent: string)
    ensures IsChildPath(path, parent) <==>
            exists u :: UuidShaped(u) && path == parent + Separator + u
  {
    if IsChildPath(path, parent) {
      var u := path[|parent| + 2..];
      assert path == parent + Separator + u;
    }
    if exists u :: UuidShaped(u) && path == parent + Separator + u {
      var u :| UuidShaped(u) && path == parent + Separator + u;
      assert path[..|parent|] == parent;
      assert path[|parent|..|parent| + 2] == Separator;
      assert path[|parent| + 2..] == u;
    }
  }
}
