# Threaded comments as materialized paths — a Dafny model

The service stores comments on resources as a tree kept in a single document
collection, `comments`. Each comment records its position as a **materialized
path**: the chain of ids from the resource down to the comment, in their
36-character hyphenated text, joined with `->`. A root comment on resource `R`
has the path `R->C1`, and a branch below it has `R->C1->C2`. Prefix patterns
on that text answer three requests: "the next level", "the whole subtree"
and "delete this subtree".

The model has eight modules:

- `Uuids` (uuid.dfy): the canonical text of an id. Also the looser shape that
  the next-level pattern accepts, which is hex digits of either case.
- `Paths` (path.dfy): the path codec `Join` and `Append`, splitting on `->`,
  the two pattern predicates, and the bridge lemmas. A string prefix of a
  path is a prefix of its id chain, and a child path is exactly one more id.
- `Models` (models.dfy): the stored record and its parts.
- `Collection` (collection.dfy): what the database does with each command
  the store sends. These are functions over the collection's records in
  natural order:
  - `find_one`/`update_one` act on the first match;
  - `$push` and `$pull`;
  - `$set`;
  - `delete_many` by prefix;
  - the two `$sort` orders.
- `Store` (store.dfy): class `PersistentLayer`, whose field `comments` is
  the collection. Its methods are the store methods. Each one is proved
  against the `Collection` functions. One method, `Query`, stands for the
  database's `$match` and `$sort` stages together with the loops that drain
  the cursor (src/persistent/mongo.rs:193-197 and 233-237). It walks the
  whole collection and inserts each matching record at its sorted position.
  It is proved to return exactly the matching records, sorted.
- `Tree` (tree.dfy): the invariant the handlers keep. It has three parts:
  - ids are unique;
  - every path is the join of a chain of ids that starts with a resource id
    and ends with the record's own id, and a record is a root exactly when
    that chain is two ids long;
  - no branch lacks its parent.

  The module proves that every command keeps it. In particular, deleting a
  subtree leaves no orphan.
- `Handlers` (handlers.dfy): the ten request handlers as methods over a
  `PersistentLayer`, with the outcomes `Forbidden` and
  `InternalServerError`. `StatusCode` sends them as 403 and 500
  (src/common/errors.rs:15-27). In a well-formed collection, each query
  handler and the delete handler are also stated over id chains: the
  subtree of a comment is the records whose chain extends the comment's,
  and the next level is those one id longer.
- `Scenario` (scenario.dfy): the life of a two-level thread driven through
  the handlers on a fresh collection. The root and the branch are created,
  the branch is the only child, and the subtree lists the root then the
  branch. Deleting the root removes both.

Three inputs come in as method parameters:

- the id minted by `Uuid::new_v4()` (`newId`);
- the instant read from `Utc::now()` (`now`, an integer);
- the fields of each request body.

`$pull` (src/persistent/mongo.rs:87-91) removes every entry equal to the
reaction, which is what `Collection.RemoveAll` does. So undoing a reaction
the comment already held leaves no copy of it, and the reaction list is not
restored (`Collection.PullAfterPushRemovesEveryCopy`). For a reaction the
comment did not hold, the round trip restores the collection exactly
(`Collection.PullAfterPush`).

## Model

| member | source | states |
|---|---|---|
| Uuids.CanonicalIsShaped | src/common/utils.rs:6 | A rendered id has 36 characters, has the 8-4-4-4-12 hex shape the next-level pattern looks for, and holds no `>` |
| Paths.Join | src/common/utils.rs:3-9 | A joined chain of k ids has 38k-2 characters (0 for no ids), so path length grows strictly with depth |
| Paths.Append | src/common/utils.rs:11-17 | The new path starts with the existing one, is 36 characters long below an empty path and 38 longer otherwise, and ends with the new id |
| Paths.SplitJoin | src/common/utils.rs:3-9 | Splitting a joined path on `->` gives back the chain; the empty chain gives one empty piece |
| Paths.JoinInjective | src/common/utils.rs:3-9 | Distinct chains give distinct paths |
| Paths.AppendJoin | src/common/utils.rs:3-17 | Appending an id to the join of a chain, empty or not, equals joining the chain extended by that id |
| Paths.JoinConcat | src/common/utils.rs:3-9 | Joining two non-empty chains one after the other puts exactly one separator between their paths |
| Paths.StartsWithMeansExtension | src/persistent/mongo.rs:138 | The `^{prefix}` pattern matches exactly the strings that are the prefix followed by some text, possibly none |
| Paths.PrefixMatchIsChainPrefix | src/persistent/mongo.rs:206-214 | A path starts with the path of a non-empty chain exactly when its own chain extends that chain |
| Paths.ChildPathIsOneMoreId | src/persistent/mongo.rs:174-183 | The next-level pattern matches a chain's path exactly when the chain is the parent chain plus one id; grandchildren never match |
| Paths.ChildPathMeansUuidSuffix | src/persistent/mongo.rs:174-177 | The child-path predicate holds exactly when the path is the parent, `->`, and uuid-shaped text, with nothing after it |
| Paths.AppendIsChildPath | src/common/utils.rs:11-17 | An id appended below a non-empty path is matched by that path's next-level pattern |
| Collection.FindFirst | src/persistent/mongo.rs:158-162 | The position found has the id and no earlier record has it; there is none exactly when no record has the id |
| Collection.Lookup | src/persistent/mongo.rs:154-168 | A record is found exactly when the id is stored, and it is a stored record with that id |
| Collection.Pushed | src/persistent/mongo.rs:55-59 | `$push` keeps every other record and every other field of the first record with the id; that record's reactions keep their order and gain exactly one copy of the reaction, at the end |
| Collection.PushModifiesExactlyWhenStored | src/persistent/mongo.rs:61-69 | The push modifies the collection exactly when a record has the id, so a zero modified count means a missing comment |
| Collection.Pulled | src/persistent/mongo.rs:87-91 | `$pull` keeps every other record and every other field of the first record with the id; that record's reactions lose every copy of the reaction and keep every other entry |
| Collection.PullModifiesExactlyWhenApplies | src/persistent/mongo.rs:93-101 | The pull modifies the collection exactly when the first record with the id holds the reaction, so a zero modified count means a missing comment or reaction |
| Collection.Replaced | src/persistent/mongo.rs:114-124 | `$set` with a whole record puts it in place of the first record with the id and keeps every other record; a missing id changes nothing |
| Collection.RemoveAll | src/persistent/mongo.rs:87-91 | `$pull` leaves the reaction list with every copy of the reaction removed and every other entry kept; absent, it changes nothing |
| Collection.Filter | src/persistent/mongo.rs:138-145 | A record is selected exactly when it is stored and its path matches the pattern, or does not match it for a deletion |
| Collection.Pruned | src/persistent/mongo.rs:138-145 | A record survives `delete_many` exactly when it was stored and its path does not start with the prefix |
| Collection.PrecedesTotal | src/persistent/mongo.rs:185-228 | Both sort specifications compare any two records: one of them may come first |
| Collection.PrecedesTransitive | src/persistent/mongo.rs:185-228 | Both sort specifications are transitive, so together with totality they order a listing |
| Collection.SortedByAdjacent | src/persistent/mongo.rs:191-197 | A listing is sorted exactly when each record may precede the next one handed out by the cursor |
| Collection.InsertSorted | src/persistent/mongo.rs:189-197 | Placing a record in a sorted listing keeps it sorted and adds exactly that record |
| Collection.LookupAfterInsert | src/persistent/mongo.rs:22-40 | After inserting a record with a fresh id, that id finds the record and every other id finds what it found before |
| Collection.PullAfterPush | src/persistent/mongo.rs:43-104 | Pushing a reaction the comment does not hold and pulling it again restores the collection exactly |
| Collection.PullAfterPushRemovesEveryCopy | src/persistent/mongo.rs:75-104 | Pushing then pulling a reaction leaves no copy of it on the comment, even when the comment held it before |
| Collection.ReplaceIdempotent | src/persistent/mongo.rs:107-131 | Writing the same record back twice under its own id leaves what writing it once left |
| Collection.ReplaceTextOnly | src/persistent/mongo.rs:107-131 | Writing back the found record with a new text changes that text of the first record with the id and nothing else |
| Store.PersistentLayer.InsertComment | src/persistent/mongo.rs:22-40 | The collection afterwards is the old one with the record added at the end |
| Store.PersistentLayer.AppendReactionToComment | src/persistent/mongo.rs:43-72 | The reaction is pushed on the first record with the id; success exactly when the id is stored; on error the collection is unchanged and the error is the append error |
| Store.PersistentLayer.RemoveReactionFromComment | src/persistent/mongo.rs:75-104 | The reaction is pulled from the first record with the id; success exactly when that record held it; otherwise nothing changed and the error is the removal error |
| Store.PersistentLayer.UpdateComment | src/persistent/mongo.rs:107-131 | The first record with the id is replaced by the new record; a missing id changes nothing and is not an error |
| Store.PersistentLayer.PruneComments | src/persistent/mongo.rs:134-152 | Every record whose path starts with the given path is deleted, every other record is kept, and nothing remaining matches |
| Store.PersistentLayer.FindComment | src/persistent/mongo.rs:154-168 | Answers the first record with the id when one is stored, and "comment not found" exactly when none is |
| Store.PersistentLayer.Query | src/persistent/mongo.rs:189-197 | Draining the cursor yields exactly the matching records, each as often as stored, in the requested sort order |
| Store.PersistentLayer.FindNextLevelComments | src/persistent/mongo.rs:170-200 | Exactly the stored records one id below the path, latest first |
| Store.PersistentLayer.FindAllComments | src/persistent/mongo.rs:202-240 | Exactly the stored records whose path starts with the path, shorter paths first and latest first among equal lengths |
| Tree.ParentPath | src/handlers/mod.rs:89-92 | Appending the record's id to its parent path gives back its path: the parent path is the path `append_uuid_to_materialized_path` was applied to |
| Tree.ParentPathIsParentChain | src/handlers/mod.rs:89-92 | The parent path is the join of the record's chain of ids without its own id |
| Tree.PrefixMatchIsDescent | src/persistent/mongo.rs:206-214 | A placed record's path starts with another's exactly when the other's chain of ids is an initial part of its own, so the `^{path}` filter of a stored comment selects its subtree |
| Tree.ResourcePrefixIsFirstId | src/handlers/mod.rs:314-326 | A placed record's path starts with a resource id exactly when its chain starts with that id |
| Tree.ChildMatchIsOneLevelDown | src/persistent/mongo.rs:174-177 | A placed record matches the next-level pattern of another's path exactly when its chain is the other's plus one id |
| Tree.ChildOfResourceIsRootChain | src/handlers/mod.rs:246-251 | A placed record matches the next-level pattern of a bare resource id exactly when its chain is that id and its own |
| Tree.PathIdentifiesRecord | src/handlers/mod.rs:46 | In a well-formed collection a path identifies one record |
| Tree.InsertKeepsWellFormed | src/handlers/mod.rs:71-99 | Inserting a placed record with a fresh id, whose parent path is stored when it is a branch, keeps the invariant |
| Tree.SameShapeKeepsWellFormed | src/persistent/mongo.rs:43-131 | Commands that keep every record's id, kind and path in place keep the invariant |
| Tree.PushedKeepsShape | src/persistent/mongo.rs:55-59 | `$push` changes no id, kind or path |
| Tree.PulledKeepsShape | src/persistent/mongo.rs:87-91 | `$pull` changes no id, kind or path |
| Tree.ReplaceTextKeepsShape | src/handlers/mod.rs:184-201 | Writing back the found record with a new text changes no id, kind or path |
| Tree.PruneKeepsWellFormed | src/persistent/mongo.rs:134-152 | Deleting every record under a prefix keeps the invariant: no surviving branch loses its parent |
| Tree.ChildPathIsParentLink | src/persistent/mongo.rs:174-177 | A placed record matches the next-level pattern of a path exactly when that path is its parent path |
| Tree.RootsOfResource | src/handlers/mod.rs:246-251 | In a well-formed collection the next level below a bare resource id is exactly the root comments created on it |
| Tree.BranchesOfComment | src/handlers/mod.rs:267-278 | In a well-formed collection the next level below a stored comment is exactly the branches created from it |
| Tree.SubtreeStartsWithItsRoot | src/handlers/mod.rs:294-305 | A comment's subtree listing, shortest path first, starts with the comment itself |
| Tree.PruneRemovesComment | src/handlers/mod.rs:217-231 | In a well-formed collection, pruning by a comment's path removes that comment's id |
| Handlers.RootRecord | src/handlers/mod.rs:33-47 | A new root is of kind Root with no reactions, and its path is `resource->id`, which splits back into the resource and the id |
| Handlers.BranchRecord | src/handlers/mod.rs:76-93 | A new branch is of kind Branch with no reactions, one level below its parent, and its path is the parent's chain extended by the new id at any depth |
| Handlers.BranchBelowPlacedParent | src/handlers/mod.rs:76-93 | A branch whose path appends its id to a placed parent's path is placed itself, one step below the parent, and its chain is the parent's plus its id |
| Handlers.AppendExtendsChain | src/common/utils.rs:11-17 | Appending an id to a path puts it one level below that path and extends the chain the path was joined from |
| Handlers.TextEdited | src/handlers/mod.rs:184-201 | Editing changes the text of the first record with the id and nothing else; a missing id changes nothing |
| Handlers.TextEditIdempotent | src/handlers/mod.rs:184-201 | Editing to the same text twice leaves what editing once left |
| Handlers.CreateRootComment | src/handlers/mod.rs:27-54 | Inserts the root record and answers its id; with a fresh id it keeps the invariant |
| Handlers.CreateBranchComment | src/handlers/mod.rs:65-100 | Forbidden, with nothing inserted, exactly when the parent is missing; otherwise it inserts the branch below the parent found and answers its id; with a fresh id it keeps the invariant |
| Handlers.ReactToComment | src/handlers/mod.rs:111-134 | Pushes the reaction; success exactly when the comment exists; otherwise the internal error and no change; keeps the invariant |
| Handlers.UndoReactToComment | src/handlers/mod.rs:145-168 | Pulls the reaction; success exactly when the comment holds it; otherwise the internal error and no change; keeps the invariant |
| Handlers.UpdateCommentText | src/handlers/mod.rs:177-202 | Forbidden exactly when the comment is missing; otherwise it writes back the found record with only its text replaced; keeps the invariant |
| Handlers.DeleteComment | src/handlers/mod.rs:210-232 | Forbidden, with nothing changed, exactly when the comment is missing; otherwise the comment and its whole subtree are deleted and every record outside it survives; in a well-formed collection a record survives exactly when its chain does not extend the comment's; keeps the invariant |
| Handlers.GetRootComments | src/handlers/mod.rs:240-252 | Always succeeds with the records one level below the resource id, latest first; in a well-formed collection exactly its roots, whose chain is the resource id and their own |
| Handlers.GetBranchCommentsNext | src/handlers/mod.rs:260-279 | Forbidden exactly when the comment is missing; otherwise its next level, latest first; in a well-formed collection exactly the branches created from it, whose chains are the comment's plus one id |
| Handlers.GetBranchCommentsRest | src/handlers/mod.rs:287-306 | Forbidden exactly when the comment is missing; otherwise its whole subtree, shallowest first; in a well-formed collection the comment itself comes first and a record is listed exactly when its chain extends the comment's |
| Handlers.GetAllComments | src/handlers/mod.rs:314-326 | Always succeeds with every record under the resource id, shallowest first and latest first; in a well-formed collection exactly the records whose chain starts with the resource id, with roots before every branch |
| Handlers.RootsFirst | src/handlers/mod.rs:320-325 | In a shallowest-first listing of well-formed records, no branch comes before a root |
| Scenario.TreeLifecycle | src/handlers/mod.rs:27-306 | Create a root, then a branch; the next level is the branch alone; the subtree is the root then the branch; after deleting the root, neither id is found |

## Left out

- Database, network and serialization failures are not modelled. These are `insert_one`/`update_one`/`delete_many`/`find`/`aggregate` errors, a `Null` inserted id, BSON conversion failures and cursor errors. So the store's insert, update, prune and query never fail, and the handlers' internal error arises only from the reaction commands.
- Handlers.CreateRootComment: always answers the new id; the 500 answer on a failed insert (src/handlers/mod.rs:49-51) depends on a failure the model has no way to produce.
- Handlers.GetRootComments: always succeeds; the 500 answer on a failed query depends on a failure that is not modelled.
- Handlers.GetAllComments: always succeeds for the same reason.
- Timestamps are integers. chrono's `DateTime<Utc>`, its serialized form and the database's comparison of that form are not modelled; the sort orders compare the integers.
- The order among records with equal sort keys is left open. The contracts state only which records are returned and that they are sorted, and any tie order satisfies them.
- Response bodies are returned as the id or the list of records, not as JSON text. The conversion of `ServerError` into an HTTP response (src/common/errors.rs:30-44) is reduced to `Handlers.StatusCode`.
- The `$regex` patterns are modelled as a literal prefix test and as the written-out child-path predicate. Paths built by the codec contain only hex digits, `-` and `>`, none of which is a pattern metacharacter there. Arbitrary text used as a path, and `$` matching before a trailing newline, are not modelled.
- `Uuid::new_v4()` is a parameter. Whether it is fresh is a hypothesis of the invariant-preservation clauses, not a guarantee.
- Concurrency is not modelled. Requests run one after another, so the races between a lookup and the write that follows it (create-branch, edit, delete) are not modelled.
- Collection.Pruned: its contract says which records survive `delete_many`, not that the survivors keep their natural order (its definition does keep it).
- `branch_comment_ids` is carried in the record but no operation reads or writes it.
- Logging (`tracing` spans, `debug!`/`info!`) is not modelled.
- src/persistent/mod.rs (client construction), src/service/server.rs (routing and configuration) and src/main.rs are not part of this model.
