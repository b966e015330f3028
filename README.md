# Relation macros for the Eloquent query builder

This project models the two query-builder macros of the application, in Dafny:

- `joinRelation` turns a relation path into joins.
- `whereRelatedTo` turns a relation path into `whereIn` sub-queries.

A relation path is either a dotted string (`catalogs.users`) or an array that maps relation names to filter callbacks. A join key can carry a `left@` prefix that asks for left joins.

- **The join macro** walks the path from the query's model:
  - A has-many, has-one or belongs-to hop joins the related table. It puts the caller's filter and the related model's global scopes on the query itself.
  - A many-to-many hop joins the pivot table, then the related table. The filter goes inside the related join.
  - A has-many, has-one or belongs-to hop whose table is already joined adds no join. Its filter goes onto the query instead.
  - A many-to-many hop whose related table is already joined adds no join either. As written it then drops its filter; the corrected hop puts it onto the query (Findings, row 1).
- **The where macro** builds one fresh sub-query per hop on the related model:
  - The sub-query applies the filter and selects one key column.
  - For a many-to-many hop, the sub-query inner-joins the pivot, with the filter and the pivot's soft-delete check inside that join.
  - The macro attaches `whereIn(<key of the current table>, <sub-query>)` to the previous hop's query (as written, a has-one hop attaches to the root query instead: Findings, row 2). The next hop continues from the new sub-query.
  - `whereIn` with a query compiles that query at the call. As written, each sub-query is compiled before the next hop attaches to it, so the root query holds the first hop's sub-query alone (Findings, row 3). The corrected walk builds every sub-query first and then attaches each to the one before it, the last first, so that the root query holds the whole chain.
- **Both macros** normalise the path the same way (`getRelations`), resolve each relation name on the current model and abort on the first hop they cannot follow.

## Files

- `eloquent.dfy`:
  - models, relations and the `Query` class whose joins, predicates and selected columns the macros mutate in place;
  - the pivot soft-delete scan.
- `relation_path.dfy`:
  - splitting a dotted path, and `getRelations` as an ordered PHP array;
  - the `left@` key parsing of the join macro (its `preg_replace` and `preg_match`);
  - resolving a relation name.
- `join_relation.dfy`:
  - the query content each join hop produces, as functions, with their properties;
  - the class `JoinRelationMacro`, whose methods mutate a `Query` and are proved to produce exactly that content.
- `where_related_to.dfy`:
  - the sub-query plan each where hop produces, and the properties of a walk;
  - the predicates the root query gains, as written and corrected;
  - the class `WhereRelatedToMacro`, which allocates the sub-queries and attaches them, both as written and corrected. It is proved to build exactly those plans and predicates.
- `fixtures.dfy`: the application's `Item` model and the controller's calls, run through both macros.

## Model

| member | source | states |
|---|---|---|
| Eloquent.Query.constructor | app/Models/Macros/WhereRelatedToMacro.php:89 | `newQuery()`: a query on the model with no join, predicate or selected column |
| Eloquent.Query.Join | app/Models/Macros/JoinRelationMacro.php:59-67 | `join`/`leftJoin` appends exactly one clause with the given mode, table and conditions; predicates and columns are unchanged |
| Eloquent.Query.Where | app/Models/Macros/JoinRelationMacro.php:92-94 | a predicate is appended after the existing ones; joins and columns are unchanged |
| Eloquent.Query.WhereIn | app/Models/Macros/WhereRelatedToMacro.php:103 | `whereIn(column, sub)` appends one predicate holding `sub` as compiled at the call, with the global scopes of its model; what is done to `sub` afterwards does not reach it. Joins and columns are unchanged |
| Eloquent.Query.Select | app/Models/Macros/WhereRelatedToMacro.php:99-101 | `select` replaces the selected columns and changes nothing else |
| Eloquent.ScopeWheresAt | app/Models/Macros/JoinRelationMacro.php:121-127 | one scope predicate per global scope, in registration order |
| Eloquent.IsSoftDeletePivot | app/Models/Macros/JoinRelationMacro.php:245-263 | true exactly when some predicate of the relation's query is `<pivot>.deleted_at` with type `Null` and boolean `and`; false when there are no predicates. The where macro's copy (WhereRelatedToMacro.php:197-215) is the same |
| RelationPath.Explode | app/Models/Macros/JoinRelationMacro.php:71 | `explode('.', s)` yields one more segment than `s` has dots, and no segment contains a dot |
| RelationPath.ImplodeExplode | app/Models/Macros/JoinRelationMacro.php:71 | joining the segments with '.' gives back the path: splitting loses nothing |
| RelationPath.ExplodeImplode | app/Models/Macros/JoinRelationMacro.php:71 | splitting dot-free names joined with '.' gives back exactly those names |
| RelationPath.ExplodeSegment | app/Models/Macros/JoinRelationMacro.php:71 | a dot-free path is a single segment |
| RelationPath.ExplodeAfterSegment | app/Models/Macros/JoinRelationMacro.php:71 | a path `a.b` with `a` dot-free splits into `a` followed by the segments of `b` |
| RelationPath.Lookup | app/Models/Macros/JoinRelationMacro.php:75-77 | a key's position in an ordered PHP array: the entry there has that key, and no entry does when it is absent |
| RelationPath.Collect | app/Models/Macros/JoinRelationMacro.php:73-79 | the key-by-key assignment of the loop: never more entries than the input, and at least one for a non-empty input |
| RelationPath.GetRelations | app/Models/Macros/JoinRelationMacro.php:69-82 | the loop builds the array a key-by-key assignment gives: a string under an integer key becomes a name with no filter; any other entry is stored under its key |
| RelationPath.CollectKeys | app/Models/Macros/JoinRelationMacro.php:69-82 | the returned array stores every key once, and its keys are exactly the normalised keys of the input |
| RelationPath.CollectLastWrite | app/Models/Macros/JoinRelationMacro.php:73-79 | each key holds the value of its last write in the input |
| RelationPath.CollectFirstOrder | app/Models/Macros/JoinRelationMacro.php:73-79 | keys keep the order of their first occurrence in the input, as PHP array assignment keeps it |
| RelationPath.CollectSemantics | app/Models/Macros/JoinRelationMacro.php:69-82 | all four together: distinct keys, the input's keys, last-write values, first-occurrence order |
| RelationPath.CollectDistinct | app/Models/Macros/JoinRelationMacro.php:73-79 | when no key repeats, every entry keeps its place and only the normalisation applies |
| RelationPath.DottedPath | app/Models/Macros/JoinRelationMacro.php:71-78 | a dotted path yields relation names with no filter; with no repeated segment, exactly its segments, in order |
| RelationPath.WordEnd | app/Models/Macros/JoinRelationMacro.php:30 | the end of a run of `\w` characters: all characters before it are word characters and the one at it is not |
| RelationPath.StripFrom | app/Models/Macros/JoinRelationMacro.php:30 | the `preg_replace` from a position on: never longer than what is left of the key, and the key itself when no `@` is left |
| RelationPath.RelationNameOf | app/Models/Macros/JoinRelationMacro.php:30 | the relation name derived from a key is never longer than the key, and is the key itself when it holds no `@` |
| RelationPath.IsLeftJoinKey | app/Models/Macros/JoinRelationMacro.php:31 | the `preg_match` for `left@` followed by a word character; a key it matches holds an `@` |
| RelationPath.PlainKey | app/Models/Macros/JoinRelationMacro.php:30-31 | a key made of word characters names itself as the relation and asks for an inner join |
| RelationPath.PrefixedKey | app/Models/Macros/JoinRelationMacro.php:30-31 | a key `prefix@name` names the relation `name`; it asks for a left join exactly when the prefix ends in `left` |
| RelationPath.DanglingAtKey | app/Models/Macros/JoinRelationMacro.php:30-31 | a key `prefix@` with no name after the `@` is taken verbatim, `@` included, and asks for an inner join |
| RelationPath.Resolve | app/Models/Macros/JoinRelationMacro.php:33-47 | a hop succeeds exactly when the model declares the relation, of a followed kind, with a null or callable filter; otherwise it fails with a missing method, then an unfollowed kind, then a type error |
| JoinRelation.AppliedExtends | app/Models/Macros/JoinRelationMacro.php:84-100 | a filter once applied stays applied when later hops only add joins and predicates |
| JoinRelation.FilterExisting | app/Models/Macros/JoinRelationMacro.php:84-100 | `addWhere`: with a join to the table and a filter, exactly the filter is appended to the query's predicates; otherwise nothing changes; no join is ever added |
| JoinRelation.RelatedJoin | app/Models/Macros/JoinRelationMacro.php:133-160 | a has-many/has-one/belongs-to hop only extends the query and leaves the related table joined. An already joined table gets no new join, only the filter. Otherwise exactly one clause is appended, followed by the filter and then the related model's scopes. Distinct joins stay distinct |
| JoinRelation.BelongsToHop | app/Models/Macros/JoinRelationMacro.php:103-131 | the new join's condition is `table.foreignKey = related.(getParentKey() ?? id)`, which is `related.id` on the fresh models the macro uses |
| JoinRelation.HasOneOrManyHop | app/Models/Macros/JoinRelationMacro.php:133-190 | the new join's condition is `table.localKey = related.foreignKey` |
| JoinRelation.PivotJoin | app/Models/Macros/JoinRelationMacro.php:214-222 | the pivot is joined afterwards, on `pivot.foreignPivotKey = table.parentKey` plus the soft-delete check; nothing changes when it was joined already; the set of joined tables grows by the pivot only |
| JoinRelation.JoinedAppend | app/Models/Macros/JoinRelationMacro.php:59-67 | appending a clause adds exactly its table to the joined ones, and keeps joins distinct when the table is new |
| JoinRelation.RelatedHalf | app/Models/Macros/JoinRelationMacro.php:224-240 | corrected (Findings, row 1): the related table is joined afterwards. A new join is on `related.relatedKey = pivot.relatedPivotKey` with the filter inside, and the related model's scopes follow on the query. An existing join leaves the joins as they are and the query gains exactly the filter, with the pivot's name |
| JoinRelation.BelongsToManyHop | app/Models/Macros/JoinRelationMacro.php:192-243 | corrected (Findings, row 1): up to two clauses are appended, pivot first, each only when its table is new. The soft-delete check is in the pivot join exactly when the relation has one. The query gains exactly the related model's scopes after a new related join, or exactly the filter with the pivot's name when it was joined already |
| JoinRelation.BelongsToManyHopAsWritten | app/Models/Macros/JoinRelationMacro.php:192-243 | as written: both tables are joined afterwards and the query only extends; when the related table was joined already (or is the pivot table itself) the result is exactly the pivot half, so the predicates are unchanged and the filter is dropped; otherwise the hop agrees with the corrected one |
| JoinRelation.BelongsToManyAsWrittenDropsFilter | app/Models/Macros/JoinRelationMacro.php:224 | as written, with the related table already joined, the hop with a filter equals the hop without one, and differs from the corrected hop |
| JoinRelation.JoinHop | app/Models/Macros/JoinRelationMacro.php:29-47 | with the corrected many-to-many hop (Findings, row 1): an integer key is a type error; a string key succeeds exactly when its relation resolves, reaches the related model, joins its table, only extends the query and applies the filter |
| JoinRelation.JoinHopAsWritten | app/Models/Macros/JoinRelationMacro.php:29-47 | one step as written: it succeeds exactly when the corrected step does and equals it, except on a many-to-many hop with a filter whose related table is already joined, where it reaches the same model and joins but leaves the predicates as they were while the corrected step adds the filter |
| JoinRelation.JoinStepsAsWrittenAgrees | app/Models/Macros/JoinRelationMacro.php:28-49 | a whole run as written equals the corrected run whenever none of its hops is a many-to-many hop with a filter that meets an already joined related table |
| JoinRelation.RejoinAddsNoJoin | app/Models/Macros/JoinRelationMacro.php:84-100 | following the same entry again from the query it produced succeeds and adds no join |
| JoinRelation.JoinStepsExtend | app/Models/Macros/JoinRelationMacro.php:25-52 | a run only adds joins and predicates, and never joins a table twice |
| JoinRelation.JoinStepsReachJoined | app/Models/Macros/JoinRelationMacro.php:25-52 | after a successful run over a non-empty path, the table of the model reached is joined |
| JoinRelation.JoinStepsApplyFilters | app/Models/Macros/JoinRelationMacro.php:25-52 | with the corrected many-to-many hop (Findings, row 1): after a successful run, every filter of the path has been applied |
| JoinRelation.JoinStepsSplit | app/Models/Macros/JoinRelationMacro.php:28-49 | running a path is running a prefix, then the rest from the model and query the prefix reached |
| JoinRelation.JoinStepsAbortAt | app/Models/Macros/JoinRelationMacro.php:29-47 | a failing hop aborts with its own error; the earlier hops stay applied and nothing of the failing one is |
| JoinRelation.JoinRelationMacro.constructor | app/Models/Macros/JoinRelationMacro.php:20-23 | the macro is bound to the query and records its model's table |
| JoinRelation.JoinRelationMacro.Invoke | app/Models/Macros/JoinRelationMacro.php:25-52 | with the corrected many-to-many hop (Findings, row 1): the query's new content is the outcome of the path's hops; the result is the query, or the first hop's error |
| JoinRelation.JoinRelationMacro.Hop | app/Models/Macros/JoinRelationMacro.php:29-47 | with the corrected many-to-many hop (Findings, row 1): one iteration mutates the query to the hop's content and returns the model reached; a failing hop leaves the query unchanged |
| JoinRelation.JoinRelationMacro.AddWhere | app/Models/Macros/JoinRelationMacro.php:84-100 | returns true exactly when a join to the table exists, and then applies the filter to the query |
| JoinRelation.JoinRelationMacro.ApplyGlobalScopes | app/Models/Macros/JoinRelationMacro.php:121-127 | appends one predicate per global scope of the related model, in order |
| JoinRelation.JoinRelationMacro.JoinRelated | app/Models/Macros/JoinRelationMacro.php:133-160 | the query's new content is the related-join content |
| JoinRelation.JoinRelationMacro.JoinBelongsTo | app/Models/Macros/JoinRelationMacro.php:103-131 | returns the related model and leaves the query as the belongs-to hop gives it |
| JoinRelation.JoinRelationMacro.JoinHasMany | app/Models/Macros/JoinRelationMacro.php:133-160 | returns the related model and leaves the query as the has-many hop gives it |
| JoinRelation.JoinRelationMacro.JoinHasOne | app/Models/Macros/JoinRelationMacro.php:163-190 | returns the related model and leaves the query as the has-one hop gives it |
| JoinRelation.JoinRelationMacro.JoinBelongsToMany | app/Models/Macros/JoinRelationMacro.php:192-243 | corrected (Findings, row 1): returns the related model and leaves the query as the corrected many-to-many hop gives it |
| WhereRelatedTo.HopPlan | app/Models/Macros/WhereRelatedToMacro.php:86-195 | the sub-query follows the relation to its related model, and its `whereIn` column belongs to the current table |
| WhereRelatedTo.HopPlanShape | app/Models/Macros/WhereRelatedToMacro.php:86-195 | one selected column. A non-pivot hop has no join, and the filter sits on the sub-query. A many-to-many hop has one inner join to the pivot, the filter inside it, and the soft-delete check exactly when the relation has one |
| WhereRelatedTo.WhereHop | app/Models/Macros/WhereRelatedToMacro.php:32-47 | an integer key is not a method name and fails as PHP's `Error: Method name must be a string`; a string key succeeds exactly when it resolves as a relation name, with a `whereIn` column of the current table |
| WhereRelatedTo.WhereSteps | app/Models/Macros/WhereRelatedToMacro.php:32-50 | a walk takes at most one hop per entry, and its first hop is the first entry's |
| WhereRelatedTo.WhereStepsFirst | app/Models/Macros/WhereRelatedToMacro.php:32-50 | a walk is its first hop followed by the walk from the model that hop reaches |
| WhereRelatedTo.WhereStepsHops | app/Models/Macros/WhereRelatedToMacro.php:32-50 | hop `i` is entry `i` resolved on the model the previous sub-query is on |
| WhereRelatedTo.WhereStepsStop | app/Models/Macros/WhereRelatedToMacro.php:32-50 | a walk succeeds with one plan per entry, or stops at the first failing entry with its error |
| WhereRelatedTo.WhereStepsAt | app/Models/Macros/WhereRelatedToMacro.php:32-50 | what the walk does at entry `i` once it has taken `i` hops |
| WhereRelatedTo.WhereStepsApplyFilters | app/Models/Macros/WhereRelatedToMacro.php:95-97 | every filter of the walked path is applied to its hop's sub-query, or inside its pivot join |
| WhereRelatedTo.WhereStepsSelectOneKey | app/Models/Macros/WhereRelatedToMacro.php:99-101 | each sub-query selects exactly one column, of the related table or of the pivot table it joins |
| WhereRelatedTo.ReceiverAsWritten | app/Models/Macros/WhereRelatedToMacro.php:150 | as written, a has-one hop attaches its `whereIn` to the root query |
| WhereRelatedTo.Receiver | app/Models/Macros/WhereRelatedToMacro.php:35-41 | corrected (Findings, row 2): each hop attaches its `whereIn` to the query of the hop before it |
| WhereRelatedTo.InColumnsNameTheirQuery | app/Models/Macros/WhereRelatedToMacro.php:30-50 | with the corrected receiver (Findings, row 2): every `whereIn` column is a column of the table of the query it is attached to |
| WhereRelatedTo.HasOneAsWrittenMisattached | app/Models/Macros/WhereRelatedToMacro.php:150 | as written, a has-one hop after the first sends its `whereIn` to the root query; its column then names a table the root query is not on |
| WhereRelatedTo.RootPredicatesAsWritten | app/Models/Macros/WhereRelatedToMacro.php:30-52 | as written (Findings, row 3): the root query gains the first hop's `whereIn`, holding that sub-query as compiled before any later hop, and at most one predicate per hop |
| WhereRelatedTo.LaterHopsLostAsWritten | app/Models/Macros/WhereRelatedToMacro.php:30-52 | as written, when no hop after the first is has-one, the root query gains exactly the first hop's sub-query and nothing of the later hops |
| WhereRelatedTo.FirstHopOnlyAsWritten | app/Models/Macros/WhereRelatedToMacro.php:30-52 | as written, such a path gives the root query the same predicates as its first entry alone |
| WhereRelatedTo.SnapshotAppliesOwnFilterOnly | app/Models/Macros/WhereRelatedToMacro.php:86-195 | a hop's sub-query compiled with nothing attached to it applies no filter but its own |
| WhereRelatedTo.LaterFilterLostAsWritten | app/Models/Macros/WhereRelatedToMacro.php:30-52 | as written, a filter the first entry does not carry reaches nothing the root query gains, when no later hop is has-one |
| WhereRelatedTo.NestedReaches | app/Models/Macros/WhereRelatedToMacro.php:30-52 | corrected (Findings, row 3): sub-query `k` is nested in sub-query `j` whenever `j <= k` |
| WhereRelatedTo.NestedHoldsEveryHop | app/Models/Macros/WhereRelatedToMacro.php:30-52 | corrected: the root query's one new predicate nests every hop's sub-query, each with its plan's joins, selected column and predicates |
| WhereRelatedTo.NestedAppliesEveryFilter | app/Models/Macros/WhereRelatedToMacro.php:30-52 | corrected: every filter of the walked path reaches the root query's new predicate |
| WhereRelatedTo.NestedColumnsNameTheirQuery | app/Models/Macros/WhereRelatedToMacro.php:30-52 | corrected: the root's `whereIn` names a column of the root table; each sub-query but the last carries the next one's `whereIn`, on a column of its own table |
| WhereRelatedTo.NestOne | app/Models/Macros/WhereRelatedToMacro.php:191-192 | corrected: one attachment of the second loop; sub-query `i - 1` gains the `whereIn` of sub-query `i`, compiled with everything after it |
| WhereRelatedTo.WhereRelatedToMacro.constructor | app/Models/Macros/WhereRelatedToMacro.php:20-23 | the macro is bound to the query and records its model's table |
| WhereRelatedTo.WhereRelatedToMacro.InvokeAsWritten | app/Models/Macros/WhereRelatedToMacro.php:25-53 | as written (Findings, rows 2 and 3): the root query gains exactly the as-written predicates of the walk's plans and keeps its joins and columns; the result is the query or the first error |
| WhereRelatedTo.WhereRelatedToMacro.Invoke | app/Models/Macros/WhereRelatedToMacro.php:25-53 | corrected (Findings, rows 2 and 3): when every hop resolves, the root query gains exactly the one predicate nesting all sub-queries; when one fails, its error and no change. Joins and columns are kept |
| WhereRelatedTo.WhereRelatedToMacro.Nest | app/Models/Macros/WhereRelatedToMacro.php:30-50 | corrected: attaches each sub-query to the one before it, the last first, then the first to the root query; afterwards every sub-query holds its own plan plus the compiled `whereIn` of the next one (the last holds its plan alone), and the root query gains exactly the nested predicate |
| WhereRelatedTo.WhereRelatedToMacro.SubQueries | app/Models/Macros/WhereRelatedToMacro.php:32-50 | corrected: the first loop; one fresh, distinct sub-query per hop taken, each holding its plan, and the first error |
| WhereRelatedTo.WhereRelatedToMacro.StepAsWritten | app/Models/Macros/WhereRelatedToMacro.php:32-49 | as written, one iteration: a failing entry changes neither the root query nor the current one; a successful one returns a fresh sub-query on the related model; the root query gains its compiled `whereIn` for the first hop or a has-one hop, and for a later hop of another kind the current sub-query, already compiled into an earlier `whereIn`, gains it instead; no join or selected column changes |
| WhereRelatedTo.WhereRelatedToMacro.StepSubQuery | app/Models/Macros/WhereRelatedToMacro.php:32-49 | one iteration of the corrected first loop: the entry's error, or a fresh sub-query holding its plan and its `whereIn` column |
| WhereRelatedTo.WhereRelatedToMacro.ResolveEntry | app/Models/Macros/WhereRelatedToMacro.php:33-47 | `$m->{$relationName}()` and the kind check agree with the relation resolution; an integer key is not a method name (`Error: Method name must be a string`) |
| WhereRelatedTo.WhereRelatedToMacro.Follow | app/Models/Macros/WhereRelatedToMacro.php:34-47 | as written, the dispatch on the relation kind builds the hop's sub-query and attaches it to the current query, or to the root for has-one |
| WhereRelatedTo.WhereRelatedToMacro.SubQuery | app/Models/Macros/WhereRelatedToMacro.php:34-47 | the same dispatch in the corrected walk: the hop's sub-query and its `whereIn` column, attached nowhere yet |
| WhereRelatedTo.WhereRelatedToMacro.BelongsToSubQuery | app/Models/Macros/WhereRelatedToMacro.php:86-101 | a fresh sub-query on the related model, filtered, selecting `related.(getParentKey() ?? id)`, which is `related.id` on the fresh models the macro uses; its column is `table.foreignKey` |
| WhereRelatedTo.WhereRelatedToMacro.HasOneOrManySubQuery | app/Models/Macros/WhereRelatedToMacro.php:108-123 | a fresh sub-query on the related model, filtered, selecting `related.foreignKey`; its column is `table.localKey` |
| WhereRelatedTo.WhereRelatedToMacro.BelongsToManySubQuery | app/Models/Macros/WhereRelatedToMacro.php:156-189 | a fresh sub-query inner-joining the pivot with the key equality, the filter and the soft-delete check, selecting `pivot.foreignPivotKey`; its column is `table.parentKey` |
| WhereRelatedTo.WhereRelatedToMacro.WhereBelongsTo | app/Models/Macros/WhereRelatedToMacro.php:86-106 | that sub-query; the current query gains `table.foreignKey IN` it, compiled at the call |
| WhereRelatedTo.WhereRelatedToMacro.WhereHasMany | app/Models/Macros/WhereRelatedToMacro.php:108-129 | that sub-query; the current query gains `table.localKey IN` it, compiled at the call |
| WhereRelatedTo.WhereRelatedToMacro.WhereHasOne | app/Models/Macros/WhereRelatedToMacro.php:132-154 | as written: the has-one sub-query, with `table.localKey IN` it on the root query, whatever the current query is |
| WhereRelatedTo.WhereRelatedToMacro.WhereBelongsToMany | app/Models/Macros/WhereRelatedToMacro.php:156-195 | that sub-query; the current query gains `table.parentKey IN` it, compiled at the call |
| Fixtures.ItemRelations | app/Models/Item.php:16-29 | Item declares exactly `subItems`, `catalogs` and `users` |
| Fixtures.JoinCatalogs | database/migrations/2023_12_16_091835_create_catalog_item_table.php:14-19 | joining `catalogs` from items joins `catalog_item` on `item_id = items.id`, then `catalogs` on `catalogs.id = catalog_item.catalog_id` with the filter inside |
| Fixtures.JoinHopCatalogs | app/Models/Item.php:21-24 | any entry naming `catalogs` from an empty Item query produces those two joins and reaches Catalog |
| Fixtures.JoinHopSubItems | app/Models/Item.php:16-19 | an entry naming `subItems` joins `sub_items` on `items.id = sub_items.item_id` and puts the filter on the query |
| Fixtures.JoinCatalogsCall | app/Http/Controllers/MainController.php:61-65 | the controller's first `joinRelation` call produces the two catalog joins with its filter |
| Fixtures.JoinSubItemsCall | app/Http/Controllers/MainController.php:66-70 | the controller's second `joinRelation` call appends the sub_items join and puts its filter on the query |
| Fixtures.ControllerJoin | app/Http/Controllers/MainController.php:60-73 | the two calls in sequence succeed: three joins, one filter predicate on the query, and the other filter inside the catalogs join |
| Fixtures.LeftCatalogsKey | app/Models/Macros/JoinRelationMacro.php:30-31 | the key `left@catalogs` names `catalogs` and asks for left joins |
| Fixtures.LeftJoinPath | app/Models/Macros/JoinRelationMacro.php:30-31 | a one-segment path that left-joins `catalogs` produces both catalog joins as left joins |
| Fixtures.JoinIntegerKey | app/Models/Macros/JoinRelationMacro.php:30 | an integer key is a type error and the query is untouched |
| Fixtures.WhereIntegerKey | app/Models/Macros/WhereRelatedToMacro.php:30-33 | `whereRelatedTo([f])` fails at the dynamic call because the key 0 is not a method name, before any sub-query |
| Fixtures.JoinMissingRelation | app/Models/Macros/JoinRelationMacro.php:33 | a name that is no method of Item, of its base class, of its traits or of its builder fails with a missing method and the query is untouched |
| Fixtures.JoinInheritedMethod | app/Models/Macros/JoinRelationMacro.php:33-47 | an inherited method that returns no relation (`trashed`) is called and then rejected as an unfollowed kind; the query is untouched |
| Fixtures.JoinStringFilter | app/Models/Macros/JoinRelationMacro.php:35-41 | a string in place of a filter callback is a type error for every relation of Item |
| Fixtures.WhereHopCatalogs | app/Models/Macros/WhereRelatedToMacro.php:156-195 | from items, the catalogs sub-query joins `catalog_item` on `catalog_id = catalogs.id` with the filter inside, selects `catalog_item.item_id` and constrains `items.id` |
| Fixtures.ControllerWhereCatalogs | app/Http/Controllers/MainController.php:42-46 | the controller's first `whereRelatedTo` call builds exactly that one sub-query |
| Fixtures.ControllerWhereSubItems | app/Http/Controllers/MainController.php:47-51 | the controller's second call builds one sub-query on sub_items, filtered, that selects `item_id` and constrains `items.id` |
| Fixtures.RejoinCatalogsDropsFilter | app/Models/Macros/JoinRelationMacro.php:224 | once catalogs is joined, joining it again with a filter leaves the query as it was when the code runs as written; the corrected hop adds the filter |
| Fixtures.TwoSegmentPath | app/Models/Macros/JoinRelationMacro.php:71-78 | a path `a.b` with two different dot-free segments is the two relation names with no filter |
| Fixtures.UsersProfilePlans | app/Models/Macros/WhereRelatedToMacro.php:32-50 | the path `users`, `profile` from Item is a many-to-many hop to users, then a has-one hop to profiles |
| Fixtures.UsersProfileMisattached | app/Models/Macros/WhereRelatedToMacro.php:150 | on that path the has-one hop's `users.id` goes to the items query as written, and to the users sub-query once corrected |
| Fixtures.UsersGroupsPlans | app/Models/Macros/WhereRelatedToMacro.php:32-50 | the path `users`, `groups` from Item is two many-to-many hops, to users and then to user_groups |
| Fixtures.UsersGroupsLostAsWritten | app/Models/Macros/WhereRelatedToMacro.php:30-52 | on that path with a filter on `groups`, the items query gains one `items.id IN` predicate that does not reach the filter as written, and does once corrected |

## Left out

- SQL text, query execution, and the controller's `select('items.*')`, `groupBy` and `get()` are not modelled. The model stops at the builder's joins, predicates and selected columns.
- What a filter callback or a global scope does to a query is not modelled. Each is an opaque token recorded at the place where the code applies it: on the query, inside a join, or on a sub-query.
- The where macro's sub-queries come from `newQuery()`, whose global scopes the builder applies when it compiles the sub-query. The model adds them at that point (`Eloquent.Compiled`) and records none on the sub-query itself.
- `whereIn` with a query as its values compiles that query to SQL at the call. That is the query builder's behaviour from Laravel 8 on. The builder's code is not part of this model, and the as-written results of the where macro (Findings, row 3) rest on that behaviour.
- PHP turns a numeric-string array key such as `"3"` into an integer key. The model takes keys as given.
- PHP method names are case-insensitive. Relation lookup in the model is exact.
- A model's methods other than its relations are not modelled: its own and inherited ones (`getTable`, `newQuery`, `save`, the SoftDeletes trait's `trashed`) and the query-builder methods it forwards unknown names to. Each such name is treated as a missing method, whereas PHP calls the method (`save` even writes a row) and then rejects its result, which is no relation, as an unfollowed kind; only a name that no builder method answers either is a missing method. Fixtures.JoinInheritedMethod shows the unfollowed-kind outcome for a model that lists such a method as `Other`.
- RelationPath.Resolve: a string that names a global PHP function is callable and would pass the `?callable` parameter. The model treats every string filter as a type error.
- Polymorphic relations follow the framework's class hierarchy: MorphTo extends BelongsTo and MorphToMany extends BelongsToMany, so the macros' `instanceof` checks translate them as belongs-to and many-to-many and ignore the morph-type column. The model has no separate case for them. MorphOne, MorphMany and the through-relations match none of the checks and are `Other`, the unfollowed kind.
- The unfollowed-kind error is raised with `http\Exception\RuntimeException`, which exists only with the pecl http extension; without it the `new` expression fails instead. The model reports one error either way.
- `getParentKey()` on a belongs-to relation returns the value of the foreign-key attribute on the model the relation was obtained from, not a key name; both macros obtain relations from fresh models, where that value is null, so they always compare against `related.id`. `parentKey` stands for that attribute value, and the relation's owner key (`getOwnerKeyName()`) is not modelled because the code never reads it: a belongs-to relation whose owner key is not `id` is translated against `id` all the same.
- RelationPath.Value: a filter is null, a string or a callable. A callable array (`[$object, 'method']`, `['Class', 'staticMethod']`) passes the `?callable` parameter and is invoked as the filter; the model does not represent it apart from `Callback`. An integer, a boolean or a non-callable array under a string key is not modelled either; it fails the `?callable` parameter with a TypeError, as a non-callable string does.
- WhereRelatedTo.WhereHop: PHP raises an engine `Error` (not an exception of the macro's own) for an integer method name; the model names that case `MethodNameNotString`.
- The design intent is that a failed translation leaves no partial query. The code mutates the query hop by hop, so earlier hops stay applied. The model follows the code: JoinRelation.JoinRelationMacro.Invoke and WhereRelatedTo.WhereRelatedToMacro.InvokeAsWritten state the partial outcome. The corrected where walk, WhereRelatedTo.WhereRelatedToMacro.Invoke, resolves every hop before it attaches anything, so a failure leaves the root query unchanged.
- The macros' private `join` helper is folded into `Query.Join`, which takes the join mode.
- The `Profile` has-one relation of `User` in the fixtures is not declared by the application. The User model is not part of this model. The relation is the smallest path that reaches a has-one hop at depth two.
- The `groups` many-to-many relation of `User` in the fixtures is not declared by the application either. It is taken as the inverse of `UserGroup::users`, through the default pivot table `user_user_group`, to give a path of two hops that are not has-one.
- The related models `SubItem`, `Catalog` and `User` declare no global scope in the fixtures. Their sources are not part of this model.

## Findings

| source | as written | input that shows it | evidently intended | confidence | as-written member | corrected member |
|---|---|---|---|---|---|---|
| app/Models/Macros/JoinRelationMacro.php:224 | when the related table of a many-to-many hop is already joined, its existing-join check passes neither the filter nor the pivot name, so the caller's filter is dropped | an Item query that already joined `catalog_item` and `catalogs`, then `joinRelation(['catalogs' => f])`: the query is unchanged | apply the filter to the query with the pivot table's name, as the other three kinds do through the same check, whose pivot parameter is otherwise never used | medium, not executed | JoinRelation.BelongsToManyHopAsWritten, JoinRelation.BelongsToManyAsWrittenDropsFilter, JoinRelation.JoinHopAsWritten, JoinRelation.JoinStepsAsWrittenAgrees, Fixtures.RejoinCatalogsDropsFilter | JoinRelation.BelongsToManyHop, JoinRelation.RelatedHalf |
| app/Models/Macros/WhereRelatedToMacro.php:150 | the has-one hop attaches its `whereIn` to the root query instead of the previous hop's query | `whereRelatedTo('users.profile')` on Item, with `profile` a has-one relation of User: the items query gets `users.id IN (...)` although it is not on users | attach to the previous hop's query, as the other three kinds do | high, not executed | WhereRelatedTo.ReceiverAsWritten, WhereRelatedTo.HasOneAsWrittenMisattached, Fixtures.UsersProfileMisattached | WhereRelatedTo.Receiver, WhereRelatedTo.InColumnsNameTheirQuery, WhereRelatedTo.NestedColumnsNameTheirQuery, WhereRelatedTo.WhereRelatedToMacro.Invoke |
| app/Models/Macros/WhereRelatedToMacro.php:30-52 | each hop attaches its sub-query with `whereIn`, which compiles the sub-query at the call, and only then does the next hop attach its own sub-query to it; the root query ends up with the first hop's sub-query alone (plus any has-one hop's) | `whereRelatedTo(['users' => null, 'groups' => f])` on Item, with `groups` a many-to-many relation of User: the items query gains `items.id IN (select item_user.item_id ...)` and f appears nowhere in it | a chain of nested sub-queries, each holding the next one's `whereIn`, with the root query holding the whole chain | medium, not executed: it rests on the framework's `whereIn`, which is not part of this model | WhereRelatedTo.WhereRelatedToMacro.InvokeAsWritten, WhereRelatedTo.RootPredicatesAsWritten, WhereRelatedTo.LaterHopsLostAsWritten, WhereRelatedTo.LaterFilterLostAsWritten, Fixtures.UsersGroupsLostAsWritten | WhereRelatedTo.WhereRelatedToMacro.Invoke, WhereRelatedTo.NestedHoldsEveryHop, WhereRelatedTo.NestedAppliesEveryFilter |
