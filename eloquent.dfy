/**
 * The slice of the ORM and of its query builder that the two relation
 * macros read and write: models with their declared relations and global
 * scopes, and a query object that accumulates join clauses, where
 * predicates and selected columns.
 */
module Eloquent {

  datatype Option<+T> = None | Some(value: T)

  /** Why a translation aborts. */
  datatype Error =
    | TypeError            // strict typing rejects an integer relation key or a non-callable filter
    | BadMethodCall        // the current model has no method of that name (its relations are the only methods modelled)
    | MethodNameNotString  // a dynamic method call `$m->{$name}()` with an integer name
    | RelationNotFollowed  // the relation is of a kind the macros do not translate

  datatype Result<+T> = Success(value: T) | Failure(error: Error)

  /** A caller-supplied filter callback `function ($query, $pivot)`, kept opaque. */
  datatype Closure = Closure(name: string)

  /** A global scope registered on a model (a Scope object or a callable), kept opaque. */
  datatype Scope = Scope(name: string)

  /** One entry of a builder's `wheres` list, reduced to the three keys the soft-delete scan reads. */
  datatype WhereRecord = WhereRecord(column: Option<string>, kind: Option<string>, boolean: Option<string>)

  /** The relation object a model's relation method returns. */
  datatype Relation =
    | HasMany(related: Model, localKey: string, foreignKey: string)
    | HasOne(related: Model, localKey: string, foreignKey: string)
    // `parentKey` is what `getParentKey()` returns: the value of the foreign-key
    // attribute on the model the relation was obtained from, null on a fresh model.
    | BelongsTo(related: Model, parentKey: Option<string>, foreignKey: string)
    | BelongsToMany(related: Model, parentKeyName: string, relatedKeyName: string,
                    pivotTable: string, foreignPivotKeyName: string, relatedPivotKeyName: string,
                    pivotWheres: seq<WhereRecord>)
    // What any other method returns: a relation class outside the four checked ones (MorphOne,
    // MorphMany, the through-relations; MorphTo and MorphToMany pass as BelongsTo and
    // BelongsToMany, their parent classes), or no relation at all
    // (`getTable`, `trashed`, `save` and the rest of a model's own or inherited methods).
    | Other(className: string)

  /** A model: its table, its relation methods by name, its global scopes in registration order. */
  datatype Model = Model(table: string, relations: map<string, Relation>, globalScopes: seq<Scope>)

  /** A qualified column name `table.key`. */
  function Column(table: string, key: string): string
  {
    table + "." + key
  }

  /** Whether `column` is qualified by `table`. */
  predicate IsColumnOf(column: string, table: string)
  {
    table + "." <= column
  }

  datatype JoinMode = Inner | Left

  /** A condition inside a join clause. */
  datatype JoinCondition =
    | On(first: string, second: string)                 // first = second
    | IsNull(column: string)                            // whereNull(column)
    | FilteredOn(filter: Closure, pivot: Option<string>) // the caller's filter applied to the join

  datatype JoinClause = JoinClause(mode: JoinMode, table: string, conditions: seq<JoinCondition>)

  /** A predicate of a query's `wheres` list. */
  datatype Where =
    | Filtered(filter: Closure, pivot: Option<string>)  // the caller's filter applied to the query
    | Scoped(scope: Scope)                              // a global scope applied to the query
    | In(column: string, sub: QueryState)               // whereIn(column, sub), the sub-query as compiled at the call

  /** The observable content of a query. */
  datatype QueryState = QueryState(joins: seq<JoinClause>, wheres: seq<Where>, columns: seq<string>)

  /** One predicate per global scope, in registration order. */
  function ScopeWheres(scopes: seq<Scope>): seq<Where>
  {
    if scopes == [] then [] else ScopeWheres(scopes[..|scopes| - 1]) + [Scoped(scopes[|scopes| - 1])]
  }

  lemma {:induction false} ScopeWheresAt(scopes: seq<Scope>)
    ensures |ScopeWheres(scopes)| == |scopes|
    ensures forall i | 0 <= i < |scopes| :: ScopeWheres(scopes)[i] == Scoped(scopes[i])
  {
    if scopes != [] {
      ScopeWheresAt(scopes[..|scopes| - 1]);
    }
  }

  /**
   * What `toSql()` compiles from an Eloquent query on model `m` with content
   * `s`: the query's own content, with the predicates of the model's global
   * scopes after its own.
   */
  function Compiled(s: QueryState, m: Model): QueryState
  {
    s.(wheres := s.wheres + ScopeWheres(m.globalScopes))
  }

  /** A query builder bound to a model; the macros mutate it in place. */
  class Query {
    const model: Model
    var joins: seq<JoinClause>
    var wheres: seq<Where>
    var columns: seq<string>

    /** `$model->newQuery()`: a query with no join, predicate or selection of its own. */
    constructor (model: Model)
      ensures this.model == model && joins == [] && wheres == [] && columns == []
    {
      this.model := model;
      joins := [];
      wheres := [];
      columns := [];
    }

    function State(): QueryState
      reads this
    {
      QueryState(joins, wheres, columns)
    }

    /** `join` or `leftJoin` with a closure that produced `conditions`. */
    method Join(mode: JoinMode, table: string, conditions: seq<JoinCondition>)
      modifies this
      ensures joins == old(joins) + [JoinClause(mode, table, conditions)]
      ensures wheres == old(wheres) && columns == old(columns)
    {
      joins := joins + [JoinClause(mode, table, conditions)];
    }

    /**
     * `whereIn(column, sub)` with a query as the values: `sub` is compiled at
     * the call, so what is done to `sub` afterwards does not reach this query.
     */
    method WhereIn(column: string, sub: Query)
      modifies this
      ensures wheres == old(wheres) + [In(column, Compiled(old(sub.State()), sub.model))]
      ensures joins == old(joins) && columns == old(columns)
    {
      wheres := wheres + [In(column, Compiled(sub.State(), sub.model))];
    }

    /** Adds one predicate to the query's `wheres`. */
    method Where(w: Where)
      modifies this
      ensures wheres == old(wheres) + [w]
      ensures joins == old(joins) && columns == old(columns)
    {
      wheres := wheres + [w];
    }

    /** `select`: replaces the selected columns. */
    method Select(columns: seq<string>)
      modifies this
      ensures this.columns == columns
      ensures joins == old(joins) && wheres == old(wheres)
    {
      this.columns := columns;
    }
  }

  /** A `wheres` entry that excludes soft-deleted pivot rows: `<pivot>.deleted_at`, type Null, boolean and. */
  predicate MarksPivotDeleted(w: WhereRecord, pivot: string)
  {
    w.column == Some(Column(pivot, "deleted_at")) && w.kind == Some("Null") && w.boolean == Some("and")
  }

  /** Whether a many-to-many relation's own query excludes soft-deleted pivot rows. */
  predicate SoftDeletesPivot(rel: Relation)
    requires rel.BelongsToMany?
  {
    exists i | 0 <= i < |rel.pivotWheres| :: MarksPivotDeleted(rel.pivotWheres[i], rel.pivotTable)
  }

  /** Scans the relation's `wheres` for the soft-delete predicate on the pivot table. */
  method IsSoftDeletePivot(belongsToMany: Relation) returns (b: bool)
    requires belongsToMany.BelongsToMany?
    ensures b <==> exists i | 0 <= i < |belongsToMany.pivotWheres| ::
                     MarksPivotDeleted(belongsToMany.pivotWheres[i], belongsToMany.pivotTable)
    ensures belongsToMany.pivotWheres == [] ==> !b
  {
    var wheres := belongsToMany.pivotWheres;
    var pivot := belongsToMany.pivotTable;
    if wheres == [] {
      return false;
    }
    for i := 0 to |wheres|
      invariant forall k | 0 <= k < i :: !MarksPivotDeleted(wheres[k], pivot)
    {
      if wheres[i].column == Some(Column(pivot, "deleted_at")) {
        if wheres[i].kind == Some("Null") && wheres[i].boolean == Some("and") {
          return true;
        }
      }
    }
    return false;
  }
}
