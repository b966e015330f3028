/**
 * The join macro: walks a relation path from the query's model and, for
 * each hop, appends an inner or left join to the related table (two joins,
 * pivot then related, for a many-to-many relation), unless that table is
 * already joined, in which case the hop's filter is attached to the query
 * instead. The functions below give the query content each step produces;
 * the class JoinRelationMacro mutates a Query in place and is proved to
 * produce exactly that content.
 */
module JoinRelation {
  import opened Eloquent
  import opened RelationPath

  /** Whether some join clause of the query targets `table`. */
  predicate Joined(joins: seq<JoinClause>, table: string)
  {
    exists i | 0 <= i < |joins| :: joins[i].table == table
  }

  /** No table is joined twice. */
  predicate DistinctJoins(joins: seq<JoinClause>)
  {
    forall i, j | 0 <= i < j < |joins| :: joins[i].table != joins[j].table
  }

  /** The query content `s` is extended by `r`: earlier joins and predicates are untouched. */
  predicate Extends(s: QueryState, r: QueryState)
  {
    s.joins <= r.joins && s.wheres <= r.wheres && r.columns == s.columns
  }

  /** Whether the caller's filter `f` has been applied, to the query or inside one of its joins. */
  predicate Applied(s: QueryState, f: Closure)
  {
    (exists i | 0 <= i < |s.wheres| :: s.wheres[i].Filtered? && s.wheres[i].filter == f) ||
    (exists i, j | 0 <= i < |s.joins| && 0 <= j < |s.joins[i].conditions| ::
       s.joins[i].conditions[j].FilteredOn? && s.joins[i].conditions[j].filter == f)
  }

  lemma AppliedExtends(s: QueryState, r: QueryState, f: Closure)
    requires Extends(s, r) && Applied(s, f)
    ensures Applied(r, f)
  {
    if exists i | 0 <= i < |s.wheres| :: s.wheres[i].Filtered? && s.wheres[i].filter == f {
      var i :| 0 <= i < |s.wheres| && s.wheres[i].Filtered? && s.wheres[i].filter == f;
      assert r.wheres[i] == s.wheres[i];
    } else {
      var i, j :| 0 <= i < |s.joins| && 0 <= j < |s.joins[i].conditions| &&
                  s.joins[i].conditions[j].FilteredOn? && s.joins[i].conditions[j].filter == f;
      assert r.joins[i] == s.joins[i];
    }
  }

  function FilterWheres(filter: Option<Closure>, pivot: Option<string>): seq<Where>
  {
    if filter.Some? then [Filtered(filter.value, pivot)] else []
  }

  /** addWhere: the filter goes onto the query when `table` is already joined. */
  function FilterExisting(s: QueryState, table: string, pivot: Option<string>, filter: Option<Closure>): (r: QueryState)
    ensures Extends(s, r) && r.joins == s.joins
    ensures !Joined(s.joins, table) || filter.None? ==> r == s
    ensures Joined(s.joins, table) && filter.Some? ==> r.wheres == s.wheres + [Filtered(filter.value, pivot)]
  {
    if Joined(s.joins, table) then s.(wheres := s.wheres + FilterWheres(filter, pivot)) else s
  }

  /**
   * One BelongsTo, HasMany or HasOne hop with join condition `on`: filter
   * the existing join, or append a join to the related table while the
   * filter and then the related model's global scopes go onto the query.
   */
  function RelatedJoin(s: QueryState, related: Model, on: JoinCondition, filter: Option<Closure>, mode: JoinMode): (r: QueryState)
    ensures Extends(s, r)
    ensures Joined(r.joins, related.table)
    ensures DistinctJoins(s.joins) ==> DistinctJoins(r.joins)
    ensures filter.Some? ==> Applied(r, filter.value)
    ensures Joined(s.joins, related.table) ==> |r.joins| == |s.joins|
    ensures !Joined(s.joins, related.table) ==>
              |r.joins| == |s.joins| + 1 && r.joins[|s.joins|] == JoinClause(mode, related.table, [on])
    ensures filter.Some? ==> |r.wheres| > |s.wheres| && r.wheres[|s.wheres|] == Filtered(filter.value, None)
    ensures Joined(s.joins, related.table) ==> |r.wheres| == |s.wheres| + |FilterWheres(filter, None)|
    ensures !Joined(s.joins, related.table) ==>
              var first := |s.wheres| + |FilterWheres(filter, None)|;
              |r.wheres| == first + |related.globalScopes| &&
              forall i | 0 <= i < |related.globalScopes| :: r.wheres[first + i] == Scoped(related.globalScopes[i])
  {
    ScopeWheresAt(related.globalScopes);
    if Joined(s.joins, related.table) then
      var r := FilterExisting(s, related.table, None, filter);
      assert filter.Some? ==> r.wheres[|s.wheres|] == Filtered(filter.value, None);
      r
    else
      var c := JoinClause(mode, related.table, [on]);
      var r := s.(joins := s.joins + [c],
                  wheres := s.wheres + FilterWheres(filter, None) + ScopeWheres(related.globalScopes));
      JoinedAppend(s.joins, c);
      assert filter.Some? ==> r.wheres[|s.wheres|] == Filtered(filter.value, None);
      r
  }

  /**
   * The key a BelongsTo join compares against: `getParentKey() ?? 'id'`.
   * `getParentKey()` is an attribute value, null on the fresh models the
   * macros call relation methods on, so this is `id` in practice.
   */
  function OwnerKey(belongsTo: Relation): string
    requires belongsTo.BelongsTo?
  {
    if belongsTo.parentKey.Some? then belongsTo.parentKey.value else "id"
  }

  /** joinBelongsTo: the join condition is `table.foreignKey = related.parentKey`. */
  function BelongsToHop(s: QueryState, table: string, belongsTo: Relation, filter: Option<Closure>, mode: JoinMode): (r: QueryState)
    requires belongsTo.BelongsTo?
    ensures !Joined(s.joins, belongsTo.related.table) ==>
              |r.joins| > |s.joins| && r.joins[|s.joins|].conditions ==
                [On(Column(table, belongsTo.foreignKey), Column(belongsTo.related.table, OwnerKey(belongsTo)))]
  {
    RelatedJoin(s, belongsTo.related,
                On(Column(table, belongsTo.foreignKey), Column(belongsTo.related.table, OwnerKey(belongsTo))),
                filter, mode)
  }

  /** joinHasMany and joinHasOne: the join condition is `table.localKey = related.foreignKey`. */
  function HasOneOrManyHop(s: QueryState, table: string, hasOneOrMany: Relation, filter: Option<Closure>, mode: JoinMode): (r: QueryState)
    requires hasOneOrMany.HasMany? || hasOneOrMany.HasOne?
    ensures !Joined(s.joins, hasOneOrMany.related.table) ==>
              |r.joins| > |s.joins| && r.joins[|s.joins|].conditions ==
                [On(Column(table, hasOneOrMany.localKey), Column(hasOneOrMany.related.table, hasOneOrMany.foreignKey))]
  {
    RelatedJoin(s, hasOneOrMany.related,
                On(Column(table, hasOneOrMany.localKey), Column(hasOneOrMany.related.table, hasOneOrMany.foreignKey)),
                filter, mode)
  }

  /** The conditions of the pivot join of a many-to-many hop from `table`. */
  function PivotConditions(table: string, belongsToMany: Relation): seq<JoinCondition>
    requires belongsToMany.BelongsToMany?
  {
    var pivot := belongsToMany.pivotTable;
    [On(Column(pivot, belongsToMany.foreignPivotKeyName), Column(table, belongsToMany.parentKeyName))] +
    (if SoftDeletesPivot(belongsToMany) then [IsNull(Column(pivot, "deleted_at"))] else [])
  }

  /** The conditions of the related join of a many-to-many hop: the key equality, then the filter. */
  function RelatedConditions(belongsToMany: Relation, filter: Option<Closure>): seq<JoinCondition>
    requires belongsToMany.BelongsToMany?
  {
    var pivot := belongsToMany.pivotTable;
    [On(Column(belongsToMany.related.table, belongsToMany.relatedKeyName), Column(pivot, belongsToMany.relatedPivotKeyName))] +
    (if filter.Some? then [FilteredOn(filter.value, Some(pivot))] else [])
  }

  /** The first half of joinBelongsToMany: join the pivot table unless it is joined already. */
  function PivotJoin(s: QueryState, table: string, belongsToMany: Relation, mode: JoinMode): (r: QueryState)
    requires belongsToMany.BelongsToMany?
    ensures Extends(s, r) && r.wheres == s.wheres
    ensures Joined(r.joins, belongsToMany.pivotTable)
    ensures forall t :: Joined(r.joins, t) <==> Joined(s.joins, t) || t == belongsToMany.pivotTable
    ensures DistinctJoins(s.joins) ==> DistinctJoins(r.joins)
    ensures Joined(s.joins, belongsToMany.pivotTable) ==> r == s
    ensures !Joined(s.joins, belongsToMany.pivotTable) ==>
              r.joins == s.joins + [JoinClause(mode, belongsToMany.pivotTable, PivotConditions(table, belongsToMany))]
  {
    if Joined(s.joins, belongsToMany.pivotTable) then s
    else
      var r := s.(joins := s.joins + [JoinClause(mode, belongsToMany.pivotTable, PivotConditions(table, belongsToMany))]);
      JoinedAppend(s.joins, r.joins[|s.joins|]);
      r
  }

  /** Appending a join clause adds its table to the joined ones, and keeps them distinct when it is new. */
  lemma JoinedAppend(joins: seq<JoinClause>, c: JoinClause)
    ensures forall t :: Joined(joins + [c], t) <==> Joined(joins, t) || t == c.table
    ensures DistinctJoins(joins) && !Joined(joins, c.table) ==> DistinctJoins(joins + [c])
  {
    var r := joins + [c];
    forall t ensures Joined(r, t) <==> Joined(joins, t) || t == c.table {
      if Joined(joins, t) {
        var i :| 0 <= i < |joins| && joins[i].table == t;
        assert r[i] == joins[i];
      }
      if t == c.table {
        assert r[|joins|].table == t;
      }
      if Joined(r, t) && t != c.table {
        var i :| 0 <= i < |r| && r[i].table == t;
        assert joins[i] == r[i];
      }
    }
    if DistinctJoins(joins) && !Joined(joins, c.table) {
      forall i, j | 0 <= i < j < |r| ensures r[i].table != r[j].table {
        if j < |joins| {
          assert r[i] == joins[i] && r[j] == joins[j];
        } else {
          assert r[i] == joins[i];
        }
      }
    }
  }

  /**
   * The second half of joinBelongsToMany, after the pivot join `p`: filter
   * the existing related join (the corrected call, with the caller's filter
   * and the pivot table's name), or append the related join and the related
   * model's global scopes.
   */
  function RelatedHalf(p: QueryState, belongsToMany: Relation, filter: Option<Closure>, mode: JoinMode): (r: QueryState)
    requires belongsToMany.BelongsToMany?
    ensures Extends(p, r)
    ensures Joined(r.joins, belongsToMany.related.table)
    ensures forall t :: Joined(p.joins, t) ==> Joined(r.joins, t)
    ensures DistinctJoins(p.joins) ==> DistinctJoins(r.joins)
    ensures filter.Some? ==> Applied(r, filter.value)
    ensures Joined(p.joins, belongsToMany.related.table) ==> r.joins == p.joins
    ensures !Joined(p.joins, belongsToMany.related.table) ==>
              r.joins == p.joins + [JoinClause(mode, belongsToMany.related.table, RelatedConditions(belongsToMany, filter))]
    ensures Joined(p.joins, belongsToMany.related.table) ==>
              r.wheres == p.wheres + FilterWheres(filter, Some(belongsToMany.pivotTable))
    ensures !Joined(p.joins, belongsToMany.related.table) ==>
              r.wheres == p.wheres + ScopeWheres(belongsToMany.related.globalScopes)
  {
    var related := belongsToMany.related;
    var pivot := belongsToMany.pivotTable;
    if Joined(p.joins, related.table) then
      var r := FilterExisting(p, related.table, Some(pivot), filter);
      assert filter.Some? ==> r.wheres[|p.wheres|] == Filtered(filter.value, Some(pivot));
      r
    else
      var c := JoinClause(mode, related.table, RelatedConditions(belongsToMany, filter));
      var r := p.(joins := p.joins + [c], wheres := p.wheres + ScopeWheres(related.globalScopes));
      JoinedAppend(p.joins, c);
      assert filter.Some? ==> r.joins[|p.joins|].conditions[1] == FilteredOn(filter.value, Some(pivot));
      r
  }

  /**
   * joinBelongsToMany with the related table already joined handled as the
   * other three kinds handle it: the filter goes onto the query, with the
   * pivot table's name.
   */
  function BelongsToManyHop(s: QueryState, table: string, belongsToMany: Relation, filter: Option<Closure>, mode: JoinMode): (r: QueryState)
    requires belongsToMany.BelongsToMany?
    ensures Extends(s, r)
    ensures Joined(r.joins, belongsToMany.pivotTable) && Joined(r.joins, belongsToMany.related.table)
    ensures DistinctJoins(s.joins) ==> DistinctJoins(r.joins)
    ensures filter.Some? ==> Applied(r, filter.value)
    ensures var pivotAdded := !Joined(s.joins, belongsToMany.pivotTable);
            var relatedAdded := !Joined(s.joins, belongsToMany.related.table) &&
                                belongsToMany.related.table != belongsToMany.pivotTable;
            |r.joins| == |s.joins| + (if pivotAdded then 1 else 0) + (if relatedAdded then 1 else 0) &&
            (pivotAdded ==>
               r.joins[|s.joins|] == JoinClause(mode, belongsToMany.pivotTable, PivotConditions(table, belongsToMany))) &&
            (relatedAdded ==>
               r.joins[|r.joins| - 1] == JoinClause(mode, belongsToMany.related.table, RelatedConditions(belongsToMany, filter)))
    ensures !Joined(s.joins, belongsToMany.pivotTable) ==>
              (IsNull(Column(belongsToMany.pivotTable, "deleted_at")) in r.joins[|s.joins|].conditions <==>
               SoftDeletesPivot(belongsToMany))
    ensures var relatedJoined := Joined(s.joins, belongsToMany.related.table) ||
                                 belongsToMany.related.table == belongsToMany.pivotTable;
            (relatedJoined ==> r.wheres == s.wheres + FilterWheres(filter, Some(belongsToMany.pivotTable))) &&
            (!relatedJoined ==> r.wheres == s.wheres + ScopeWheres(belongsToMany.related.globalScopes))
  {
    var p := PivotJoin(s, table, belongsToMany, mode);
    var r := RelatedHalf(p, belongsToMany, filter, mode);
    assert Joined(r.joins, belongsToMany.pivotTable);
    assert Extends(s, r);
    assert !Joined(s.joins, belongsToMany.pivotTable) ==> r.joins[|s.joins|] == p.joins[|s.joins|];
    r
  }

  /**
   * joinBelongsToMany as written: when the related table is already joined,
   * addWhere is called without the filter, so the filter is dropped.
   */
  function BelongsToManyHopAsWritten(s: QueryState, table: string, belongsToMany: Relation, filter: Option<Closure>, mode: JoinMode): (r: QueryState)
    requires belongsToMany.BelongsToMany?
    ensures Extends(s, r)
    ensures Joined(r.joins, belongsToMany.pivotTable) && Joined(r.joins, belongsToMany.related.table)
    ensures Joined(s.joins, belongsToMany.related.table) ==> r.wheres == s.wheres
    ensures Joined(s.joins, belongsToMany.related.table) || belongsToMany.related.table == belongsToMany.pivotTable ==>
              r == PivotJoin(s, table, belongsToMany, mode)
    ensures !Joined(s.joins, belongsToMany.related.table) && belongsToMany.related.table != belongsToMany.pivotTable ==>
              r == BelongsToManyHop(s, table, belongsToMany, filter, mode)
  {
    var p := PivotJoin(s, table, belongsToMany, mode);
    if Joined(p.joins, belongsToMany.related.table) then p
    else BelongsToManyHop(s, table, belongsToMany, filter, mode)
  }

  /** With the related table already joined, the as-written hop ignores the caller's filter entirely. */
  lemma BelongsToManyAsWrittenDropsFilter(s: QueryState, table: string, belongsToMany: Relation, f: Closure, mode: JoinMode)
    requires belongsToMany.BelongsToMany?
    requires Joined(s.joins, belongsToMany.related.table)
    ensures BelongsToManyHopAsWritten(s, table, belongsToMany, Some(f), mode) ==
            BelongsToManyHopAsWritten(s, table, belongsToMany, None, mode)
    ensures BelongsToManyHopAsWritten(s, table, belongsToMany, Some(f), mode) !=
            BelongsToManyHop(s, table, belongsToMany, Some(f), mode)
  {
    var p := PivotJoin(s, table, belongsToMany, mode);
    var i :| 0 <= i < |s.joins| && s.joins[i].table == belongsToMany.related.table;
    assert p.joins[i] == s.joins[i];
    var r := BelongsToManyHop(s, table, belongsToMany, Some(f), mode);
    assert r.wheres == p.wheres + [Filtered(f, Some(belongsToMany.pivotTable))];
    assert |r.wheres| != |p.wheres|;
  }

  /** One step of the path: parse the key, resolve the relation, dispatch on its kind. */
  function JoinHop(m: Model, s: QueryState, e: Entry): (r: Result<(QueryState, Model)>)
    ensures e.0.IntKey? ==> r == Failure(TypeError)
    ensures e.0.StrKey? ==> (r.Success? <==> Resolve(m, RelationNameOf(e.0.name), e.1).Success?)
    ensures e.0.StrKey? && Resolve(m, RelationNameOf(e.0.name), e.1).Failure? ==>
              r == Failure(Resolve(m, RelationNameOf(e.0.name), e.1).error)
    ensures r.Success? ==> r.value.1 == m.relations[RelationNameOf(e.0.name)].related
    ensures r.Success? ==> Extends(s, r.value.0) && Joined(r.value.0.joins, r.value.1.table)
    ensures r.Success? && DistinctJoins(s.joins) ==> DistinctJoins(r.value.0.joins)
    ensures r.Success? && e.1.Callback? ==> Applied(r.value.0, e.1.filter)
  {
    match e.0
    case IntKey(_) => Failure(TypeError)
    case StrKey(key) =>
      var mode := if IsLeftJoinKey(key) then Left else Inner;
      match Resolve(m, RelationNameOf(key), e.1)
      case Failure(err) => Failure(err)
      case Success((relation, filter)) =>
        if relation.HasMany? || relation.HasOne? then
          Success((HasOneOrManyHop(s, m.table, relation, filter, mode), relation.related))
        else if relation.BelongsTo? then
          Success((BelongsToHop(s, m.table, relation, filter, mode), relation.related))
        else
          Success((BelongsToManyHop(s, m.table, relation, filter, mode), relation.related))
  }

  /**
   * Following the same entry again from the query it produced joins no
   * further table: every table a hop joins is found by addWhere next time.
   */
  lemma RejoinAddsNoJoin(m: Model, s: QueryState, e: Entry)
    requires JoinHop(m, s, e).Success?
    ensures var s' := JoinHop(m, s, e).value.0;
            JoinHop(m, s', e).Success? && JoinHop(m, s', e).value.0.joins == s'.joins
  {
    var s' := JoinHop(m, s, e).value.0;
    var key := e.0.name;
    var mode := if IsLeftJoinKey(key) then Left else Inner;
    var (relation, filter) := Resolve(m, RelationNameOf(key), e.1).value;
    var r := JoinHop(m, s', e).value.0;
    if relation.HasMany? || relation.HasOne? {
      assert s' == HasOneOrManyHop(s, m.table, relation, filter, mode);
      assert r == HasOneOrManyHop(s', m.table, relation, filter, mode);
    } else if relation.BelongsTo? {
      assert s' == BelongsToHop(s, m.table, relation, filter, mode);
      assert r == BelongsToHop(s', m.table, relation, filter, mode);
    } else {
      assert s' == BelongsToManyHop(s, m.table, relation, filter, mode);
      assert r == BelongsToManyHop(s', m.table, relation, filter, mode);
    }
    assert s'.joins <= r.joins && |r.joins| == |s'.joins|;
  }

  /**
   * Whether entry `e` is a many-to-many hop with a filter whose related
   * table is already joined once the pivot is: the case the code as written
   * handles without the filter.
   */
  predicate DropsFilter(m: Model, s: QueryState, e: Entry)
  {
    e.0.StrKey? && e.1.Callback? && RelationNameOf(e.0.name) in m.relations &&
    var relation := m.relations[RelationNameOf(e.0.name)];
    relation.BelongsToMany? &&
    (Joined(s.joins, relation.related.table) || relation.related.table == relation.pivotTable)
  }

  /**
   * One step of the path as written: the many-to-many hop is the one that
   * drops the filter. It differs from the corrected step only on the entries
   * DropsFilter names, and there only by the missing filter predicate.
   */
  function JoinHopAsWritten(m: Model, s: QueryState, e: Entry): (r: Result<(QueryState, Model)>)
    ensures !DropsFilter(m, s, e) ==> r == JoinHop(m, s, e)
    ensures r.Success? <==> JoinHop(m, s, e).Success?
    ensures DropsFilter(m, s, e) && r.Success? ==>
              var h := JoinHop(m, s, e).value;
              r.value.1 == h.1 && r.value.0.joins == h.0.joins &&
              r.value.0.wheres == s.wheres && h.0.wheres == s.wheres + [Filtered(e.1.filter, Some(m.relations[RelationNameOf(e.0.name)].pivotTable))]
  {
    match e.0
    case IntKey(_) => Failure(TypeError)
    case StrKey(key) =>
      var mode := if IsLeftJoinKey(key) then Left else Inner;
      match Resolve(m, RelationNameOf(key), e.1)
      case Failure(err) => Failure(err)
      case Success((relation, filter)) =>
        if relation.BelongsToMany? then
          Success((BelongsToManyHopAsWritten(s, m.table, relation, filter, mode), relation.related))
        else
          JoinHop(m, s, e)
  }

  /** The query content, the current model and the error, if any, after a run of the macro. */
  datatype JoinOutcome = JoinOutcome(state: QueryState, model: Model, error: Option<Error>)

  /** __invoke: each hop starts from the model the previous hop reached; the first failure aborts. */
  function JoinSteps(m: Model, s: QueryState, es: seq<Entry>): JoinOutcome
    decreases |es|
  {
    if es == [] then JoinOutcome(s, m, None)
    else
      match JoinHop(m, s, es[0])
      case Failure(err) => JoinOutcome(s, m, Some(err))
      case Success((s', m')) => JoinSteps(m', s', es[1..])
  }

  /** __invoke as written: JoinSteps with the as-written many-to-many hop. */
  function JoinStepsAsWritten(m: Model, s: QueryState, es: seq<Entry>): JoinOutcome
    decreases |es|
  {
    if es == [] then JoinOutcome(s, m, None)
    else
      match JoinHopAsWritten(m, s, es[0])
      case Failure(err) => JoinOutcome(s, m, Some(err))
      case Success((s', m')) => JoinStepsAsWritten(m', s', es[1..])
  }

  /** No hop of the corrected run is one on which the code as written drops the filter. */
  predicate NoFilterDropped(m: Model, s: QueryState, es: seq<Entry>)
    decreases |es|
  {
    es == [] ||
    (!DropsFilter(m, s, es[0]) &&
     match JoinHop(m, s, es[0])
     case Failure(_) => true
     case Success((s', m')) => NoFilterDropped(m', s', es[1..]))
  }

  /** A run as written is the corrected run whenever no hop of it drops its filter. */
  lemma {:induction false} JoinStepsAsWrittenAgrees(m: Model, s: QueryState, es: seq<Entry>)
    requires NoFilterDropped(m, s, es)
    ensures JoinStepsAsWritten(m, s, es) == JoinSteps(m, s, es)
    decreases |es|
  {
    if es != [] {
      match JoinHop(m, s, es[0])
      case Failure(_) =>
      case Success((s', m')) => JoinStepsAsWrittenAgrees(m', s', es[1..]);
    }
  }

  /** A run only adds joins and predicates, and never joins a table twice that was not joined twice. */
  lemma {:induction false} JoinStepsExtend(m: Model, s: QueryState, es: seq<Entry>)
    ensures Extends(s, JoinSteps(m, s, es).state)
    ensures DistinctJoins(s.joins) ==> DistinctJoins(JoinSteps(m, s, es).state.joins)
    decreases |es|
  {
    if es != [] {
      match JoinHop(m, s, es[0])
      case Failure(_) =>
      case Success((s', m')) => JoinStepsExtend(m', s', es[1..]);
    }
  }

  /** After a successful run over a non-empty path, the table of the model reached is joined. */
  lemma {:induction false} JoinStepsReachJoined(m: Model, s: QueryState, es: seq<Entry>)
    requires es != [] && JoinSteps(m, s, es).error.None?
    ensures Joined(JoinSteps(m, s, es).state.joins, JoinSteps(m, s, es).model.table)
    decreases |es|
  {
    match JoinHop(m, s, es[0])
    case Success((s', m')) =>
      if es[1..] != [] {
        JoinStepsReachJoined(m', s', es[1..]);
      }
  }

  /** After a successful run, every filter the path carries has been applied to the query. */
  lemma {:induction false} JoinStepsApplyFilters(m: Model, s: QueryState, es: seq<Entry>)
    requires JoinSteps(m, s, es).error.None?
    ensures forall i | 0 <= i < |es| && es[i].1.Callback? :: Applied(JoinSteps(m, s, es).state, es[i].1.filter)
    decreases |es|
  {
    if es != [] {
      match JoinHop(m, s, es[0])
      case Success((s', m')) =>
        JoinStepsApplyFilters(m', s', es[1..]);
        JoinStepsExtend(m', s', es[1..]);
        var r := JoinSteps(m, s, es).state;
        forall i | 0 <= i < |es| && es[i].1.Callback? ensures Applied(r, es[i].1.filter) {
          if i == 0 {
            AppliedExtends(s', r, es[0].1.filter);
          } else {
            assert es[1..][i - 1] == es[i];
          }
        }
    }
  }

  /** Running a path is running its first `k` entries, then the rest from where they left off. */
  lemma {:induction false} JoinStepsSplit(m: Model, s: QueryState, es: seq<Entry>, k: nat)
    requires k <= |es|
    requires JoinSteps(m, s, es[..k]).error.None?
    ensures var o := JoinSteps(m, s, es[..k]);
            JoinSteps(m, s, es) == JoinSteps(o.model, o.state, es[k..])
    decreases k
  {
    if k > 0 {
      match JoinHop(m, s, es[0])
      case Failure(_) =>
      case Success((s', m')) =>
        assert es[..k][0] == es[0] && es[..k][1..] == es[1..][..k - 1];
        JoinStepsSplit(m', s', es[1..], k - 1);
        assert es[1..][k - 1..] == es[k..];
    }
  }

  /**
   * A hop that fails aborts the run with its error; the hops before it stay
   * applied and nothing of the failing hop is.
   */
  lemma JoinStepsAbortAt(m: Model, s: QueryState, es: seq<Entry>, k: nat)
    requires k < |es|
    requires JoinSteps(m, s, es[..k]).error.None?
    requires JoinHop(JoinSteps(m, s, es[..k]).model, JoinSteps(m, s, es[..k]).state, es[k]).Failure?
    ensures var o := JoinSteps(m, s, es[..k]);
            JoinSteps(m, s, es) ==
              JoinOutcome(o.state, o.model, Some(JoinHop(o.model, o.state, es[k]).error))
  {
    JoinStepsSplit(m, s, es, k);
    assert es[k..][0] == es[k];
  }

  class JoinRelationMacro {
    const query: Query
    const table: string

    constructor (query: Query)
      ensures this.query == query && table == query.model.table
    {
      this.query := query;
      table := query.model.table;
    }

    /**
     * Translates the relation path into joins on `query`, which it returns.
     * A failing hop aborts with its error after the earlier hops' changes.
     */
    method Invoke(relationName: Path) returns (r: Result<Query>)
      modifies query
      ensures var o := JoinSteps(query.model, old(query.State()), Collect(ListOf(relationName)));
              query.State() == o.state &&
              r == if o.error.None? then Success(query) else Failure(o.error.value)
    {
      var relationNameList := GetRelations(relationName);
      var m := query.model;
      ghost var s0 := query.State();
      var i := 0;
      while i < |relationNameList|
        invariant 0 <= i <= |relationNameList|
        invariant JoinSteps(query.model, s0, relationNameList) == JoinSteps(m, query.State(), relationNameList[i..])
      {
        assert relationNameList[i..][0] == relationNameList[i];
        assert relationNameList[i..][1..] == relationNameList[i + 1..];
        var next := Hop(m, relationNameList[i]);
        if next.Failure? {
          return Failure(next.error);
        }
        m := next.value;
        i := i + 1;
      }
      return Success(query);
    }

    /** One iteration of __invoke: parse the key, resolve the relation on `m`, join it. */
    method Hop(m: Model, entry: Entry) returns (next: Result<Model>)
      modifies query
      ensures var h := JoinHop(m, old(query.State()), entry);
              (h.Failure? ==> next == Failure(h.error) && query.State() == old(query.State())) &&
              (h.Success? ==> next == Success(h.value.1) && query.State() == h.value.0)
    {
      var (key, where) := entry;
      if key.IntKey? {
        return Failure(TypeError);
      }
      var name := RelationNameOf(key.name);
      var mode := if IsLeftJoinKey(key.name) then Left else Inner;
      if name !in m.relations {
        return Failure(BadMethodCall);
      }
      var relation := m.relations[name];
      if relation.Other? {
        return Failure(RelationNotFollowed);
      }
      if where.Str? {
        return Failure(TypeError);
      }
      var filter := if where.Callback? then Some(where.filter) else None;
      var reached: Model;
      if relation.HasMany? {
        reached := JoinHasMany(m.table, relation, filter, mode);
      } else if relation.HasOne? {
        reached := JoinHasOne(m.table, relation, filter, mode);
      } else if relation.BelongsTo? {
        reached := JoinBelongsTo(m.table, relation, filter, mode);
      } else {
        reached := JoinBelongsToMany(m.table, relation, filter, mode);
      }
      return Success(reached);
    }

    /** Attaches the filter to the query when a join to `table` exists, and says whether one does. */
    method AddWhere(table: string, pivot: Option<string>, filter: Option<Closure>) returns (found: bool)
      modifies query
      ensures found <==> Joined(old(query.joins), table)
      ensures query.State() == FilterExisting(old(query.State()), table, pivot, filter)
    {
      if query.joins == [] {
        return false;
      }
      var i := 0;
      while i < |query.joins|
        invariant 0 <= i <= |query.joins|
        invariant query.State() == old(query.State())
        invariant forall k | 0 <= k < i :: query.joins[k].table != table
      {
        if query.joins[i].table == table {
          if filter.Some? {
            query.Where(Filtered(filter.value, pivot));
          }
          return true;
        }
        i := i + 1;
      }
      return false;
    }

    /** Applies every global scope of `m` to the query, in registration order. */
    method ApplyGlobalScopes(m: Model)
      modifies query
      ensures query.wheres == old(query.wheres) + ScopeWheres(m.globalScopes)
      ensures query.joins == old(query.joins) && query.columns == old(query.columns)
    {
      var scopes := m.globalScopes;
      for i := 0 to |scopes|
        invariant query.wheres == old(query.wheres) + ScopeWheres(scopes[..i])
        invariant query.joins == old(query.joins) && query.columns == old(query.columns)
      {
        assert scopes[..i + 1][..i] == scopes[..i];
        query.Where(Scoped(scopes[i]));
      }
      assert scopes[..|scopes|] == scopes;
    }

    /** The hop shared by joinBelongsTo, joinHasMany and joinHasOne, with join condition `on`. */
    method JoinRelated(related: Model, on: JoinCondition, filter: Option<Closure>, mode: JoinMode)
      modifies query
      ensures query.State() == RelatedJoin(old(query.State()), related, on, filter, mode)
    {
      var joined := AddWhere(related.table, None, filter);
      if joined {
        return;
      }
      if filter.Some? {
        query.Where(Filtered(filter.value, None));
      }
      ApplyGlobalScopes(related);
      query.Join(mode, related.table, [on]);
    }

    method JoinBelongsTo(table: string, belongsTo: Relation, filter: Option<Closure>, mode: JoinMode) returns (m: Model)
      requires belongsTo.BelongsTo?
      modifies query
      ensures m == belongsTo.related
      ensures query.State() == BelongsToHop(old(query.State()), table, belongsTo, filter, mode)
    {
      m := belongsTo.related;
      var parentKey := OwnerKey(belongsTo);
      JoinRelated(m, On(Column(table, belongsTo.foreignKey), Column(m.table, parentKey)), filter, mode);
    }

    method JoinHasMany(table: string, hasMany: Relation, filter: Option<Closure>, mode: JoinMode) returns (m: Model)
      requires hasMany.HasMany?
      modifies query
      ensures m == hasMany.related
      ensures query.State() == HasOneOrManyHop(old(query.State()), table, hasMany, filter, mode)
    {
      m := hasMany.related;
      JoinRelated(m, On(Column(table, hasMany.localKey), Column(m.table, hasMany.foreignKey)), filter, mode);
    }

    method JoinHasOne(table: string, hasOne: Relation, filter: Option<Closure>, mode: JoinMode) returns (m: Model)
      requires hasOne.HasOne?
      modifies query
      ensures m == hasOne.related
      ensures query.State() == HasOneOrManyHop(old(query.State()), table, hasOne, filter, mode)
    {
      m := hasOne.related;
      JoinRelated(m, On(Column(table, hasOne.localKey), Column(m.table, hasOne.foreignKey)), filter, mode);
    }

    method JoinBelongsToMany(table: string, belongsToMany: Relation, filter: Option<Closure>, mode: JoinMode) returns (m: Model)
      requires belongsToMany.BelongsToMany?
      modifies query
      ensures m == belongsToMany.related
      ensures query.State() == BelongsToManyHop(old(query.State()), table, belongsToMany, filter, mode)
    {
      m := belongsToMany.related;
      var pivot := belongsToMany.pivotTable;
      ghost var s := query.State();
      var pivotJoined := AddWhere(pivot, None, None);
      if !pivotJoined {
        var isPivotSoftDelete := IsSoftDeletePivot(belongsToMany);
        var conditions := [On(Column(pivot, belongsToMany.foreignPivotKeyName), Column(table, belongsToMany.parentKeyName))];
        if isPivotSoftDelete {
          conditions := conditions + [IsNull(Column(pivot, "deleted_at"))];
        }
        assert conditions == PivotConditions(table, belongsToMany);
        query.Join(mode, pivot, conditions);
      }
      assert query.State() == PivotJoin(s, table, belongsToMany, mode);
      var relatedJoined := AddWhere(m.table, Some(pivot), filter);
      if !relatedJoined {
        var conditions := [On(Column(m.table, belongsToMany.relatedKeyName), Column(pivot, belongsToMany.relatedPivotKeyName))];
        if filter.Some? {
          conditions := conditions + [FilteredOn(filter.value, Some(pivot))];
        }
        assert conditions == RelatedConditions(belongsToMany, filter);
        ApplyGlobalScopes(m);
        query.Join(mode, m.table, conditions);
      }
    }
  }
}
