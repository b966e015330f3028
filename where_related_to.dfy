/**
 * The whereRelatedTo macro: walks a relation path from the query's model
 * and, for each hop, builds a fresh sub-query on the related model that
 * applies the hop's filter and selects one key column, then attaches
 * `whereIn(<key of the current table>, <sub-query>)` to the query of the
 * previous hop (the root query for the first hop); the next hop continues
 * from the new sub-query. The functions below give each sub-query's own
 * content (its plan). Since `whereIn` compiles its sub-query at the call,
 * what the root query ends up holding depends on the order in which the
 * sub-queries are attached: `RootPredicatesAsWritten` gives it for the
 * walk as written, `NestedWheres` for the corrected walk that nests every
 * sub-query in the previous one. The class WhereRelatedToMacro implements
 * both and is proved to produce exactly those predicates.
 */
module WhereRelatedTo {
  import opened Eloquent
  import opened RelationPath
  import JoinRelation

  /**
   * What one hop builds: the relation followed, the model it leads to, the
   * column of the enclosing query that the `whereIn` constrains, and the
   * sub-query's own joins, predicates and selected columns.
   */
  datatype Plan = Plan(via: Relation, related: Model, inColumn: string, joins: seq<JoinClause>, wheres: seq<Where>, columns: seq<string>)

  /** The conditions of the pivot join inside a many-to-many sub-query: keys, then the filter, then the soft-delete check. */
  function FilterJoinConditions(belongsToMany: Relation, filter: Option<Closure>): seq<JoinCondition>
    requires belongsToMany.BelongsToMany?
  {
    var pivot := belongsToMany.pivotTable;
    [On(Column(pivot, belongsToMany.relatedPivotKeyName), Column(belongsToMany.related.table, belongsToMany.relatedKeyName))] +
    (if filter.Some? then [FilteredOn(filter.value, Some(pivot))] else []) +
    (if SoftDeletesPivot(belongsToMany) then [IsNull(Column(pivot, "deleted_at"))] else [])
  }

  /** The sub-query a hop from `table` along `relation` builds, and the `whereIn` column it constrains. */
  function HopPlan(table: string, relation: Relation, filter: Option<Closure>): (p: Plan)
    requires !relation.Other?
    ensures p.via == relation && p.related == relation.related
    ensures IsColumnOf(p.inColumn, table)
  {
    var related := relation.related;
    var filterWheres := if filter.Some? then [Filtered(filter.value, None)] else [];
    match relation
    case HasMany(_, localKey, foreignKey) =>
      Plan(relation, related, Column(table, localKey), [], filterWheres, [Column(related.table, foreignKey)])
    case HasOne(_, localKey, foreignKey) =>
      Plan(relation, related, Column(table, localKey), [], filterWheres, [Column(related.table, foreignKey)])
    case BelongsTo(_, _, foreignKey) =>
      Plan(relation, related, Column(table, foreignKey), [], filterWheres, [Column(related.table, JoinRelation.OwnerKey(relation))])
    case BelongsToMany(_, parentKeyName, relatedKeyName, pivot, foreignPivotKeyName, relatedPivotKeyName, _) =>
      var conditions := FilterJoinConditions(relation, filter);
      Plan(relation, related, Column(table, parentKeyName), [JoinClause(Inner, pivot, conditions)], [],
           [Column(pivot, foreignPivotKeyName)])
  }

  /**
   * A hop selects one key column of the related table, or for a
   * many-to-many hop of the pivot table, which it joins with an inner join;
   * the filter is applied to the sub-query, or inside that join together
   * with the soft-delete check when the relation has one.
   */
  lemma HopPlanShape(table: string, relation: Relation, filter: Option<Closure>)
    requires !relation.Other?
    ensures var p := HopPlan(table, relation, filter);
            |p.columns| == 1 &&
            (!relation.BelongsToMany? ==>
               p.joins == [] && IsColumnOf(p.columns[0], relation.related.table) &&
               p.wheres == (if filter.Some? then [Filtered(filter.value, None)] else [])) &&
            (relation.BelongsToMany? ==>
               p.wheres == [] && |p.joins| == 1 && p.joins[0].mode == Inner && p.joins[0].table == relation.pivotTable &&
               IsColumnOf(p.columns[0], relation.pivotTable) &&
               (filter.Some? ==> FilteredOn(filter.value, Some(relation.pivotTable)) in p.joins[0].conditions) &&
               (filter.None? ==> forall c | c in p.joins[0].conditions :: !c.FilteredOn?) &&
               (IsNull(Column(relation.pivotTable, "deleted_at")) in p.joins[0].conditions <==> SoftDeletesPivot(relation)))
  {
    var p := HopPlan(table, relation, filter);
    if relation.BelongsToMany? {
      var pivot := relation.pivotTable;
      var conditions := p.joins[0].conditions;
      assert filter.Some? ==> conditions[1] == FilteredOn(filter.value, Some(pivot));
      assert SoftDeletesPivot(relation) ==> conditions[|conditions| - 1] == IsNull(Column(pivot, "deleted_at"));
    }
  }

  /** One step of the path. The key is the relation name itself; an integer key is not a method name. */
  function WhereHop(m: Model, e: Entry): (r: Result<Plan>)
    ensures e.0.IntKey? ==> r == Failure(MethodNameNotString)
    ensures e.0.StrKey? ==> (r.Success? <==> Resolve(m, e.0.name, e.1).Success?)
    ensures e.0.StrKey? && Resolve(m, e.0.name, e.1).Failure? ==> r == Failure(Resolve(m, e.0.name, e.1).error)
    ensures r.Success? ==> r.value.via == m.relations[e.0.name] && IsColumnOf(r.value.inColumn, m.table)
    ensures r.Success? ==> !r.value.via.Other? && r.value.related == r.value.via.related
  {
    match e.0
    case IntKey(_) => Failure(MethodNameNotString)
    case StrKey(name) =>
      match Resolve(m, name, e.1)
      case Failure(err) => Failure(err)
      case Success((relation, filter)) => Success(HopPlan(m.table, relation, filter))
  }

  /** The plans of the hops taken, in order, and the error that stopped the walk, if any. */
  datatype WhereOutcome = WhereOutcome(plans: seq<Plan>, error: Option<Error>)

  /** __invoke: each hop starts from the model the previous sub-query is on; the first failure aborts. */
  function WhereSteps(m: Model, es: seq<Entry>): (o: WhereOutcome)
    ensures |o.plans| <= |es|
    ensures o.plans != [] ==> WhereHop(m, es[0]) == Success(o.plans[0])
    decreases |es|
  {
    if es == [] then WhereOutcome([], None)
    else
      match WhereHop(m, es[0])
      case Failure(err) => WhereOutcome([], Some(err))
      case Success(p) =>
        var rest := WhereSteps(p.related, es[1..]);
        WhereOutcome([p] + rest.plans, rest.error)
  }

  /** A walk is its first hop followed by the walk from the model that hop reaches. */
  lemma WhereStepsFirst(m: Model, es: seq<Entry>)
    requires es != []
    ensures WhereHop(m, es[0]).Failure? ==> WhereSteps(m, es) == WhereOutcome([], Some(WhereHop(m, es[0]).error))
    ensures WhereHop(m, es[0]).Success? ==>
              var p := WhereHop(m, es[0]).value;
              WhereSteps(m, es) == WhereOutcome([p] + WhereSteps(p.related, es[1..]).plans, WhereSteps(p.related, es[1..]).error)
  {
  }

  /** The model hop `i` starts from. */
  function ModelBefore(m: Model, plans: seq<Plan>, i: nat): Model
    requires i <= |plans|
  {
    if i == 0 then m else plans[i - 1].related
  }

  /** Hop `i` is the hop of entry `i` from the model the previous hop reached. */
  lemma {:induction false} WhereStepsHops(m: Model, es: seq<Entry>)
    ensures var o := WhereSteps(m, es);
            |o.plans| <= |es| &&
            forall i | 0 <= i < |o.plans| :: WhereHop(ModelBefore(m, o.plans, i), es[i]) == Success(o.plans[i])
    decreases |es|
  {
    if es != [] {
      match WhereHop(m, es[0])
      case Failure(_) =>
      case Success(p) =>
        var rest := WhereSteps(p.related, es[1..]);
        WhereStepsHops(p.related, es[1..]);
        var plans := [p] + rest.plans;
        assert WhereSteps(m, es).plans == plans;
        forall i | 0 <= i < |plans| ensures WhereHop(ModelBefore(m, plans, i), es[i]) == Success(plans[i]) {
          if i > 0 {
            assert es[1..][i - 1] == es[i] && plans[i] == rest.plans[i - 1];
            assert ModelBefore(m, plans, i) == ModelBefore(p.related, rest.plans, i - 1);
          }
        }
    }
  }

  /**
   * A walk succeeds with one plan per entry, or stops at the first entry
   * whose hop fails, with that hop's error.
   */
  lemma {:induction false} WhereStepsStop(m: Model, es: seq<Entry>)
    ensures var o := WhereSteps(m, es);
            |o.plans| <= |es| &&
            (o.error.None? <==> |o.plans| == |es|) &&
            (o.error.Some? ==> WhereHop(ModelBefore(m, o.plans, |o.plans|), es[|o.plans|]) == Failure(o.error.value))
    decreases |es|
  {
    if es != [] {
      match WhereHop(m, es[0])
      case Failure(_) =>
      case Success(p) =>
        var rest := WhereSteps(p.related, es[1..]);
        WhereStepsStop(p.related, es[1..]);
        var plans := [p] + rest.plans;
        assert WhereSteps(m, es) == WhereOutcome(plans, rest.error);
        if rest.error.Some? {
          assert es[1..][|rest.plans|] == es[|plans|];
          assert ModelBefore(m, plans, |plans|) == ModelBefore(p.related, rest.plans, |rest.plans|);
        }
    }
  }

  /** What the walk does at entry `i`, once it has taken `i` hops. */
  lemma WhereStepsAt(m: Model, es: seq<Entry>, i: nat)
    requires i <= |WhereSteps(m, es).plans|
    ensures var o := WhereSteps(m, es);
            |o.plans| <= |es| &&
            (i < |o.plans| ==> WhereHop(ModelBefore(m, o.plans, i), es[i]) == Success(o.plans[i])) &&
            (i == |o.plans| < |es| ==> o.error.Some? && WhereHop(ModelBefore(m, o.plans, i), es[i]) == Failure(o.error.value)) &&
            (i == |es| ==> o.error.None?)
  {
    WhereStepsHops(m, es);
    WhereStepsStop(m, es);
  }

  /** Every filter the walked part of the path carries is applied, to its hop's sub-query or its pivot join. */
  lemma WhereStepsApplyFilters(m: Model, es: seq<Entry>)
    ensures var o := WhereSteps(m, es);
            |o.plans| <= |es| &&
            forall i | 0 <= i < |o.plans| && es[i].1.Callback? ::
              Filtered(es[i].1.filter, None) in o.plans[i].wheres ||
              (o.plans[i].via.BelongsToMany? && |o.plans[i].joins| > 0 &&
               FilteredOn(es[i].1.filter, Some(o.plans[i].via.pivotTable)) in o.plans[i].joins[0].conditions)
  {
    WhereStepsHops(m, es);
    var o := WhereSteps(m, es);
    forall i | 0 <= i < |o.plans| && es[i].1.Callback?
      ensures Filtered(es[i].1.filter, None) in o.plans[i].wheres ||
              (o.plans[i].via.BelongsToMany? && |o.plans[i].joins| > 0 &&
               FilteredOn(es[i].1.filter, Some(o.plans[i].via.pivotTable)) in o.plans[i].joins[0].conditions)
    {
      var before := ModelBefore(m, o.plans, i);
      var (relation, filter) := Resolve(before, es[i].0.name, es[i].1).value;
      HopPlanShape(before.table, relation, filter);
    }
  }

  /**
   * Each sub-query selects exactly one column, of the related table or, for
   * a many-to-many hop, of the pivot table it joins.
   */
  lemma WhereStepsSelectOneKey(m: Model, es: seq<Entry>)
    ensures var o := WhereSteps(m, es);
            forall i | 0 <= i < |o.plans| ::
              |o.plans[i].columns| == 1 &&
              (IsColumnOf(o.plans[i].columns[0], o.plans[i].related.table) ||
               (o.plans[i].via.BelongsToMany? && JoinRelation.Joined(o.plans[i].joins, o.plans[i].via.pivotTable) &&
                IsColumnOf(o.plans[i].columns[0], o.plans[i].via.pivotTable)))
  {
    WhereStepsHops(m, es);
    var o := WhereSteps(m, es);
    forall i | 0 <= i < |o.plans|
      ensures |o.plans[i].columns| == 1 &&
              (IsColumnOf(o.plans[i].columns[0], o.plans[i].related.table) ||
               (o.plans[i].via.BelongsToMany? && JoinRelation.Joined(o.plans[i].joins, o.plans[i].via.pivotTable) &&
                IsColumnOf(o.plans[i].columns[0], o.plans[i].via.pivotTable)))
    {
      var before := ModelBefore(m, o.plans, i);
      var (relation, filter) := Resolve(before, es[i].0.name, es[i].1).value;
      HopPlanShape(before.table, relation, filter);
      if relation.BelongsToMany? {
        assert o.plans[i].joins[0].table == relation.pivotTable;
      }
    }
  }

  /** The table of the query hop `i`'s `whereIn` is attached to: the root for -1, else sub-query `r`. */
  function ReceiverTable(m: Model, plans: seq<Plan>, r: int): string
    requires -1 <= r < |plans|
  {
    if r < 0 then m.table else plans[r].related.table
  }

  /** Where hop `i` attaches its `whereIn` as written: a has-one hop always attaches to the root query. */
  function ReceiverAsWritten(plans: seq<Plan>, i: nat): (r: int)
    requires i < |plans|
    ensures -1 <= r < i
  {
    if plans[i].via.HasOne? then -1 else i - 1
  }

  /** Where hop `i` attaches its `whereIn`: to the query of the previous hop. */
  function Receiver(plans: seq<Plan>, i: nat): (r: int)
    requires i < |plans|
    ensures -1 <= r < i
  {
    i - 1
  }

  /** Every `whereIn` column is a column of the query it is attached to. */
  lemma InColumnsNameTheirQuery(m: Model, es: seq<Entry>)
    ensures var plans := WhereSteps(m, es).plans;
            forall i | 0 <= i < |plans| :: IsColumnOf(plans[i].inColumn, ReceiverTable(m, plans, Receiver(plans, i)))
  {
    var plans := WhereSteps(m, es).plans;
    forall i | 0 <= i < |plans| ensures IsColumnOf(plans[i].inColumn, ReceiverTable(m, plans, Receiver(plans, i))) {
      WhereStepsAt(m, es, i);
      var before := ModelBefore(m, plans, i);
      assert WhereHop(before, es[i]) == Success(plans[i]);
      assert ReceiverTable(m, plans, Receiver(plans, i)) == before.table;
    }
  }

  /** A column qualified by one dot-free table name is not qualified by another. */
  lemma ColumnOfOneTable(column: string, a: string, b: string)
    requires '.' !in a && '.' !in b && a != b
    requires IsColumnOf(column, a)
    ensures !IsColumnOf(column, b)
  {
    if |b| < |a| {
      assert column[|b|] == a[|b|] != (b + ".")[|b|];
    } else if |a| < |b| {
      assert |b| + 1 <= |column| ==> column[|a|] == '.' != (b + ".")[|a|];
    } else {
      var k :| 0 <= k < |a| && a[k] != b[k];
      assert column[k] == a[k] != (b + ".")[k];
    }
  }

  /**
   * As written, a has-one hop after the first attaches its `whereIn` to the
   * root query although its column is qualified by the previous hop's
   * table, which the root query does not have.
   */
  lemma HasOneAsWrittenMisattached(m: Model, es: seq<Entry>, i: nat)
    requires var plans := WhereSteps(m, es).plans;
             1 <= i < |plans| && plans[i].via.HasOne? &&
             '.' !in m.table && '.' !in plans[i - 1].related.table && m.table != plans[i - 1].related.table
    ensures var plans := WhereSteps(m, es).plans;
            ReceiverAsWritten(plans, i) == -1 &&
            !IsColumnOf(plans[i].inColumn, ReceiverTable(m, plans, ReceiverAsWritten(plans, i)))
  {
    var plans := WhereSteps(m, es).plans;
    InColumnsNameTheirQuery(m, es);
    assert IsColumnOf(plans[i].inColumn, ReceiverTable(m, plans, Receiver(plans, i)));
    ColumnOfOneTable(plans[i].inColumn, plans[i - 1].related.table, m.table);
  }

  lemma AppendAssociates<T>(a: seq<T>, b: seq<T>, c: seq<T>)
    ensures a + b + c == a + (b + c)
  {
  }

  lemma TakeOneMore<T>(s: seq<T>, i: nat)
    requires i < |s|
    ensures s[..i + 1] == s[..i] + [s[i]]
  {
  }

  /** What a query built from plan `p`, with nothing attached to it, compiles to. */
  function Snapshot(p: Plan): QueryState
  {
    Compiled(QueryState(p.joins, p.wheres, p.columns), p.related)
  }

  /**
   * The predicates the walk as written adds to the root query: the `whereIn`
   * of the first hop and of every has-one hop, each holding its sub-query as
   * compiled when it was attached, before any later hop was attached to it.
   */
  function RootPredicatesAsWritten(plans: seq<Plan>): (ws: seq<Where>)
    ensures |ws| <= |plans|
    ensures plans != [] ==> ws != [] && ws[0] == In(plans[0].inColumn, Snapshot(plans[0]))
  {
    if plans == [] then []
    else
      var n := |plans| - 1;
      RootPredicatesAsWritten(plans[..n]) +
      (if ReceiverAsWritten(plans, n) == -1 then [In(plans[n].inColumn, Snapshot(plans[n]))] else [])
  }

  lemma RootPredicatesSnoc(plans: seq<Plan>, p: Plan)
    ensures RootPredicatesAsWritten(plans + [p]) ==
            RootPredicatesAsWritten(plans) + (if plans == [] || p.via.HasOne? then [In(p.inColumn, Snapshot(p))] else [])
  {
    assert (plans + [p])[..|plans|] == plans;
  }

  /** The root query's predicates after hop `i` of the walk as written, from those before it. */
  lemma RootPredicatesStep(plans: seq<Plan>, i: nat, start: seq<Where>, before: seq<Where>, after: seq<Where>)
    requires i < |plans|
    requires before == start + RootPredicatesAsWritten(plans[..i])
    requires after == before + (if i == 0 || plans[i].via.HasOne? then [In(plans[i].inColumn, Snapshot(plans[i]))] else [])
    ensures after == start + RootPredicatesAsWritten(plans[..i + 1])
  {
    TakeOneMore(plans, i);
    RootPredicatesSnoc(plans[..i], plans[i]);
    AppendAssociates(start, RootPredicatesAsWritten(plans[..i]),
                     if i == 0 || plans[i].via.HasOne? then [In(plans[i].inColumn, Snapshot(plans[i]))] else []);
  }

  /**
   * As written, when no hop after the first is a has-one hop, the root query
   * gains the first hop's sub-query alone: every later `whereIn` goes to a
   * sub-query that has been compiled already.
   */
  lemma {:induction false} LaterHopsLostAsWritten(plans: seq<Plan>)
    requires plans != []
    requires forall i | 1 <= i < |plans| :: !plans[i].via.HasOne?
    ensures RootPredicatesAsWritten(plans) == [In(plans[0].inColumn, Snapshot(plans[0]))]
  {
    if |plans| > 1 {
      LaterHopsLostAsWritten(plans[..|plans| - 1]);
    }
  }

  /**
   * As written, a path whose hops after the first are not has-one hops
   * gives the root query the same predicates as its first entry alone.
   */
  lemma FirstHopOnlyAsWritten(m: Model, es: seq<Entry>)
    requires WhereSteps(m, es).plans != []
    requires forall i | 1 <= i < |WhereSteps(m, es).plans| :: !WhereSteps(m, es).plans[i].via.HasOne?
    ensures RootPredicatesAsWritten(WhereSteps(m, es).plans) == RootPredicatesAsWritten(WhereSteps(m, es[..1]).plans)
  {
    var plans := WhereSteps(m, es).plans;
    LaterHopsLostAsWritten(plans);
    assert es[..1][0] == es[0] && es[..1][1..] == [];
    assert WhereSteps(m, es[..1]).plans == [plans[0]];
  }

  /** Whether the caller's filter `f` is applied in `s` or in a sub-query nested in it. */
  predicate Reaches(s: QueryState, f: Closure)
    decreases s
  {
    JoinRelation.Applied(s, f) || exists i | 0 <= i < |s.wheres| :: s.wheres[i].In? && Reaches(s.wheres[i].sub, f)
  }

  /** A hop's compiled sub-query applies no filter but its own. */
  lemma SnapshotAppliesOwnFilterOnly(table: string, relation: Relation, filter: Option<Closure>, f: Closure)
    requires !relation.Other? && filter != Some(f)
    ensures !Reaches(Snapshot(HopPlan(table, relation, filter)), f)
  {
    var p := HopPlan(table, relation, filter);
    var s := Snapshot(p);
    HopPlanShape(table, relation, filter);
    ScopeWheresAt(p.related.globalScopes);
    forall i | 0 <= i < |s.wheres| ensures !s.wheres[i].In? && !(s.wheres[i].Filtered? && s.wheres[i].filter == f) {
      if i >= |p.wheres| {
        assert s.wheres[i] == ScopeWheres(p.related.globalScopes)[i - |p.wheres|];
      }
    }
    if relation.BelongsToMany? {
      var conditions := p.joins[0].conditions;
      forall j | 0 <= j < |conditions| ensures !(conditions[j].FilteredOn? && conditions[j].filter == f) {
        assert conditions[j] in conditions;
      }
    }
  }

  /**
   * As written, when no hop after the first is a has-one hop, a filter that
   * the first entry does not carry reaches none of the predicates the root
   * query gains, wherever it occurs further down the path.
   */
  lemma LaterFilterLostAsWritten(m: Model, es: seq<Entry>, f: Closure)
    requires WhereSteps(m, es).plans != []
    requires forall i | 1 <= i < |WhereSteps(m, es).plans| :: !WhereSteps(m, es).plans[i].via.HasOne?
    requires es[0].1 != Callback(f)
    ensures var ws := RootPredicatesAsWritten(WhereSteps(m, es).plans);
            |ws| == 1 && ws[0].In? && !Reaches(ws[0].sub, f)
  {
    var plans := WhereSteps(m, es).plans;
    LaterHopsLostAsWritten(plans);
    var (relation, filter) := Resolve(m, es[0].0.name, es[0].1).value;
    assert plans[0] == HopPlan(m.table, relation, filter);
    SnapshotAppliesOwnFilterOnly(m.table, relation, filter, f);
  }

  /**
   * The content sub-query `k` compiles to in the corrected walk: its plan,
   * then the `whereIn` of sub-query `k + 1`, which already holds everything
   * further down the path.
   */
  function NestedState(plans: seq<Plan>, k: nat): QueryState
    requires k < |plans|
    decreases |plans| - k, 1
  {
    var p := plans[k];
    Compiled(QueryState(p.joins, p.wheres + NextIn(plans, k), p.columns), p.related)
  }

  /** The predicate the corrected walk attaches to sub-query `k`: the `whereIn` of sub-query `k + 1`, if there is one. */
  function NextIn(plans: seq<Plan>, k: nat): seq<Where>
    requires k < |plans|
    decreases |plans| - k, 0
  {
    if k + 1 < |plans| then [In(plans[k + 1].inColumn, NestedState(plans, k + 1))] else []
  }

  /** The predicates the corrected walk adds to the root query: the first hop's `whereIn`, holding all the others. */
  function NestedWheres(plans: seq<Plan>): seq<Where>
  {
    if plans == [] then [] else [In(plans[0].inColumn, NestedState(plans, 0))]
  }

  /** Whether `t` is `s` or a sub-query nested, at any depth, in one of the `whereIn` predicates of `s`. */
  predicate Nests(s: QueryState, t: QueryState)
    decreases s
  {
    s == t || exists i | 0 <= i < |s.wheres| :: s.wheres[i].In? && Nests(s.wheres[i].sub, t)
  }

  lemma {:induction false} NestsReaches(s: QueryState, t: QueryState, f: Closure)
    requires Nests(s, t) && JoinRelation.Applied(t, f)
    ensures Reaches(s, f)
    decreases s
  {
    if s != t {
      var i :| 0 <= i < |s.wheres| && s.wheres[i].In? && Nests(s.wheres[i].sub, t);
      NestsReaches(s.wheres[i].sub, t, f);
    }
  }

  /** In the corrected walk, sub-query `k` is nested in sub-query `j` whenever `j <= k`. */
  lemma {:induction false} NestedReaches(plans: seq<Plan>, j: nat, k: nat)
    requires j <= k < |plans|
    ensures Nests(NestedState(plans, j), NestedState(plans, k))
    decreases k - j
  {
    if j < k {
      NestedReaches(plans, j + 1, k);
      var s := NestedState(plans, j);
      assert s.wheres == plans[j].wheres + NextIn(plans, j) + ScopeWheres(plans[j].related.globalScopes);
      assert s.wheres[|plans[j].wheres|] == In(plans[j + 1].inColumn, NestedState(plans, j + 1));
    }
  }

  /**
   * In the corrected walk the root query's new predicate holds every hop's
   * sub-query, each with its plan's joins, predicates and selected column.
   */
  lemma NestedHoldsEveryHop(plans: seq<Plan>, k: nat)
    requires k < |plans|
    ensures |NestedWheres(plans)| == 1 && NestedWheres(plans)[0].In?
    ensures Nests(NestedWheres(plans)[0].sub, NestedState(plans, k))
    ensures var s := NestedState(plans, k);
            s.joins == plans[k].joins && s.columns == plans[k].columns && plans[k].wheres <= s.wheres
  {
    NestedReaches(plans, 0, k);
  }

  /** In the corrected walk, every filter of the walked path reaches the root query's new predicate. */
  lemma NestedAppliesEveryFilter(m: Model, es: seq<Entry>)
    ensures var plans := WhereSteps(m, es).plans;
            forall i | 0 <= i < |plans| && es[i].1.Callback? :: Reaches(NestedState(plans, 0), es[i].1.filter)
  {
    var plans := WhereSteps(m, es).plans;
    WhereStepsApplyFilters(m, es);
    forall i | 0 <= i < |plans| && es[i].1.Callback? ensures Reaches(NestedState(plans, 0), es[i].1.filter) {
      var f := es[i].1.filter;
      var s := NestedState(plans, i);
      if Filtered(f, None) in plans[i].wheres {
        var k :| 0 <= k < |plans[i].wheres| && plans[i].wheres[k] == Filtered(f, None);
        assert s.wheres[k] == Filtered(f, None);
      } else {
        var k :| 0 <= k < |plans[i].joins[0].conditions| && plans[i].joins[0].conditions[k] == FilteredOn(f, Some(plans[i].via.pivotTable));
        assert s.joins[0].conditions[k] == FilteredOn(f, Some(plans[i].via.pivotTable));
      }
      NestedReaches(plans, 0, i);
      NestsReaches(NestedState(plans, 0), s, f);
    }
  }

  /**
   * In the corrected walk each sub-query but the last carries the `whereIn`
   * of the next one, whose column is a column of the table that sub-query is
   * on; the root query's names a column of the root table.
   */
  lemma NestedColumnsNameTheirQuery(m: Model, es: seq<Entry>)
    ensures var plans := WhereSteps(m, es).plans;
            (plans != [] ==> NestedWheres(plans)[0].column == plans[0].inColumn && IsColumnOf(plans[0].inColumn, m.table)) &&
            forall k | 0 <= k < |plans| - 1 ::
              NextIn(plans, k) == [In(plans[k + 1].inColumn, NestedState(plans, k + 1))] &&
              IsColumnOf(plans[k + 1].inColumn, plans[k].related.table)
  {
    var plans := WhereSteps(m, es).plans;
    InColumnsNameTheirQuery(m, es);
    forall k | 0 <= k < |plans| - 1
      ensures IsColumnOf(plans[k + 1].inColumn, plans[k].related.table)
    {
      assert Receiver(plans, k + 1) == k;
      assert ReceiverTable(m, plans, Receiver(plans, k + 1)) == plans[k].related.table;
      assert IsColumnOf(plans[k + 1].inColumn, ReceiverTable(m, plans, Receiver(plans, k + 1)));
    }
  }

  /** Query `q` holds plan `p`'s content and nothing else. */
  predicate Holds(q: Query, p: Plan)
    reads q
  {
    q.model == p.related && q.joins == p.joins && q.wheres == p.wheres && q.columns == p.columns
  }

  /**
   * The sub-queries `filters` hold the first plans of `plans`, one each, and
   * are pairwise distinct; `columns` are their `whereIn` columns.
   */
  ghost predicate Built(filters: seq<Query>, columns: seq<string>, plans: seq<Plan>)
    reads filters
  {
    |filters| == |columns| <= |plans| &&
    (forall k | 0 <= k < |filters| :: Holds(filters[k], plans[k]) && columns[k] == plans[k].inColumn) &&
    (forall j, k | 0 <= j < k < |filters| :: filters[j] != filters[k])
  }

  lemma BuiltSnoc(filters: seq<Query>, columns: seq<string>, plans: seq<Plan>, q: Query, column: string)
    requires Built(filters, columns, plans) && |filters| < |plans|
    requires Holds(q, plans[|filters|]) && column == plans[|filters|].inColumn
    requires forall k | 0 <= k < |filters| :: filters[k] != q
    ensures Built(filters + [q], columns + [column], plans)
  {
    var filters', columns' := filters + [q], columns + [column];
    forall k | 0 <= k < |filters'| ensures Holds(filters'[k], plans[k]) && columns'[k] == plans[k].inColumn {
      if k < |filters| {
        assert filters'[k] == filters[k] && columns'[k] == columns[k];
      }
    }
  }

  /**
   * The state of the second loop of the corrected __invoke: the sub-queries
   * before `i` hold their plans alone, sub-query `i` also holds the `whereIn`
   * of everything after it.
   */
  ghost predicate NestedFrom(filters: seq<Query>, columns: seq<string>, plans: seq<Plan>, i: nat)
    reads filters
  {
    |filters| == |columns| == |plans| && i < |plans| &&
    (forall j, k | 0 <= j < k < |filters| :: filters[j] != filters[k]) &&
    (forall k | 0 <= k < |plans| :: columns[k] == plans[k].inColumn) &&
    (forall k | 0 <= k < i :: Holds(filters[k], plans[k])) &&
    filters[i].model == plans[i].related && filters[i].joins == plans[i].joins && filters[i].columns == plans[i].columns &&
    filters[i].wheres == plans[i].wheres + NextIn(plans, i)
  }

  /** Query `q` holds plan `k` together with the `whereIn` of every sub-query after it. */
  ghost predicate HoldsNested(q: Query, plans: seq<Plan>, k: nat)
    requires k < |plans|
    reads q
  {
    q.model == plans[k].related && q.joins == plans[k].joins && q.columns == plans[k].columns &&
    q.wheres == plans[k].wheres + NextIn(plans, k)
  }

  /** One iteration of that loop: sub-query `i - 1` gains the `whereIn` of sub-query `i`, compiled now. */
  method NestOne(ghost plans: seq<Plan>, filters: seq<Query>, columns: seq<string>, i: nat)
    requires 0 < i && NestedFrom(filters, columns, plans, i)
    modifies filters[i - 1]
    ensures NestedFrom(filters, columns, plans, i - 1)
  {
    assert Compiled(filters[i].State(), filters[i].model) == NestedState(plans, i);
    filters[i - 1].WhereIn(columns[i], filters[i]);
    forall k | 0 <= k < i - 1 ensures Holds(filters[k], plans[k]) {
      assert filters[k] != filters[i - 1];
    }
  }

  class WhereRelatedToMacro {
    const query: Query
    const table: string

    constructor (query: Query)
      ensures this.query == query && table == query.model.table
    {
      this.query := query;
      table := query.model.table;
    }

    /**
     * __invoke as written: each hop's sub-query is attached as soon as it is
     * built, to the previous hop's sub-query, or to `query` for the first hop
     * and for every has-one hop. Returns `query`, or the first error after
     * the earlier hops' changes.
     */
    method InvokeAsWritten(relationName: Path) returns (r: Result<Query>)
      modifies query
      ensures var o := WhereSteps(query.model, Collect(ListOf(relationName)));
              query.wheres == old(query.wheres) + RootPredicatesAsWritten(o.plans) &&
              query.joins == old(query.joins) && query.columns == old(query.columns) &&
              r == if o.error.None? then Success(query) else Failure(o.error.value)
    {
      var relationNameList := GetRelations(relationName);
      var m := query.model;
      var baseQuery := query;
      ghost var total := WhereSteps(m, relationNameList);
      var i := 0;
      var error: Option<Error> := None;
      while i < |relationNameList|
        invariant 0 <= i <= |total.plans|
        invariant m == ModelBefore(query.model, total.plans, i)
        invariant i == 0 ==> baseQuery == query
        invariant i > 0 ==> fresh(baseQuery)
        invariant query.wheres == old(query.wheres) + RootPredicatesAsWritten(total.plans[..i])
        invariant query.joins == old(query.joins) && query.columns == old(query.columns)
      {
        WhereStepsAt(query.model, relationNameList, i);
        ghost var before := query.wheres;
        var next := StepAsWritten(baseQuery, m, relationNameList[i], i == 0);
        if next.Failure? {
          error := Some(next.error);
          break;
        }
        assert WhereHop(m, relationNameList[i]) == Success(total.plans[i]);
        assert next.value.model == ModelBefore(query.model, total.plans, i + 1);
        RootPredicatesStep(total.plans, i, old(query.wheres), before, query.wheres);
        baseQuery := next.value;
        m := baseQuery.model;
        i := i + 1;
      }
      WhereStepsAt(query.model, relationNameList, i);
      r := if error.None? then Success(query) else Failure(error.value);
      assert total.plans[..i] == total.plans;
    }

    /**
     * __invoke corrected: every hop's sub-query is built first, then each is
     * attached to the one before it, the last first, so that each `whereIn`
     * compiles a sub-query that already holds the rest of the path; `query`
     * gains the first one's. A failing hop aborts before anything is attached.
     */
    method Invoke(relationName: Path) returns (r: Result<Query>)
      modifies query
      ensures var o := WhereSteps(query.model, Collect(ListOf(relationName)));
              query.wheres == old(query.wheres) + (if o.error.None? then NestedWheres(o.plans) else []) &&
              query.joins == old(query.joins) && query.columns == old(query.columns) &&
              r == if o.error.None? then Success(query) else Failure(o.error.value)
    {
      var relationNameList := GetRelations(relationName);
      var filters, columns, error := SubQueries(relationNameList);
      if error.Some? {
        return Failure(error.value);
      }
      if filters != [] {
        Nest(WhereSteps(query.model, relationNameList).plans, filters, columns);
      }
      return Success(query);
    }

    /**
     * The second loop of the corrected __invoke: each sub-query is attached
     * to the one before it, the last first, then the first to `query`.
     */
    method Nest(ghost plans: seq<Plan>, filters: seq<Query>, columns: seq<string>)
      requires Built(filters, columns, plans) && |filters| == |plans| > 0
      requires forall k | 0 <= k < |filters| :: filters[k] != query
      modifies query, set k | 0 <= k < |filters| :: filters[k]
      ensures query.wheres == old(query.wheres) + NestedWheres(plans)
      ensures query.joins == old(query.joins) && query.columns == old(query.columns)
      ensures forall k | 0 <= k < |filters| :: HoldsNested(filters[k], plans, k)
    {
      var i := |filters| - 1;
      assert plans[i].wheres + NextIn(plans, i) == plans[i].wheres;
      while i > 0
        invariant 0 <= i < |filters|
        invariant NestedFrom(filters, columns, plans, i)
        invariant forall k | i <= k < |filters| :: HoldsNested(filters[k], plans, k)
        invariant query.wheres == old(query.wheres) && query.joins == old(query.joins) && query.columns == old(query.columns)
      {
        NestOne(plans, filters, columns, i);
        i := i - 1;
      }
      assert Compiled(filters[0].State(), filters[0].model) == NestedState(plans, 0);
      query.WhereIn(columns[0], filters[0]);
    }

    /**
     * The first loop of the corrected __invoke: one fresh sub-query per hop
     * taken, holding its plan, and the `whereIn` column of each; nothing is
     * attached yet. The error is that of the first failing hop.
     */
    method SubQueries(relationNameList: seq<Entry>) returns (filters: seq<Query>, columns: seq<string>, error: Option<Error>)
      ensures var o := WhereSteps(query.model, relationNameList);
              error == o.error && |filters| == |o.plans| && Built(filters, columns, o.plans) &&
              forall k | 0 <= k < |filters| :: fresh(filters[k])
    {
      var m := query.model;
      ghost var total := WhereSteps(m, relationNameList);
      filters, columns, error := [], [], None;
      var i := 0;
      while i < |relationNameList|
        invariant 0 <= i <= |total.plans| && |filters| == i
        invariant m == ModelBefore(query.model, total.plans, i)
        invariant Built(filters, columns, total.plans)
        invariant forall k | 0 <= k < i :: fresh(filters[k])
      {
        WhereStepsAt(query.model, relationNameList, i);
        var next := StepSubQuery(m, relationNameList[i]);
        if next.Failure? {
          error := Some(next.error);
          break;
        }
        var (filterQuery, column) := next.value;
        assert WhereHop(m, relationNameList[i]) == Success(total.plans[i]);
        assert filterQuery.model == total.plans[i].related == ModelBefore(query.model, total.plans, i + 1);
        BuiltSnoc(filters, columns, total.plans, filterQuery, column);
        filters := filters + [filterQuery];
        columns := columns + [column];
        m := filterQuery.model;
        i := i + 1;
      }
      WhereStepsAt(query.model, relationNameList, i);
    }

    /**
     * One iteration of __invoke as written: resolve the entry on `m`, then
     * follow the relation from `baseQuery`; `query` gains the hop's `whereIn`
     * when it is the query the hop attaches to.
     */
    method StepAsWritten(baseQuery: Query, m: Model, entry: Entry, ghost first: bool) returns (next: Result<Query>)
      requires first <==> baseQuery == query
      modifies baseQuery, query
      ensures WhereHop(m, entry).Failure? ==> next == Failure(WhereHop(m, entry).error) && unchanged(query)
      ensures WhereHop(m, entry).Success? ==>
                var p := WhereHop(m, entry).value;
                next.Success? && fresh(next.value) && next.value.model == p.related &&
                query.wheres == old(query.wheres) + (if first || p.via.HasOne? then [In(p.inColumn, Snapshot(p))] else [])
      ensures WhereHop(m, entry).Failure? ==> unchanged(baseQuery)
      ensures WhereHop(m, entry).Success? && !first ==>
                var p := WhereHop(m, entry).value;
                baseQuery.wheres == old(baseQuery.wheres) + (if p.via.HasOne? then [] else [In(p.inColumn, Snapshot(p))])
      ensures query.joins == old(query.joins) && query.columns == old(query.columns)
      ensures baseQuery.joins == old(baseQuery.joins) && baseQuery.columns == old(baseQuery.columns)
    {
      var (key, where) := entry;
      var resolved := ResolveEntry(m, key, where);
      if resolved.Failure? {
        return Failure(resolved.error);
      }
      var (relation, filter) := resolved.value;
      var filterQuery := Follow(baseQuery, m.table, relation, filter);
      return Success(filterQuery);
    }

    /** One iteration of the first loop of the corrected __invoke: resolve the entry on `m`, then build the hop's sub-query. */
    method StepSubQuery(m: Model, entry: Entry) returns (next: Result<(Query, string)>)
      ensures WhereHop(m, entry).Failure? ==> next == Failure(WhereHop(m, entry).error)
      ensures WhereHop(m, entry).Success? ==>
                next.Success? && fresh(next.value.0) && Holds(next.value.0, WhereHop(m, entry).value) &&
                next.value.1 == WhereHop(m, entry).value.inColumn
    {
      var (key, where) := entry;
      var resolved := ResolveEntry(m, key, where);
      if resolved.Failure? {
        return Failure(resolved.error);
      }
      var (relation, filter) := resolved.value;
      var filterQuery, column := SubQuery(m.table, relation, filter);
      return Success((filterQuery, column));
    }

    /**
     * `$m->{$relationName}()` and the checks around it: the key must name a
     * relation method of `m`, of a kind the macro follows, and the value
     * must be null or a callback.
     */
    method ResolveEntry(m: Model, key: Key, where: Value) returns (r: Result<(Relation, Option<Closure>)>)
      ensures key.IntKey? ==> r == Failure(MethodNameNotString)
      ensures key.StrKey? ==> r == Resolve(m, key.name, where)
    {
      if key.IntKey? {
        return Failure(MethodNameNotString);
      }
      var name := key.name;
      if name !in m.relations {
        return Failure(BadMethodCall);
      }
      var relation := m.relations[name];
      if relation.Other? {
        return Failure(RelationNotFollowed);
      }
      if where.Str? {
        return Failure(TypeError);
      }
      var filter := if where.Callback? then Some(where.filter) else None;
      return Success((relation, filter));
    }

    /** The dispatch of one hop as written: the hop's sub-query, attached where the method for its kind attaches it. */
    method Follow(baseQuery: Query, table: string, relation: Relation, filter: Option<Closure>) returns (filterQuery: Query)
      requires !relation.Other?
      modifies baseQuery, query
      ensures fresh(filterQuery) && Holds(filterQuery, HopPlan(table, relation, filter))
      ensures var p := HopPlan(table, relation, filter);
              relation.HasOne? ==>
                query.wheres == old(query.wheres) + [In(p.inColumn, Snapshot(p))] && (baseQuery != query ==> unchanged(baseQuery))
      ensures var p := HopPlan(table, relation, filter);
              !relation.HasOne? ==>
                baseQuery.wheres == old(baseQuery.wheres) + [In(p.inColumn, Snapshot(p))] && (baseQuery != query ==> unchanged(query))
      ensures query.joins == old(query.joins) && query.columns == old(query.columns)
      ensures baseQuery.joins == old(baseQuery.joins) && baseQuery.columns == old(baseQuery.columns)
    {
      if relation.HasMany? {
        filterQuery := WhereHasMany(baseQuery, table, relation, filter);
      } else if relation.HasOne? {
        filterQuery := WhereHasOne(baseQuery, table, relation, filter);
      } else if relation.BelongsTo? {
        filterQuery := WhereBelongsTo(baseQuery, table, relation, filter);
      } else {
        filterQuery := WhereBelongsToMany(baseQuery, table, relation, filter);
      }
    }

    /** The dispatch of one hop in the corrected walk: the hop's sub-query and its `whereIn` column, attached nowhere yet. */
    method SubQuery(table: string, relation: Relation, filter: Option<Closure>) returns (filterQuery: Query, column: string)
      requires !relation.Other?
      ensures fresh(filterQuery) && Holds(filterQuery, HopPlan(table, relation, filter))
      ensures column == HopPlan(table, relation, filter).inColumn
    {
      if relation.HasMany? || relation.HasOne? {
        filterQuery, column := HasOneOrManySubQuery(table, relation, filter);
      } else if relation.BelongsTo? {
        filterQuery, column := BelongsToSubQuery(table, relation, filter);
      } else {
        filterQuery, column := BelongsToManySubQuery(table, relation, filter);
      }
    }

    /** The sub-query of whereBelongsTo: `select related.(parentKey ?? id) from related`, filtered; its column is `table.foreignKey`. */
    method BelongsToSubQuery(table: string, belongsTo: Relation, filter: Option<Closure>) returns (filterQuery: Query, column: string)
      requires belongsTo.BelongsTo?
      ensures fresh(filterQuery) && Holds(filterQuery, HopPlan(table, belongsTo, filter))
      ensures column == HopPlan(table, belongsTo, filter).inColumn
    {
      var m := belongsTo.related;
      filterQuery := new Query(m);
      var parentKey := JoinRelation.OwnerKey(belongsTo);
      if filter.Some? {
        filterQuery.Where(Filtered(filter.value, None));
      }
      filterQuery.Select([Column(m.table, parentKey)]);
      column := Column(table, belongsTo.foreignKey);
    }

    /** The sub-query of whereHasMany and whereHasOne: `select related.foreignKey from related`, filtered; its column is `table.localKey`. */
    method HasOneOrManySubQuery(table: string, hasOneOrMany: Relation, filter: Option<Closure>) returns (filterQuery: Query, column: string)
      requires hasOneOrMany.HasMany? || hasOneOrMany.HasOne?
      ensures fresh(filterQuery) && Holds(filterQuery, HopPlan(table, hasOneOrMany, filter))
      ensures column == HopPlan(table, hasOneOrMany, filter).inColumn
    {
      var m := hasOneOrMany.related;
      filterQuery := new Query(m);
      if filter.Some? {
        filterQuery.Where(Filtered(filter.value, None));
      }
      filterQuery.Select([Column(m.table, hasOneOrMany.foreignKey)]);
      column := Column(table, hasOneOrMany.localKey);
    }

    /**
     * The sub-query of whereBelongsToMany: `select pivot.foreignPivotKey from
     * related join pivot on ...`, the filter and the soft-delete check inside
     * the pivot join; its column is `table.parentKey`.
     */
    method BelongsToManySubQuery(table: string, belongsToMany: Relation, filter: Option<Closure>) returns (filterQuery: Query, column: string)
      requires belongsToMany.BelongsToMany?
      ensures fresh(filterQuery) && Holds(filterQuery, HopPlan(table, belongsToMany, filter))
      ensures column == HopPlan(table, belongsToMany, filter).inColumn
    {
      var m := belongsToMany.related;
      filterQuery := new Query(m);
      var pivot := belongsToMany.pivotTable;
      var isPivotSoftDelete := IsSoftDeletePivot(belongsToMany);
      var conditions := [On(Column(pivot, belongsToMany.relatedPivotKeyName), Column(m.table, belongsToMany.relatedKeyName))];
      if filter.Some? {
        conditions := conditions + [FilteredOn(filter.value, Some(pivot))];
      }
      if isPivotSoftDelete {
        conditions := conditions + [IsNull(Column(pivot, "deleted_at"))];
      }
      assert conditions == FilterJoinConditions(belongsToMany, filter);
      filterQuery.Join(Inner, pivot, conditions);
      filterQuery.Select([Column(pivot, belongsToMany.foreignPivotKeyName)]);
      column := Column(table, belongsToMany.parentKeyName);
    }

    /** whereBelongsTo: the sub-query, then `table.foreignKey IN` it on `baseQuery`. */
    method WhereBelongsTo(baseQuery: Query, table: string, belongsTo: Relation, filter: Option<Closure>) returns (filterQuery: Query)
      requires belongsTo.BelongsTo?
      modifies baseQuery
      ensures var p := HopPlan(table, belongsTo, filter);
              fresh(filterQuery) && Holds(filterQuery, p) &&
              baseQuery.wheres == old(baseQuery.wheres) + [In(p.inColumn, Snapshot(p))]
      ensures baseQuery.joins == old(baseQuery.joins) && baseQuery.columns == old(baseQuery.columns)
    {
      var column;
      filterQuery, column := BelongsToSubQuery(table, belongsTo, filter);
      baseQuery.WhereIn(column, filterQuery);
    }

    /** whereHasMany: the sub-query, then `table.localKey IN` it on `baseQuery`. */
    method WhereHasMany(baseQuery: Query, table: string, hasMany: Relation, filter: Option<Closure>) returns (filterQuery: Query)
      requires hasMany.HasMany?
      modifies baseQuery
      ensures var p := HopPlan(table, hasMany, filter);
              fresh(filterQuery) && Holds(filterQuery, p) &&
              baseQuery.wheres == old(baseQuery.wheres) + [In(p.inColumn, Snapshot(p))]
      ensures baseQuery.joins == old(baseQuery.joins) && baseQuery.columns == old(baseQuery.columns)
    {
      var column;
      filterQuery, column := HasOneOrManySubQuery(table, hasMany, filter);
      baseQuery.WhereIn(column, filterQuery);
    }

    /** whereHasOne as written: the sub-query, then `table.localKey IN` it on the root query, whatever `baseQuery` is. */
    method WhereHasOne(baseQuery: Query, table: string, hasOne: Relation, filter: Option<Closure>) returns (filterQuery: Query)
      requires hasOne.HasOne?
      modifies query
      ensures var p := HopPlan(table, hasOne, filter);
              fresh(filterQuery) && Holds(filterQuery, p) &&
              query.wheres == old(query.wheres) + [In(p.inColumn, Snapshot(p))]
      ensures query.joins == old(query.joins) && query.columns == old(query.columns)
    {
      var column;
      filterQuery, column := HasOneOrManySubQuery(table, hasOne, filter);
      query.WhereIn(column, filterQuery);
    }

    /** whereBelongsToMany: the sub-query, then `table.parentKey IN` it on `baseQuery`. */
    method WhereBelongsToMany(baseQuery: Query, table: string, belongsToMany: Relation, filter: Option<Closure>) returns (filterQuery: Query)
      requires belongsToMany.BelongsToMany?
      modifies baseQuery
      ensures var p := HopPlan(table, belongsToMany, filter);
              fresh(filterQuery) && Holds(filterQuery, p) &&
              baseQuery.wheres == old(baseQuery.wheres) + [In(p.inColumn, Snapshot(p))]
      ensures baseQuery.joins == old(baseQuery.joins) && baseQuery.columns == old(baseQuery.columns)
    {
      var column;
      filterQuery, column := BelongsToManySubQuery(table, belongsToMany, filter);
      baseQuery.WhereIn(column, filterQuery);
    }
  }
}
