/**
 * The application's own models and the calls its controller makes, run
 * through the two macros. Item, its `subItems` (has-many) and its
 * `catalogs` and `users` (many-to-many, through the default pivot tables)
 * follow the Item model and the catalog_item migration; the related models
 * declare no relation and no global scope here. `Profile`, a has-one
 * relation of User, is not declared by the application: it is the
 * smallest path that reaches the has-one hop at depth two. `groups`, the
 * many-to-many relation of User to UserGroup, is the inverse of
 * UserGroup's `users`, through the default pivot table.
 */
module Fixtures {
  import opened Eloquent
  import opened RelationPath
  import opened JoinRelation
  import opened WhereRelatedTo

  const SubItem := Model("sub_items", map[], [])
  const Catalog := Model("catalogs", map[], [])
  const Profile := Model("profiles", map[], [])
  const UserGroup := Model("user_groups", map[], [Scope("SoftDeletingScope")])
  const Groups := BelongsToMany(UserGroup, "id", "id", "user_user_group", "user_id", "user_group_id", [])
  const User := Model("users", map["profile" := HasOne(Profile, "id", "user_id"), "groups" := Groups], [])

  const SubItems := HasMany(SubItem, "id", "item_id")
  const Catalogs := BelongsToMany(Catalog, "id", "id", "catalog_item", "item_id", "catalog_id", [])
  const Users := BelongsToMany(User, "id", "id", "item_user", "item_id", "user_id", [])

  /** Item uses SoftDeletes, whose scope the query builder applies when the query runs. */
  const Item := Model("items", map["subItems" := SubItems, "catalogs" := Catalogs, "users" := Users],
                      [Scope("SoftDeletingScope")])

  const Empty := QueryState([], [], [])

  /** The two-hop join of `catalogs`: the pivot table on the item key, then the catalogs with the filter. */
  function CatalogJoins(mode: JoinMode, filter: Option<Closure>): seq<JoinClause>
  {
    [JoinClause(mode, "catalog_item", [On("catalog_item.item_id", "items.id")]),
     JoinClause(mode, "catalogs", [On("catalogs.id", "catalog_item.catalog_id")] +
                                  (if filter.Some? then [FilteredOn(filter.value, Some("catalog_item"))] else []))]
  }

  lemma SingleEntry(e: Entry)
    requires e.0.StrKey?
    ensures Collect(ListOf(Entries([e]))) == [e]
  {
    assert [e][..0] == [];
  }

  lemma JoinStepsSingle(m: Model, s: QueryState, e: Entry)
    ensures JoinHop(m, s, e).Failure? ==> JoinSteps(m, s, [e]) == JoinOutcome(s, m, Some(JoinHop(m, s, e).error))
    ensures JoinHop(m, s, e).Success? ==>
              JoinSteps(m, s, [e]) == JoinOutcome(JoinHop(m, s, e).value.0, JoinHop(m, s, e).value.1, None)
  {
    assert [e][1..] == [];
  }

  lemma WhereStepsSingle(m: Model, e: Entry)
    ensures WhereHop(m, e).Failure? ==> WhereSteps(m, [e]) == WhereOutcome([], Some(WhereHop(m, e).error))
    ensures WhereHop(m, e).Success? ==> WhereSteps(m, [e]) == WhereOutcome([WhereHop(m, e).value], None)
  {
    assert [e][1..] == [];
  }

  lemma ItemRelations()
    ensures Item.relations.Keys == {"subItems", "catalogs", "users"}
    ensures Item.relations["subItems"] == SubItems && Item.relations["catalogs"] == Catalogs && Item.relations["users"] == Users
  {
  }

  /** Joining `catalogs` from an Item query with no join yet. */
  lemma JoinCatalogs(filter: Option<Closure>, mode: JoinMode)
    ensures var r := RelatedHalf(PivotJoin(Empty, "items", Catalogs, mode), Catalogs, filter, mode);
            r == QueryState(CatalogJoins(mode, filter), [], [])
  {
    var p := PivotJoin(Empty, "items", Catalogs, mode);
    assert !SoftDeletesPivot(Catalogs);
    assert !Joined(Empty.joins, "catalog_item");
    assert Column("catalog_item", "item_id") == "catalog_item.item_id" && Column("items", "id") == "items.id";
    assert PivotConditions("items", Catalogs) == [On("catalog_item.item_id", "items.id")];
    assert p.joins == CatalogJoins(mode, filter)[..1];
    assert Column("catalogs", "id") == "catalogs.id" && Column("catalog_item", "catalog_id") == "catalog_item.catalog_id";
    assert !Joined(p.joins, "catalogs") by {
      assert p.joins[0].table == "catalog_item" != "catalogs";
    }
  }

  /** A join-macro entry naming `catalogs`, followed from an Item query with no join yet. */
  lemma JoinHopCatalogs(e: Entry, filter: Option<Closure>, mode: JoinMode)
    requires e.0.StrKey? && RelationNameOf(e.0.name) == "catalogs" && (IsLeftJoinKey(e.0.name) <==> mode == Left)
    requires e.1 == if filter.Some? then Callback(filter.value) else Null
    ensures JoinHop(Item, Empty, e) == Success((QueryState(CatalogJoins(mode, filter), [], []), Catalog))
  {
    ItemRelations();
    assert Resolve(Item, "catalogs", e.1) == Success((Catalogs, filter));
    assert JoinHop(Item, Empty, e) == Success((BelongsToManyHop(Empty, "items", Catalogs, filter, mode), Catalog));
    JoinCatalogs(filter, mode);
  }

  /** A join-macro entry naming `subItems`, followed from an Item query that has not joined sub_items. */
  lemma JoinHopSubItems(s: QueryState, e: Entry, filter: Option<Closure>)
    requires e.0.StrKey? && RelationNameOf(e.0.name) == "subItems" && !IsLeftJoinKey(e.0.name)
    requires e.1 == if filter.Some? then Callback(filter.value) else Null
    requires !Joined(s.joins, "sub_items")
    ensures JoinHop(Item, s, e) ==
            Success((s.(joins := s.joins + [JoinClause(Inner, "sub_items", [On("items.id", "sub_items.item_id")])],
                        wheres := s.wheres + FilterWheres(filter, None)), SubItem))
  {
    ItemRelations();
    assert Resolve(Item, "subItems", e.1) == Success((SubItems, filter));
    var on := On(Column("items", "id"), Column("sub_items", "item_id"));
    assert on == On("items.id", "sub_items.item_id");
    assert HasOneOrManyHop(s, "items", SubItems, filter, Inner) == RelatedJoin(s, SubItem, on, filter, Inner);
    assert JoinHop(Item, s, e) == Success((RelatedJoin(s, SubItem, on, filter, Inner), SubItem));
    assert ScopeWheres(SubItem.globalScopes) == [];
    assert s.wheres + FilterWheres(filter, None) + [] == s.wheres + FilterWheres(filter, None);
  }

  /** `joinRelation(['catalogs' => f])` on an Item query with no join yet. */
  lemma JoinCatalogsCall(f: Closure)
    ensures JoinSteps(Item, Empty, Collect(ListOf(Entries([(StrKey("catalogs"), Callback(f))])))) ==
            JoinOutcome(QueryState(CatalogJoins(Inner, Some(f)), [], []), Catalog, None)
  {
    var e := (StrKey("catalogs"), Callback(f));
    SingleEntry(e);
    PlainKey("catalogs");
    JoinHopCatalogs(e, Some(f), Inner);
    JoinStepsSingle(Item, Empty, e);
  }

  /** `joinRelation(['subItems' => f])` on an Item query that has not joined sub_items. */
  lemma JoinSubItemsCall(s: QueryState, f: Closure)
    requires !Joined(s.joins, "sub_items")
    ensures JoinSteps(Item, s, Collect(ListOf(Entries([(StrKey("subItems"), Callback(f))])))) ==
            JoinOutcome(s.(joins := s.joins + [JoinClause(Inner, "sub_items", [On("items.id", "sub_items.item_id")])],
                           wheres := s.wheres + [Filtered(f, None)]), SubItem, None)
  {
    var e := (StrKey("subItems"), Callback(f));
    SingleEntry(e);
    PlainKey("subItems");
    JoinHopSubItems(s, e, Some(f));
    JoinStepsSingle(Item, s, e);
  }

  /**
   * The controller's `joinRelation(['catalogs' => f1])` followed by
   * `joinRelation(['subItems' => f2])` on an Item query: the catalogs hop
   * joins the pivot and the catalogs with f1 inside the join, the
   * sub-items hop joins sub_items and puts f2 on the query itself.
   */
  lemma ControllerJoin(f1: Closure, f2: Closure)
    ensures var o1 := JoinSteps(Item, Empty, Collect(ListOf(Entries([(StrKey("catalogs"), Callback(f1))]))));
            var o2 := JoinSteps(Item, o1.state, Collect(ListOf(Entries([(StrKey("subItems"), Callback(f2))]))));
            o1.error.None? && o2.error.None? && o1.model == Catalog && o2.model == SubItem &&
            o1.state == QueryState(CatalogJoins(Inner, Some(f1)), [], []) &&
            o2.state == QueryState(CatalogJoins(Inner, Some(f1)) +
                                   [JoinClause(Inner, "sub_items", [On("items.id", "sub_items.item_id")])],
                                   [Filtered(f2, None)], [])
  {
    JoinCatalogsCall(f1);
    var s1 := QueryState(CatalogJoins(Inner, Some(f1)), [], []);
    assert !Joined(s1.joins, "sub_items") by {
      assert s1.joins[0].table != "sub_items" && s1.joins[1].table != "sub_items";
    }
    JoinSubItemsCall(s1, f2);
  }

  /** A dotted path with no dot is one entry: the path itself as a relation name, with no filter. */
  lemma SegmentPath(key: string)
    requires '.' !in key
    ensures Collect(ListOf(Dotted(key))) == [(StrKey(key), Null)]
  {
    ExplodeSegment(key);
    var es := ListOf(Dotted(key));
    assert es == [(IntKey(0), Str(key))];
    assert es[..0] == [];
  }

  /** The key `left@catalogs` names the relation `catalogs`, asks for left joins and holds no dot. */
  lemma LeftCatalogsKey()
    ensures '.' !in "left@catalogs" && RelationNameOf("left@catalogs") == "catalogs" && IsLeftJoinKey("left@catalogs")
  {
    PrefixedKey("left", "catalogs");
    LeftCatalogsSpelling();
  }

  lemma LeftCatalogsSpelling()
    ensures "left" + "@" + "catalogs" == "left@catalogs"
    ensures '.' !in "left@catalogs"
  {
  }

  /** `joinRelation('left@catalogs')`, and any other one-segment path that left-joins `catalogs`. */
  lemma LeftJoinPath(key: string)
    requires '.' !in key && RelationNameOf(key) == "catalogs" && IsLeftJoinKey(key)
    ensures var o := JoinSteps(Item, Empty, Collect(ListOf(Dotted(key))));
            o.error.None? && o.model == Catalog && o.state == QueryState(CatalogJoins(Left, None), [], [])
  {
    var e := (StrKey(key), Null);
    SegmentPath(key);
    JoinHopCatalogs(e, None, Left);
    JoinStepsSingle(Item, Empty, e);
  }

  /** An integer key aborts the join macro before any change. */
  lemma JoinIntegerKey(f: Closure)
    ensures JoinSteps(Item, Empty, [(IntKey(0), Callback(f))]) == JoinOutcome(Empty, Item, Some(TypeError))
  {
    JoinStepsSingle(Item, Empty, (IntKey(0), Callback(f)));
  }

  /**
   * `whereRelatedTo([f])`: the filter sits under the integer key 0, which
   * the where macro uses as a method name, and the call fails there.
   */
  lemma WhereIntegerKey(f: Closure)
    ensures WhereSteps(Item, [(IntKey(0), Callback(f))]) == WhereOutcome([], Some(MethodNameNotString))
  {
    WhereStepsSingle(Item, (IntKey(0), Callback(f)));
  }

  /**
   * A name that is no method of Item, of its base class, of its traits or of
   * its builder, such as `owner`, aborts the join macro before any change.
   */
  lemma JoinMissingRelation(name: string)
    requires IsWord(name) && name !in {"subItems", "catalogs", "users"}
    ensures JoinSteps(Item, Empty, [(StrKey(name), Null)]) == JoinOutcome(Empty, Item, Some(BadMethodCall))
  {
    ItemRelations();
    PlainKey(name);
    JoinStepsSingle(Item, Empty, (StrKey(name), Null));
  }

  /**
   * Item with one of the methods it inherits, `trashed` from the SoftDeletes
   * trait, which returns a bool rather than a relation.
   */
  const ItemWithTrashed := Item.(relations := Item.relations["trashed" := Other("bool")])

  /** An inherited method that is no relation is called, then rejected as an unfollowed kind before any change. */
  lemma JoinInheritedMethod()
    ensures JoinSteps(ItemWithTrashed, Empty, [(StrKey("trashed"), Null)]) ==
            JoinOutcome(Empty, ItemWithTrashed, Some(RelationNotFollowed))
  {
    PlainKey("trashed");
    JoinStepsSingle(ItemWithTrashed, Empty, (StrKey("trashed"), Null));
  }

  /** A string where a filter callback belongs aborts the join macro before any change, whatever the relation. */
  lemma JoinStringFilter(name: string, text: string)
    requires IsWord(name) && name in {"subItems", "catalogs", "users"}
    ensures JoinSteps(Item, Empty, [(StrKey(name), Str(text))]) == JoinOutcome(Empty, Item, Some(TypeError))
  {
    ItemRelations();
    PlainKey(name);
    JoinStepsSingle(Item, Empty, (StrKey(name), Str(text)));
  }

  /** The sub-query plan of a where-macro hop from items along `catalogs`. */
  function CatalogsPlan(filter: Option<Closure>): Plan
  {
    Plan(Catalogs, Catalog, "items.id",
         [JoinClause(Inner, "catalog_item",
                     [On("catalog_item.catalog_id", "catalogs.id")] +
                     (if filter.Some? then [FilteredOn(filter.value, Some("catalog_item"))] else []))],
         [], ["catalog_item.item_id"])
  }

  /** A where-macro hop from items along `catalogs`: the pivot joined with the filter inside, the item key selected. */
  lemma WhereHopCatalogs(filter: Option<Closure>)
    ensures HopPlan("items", Catalogs, filter) == CatalogsPlan(filter)
  {
    assert !SoftDeletesPivot(Catalogs);
    assert Column("catalog_item", "catalog_id") == "catalog_item.catalog_id" && Column("catalogs", "id") == "catalogs.id";
    assert Column("items", "id") == "items.id" && Column("catalog_item", "item_id") == "catalog_item.item_id";
    assert FilterJoinConditions(Catalogs, filter) ==
           [On("catalog_item.catalog_id", "catalogs.id")] +
           (if filter.Some? then [FilteredOn(filter.value, Some("catalog_item"))] else []);
  }

  /**
   * The controller's `whereRelatedTo(['catalogs' => f1])`: one sub-query on
   * catalogs that joins the pivot with f1 inside the join and selects the
   * item key, constraining `items.id`.
   */
  lemma ControllerWhereCatalogs(f1: Closure)
    ensures WhereSteps(Item, Collect(ListOf(Entries([(StrKey("catalogs"), Callback(f1))])))) ==
            WhereOutcome([CatalogsPlan(Some(f1))], None)
  {
    var e := (StrKey("catalogs"), Callback(f1));
    SingleEntry(e);
    assert WhereHop(Item, e) == Success(HopPlan("items", Catalogs, Some(f1))) by {
      ItemRelations();
      assert Resolve(Item, "catalogs", e.1) == Success((Catalogs, Some(f1)));
    }
    WhereHopCatalogs(Some(f1));
    WhereStepsSingle(Item, e);
  }

  /** The controller's `whereRelatedTo(['subItems' => f2])`: a sub-query on sub_items filtered by f2. */
  lemma ControllerWhereSubItems(f2: Closure)
    ensures WhereSteps(Item, Collect(ListOf(Entries([(StrKey("subItems"), Callback(f2))])))) ==
            WhereOutcome([Plan(SubItems, SubItem, "items.id", [], [Filtered(f2, None)], ["sub_items.item_id"])], None)
  {
    var e := (StrKey("subItems"), Callback(f2));
    SingleEntry(e);
    assert WhereHop(Item, e) == Success(HopPlan("items", SubItems, Some(f2))) by {
      ItemRelations();
      assert Resolve(Item, "subItems", e.1) == Success((SubItems, Some(f2)));
    }
    assert Column("items", "id") == "items.id" && Column("sub_items", "item_id") == "sub_items.item_id";
    WhereStepsSingle(Item, e);
  }

  /**
   * Line 224 of the join macro as written: once `catalogs` is joined, a
   * second `joinRelation(['catalogs' => f])` leaves the query as it was,
   * while the corrected hop puts f on the query with the pivot's name.
   */
  lemma RejoinCatalogsDropsFilter(f: Closure)
    ensures var s := QueryState(CatalogJoins(Inner, None), [], []);
            BelongsToManyHopAsWritten(s, "items", Catalogs, Some(f), Inner) == s &&
            BelongsToManyHop(s, "items", Catalogs, Some(f), Inner) == s.(wheres := [Filtered(f, Some("catalog_item"))])
  {
    var s := QueryState(CatalogJoins(Inner, None), [], []);
    assert s.joins[0].table == "catalog_item" && s.joins[1].table == "catalogs";
  }

  /** A dotted path of two different segments is two entries, each a relation name with no filter. */
  lemma TwoSegmentPath(a: string, b: string)
    requires '.' !in a && '.' !in b && a != b
    ensures Collect(ListOf(Dotted(a + "." + b))) == [(StrKey(a), Null), (StrKey(b), Null)]
  {
    ExplodeAfterSegment(a, b);
    ExplodeSegment(b);
    assert Explode(a + "." + b) == [a, b];
    DottedPath(a + "." + b);
  }

  /** The where macro on `users.profile` from Item: the many-to-many hop to users, then the has-one hop to profiles. */
  lemma UsersProfilePlans(path: seq<Entry>)
    requires path == [(StrKey("users"), Null), (StrKey("profile"), Null)]
    ensures WhereSteps(Item, path) ==
            WhereOutcome([HopPlan("items", Users, None), HopPlan("users", HasOne(Profile, "id", "user_id"), None)], None)
  {
    ItemRelations();
    var p0 := HopPlan("items", Users, None);
    assert WhereHop(Item, path[0]) == Success(p0) by {
      assert Resolve(Item, "users", Null) == Success((Users, None));
    }
    var p1 := HopPlan("users", HasOne(Profile, "id", "user_id"), None);
    assert WhereHop(User, path[1]) == Success(p1) by {
      assert Resolve(User, "profile", Null) == Success((HasOne(Profile, "id", "user_id"), None));
    }
    assert path[1..] == [path[1]];
    WhereStepsSingle(User, path[1]);
    WhereStepsFirst(Item, path);
  }

  /**
   * Line 150 of the where macro as written: on the path `users.profile` the
   * has-one hop's `whereIn` on `users.id` goes to the root query on items,
   * which has no users column; attached to the users sub-query it names
   * that sub-query's table.
   */
  lemma UsersProfileMisattached(path: seq<Entry>)
    requires path == [(StrKey("users"), Null), (StrKey("profile"), Null)]
    ensures var plans := WhereSteps(Item, path).plans;
            |plans| == 2 && plans[1].inColumn == "users.id" &&
            !IsColumnOf(plans[1].inColumn, ReceiverTable(Item, plans, ReceiverAsWritten(plans, 1))) &&
            IsColumnOf(plans[1].inColumn, ReceiverTable(Item, plans, Receiver(plans, 1)))
  {
    var plans := WhereSteps(Item, path).plans;
    assert |plans| == 2 && plans[0].related == User && plans[1].via.HasOne? && plans[1].inColumn == "users.id" by {
      UsersProfilePlans(path);
    }
    HasOneAsWrittenMisattached(Item, path, 1);
    InColumnsNameTheirQuery(Item, path);
  }

  /** The where macro on `users.groups` from Item: two many-to-many hops, to users and then to user_groups. */
  lemma UsersGroupsPlans(path: seq<Entry>, f: Closure)
    requires path == [(StrKey("users"), Null), (StrKey("groups"), Callback(f))]
    ensures WhereSteps(Item, path) ==
            WhereOutcome([HopPlan("items", Users, None), HopPlan("users", Groups, Some(f))], None)
  {
    ItemRelations();
    var p0 := HopPlan("items", Users, None);
    assert WhereHop(Item, path[0]) == Success(p0) by {
      assert Resolve(Item, "users", Null) == Success((Users, None));
    }
    var p1 := HopPlan("users", Groups, Some(f));
    assert WhereHop(User, path[1]) == Success(p1) by {
      assert Resolve(User, "groups", Callback(f)) == Success((Groups, Some(f)));
    }
    assert path[1..] == [path[1]];
    WhereStepsSingle(User, path[1]);
    WhereStepsFirst(Item, path);
  }

  /**
   * `whereRelatedTo(['users' => null, 'groups' => f])` on Item: as written,
   * the items query gains the users sub-query compiled before the groups
   * hop is attached to it, so f reaches nothing the items query holds; the
   * corrected walk nests the groups sub-query, and f with it.
   */
  lemma UsersGroupsLostAsWritten(path: seq<Entry>, f: Closure)
    requires path == [(StrKey("users"), Null), (StrKey("groups"), Callback(f))]
    ensures var plans := WhereSteps(Item, path).plans;
            var asWritten := RootPredicatesAsWritten(plans);
            |plans| == 2 && |asWritten| == 1 && asWritten[0].In? && asWritten[0].column == "items.id" &&
            !Reaches(asWritten[0].sub, f) &&
            Reaches(NestedWheres(plans)[0].sub, f)
  {
    var plans := WhereSteps(Item, path).plans;
    assert |plans| == 2 && !plans[1].via.HasOne? && plans[0].inColumn == "items.id" by {
      UsersGroupsPlans(path, f);
      assert Column("items", "id") == "items.id";
    }
    LaterFilterLostAsWritten(Item, path, f);
    NestedAppliesEveryFilter(Item, path);
    assert path[1].1.Callback? && path[1].1.filter == f;
  }
}
