/** What an eager load attaches, said of the tables: which rows, with which columns, in which order
    (backend/ent/account_query.go, the load methods and querySpec). */
module EdgeLaws {
  import opened Wrappers
  import opened Tables
  import opened Relational
  import opened EdgeQuery
  import opened EagerLoad
  import opened EagerLaws
  import opened GroupLoad
  import opened GroupLaws
  import opened Account
  import opened AccountQuery
  import opened QueryLaws

  // ----- which rows -----

  /** A row satisfies every condition of the user's query. */
  ghost predicate Satisfies(v: View, r: Row) {
    forall p :: p in v.predicates ==> p(r)
  }

  lemma SatisfiesHolds(v: View, r: Row)
    ensures Holds(v.predicates, r) <==> Satisfies(v, r)
  {
    if Satisfies(v, r) {
      forall i | 0 <= i < |v.predicates| ensures v.predicates[i](r) {
        assert v.predicates[i] in v.predicates;
      }
    }
  }

  lemma {:induction false} FilterCounts<T(!new)>(p: T -> bool, xs: seq<T>, x: T)
    ensures multiset(Filter(p, xs))[x] == if p(x) then multiset(xs)[x] else 0
  {
    if xs != [] {
      FilterCounts(p, xs[1..], x);
      assert xs == [xs[0]] + xs[1..];
    }
  }

  /** A query returns each row that satisfies it as often as the table has it, and no other. */
  lemma SelectedExactly(v: View, table: seq<Row>, r: Row)
    requires Unpaged(v)
    ensures multiset(Select(v, table))[r] == if Satisfies(v, r) then multiset(table)[r] else 0
  {
    var kept := Filter(Matching(v.predicates), table);
    FilterCounts(Matching(v.predicates), table, r);
    SatisfiesHolds(v, r);
    if v.order.Some? {
      SortByCorrect(v.order.value, kept);
    }
    assert Ordered(v.order, kept)[0..] == Ordered(v.order, kept);
  }

  // ----- in which order -----

  function KeyIsAt(key: Row -> int, k: int): Row -> bool {
    r => key(r) == k
  }

  lemma {:induction false} TiesStay(key: Row -> int, k: int, xs: seq<Row>)
    requires forall x :: x in xs ==> key(x) == k
    ensures SortBy(key, xs) == xs
  {
    if xs != [] {
      TiesStay(key, k, xs[1..]);
    }
  }

  /** Rows come in the order the query asks for, paged or not. */
  lemma SelectedSorted(v: View, table: seq<Row>)
    requires v.order.Some?
    ensures Sorted(v.order.value, Select(v, table))
  {
    SortByCorrect(v.order.value, Filter(Matching(v.predicates), table));
  }

  /** Rows that the order does not tell apart come as they stand in the table. */
  lemma TiesAsStored(v: View, table: seq<Row>, k: int)
    requires v.order.Some? && Unpaged(v)
    ensures Filter(KeyIsAt(v.order.value, k), Select(v, table)) ==
            Filter(Both(KeyIsAt(v.order.value, k), Matching(v.predicates)), table)
  {
    var key, kept := v.order.value, Filter(Matching(v.predicates), table);
    var tied := Filter(KeyIsAt(key, k), kept);
    FilterSort(KeyIsAt(key, k), key, kept);
    forall x | x in tied ensures key(x) == k {
      FilterMember(KeyIsAt(key, k), kept, x);
    }
    TiesStay(key, k, tied);
    FilterTwice(KeyIsAt(key, k), Matching(v.predicates), table);
    assert SortBy(key, kept)[0..] == SortBy(key, kept);
  }

  /** Without an order all rows come as they stand in the table. */
  lemma UnorderedAsStored(v: View, a: seq<Row>, b: seq<Row>)
    requires v.order.None? && Unpaged(v)
    ensures Select(v, a + b) == Select(v, a) + Select(v, b)
  {
    FilterAppend(Matching(v.predicates), a, b);
    forall xs: seq<Row> ensures xs[0..] == xs { }
  }

  // ----- with which columns -----

  /** A selected column: any if none was named, else those named, the id and the keys loading needs. */
  predicate Selected(v: View, idColumn: Option<string>, needed: seq<string>, c: string) {
    v.fields == [] || c in v.fields || idColumn == Some(c) || c in needed
  }

  /** An entity has exactly the selected columns of its row, with their values. */
  ghost predicate Shows(v: View, idColumn: Option<string>, needed: seq<string>, r: Row, e: Entity) {
    forall c ::
      (c in e <==> c in r && Selected(v, idColumn, needed, c)) && (c in e ==> e[c] == r[c])
  }

  lemma ProjectedExactly(v: View, idColumn: Option<string>, r: Row, e: Entity)
    ensures e == Project(ColumnsOf(v, idColumn), r) <==> Shows(v, idColumn, [], r, e)
  {
    if v.fields != [] {
      ColumnsSuffice(v.fields, idColumn, []);
    }
    if Shows(v, idColumn, [], r, e) {
      assert e == Project(ColumnsOf(v, idColumn), r);
    }
  }

  lemma ChildProjected(v: View, idColumn: Option<string>, r: Row, e: Entity)
    ensures e == Project(ColumnsOf(AppendFieldOnce(v, "account_id"), idColumn), r) <==>
            Shows(v, idColumn, ["account_id"], r, e)
  {
    var w := AppendFieldOnce(v, "account_id");
    ProjectedExactly(w, idColumn, r, e);
    assert forall c :: Selected(w, idColumn, [], c) <==> Selected(v, idColumn, ["account_id"], c);
  }

  // ----- one to many -----

  /** A row an account gets: it names the account and satisfies the user's query. */
  ghost predicate IsChild(v: View, table: seq<Row>, id: int, r: Row) {
    r in table && Field(r, "account_id") == id && Satisfies(v, r)
  }

  /** An account of a batch gets each row that names it and satisfies the user's query, as often as the
      table has it, in the query's order, with exactly the selected columns and the key. */
  lemma ChildrenExactly(v: View, idColumn: Option<string>, table: seq<Row>, ids: seq<int>, id: int)
    returns (rows: seq<Row>)
    requires Unpaged(v) && id in ids && idColumn != Some("account_id")
    ensures var got := Children(Run(ChildView(v, ids), idColumn, table), "account_id", id);
            |got| == |rows| && forall i :: 0 <= i < |rows| ==> Shows(v, idColumn, ["account_id"], rows[i], got[i])
    ensures forall r :: multiset(rows)[r] == if IsChild(v, table, id, r) then multiset(table)[r] else 0
    ensures v.order.Some? ==> Sorted(v.order.value, rows)
  {
    var all := Select(v, table);
    rows := Filter(HasKey("account_id", id), all);
    ChildrenAreTheJoin(v, idColumn, table, ids, id);
    forall i | 0 <= i < |rows|
      ensures Shows(v, idColumn, ["account_id"], rows[i], Joined(v, idColumn, table, id)[i])
    {
      ChildProjected(v, idColumn, rows[i], Joined(v, idColumn, table, id)[i]);
    }
    forall r ensures multiset(rows)[r] == if IsChild(v, table, id, r) then multiset(table)[r] else 0 {
      FilterCounts(HasKey("account_id", id), all, r);
      SelectedExactly(v, table, r);
    }
    if v.order.Some? {
      SelectedSorted(v, table);
      FilterSorted(HasKey("account_id", id), v.order.value, all);
    }
  }

  lemma {:induction false} FilterSorted(p: Row -> bool, key: Row -> int, xs: seq<Row>)
    requires Sorted(key, xs)
    ensures Sorted(key, Filter(p, xs))
  {
    if xs != [] {
      FilterSorted(p, key, xs[1..]);
      forall x | x in Filter(p, xs[1..]) ensures key(xs[0]) <= key(x) {
        FilterMember(p, xs[1..], x);
        var i :| 0 <= i < |xs[1..]| && xs[1..][i] == x;
        assert xs[i + 1] == x;
      }
    }
  }

  /** The children as a set of rows. */
  lemma ChildExactly(v: View, idColumn: Option<string>, table: seq<Row>, ids: seq<int>, id: int, e: Entity)
    requires Unpaged(v) && id in ids && idColumn != Some("account_id")
    ensures e in Children(Run(ChildView(v, ids), idColumn, table), "account_id", id) <==>
            exists r :: IsChild(v, table, id, r) && Shows(v, idColumn, ["account_id"], r, e)
  {
    var got := Children(Run(ChildView(v, ids), idColumn, table), "account_id", id);
    var rows := ChildrenExactly(v, idColumn, table, ids, id);
    forall r ensures r in rows <==> IsChild(v, table, id, r) {
      assert r in rows <==> multiset(rows)[r] > 0;
      assert r in table <==> multiset(table)[r] > 0;
    }
    if e in got {
      var i :| 0 <= i < |got| && got[i] == e;
      assert rows[i] in rows;
    }
    if r :| IsChild(v, table, id, r) && Shows(v, idColumn, ["account_id"], r, e) {
      var i :| 0 <= i < |rows| && rows[i] == r;
      ChildProjected(v, idColumn, r, e);
      ChildProjected(v, idColumn, r, got[i]);
    }
  }

  // ----- many to one -----

  /** The row of the parents' table that a key names, if the user's query lets it through. */
  ghost predicate IsParent(v: View, table: seq<Row>, k: int, r: Row) {
    r in table && Field(r, "id") == k && Satisfies(v, r)
  }

  /** Where ids are unique, a key leads to the row with that id exactly when the user's query lets it
      through, with exactly the selected columns. */
  lemma ParentExactly(v: View, table: seq<Row>, fks: seq<Option<int>>, k: int, e: Entity)
    requires Unpaged(v) && Some(k) in fks && UniqueIDs(table)
    ensures Referenced(ParentsFound(v, fks, table), Some(k)) == Some(e) <==>
            exists r :: IsParent(v, table, k, r) && Shows(v, Some("id"), [], r, e)
  {
    var all := Select(v, table);
    var named := Filter(HasKey("id", k), all);
    ParentIsTheReferencedRow(v, table, fks, k);
    UniqueIsKeyed(table);
    forall r ensures r in named <==> IsParent(v, table, k, r) {
      FilterMember(HasKey("id", k), all, r);
      SelectedExactly(v, table, r);
      assert r in all <==> multiset(all)[r] > 0;
      assert r in table <==> multiset(table)[r] > 0;
    }
    if named != [] {
      var r := named[|named| - 1];
      assert r in named;
      ProjectedExactly(v, Some("id"), r, e);
    }
  }

  // ----- many to many -----

  /** A group an account gets: the join table links it, and the user's query lets it through. */
  ghost predicate IsGroup(v: View, memberships: seq<Row>, groups: seq<Row>, id: int, r: Row) {
    r in groups && Linked(memberships, id, Field(r, "id")) && Satisfies(v, r)
  }

  lemma GroupRow(v: View, memberships: seq<Row>, groups: seq<Row>, ids: seq<int>, j: JoinRow)
    requires Unpaged(v)
    ensures j in SelectJoined(v, ids, Join(memberships, groups)) <==>
            j.owner in ids && IsGroup(v, memberships, groups, j.owner, j.row)
  {
    GroupLaws.Selected(v, ids, Join(memberships, groups), j);
    JoinMember(memberships, groups, j);
    SatisfiesHolds(v, j.row);
    if Linked(memberships, j.owner, GroupID(j)) {
      var m :| m in memberships && Field(m, "account_id") == j.owner && Field(m, "group_id") == GroupID(j);
      assert Pairs(m, j);
    }
  }

  lemma GroupFound(v: View, memberships: seq<Row>, groups: seq<Row>, ids: seq<int>, id: int, e: Entity)
    requires Unpaged(v) && id in ids && Keyed(groups)
    requires e in GroupsFor(ColumnsOf(v, Some("id")), SelectJoined(v, ids, Join(memberships, groups)), id)
    ensures exists r :: IsGroup(v, memberships, groups, id, r) && Shows(v, Some("id"), [], r, e)
  {
    var cols, rows := ColumnsOf(v, Some("id")), SelectJoined(v, ids, Join(memberships, groups));
    GroupColumns(v);
    GroupsOwnedOnly(cols, rows, id, e);
    var k :| 0 <= k < |rows| && rows[k].owner == id && GroupID(rows[k]) == Field(e, "id");
    var first := rows[FirstAt(rows, Field(e, "id"))];
    assert rows[k] in rows && first in rows;
    GroupRow(v, memberships, groups, ids, rows[k]);
    GroupRow(v, memberships, groups, ids, first);
    assert first.row == rows[k].row;
    ProjectedExactly(v, Some("id"), first.row, e);
  }

  lemma GroupGiven(v: View, memberships: seq<Row>, groups: seq<Row>, ids: seq<int>, id: int, r: Row, e: Entity)
    requires Unpaged(v) && id in ids && Keyed(groups)
    requires IsGroup(v, memberships, groups, id, r) && Shows(v, Some("id"), [], r, e)
    ensures e in GroupsFor(ColumnsOf(v, Some("id")), SelectJoined(v, ids, Join(memberships, groups)), id)
  {
    var cols, rows, j := ColumnsOf(v, Some("id")), SelectJoined(v, ids, Join(memberships, groups)), JoinRow(id, r);
    var g := Field(r, "id");
    GroupRow(v, memberships, groups, ids, j);
    assert Owns(rows, id, g) by {
      var k :| 0 <= k < |rows| && rows[k] == j;
      assert rows[k].owner == id && GroupID(rows[k]) == g;
    }
    GroupColumns(v);
    GroupsOwnedAll(cols, rows, id, g);
    var got := GroupsFor(cols, rows, id);
    var i :| 0 <= i < |got| && Field(got[i], "id") == g;
    assert got[i] in got;
    GroupFound(v, memberships, groups, ids, id, got[i]);
    var s :| IsGroup(v, memberships, groups, id, s) && Shows(v, Some("id"), [], s, got[i]);
    SameID(v, s, got[i]);
    assert s == r;
    ProjectedExactly(v, Some("id"), r, e);
    ProjectedExactly(v, Some("id"), r, got[i]);
  }

  lemma SameID(v: View, r: Row, e: Entity)
    requires Shows(v, Some("id"), [], r, e)
    ensures Field(e, "id") == Field(r, "id")
  {
    assert "id" in e <==> "id" in r && Selected(v, Some("id"), [], "id");
  }

  /** Where ids are unique, an account of a batch gets exactly the groups that the join table links to it
      and the user's query lets through, with exactly the selected columns. */
  lemma GroupExactly(v: View, memberships: seq<Row>, groups: seq<Row>, ids: seq<int>, id: int, e: Entity)
    requires Unpaged(v) && id in ids && UniqueIDs(groups)
    ensures e in GroupsFor(ColumnsOf(v, Some("id")), SelectJoined(v, ids, Join(memberships, groups)), id) <==>
            exists r :: IsGroup(v, memberships, groups, id, r) && Shows(v, Some("id"), [], r, e)
  {
    UniqueIsKeyed(groups);
    if e in GroupsFor(ColumnsOf(v, Some("id")), SelectJoined(v, ids, Join(memberships, groups)), id) {
      GroupFound(v, memberships, groups, ids, id, e);
    }
    if r :| IsGroup(v, memberships, groups, id, r) && Shows(v, Some("id"), [], r, e) {
      GroupGiven(v, memberships, groups, ids, id, r, e);
    }
  }

  // ----- whole accounts -----

  /** The usage logs and memberships of a loaded account, the last with its id, said of the tables. */
  lemma LoadedChildren(nodes: seq<Account>, all: seq<Fields>, db: Database, views: Views, i: nat, e: Entity)
    requires i < |nodes| && Loaded(nodes, all, db, views) && AllUnpaged(views) && IsLast(IDs(all), i)
    ensures e in nodes[i].usageLogs <==>
            views.usageLogs.Some? &&
            exists r :: IsChild(views.usageLogs.value, db.usageLogs, all[i].id, r) &&
                        Shows(views.usageLogs.value, Some("id"), ["account_id"], r, e)
    ensures e in nodes[i].accountGroups <==>
            views.accountGroups.Some? &&
            exists r :: IsChild(views.accountGroups.value, db.accountGroups, all[i].id, r) &&
                        Shows(views.accountGroups.value, None, ["account_id"], r, e)
  {
    var ids := IDs(all);
    if views.usageLogs.Some? {
      ChildExactly(views.usageLogs.value, Some("id"), db.usageLogs, ids, ids[i], e);
    }
    if views.accountGroups.Some? {
      ChildExactly(views.accountGroups.value, None, db.accountGroups, ids, ids[i], e);
    }
  }

  /** Its groups, where no earlier run has joined them. */
  lemma LoadedGroupsAre(nodes: seq<Account>, all: seq<Fields>, db: Database, views: Views, i: nat, e: Entity)
    requires i < |nodes| && Loaded(nodes, all, db, views) && AllUnpaged(views) && IsLast(IDs(all), i)
    requires views.joins == [] && UniqueIDs(db.groups)
    ensures e in nodes[i].groups <==>
            views.groups.Some? &&
            exists r :: IsGroup(views.groups.value, db.accountGroups, db.groups, all[i].id, r) &&
                        Shows(views.groups.value, Some("id"), [], r, e)
  {
    if views.groups.Some? {
      GroupExactly(views.groups.value, db.accountGroups, db.groups, IDs(all), IDs(all)[i], e);
    }
  }

  /** Its proxy. */
  lemma LoadedProxyIs(nodes: seq<Account>, all: seq<Fields>, db: Database, views: Views, i: nat, e: Entity)
    requires i < |nodes| && Loaded(nodes, all, db, views) && AllUnpaged(views) && UniqueIDs(db.proxies)
    ensures nodes[i].proxy == Some(e) <==>
            views.proxy.Some? && all[i].proxyID.Some? &&
            exists r :: IsParent(views.proxy.value, db.proxies, all[i].proxyID.value, r) &&
                        Shows(views.proxy.value, Some("id"), [], r, e)
  {
    var fks := ProxyIDs(all);
    if views.proxy.Some? {
      if fks[i].Some? {
        ParentExactly(views.proxy.value, db.proxies, fks, fks[i].value, e);
      } else {
        NothingReferenced(ParentsFound(views.proxy.value, fks, db.proxies));
      }
    }
  }
}
