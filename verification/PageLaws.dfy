/** Paged edge queries: a limit or an offset is shared by the whole batch. Exactly when a batch still
    gives each key what a query of its own gives it (backend/ent/account_query.go, the load methods). */
module PageLaws {
  import opened Wrappers
  import opened Tables
  import opened Relational
  import opened EdgeQuery
  import opened EagerLoad
  import opened EagerLaws
  import opened GroupLoad
  import opened GroupLaws

  // ----- pages of keyed rows -----

  function KeyIs<T(!new)>(key: T -> int, k: int): T -> bool {
    x => key(x) == k
  }

  function OfKey<T(!new)>(key: T -> int, k: int, xs: seq<T>): seq<T> {
    Filter(KeyIs(key, k), xs)
  }

  /** What a batch gives a key: its share of the common page. */
  function Share<T(!new)>(key: T -> int, k: int, limit: Option<nat>, offset: nat, xs: seq<T>): seq<T> {
    OfKey(key, k, Page(limit, offset, xs))
  }

  /** What a query of its own gives it: a page of its own rows. */
  function OwnPage<T(!new)>(key: T -> int, k: int, limit: Option<nat>, offset: nat, xs: seq<T>): seq<T> {
    Page(limit, offset, OfKey(key, k, xs))
  }

  ghost predicate AllOfKey<T(!new)>(key: T -> int, k: int, xs: seq<T>) {
    forall x :: x in xs ==> key(x) == k
  }

  ghost predicate OneKey<T(!new)>(key: T -> int, xs: seq<T>) {
    forall x, y :: x in xs && y in xs ==> key(x) == key(y)
  }

  lemma {:induction false} OfKeyLength<T(!new)>(key: T -> int, k: int, xs: seq<T>)
    ensures |OfKey(key, k, xs)| <= |xs|
    ensures |OfKey(key, k, xs)| == |xs| <==> AllOfKey(key, k, xs)
    ensures AllOfKey(key, k, xs) ==> OfKey(key, k, xs) == xs
    ensures |OfKey(key, k, xs)| == 0 <==> forall x :: x in xs ==> key(x) != k
  {
    if xs != [] {
      OfKeyLength(key, k, xs[1..]);
      assert forall x :: x in xs <==> x == xs[0] || x in xs[1..];
    }
  }

  lemma OfKeySplit<T(!new)>(key: T -> int, k: int, xs: seq<T>, n: nat)
    requires n <= |xs|
    ensures OfKey(key, k, xs) == OfKey(key, k, xs[..n]) + OfKey(key, k, xs[n..])
  {
    assert xs == xs[..n] + xs[n..];
    FilterAppend(KeyIs(key, k), xs[..n], xs[n..]);
  }

  /** A limit that keeps every row, or only rows of one key, does no harm; zero is no limit. */
  lemma HarmlessLimit<T(!new)>(key: T -> int, k: int, limit: nat, xs: seq<T>)
    requires limit == 0 || |xs| <= limit || OneKey(key, xs)
    ensures Share(key, k, Some(limit), 0, xs) == OwnPage(key, k, Some(limit), 0, xs)
  {
    var own := OfKey(key, k, xs);
    OfKeyLength(key, k, xs);
    assert xs[0..] == xs && own[0..] == own;
    if limit < |xs| && limit > 0 {
      var page := xs[..limit];
      assert forall x :: x in page ==> x in xs;
      OfKeyLength(key, k, page);
      if own != [] {
        assert own[0] in own;
        FilterMember(KeyIs(key, k), xs, own[0]);
        assert AllOfKey(key, k, xs) && AllOfKey(key, k, page);
      }
    }
  }

  /** Otherwise the key of the first row beyond the limit gets too little, or one with no row within
      the limit gets nothing. */
  lemma HarmfulLimit<T(!new)>(key: T -> int, limit: nat, xs: seq<T>) returns (k: int)
    requires 0 < limit < |xs| && !OneKey(key, xs)
    ensures exists x :: x in xs && key(x) == k
    ensures |Share(key, k, Some(limit), 0, xs)| < |OwnPage(key, k, Some(limit), 0, xs)|
  {
    var page, k0 := xs[..limit], key(xs[limit]);
    assert xs[0..] == xs && xs[limit] in xs;
    if AllOfKey(key, k0, page) {
      var other :| other in xs && key(other) != k0;
      k := key(other);
      OfKeyLength(key, k, page);
      OfKeyLength(key, k, xs);
    } else {
      k := k0;
      OfKeyLength(key, k, page);
      MoreBeyond(key, xs, limit);
    }
    assert OfKey(key, k, xs)[0..] == OfKey(key, k, xs);
  }

  lemma MoreBeyond<T(!new)>(key: T -> int, xs: seq<T>, n: nat)
    requires n < |xs|
    ensures |OfKey(key, key(xs[n]), xs[..n])| < |OfKey(key, key(xs[n]), xs)|
  {
    OfKeySplit(key, key(xs[n]), xs, n);
    OfKeyLength(key, key(xs[n]), xs[n..]);
    assert xs[n] in xs[n..];
  }

  ghost predicate Fair<T(!new)>(key: T -> int, ks: seq<int>, limit: Option<nat>, offset: nat, xs: seq<T>) {
    forall k :: k in ks ==> Share(key, k, limit, offset, xs) == OwnPage(key, k, limit, offset, xs)
  }

  /** A limited batch is fair exactly when the limit cuts nothing, or one key only. */
  lemma FairLimitExactly<T(!new)>(key: T -> int, ks: seq<int>, limit: nat, xs: seq<T>)
    requires forall x :: x in xs ==> key(x) in ks
    ensures Fair(key, ks, Some(limit), 0, xs) <==> limit == 0 || |xs| <= limit || OneKey(key, xs)
  {
    if limit == 0 || |xs| <= limit || OneKey(key, xs) {
      forall k { HarmlessLimit(key, k, limit, xs); }
    } else {
      var k := HarmfulLimit(key, limit, xs);
      assert k in ks;
    }
  }

  // ----- offsets -----

  /** The end of the page. */
  function End(limit: Option<nat>, offset: nat, size: nat): (n: nat)
    ensures n <= size
  {
    if Limits(limit) && offset + limit.value <= size then offset + limit.value else size
  }

  /** The rows up to the end of the page are those of one key, and no other key reaches past the
      offset with rows of its own. */
  ghost predicate OneKeyPaged<T(!new)>(key: T -> int, k: int, limit: Option<nat>, offset: nat, xs: seq<T>) {
    AllOfKey(key, k, xs[..End(limit, offset, |xs|)]) && forall l :: l != k ==> |OfKey(key, l, xs)| <= offset
  }

  lemma PageIs<T(!new)>(limit: Option<nat>, offset: nat, xs: seq<T>)
    ensures Page(limit, offset, xs) ==
            if offset < End(limit, offset, |xs|) then xs[offset..End(limit, offset, |xs|)] else []
  {
  }

  lemma OneKeyIsFair<T(!new)>(key: T -> int, k: int, l: int, limit: Option<nat>, offset: nat, xs: seq<T>)
    requires OneKeyPaged(key, k, limit, offset, xs)
    ensures Share(key, l, limit, offset, xs) == OwnPage(key, l, limit, offset, xs)
  {
    var end := End(limit, offset, |xs|);
    var page := Page(limit, offset, xs);
    PageIs(limit, offset, xs);
    assert AllOfKey(key, k, page) by {
      forall x | x in page ensures key(x) == k {
        assert x in xs[..end];
      }
    }
    OfKeyLength(key, l, page);
    if l == k {
      OfKeyLength(key, k, xs[..end]);
      OfKeySplit(key, k, xs, end);
      PageIs(limit, offset, OfKey(key, k, xs));
      if end == |xs| {
        assert xs[..end] == xs && xs[end..] == [];
      }
    }
  }

  lemma {:induction false} OfKeyDistinct<T(!new)>(key: T -> int, k: int, xs: seq<T>)
    requires Distinct(xs)
    ensures Distinct(OfKey(key, k, xs))
  {
    if xs != [] {
      OfKeyDistinct(key, k, xs[1..]);
      FilterMember(KeyIs(key, k), xs[1..], xs[0]);
      assert xs[0] !in xs[1..];
    }
  }

  /** The first row of a key within the page begins its share. */
  lemma ShareStart<T(!new)>(key: T -> int, n: nat, xs: seq<T>, limit: Option<nat>, offset: nat)
    requires offset <= n < End(limit, offset, |xs|)
    requires forall i :: offset <= i < n ==> key(xs[i]) != key(xs[n])
    ensures var share := Share(key, key(xs[n]), limit, offset, xs); share != [] && share[0] == xs[n]
  {
    var k, page := key(xs[n]), xs[offset..End(limit, offset, |xs|)];
    PageIs(limit, offset, xs);
    OfKeySplit(key, k, page, n - offset);
    OfKeyLength(key, k, page[..n - offset]);
    assert page[n - offset..][0] == xs[n];
  }

  lemma OwnPosition<T(!new)>(key: T -> int, n: nat, xs: seq<T>)
    requires n < |xs|
    ensures var before := |OfKey(key, key(xs[n]), xs[..n])|;
            before < |OfKey(key, key(xs[n]), xs)| && OfKey(key, key(xs[n]), xs)[before] == xs[n]
  {
    OfKeySplit(key, key(xs[n]), xs, n);
    assert xs[n..][0] == xs[n];
  }

  /** If the share begins as the key's own page does, the offset skips just the key's earlier rows. */
  lemma FairStart<T(!new)>(key: T -> int, n: nat, xs: seq<T>, limit: Option<nat>, offset: nat)
    requires Distinct(xs) && offset <= n < End(limit, offset, |xs|)
    requires forall i :: offset <= i < n ==> key(xs[i]) != key(xs[n])
    requires Share(key, key(xs[n]), limit, offset, xs) == OwnPage(key, key(xs[n]), limit, offset, xs)
    ensures |OfKey(key, key(xs[n]), xs[..n])| == offset
  {
    var own := OfKey(key, key(xs[n]), xs);
    ShareStart(key, n, xs, limit, offset);
    PageIs(limit, offset, own);
    assert own[offset] == xs[n];
    OwnPosition(key, n, xs);
    OfKeyDistinct(key, key(xs[n]), xs);
  }

  /** A further row of the page must have the key of all rows before it. */
  lemma FairNext<T(!new)>(key: T -> int, ks: seq<int>, limit: Option<nat>, offset: nat, xs: seq<T>, k: int, m: nat)
    requires offset > 0 && Distinct(xs) && Fair(key, ks, limit, offset, xs)
    requires offset <= m < End(limit, offset, |xs|) && AllOfKey(key, k, xs[..m]) && key(xs[m]) in ks
    ensures key(xs[m]) == k
  {
    forall i | offset <= i < m ensures key(xs[i]) == k {
      assert xs[..m][i] == xs[i];
    }
    if key(xs[m]) != k {
      FairStart(key, m, xs, limit, offset);
      OfKeyLength(key, key(xs[m]), xs[..m]);
    }
  }

  lemma {:induction false} FairRowsShareKey<T(!new)>(key: T -> int, ks: seq<int>, limit: Option<nat>, offset: nat,
                                                     xs: seq<T>, m: nat)
    requires offset > 0 && Distinct(xs) && (forall x :: x in xs ==> key(x) in ks)
    requires Fair(key, ks, limit, offset, xs) && offset <= m <= End(limit, offset, |xs|) && offset < |xs|
    requires offset < End(limit, offset, |xs|)
    ensures AllOfKey(key, key(xs[offset]), xs[..m])
    decreases m
  {
    var k := key(xs[offset]);
    if m == offset {
      FairStart(key, offset, xs, limit, offset);
      OfKeyLength(key, k, xs[..offset]);
    } else {
      FairRowsShareKey(key, ks, limit, offset, xs, m - 1);
      assert xs[m - 1] in xs;
      FairNext(key, ks, limit, offset, xs, k, m - 1);
      assert xs[..m] == xs[..m - 1] + [xs[m - 1]];
    }
  }

  lemma FairOthersFew<T(!new)>(key: T -> int, ks: seq<int>, limit: Option<nat>, offset: nat, xs: seq<T>, k: int, l: int)
    requires (forall x :: x in xs ==> key(x) in ks) && Fair(key, ks, limit, offset, xs)
    requires AllOfKey(key, k, xs[..End(limit, offset, |xs|)]) && l != k && offset < |xs|
    ensures |OfKey(key, l, xs)| <= offset
  {
    OfKeyLength(key, l, xs);
    if l in ks {
      var end := End(limit, offset, |xs|);
      PageIs(limit, offset, xs);
      forall x | x in xs[offset..end] ensures key(x) == k {
        assert x in xs[..end];
      }
      OfKeyLength(key, l, xs[offset..end]);
      PageIs(limit, offset, OfKey(key, l, xs));
    }
  }

  lemma FairIsOneKey<T(!new)>(key: T -> int, ks: seq<int>, limit: Option<nat>, offset: nat, xs: seq<T>)
    requires offset > 0 && Distinct(xs) && (forall x :: x in xs ==> key(x) in ks)
    requires Fair(key, ks, limit, offset, xs) && offset < |xs|
    ensures OneKeyPaged(key, key(xs[offset]), limit, offset, xs)
  {
    var k := key(xs[offset]);
    FairRowsShareKey(key, ks, limit, offset, xs, End(limit, offset, |xs|));
    forall l | l != k { FairOthersFew(key, ks, limit, offset, xs, k, l); }
  }

  /** A batch with an offset is fair exactly when it returns nothing, or when the rows up to the end
      of its page are of one key and no other key has more rows than the offset. */
  lemma FairPageExactly<T(!new)>(key: T -> int, ks: seq<int>, limit: Option<nat>, offset: nat, xs: seq<T>)
    requires offset > 0 && Distinct(xs) && (forall x :: x in xs ==> key(x) in ks)
    ensures Fair(key, ks, limit, offset, xs) <==>
            |xs| <= offset || exists k :: OneKeyPaged(key, k, limit, offset, xs)
  {
    if |xs| <= offset {
      forall k { EmptyPages(key, k, limit, offset, xs); }
    } else if k :| OneKeyPaged(key, k, limit, offset, xs) {
      forall l { OneKeyIsFair(key, k, l, limit, offset, xs); }
    } else if Fair(key, ks, limit, offset, xs) {
      FairIsOneKey(key, ks, limit, offset, xs);
    }
  }

  lemma EmptyPages<T(!new)>(key: T -> int, k: int, limit: Option<nat>, offset: nat, xs: seq<T>)
    requires |xs| <= offset
    ensures Share(key, k, limit, offset, xs) == [] && OwnPage(key, k, limit, offset, xs) == []
  {
    OfKeyLength(key, k, xs);
    PageIs(limit, offset, xs);
    PageIs(limit, offset, OfKey(key, k, xs));
  }

  // ----- one to many -----

  /** The query without its page. */
  function Unlimited(v: View): View {
    v.(limit := None, offset := 0)
  }

  function KeyOf(column: string): Entity -> int {
    e => Field(e, column)
  }

  lemma KeyAsField(column: string, k: int, xs: seq<Entity>)
    ensures OfKey(KeyOf(column), k, xs) == Filter(HasKey(column, k), xs)
  {
    FilterAgree(KeyIs(KeyOf(column), k), HasKey(column, k), xs);
  }

  lemma MapPage(f: Row -> Entity, limit: Option<nat>, offset: nat, rows: seq<Row>)
    ensures Map(f, Page(limit, offset, rows)) == Page(limit, offset, Map(f, rows))
  {
  }

  /** A paged query returns a page of what it returns without the page. */
  lemma RunIsPage(v: View, idColumn: Option<string>, table: seq<Row>)
    ensures Run(v, idColumn, table) == Page(v.limit, v.offset, Run(Unlimited(v), idColumn, table))
  {
    var all := Select(Unlimited(v), table);
    assert Ordered(v.order, Filter(Matching(v.predicates), table))[0..] ==
           Ordered(v.order, Filter(Matching(v.predicates), table));
    assert ColumnsOf(v, idColumn) == ColumnsOf(Unlimited(v), idColumn);
    MapPage(Projection(ColumnsOf(v, idColumn)), v.limit, v.offset, all);
  }

  /** The rows of the batch before its page is cut. */
  function BatchRows(v: View, idColumn: Option<string>, table: seq<Row>, ids: seq<int>): seq<Entity> {
    Run(ChildView(Unlimited(v), ids), idColumn, table)
  }

  lemma AloneIsOfKey(v: View, idColumn: Option<string>, table: seq<Row>, ids: seq<int>, id: int)
    requires id in ids && idColumn != Some("account_id")
    ensures BatchRows(v, idColumn, table, [id]) == OfKey(KeyOf("account_id"), id, BatchRows(v, idColumn, table, ids))
  {
    var u := Unlimited(v);
    var alone := BatchRows(v, idColumn, table, [id]);
    KeyAsField("account_id", id, BatchRows(v, idColumn, table, ids));
    ChildrenAreTheJoin(u, idColumn, table, ids, id);
    ChildrenAreTheJoin(u, idColumn, table, [id], id);
    KeyAsField("account_id", id, alone);
    ChildrenHaveParents(u, idColumn, [id], table);
    OfKeyLength(KeyOf("account_id"), id, alone);
  }

  /** What an account gets of a paged batch, and what it gets alone. */
  lemma PagedChildren(v: View, idColumn: Option<string>, table: seq<Row>, ids: seq<int>, id: int)
    requires id in ids && idColumn != Some("account_id")
    ensures var rows := BatchRows(v, idColumn, table, ids);
            Children(Run(ChildView(v, ids), idColumn, table), "account_id", id) ==
            Share(KeyOf("account_id"), id, v.limit, v.offset, rows) &&
            Children(Run(ChildView(v, [id]), idColumn, table), "account_id", id) ==
            OwnPage(KeyOf("account_id"), id, v.limit, v.offset, rows)
  {
    assert Unlimited(ChildView(v, ids)) == ChildView(Unlimited(v), ids);
    assert Unlimited(ChildView(v, [id])) == ChildView(Unlimited(v), [id]);
    RunIsPage(ChildView(v, ids), idColumn, table);
    RunIsPage(ChildView(v, [id]), idColumn, table);
    AloneIsOfKey(v, idColumn, table, ids, id);
    var alone := Run(ChildView(v, [id]), idColumn, table);
    KeyAsField("account_id", id, Run(ChildView(v, ids), idColumn, table));
    KeyAsField("account_id", id, alone);
    ChildrenHaveParents(v, idColumn, [id], table);
    OfKeyLength(KeyOf("account_id"), id, alone);
  }

  /** Every account of the batch gets what it gets alone. */
  ghost predicate ChildrenFair(v: View, idColumn: Option<string>, table: seq<Row>, ids: seq<int>) {
    forall id :: id in ids ==>
      Children(Run(ChildView(v, ids), idColumn, table), "account_id", id) ==
      Children(Run(ChildView(v, [id]), idColumn, table), "account_id", id)
  }

  lemma ChildrenFairIsFair(v: View, idColumn: Option<string>, table: seq<Row>, ids: seq<int>)
    requires idColumn != Some("account_id")
    ensures ChildrenFair(v, idColumn, table, ids) <==>
            Fair(KeyOf("account_id"), ids, v.limit, v.offset, BatchRows(v, idColumn, table, ids))
    ensures forall e :: e in BatchRows(v, idColumn, table, ids) ==> KeyOf("account_id")(e) in ids
  {
    forall id | id in ids { PagedChildren(v, idColumn, table, ids, id); }
    ChildrenHaveParents(Unlimited(v), idColumn, ids, table);
  }

  /** With a limit, every account of a batch gets what it gets alone exactly when there is none,
      or it keeps all rows of the batch, or the rows are of one account. */
  lemma LimitIsFairExactly(v: View, idColumn: Option<string>, table: seq<Row>, ids: seq<int>)
    requires idColumn != Some("account_id") && v.limit.Some? && v.offset == 0
    ensures var rows := BatchRows(v, idColumn, table, ids);
            ChildrenFair(v, idColumn, table, ids) <==>
            v.limit.value == 0 || |rows| <= v.limit.value || OneKey(KeyOf("account_id"), rows)
  {
    ChildrenFairIsFair(v, idColumn, table, ids);
    FairLimitExactly(KeyOf("account_id"), ids, v.limit.value, BatchRows(v, idColumn, table, ids));
  }

  // ----- the rows behind the children -----

  /** The rows of the batch before its page is cut and before projection. */
  function SelectedRows(v: View, table: seq<Row>, ids: seq<int>): seq<Row> {
    Select(ChildView(Unlimited(v), ids), table)
  }

  /** Every account of the batch gets the rows it gets alone. */
  ghost predicate RowsFair(v: View, table: seq<Row>, ids: seq<int>) {
    forall id :: id in ids ==>
      Filter(HasKey("account_id", id), Select(ChildView(v, ids), table)) == Select(ChildView(v, [id]), table)
  }

  lemma SelectIsPage(v: View, table: seq<Row>)
    ensures Select(v, table) == Page(v.limit, v.offset, Select(Unlimited(v), table))
  {
    var all := Ordered(v.order, Filter(Matching(v.predicates), table));
    assert all[0..] == all;
  }

  lemma SelectedAlone(v: View, table: seq<Row>, ids: seq<int>, id: int)
    requires id in ids
    ensures SelectedRows(v, table, [id]) == OfKey(KeyOf("account_id"), id, SelectedRows(v, table, ids))
  {
    var w := AppendFieldOnce(Unlimited(v), "account_id");
    SelectWhere(w, ColumnIn("account_id", [id]), table);
    FilterAgree(ColumnIn("account_id", [id]), HasKey("account_id", id), Select(w, table));
    BatchOfOne(w, "account_id", ids, id, table);
    KeyAsField("account_id", id, SelectedRows(v, table, ids));
  }

  lemma PagedRows(v: View, table: seq<Row>, ids: seq<int>, id: int)
    requires id in ids
    ensures var rows := SelectedRows(v, table, ids);
            Filter(HasKey("account_id", id), Select(ChildView(v, ids), table)) ==
            Share(KeyOf("account_id"), id, v.limit, v.offset, rows) &&
            Select(ChildView(v, [id]), table) == OwnPage(KeyOf("account_id"), id, v.limit, v.offset, rows)
  {
    SelectIsPage(ChildView(v, ids), table);
    SelectIsPage(ChildView(v, [id]), table);
    assert Unlimited(ChildView(v, ids)) == ChildView(Unlimited(v), ids);
    assert Unlimited(ChildView(v, [id])) == ChildView(Unlimited(v), [id]);
    SelectedAlone(v, table, ids, id);
    KeyAsField("account_id", id, Select(ChildView(v, ids), table));
  }

  lemma RowsFairIsFair(v: View, table: seq<Row>, ids: seq<int>)
    ensures RowsFair(v, table, ids) <==>
            Fair(KeyOf("account_id"), ids, v.limit, v.offset, SelectedRows(v, table, ids))
    ensures forall r :: r in SelectedRows(v, table, ids) ==> KeyOf("account_id")(r) in ids
  {
    forall id | id in ids { PagedRows(v, table, ids, id); }
    forall r | r in SelectedRows(v, table, ids) ensures Field(r, "account_id") in ids {
      SelectedRow(ChildView(Unlimited(v), ids), table, r);
      HoldsWhere(AppendFieldOnce(Unlimited(v), "account_id"), ColumnIn("account_id", ids), r);
    }
  }

  /** What an account gets is the projection of its rows. */
  lemma ChildrenOfRows(v: View, idColumn: Option<string>, table: seq<Row>, ids: seq<int>, id: int)
    requires idColumn != Some("account_id")
    ensures Children(Run(ChildView(v, ids), idColumn, table), "account_id", id) ==
            Map(Projection(ColumnsOf(AppendFieldOnce(v, "account_id"), idColumn)),
                Filter(HasKey("account_id", id), Select(ChildView(v, ids), table)))
  {
    ChildColumns(v, idColumn);
    FilterProjected(ColumnsOf(AppendFieldOnce(v, "account_id"), idColumn), "account_id", id,
                    Select(ChildView(v, ids), table));
  }

  /** A query of its own returns only an account's own rows. */
  lemma AloneIsOwn(v: View, table: seq<Row>, id: int)
    ensures Filter(HasKey("account_id", id), Select(ChildView(v, [id]), table)) == Select(ChildView(v, [id]), table)
  {
    var alone := Select(ChildView(v, [id]), table);
    KeyAsField("account_id", id, alone);
    forall r | r in alone ensures Field(r, "account_id") == id {
      SelectedRow(ChildView(v, [id]), table, r);
      HoldsWhere(AppendFieldOnce(v, "account_id"), ColumnIn("account_id", [id]), r);
    }
    OfKeyLength(KeyOf("account_id"), id, alone);
  }

  /** The same rows are the same children, whatever is projected. */
  lemma RowsFairIsEnough(v: View, idColumn: Option<string>, table: seq<Row>, ids: seq<int>)
    requires idColumn != Some("account_id") && RowsFair(v, table, ids)
    ensures ChildrenFair(v, idColumn, table, ids)
  {
    forall id | id in ids
      ensures Children(Run(ChildView(v, ids), idColumn, table), "account_id", id) ==
              Children(Run(ChildView(v, [id]), idColumn, table), "account_id", id)
    {
      ChildrenOfRows(v, idColumn, table, ids, id);
      ChildrenOfRows(v, idColumn, table, [id], id);
      AloneIsOwn(v, table, id);
    }
  }

  lemma {:induction false} FilterDistinct<T(!new)>(p: T -> bool, xs: seq<T>)
    requires Distinct(xs)
    ensures Distinct(Filter(p, xs))
  {
    if xs != [] {
      FilterDistinct(p, xs[1..]);
      FilterMember(p, xs[1..], xs[0]);
      assert xs[0] !in xs[1..];
    }
  }

  lemma {:induction false} DistinctCounts<T(!new)>(xs: seq<T>, x: T)
    requires Distinct(xs)
    ensures multiset(xs)[x] <= 1
  {
    if xs != [] {
      DistinctCounts(xs[1..], x);
      assert xs == [xs[0]] + xs[1..];
      assert xs[0] !in xs[1..];
    }
  }

  lemma CountsDistinct<T(!new)>(xs: seq<T>)
    requires forall x :: multiset(xs)[x] <= 1
    ensures Distinct(xs)
  {
    forall i, j | 0 <= i < j < |xs| ensures xs[i] != xs[j] {
      assert xs == xs[..j] + xs[j..];
      assert xs[i] in xs[..j] && xs[j] in xs[j..];
      assert multiset(xs)[xs[i]] == multiset(xs[..j])[xs[i]] + multiset(xs[j..])[xs[i]];
    }
  }

  lemma SelectedDistinct(v: View, table: seq<Row>)
    requires Distinct(table) && Unpaged(v)
    ensures Distinct(Select(v, table))
  {
    var kept := Filter(Matching(v.predicates), table);
    FilterDistinct(Matching(v.predicates), table);
    if v.order.Some? {
      SortByCorrect(v.order.value, kept);
      forall r { DistinctCounts(kept, r); }
      CountsDistinct(SortBy(v.order.value, kept));
    }
    assert Ordered(v.order, kept)[0..] == Ordered(v.order, kept);
  }

  /** With an offset every account gets the rows it gets alone exactly when the page is empty, or the
      rows up to its end are of one account and no other account has more rows than the offset. */
  lemma OffsetIsFairExactly(v: View, table: seq<Row>, ids: seq<int>)
    requires v.offset > 0 && Distinct(table)
    ensures var rows := SelectedRows(v, table, ids);
            RowsFair(v, table, ids) <==>
            |rows| <= v.offset || exists id :: OneKeyPaged(KeyOf("account_id"), id, v.limit, v.offset, rows)
  {
    RowsFairIsFair(v, table, ids);
    SelectedDistinct(ChildView(Unlimited(v), ids), table);
    FairPageExactly(KeyOf("account_id"), ids, v.limit, v.offset, SelectedRows(v, table, ids));
  }

  /** The same of what is left of the rows after projection, where no two of them coincide. */
  lemma ProjectedOffsetIsFairExactly(v: View, idColumn: Option<string>, table: seq<Row>, ids: seq<int>)
    requires idColumn != Some("account_id") && v.offset > 0 && Distinct(BatchRows(v, idColumn, table, ids))
    ensures var rows := BatchRows(v, idColumn, table, ids);
            ChildrenFair(v, idColumn, table, ids) <==>
            |rows| <= v.offset || exists id :: OneKeyPaged(KeyOf("account_id"), id, v.limit, v.offset, rows)
  {
    ChildrenFairIsFair(v, idColumn, table, ids);
    FairPageExactly(KeyOf("account_id"), ids, v.limit, v.offset, BatchRows(v, idColumn, table, ids));
  }

  lemma TwoRows(v: View, a: Row, b: Row)
    requires v == View([], [], None, None, 0) && Field(a, "account_id") == 1 && Field(b, "account_id") == 2
    ensures BatchRows(v, None, [a, b], [1, 2]) == [a, b]
  {
    var q, p := ChildView(v, [1, 2]), ColumnIn("account_id", [1, 2]);
    var both, last := [a, b], [b];
    forall r { HoldsWhere(v, p, r); }
    FilterAgree(Matching(q.predicates), p, both);
    assert both[1..] == last && last[1..] == [];
    assert Filter(p, last) == last;
    assert Select(q, both) == both;
    MapIdentity(Projection([]), both);
  }

  lemma TwoOfKey(a: Row, b: Row)
    requires Field(a, "account_id") == 1 && Field(b, "account_id") == 2
    ensures OfKey(KeyOf("account_id"), 2, [a]) == [] && OfKey(KeyOf("account_id"), 2, [a, b]) == [b]
  {
    var key, both, first, last := KeyOf("account_id"), [a, b], [a], [b];
    OfKeySplit(key, 2, both, 1);
    assert both[..1] == first && both[1..] == last;
    OfKeyLength(key, 2, first);
    OfKeyLength(key, 2, last);
  }

  /** One limit shared by two accounts: the second gets nothing, and would get its row alone. */
  lemma LimitIsShared(a: Row, b: Row)
    requires Field(a, "account_id") == 1 && Field(b, "account_id") == 2
    ensures var v := View([], [], None, Some(1), 0);
            Children(Run(ChildView(v, [1, 2]), None, [a, b]), "account_id", 2) == [] &&
            Children(Run(ChildView(v, [2]), None, [a, b]), "account_id", 2) == [b]
  {
    var v, key := View([], [], None, Some(1), 0), KeyOf("account_id");
    assert BatchRows(v, None, [a, b], [1, 2]) == [a, b] by {
      TwoRows(Unlimited(v), a, b);
    }
    PagedChildren(v, None, [a, b], [1, 2], 2);
    assert Share(key, 2, Some(1), 0, [a, b]) == [] && OwnPage(key, 2, Some(1), 0, [a, b]) == [b] by {
      TwoOfKey(a, b);
      PageIs(Some(1), 0, [a, b]);
      PageIs(Some(1), 0, [b]);
    }
  }

  // ----- many to one -----

  /** The parents a batch of keys finds before its page is cut. */
  function ParentRows(v: View, table: seq<Row>, fks: seq<Option<int>>): seq<Entity> {
    ParentsFound(Unlimited(v), fks, table)
  }

  ghost predicate DistinctIDs(rows: seq<Entity>) {
    forall i, j :: 0 <= i < j < |rows| ==> Field(rows[i], "id") != Field(rows[j], "id")
  }

  /** Where a key leads, asked for among others. */
  function LeadsTo(v: View, table: seq<Row>, fks: seq<Option<int>>, k: int): Option<Entity> {
    Referenced(ParentsFound(v, fks, table), Some(k))
  }

  /** Every key of the batch leads where it leads alone. */
  ghost predicate ParentsFair(v: View, table: seq<Row>, fks: seq<Option<int>>) {
    forall k :: Some(k) in fks ==> LeadsTo(v, table, fks, k) == LeadsTo(v, table, [Some(k)], k)
  }

  lemma KeyAmong(fks: seq<Option<int>>, k: int)
    ensures k in Keys(fks, |fks|) <==> Some(k) in fks
  {
    KeysCorrect(fks, |fks|);
    assert fks[..|fks|] == fks;
  }

  lemma ParentsArePage(v: View, table: seq<Row>, fks: seq<Option<int>>)
    requires Keys(fks, |fks|) != []
    ensures ParentsFound(v, fks, table) == Page(v.limit, v.offset, ParentRows(v, table, fks))
  {
    assert Unlimited(ParentView(v, fks)) == ParentView(Unlimited(v), fks);
    RunIsPage(ParentView(v, fks), Some("id"), table);
  }

  lemma ParentAloneIsOfKey(v: View, table: seq<Row>, fks: seq<Option<int>>, k: int)
    requires Some(k) in fks
    ensures ParentRows(v, table, [Some(k)]) == OfKey(KeyOf("id"), k, ParentRows(v, table, fks))
  {
    var u, one := Unlimited(v), [Some(k)];
    var alone := ParentRows(v, table, one);
    KeyAmong(fks, k);
    KeyAmong(one, k);
    FoundForKey(u, table, fks, k);
    FoundForKey(u, table, one, k);
    KeyAsField("id", k, ParentRows(v, table, fks));
    KeyAsField("id", k, alone);
    forall e | e in alone ensures Field(e, "id") == k {
      ParentWasAsked(u, one, table, e);
      KeyAmong(one, Field(e, "id"));
    }
    OfKeyLength(KeyOf("id"), k, alone);
  }

  lemma LeadsToLast(v: View, table: seq<Row>, fks: seq<Option<int>>, k: int)
    requires Some(k) in fks
    ensures LeadsTo(v, table, fks, k) == Last(OfKey(KeyOf("id"), k, Page(v.limit, v.offset, ParentRows(v, table, fks))))
  {
    assert Keys(fks, |fks|) != [] by {
      KeyAmong(fks, k);
    }
    ParentsArePage(v, table, fks);
    ReferencedIsLast(ParentsFound(v, fks, table), k);
    KeyAsField("id", k, ParentsFound(v, fks, table));
  }

  lemma OwnPageOfKey<T(!new)>(key: T -> int, k: int, limit: Option<nat>, offset: nat, xs: seq<T>)
    ensures OfKey(key, k, OwnPage(key, k, limit, offset, xs)) == OwnPage(key, k, limit, offset, xs)
  {
    var own := OfKey(key, k, xs);
    forall x | x in own ensures key(x) == k {
      FilterMember(KeyIs(key, k), xs, x);
    }
    PageIs(limit, offset, own);
    OfKeyLength(key, k, OwnPage(key, k, limit, offset, xs));
  }

  lemma PagedParents(v: View, table: seq<Row>, fks: seq<Option<int>>, k: int)
    requires Some(k) in fks
    ensures var rows := ParentRows(v, table, fks);
            LeadsTo(v, table, fks, k) == Last(Share(KeyOf("id"), k, v.limit, v.offset, rows)) &&
            LeadsTo(v, table, [Some(k)], k) == Last(OwnPage(KeyOf("id"), k, v.limit, v.offset, rows))
  {
    LeadsToLast(v, table, fks, k);
    LeadsToLast(v, table, [Some(k)], k);
    ParentAloneIsOfKey(v, table, fks, k);
    OwnPageOfKey(KeyOf("id"), k, v.limit, v.offset, ParentRows(v, table, fks));
  }

  lemma {:induction false} AtMostOne(rows: seq<Entity>, k: int)
    requires DistinctIDs(rows)
    ensures |OfKey(KeyOf("id"), k, rows)| <= 1
  {
    if rows != [] {
      AtMostOne(rows[1..], k);
      if Field(rows[0], "id") == k {
        OfKeyLength(KeyOf("id"), k, rows[1..]);
      }
    }
  }

  lemma DistinctPage(rows: seq<Entity>, limit: Option<nat>, offset: nat)
    requires DistinctIDs(rows)
    ensures DistinctIDs(Page(limit, offset, rows))
  {
    PageIs(limit, offset, rows);
  }

  /** Both are at most one row, so the last says it all. */
  lemma AtMostOneEach(rows: seq<Entity>, k: int, limit: Option<nat>, offset: nat)
    requires DistinctIDs(rows)
    ensures var share, own := Share(KeyOf("id"), k, limit, offset, rows), OwnPage(KeyOf("id"), k, limit, offset, rows);
            Last(share) == Last(own) <==> share == own
  {
    AtMostOne(rows, k);
    DistinctPage(rows, limit, offset);
    AtMostOne(Page(limit, offset, rows), k);
    PageIs(limit, offset, OfKey(KeyOf("id"), k, rows));
  }

  lemma ParentFair(v: View, table: seq<Row>, fks: seq<Option<int>>, k: int)
    requires DistinctIDs(ParentRows(v, table, fks)) && Some(k) in fks
    ensures var rows := ParentRows(v, table, fks);
            LeadsTo(v, table, fks, k) == LeadsTo(v, table, [Some(k)], k) <==>
            Share(KeyOf("id"), k, v.limit, v.offset, rows) == OwnPage(KeyOf("id"), k, v.limit, v.offset, rows)
  {
    PagedParents(v, table, fks, k);
    AtMostOneEach(ParentRows(v, table, fks), k, v.limit, v.offset);
  }

  lemma ParentKeys(v: View, table: seq<Row>, fks: seq<Option<int>>)
    ensures forall e :: e in ParentRows(v, table, fks) ==> KeyOf("id")(e) in Keys(fks, |fks|)
  {
    forall e | e in ParentRows(v, table, fks) { ParentWasAsked(Unlimited(v), fks, table, e); }
  }

  lemma ParentsFairIsFair(v: View, table: seq<Row>, fks: seq<Option<int>>)
    requires DistinctIDs(ParentRows(v, table, fks))
    ensures ParentsFair(v, table, fks) <==>
            Fair(KeyOf("id"), Keys(fks, |fks|), v.limit, v.offset, ParentRows(v, table, fks))
  {
    forall k ensures k in Keys(fks, |fks|) <==> Some(k) in fks { KeyAmong(fks, k); }
    forall k | Some(k) in fks { ParentFair(v, table, fks, k); }
  }

  lemma DistinctIDsDistinct(rows: seq<Entity>)
    requires DistinctIDs(rows)
    ensures Distinct(rows) && (OneKey(KeyOf("id"), rows) ==> |rows| <= 1)
  {
    if |rows| > 1 {
      assert rows[0] in rows && rows[1] in rows && KeyOf("id")(rows[0]) != KeyOf("id")(rows[1]);
    }
  }

  lemma NotOneKeyPaged(rows: seq<Entity>, k: int, limit: Option<nat>, offset: nat)
    requires DistinctIDs(rows) && 0 < offset < |rows|
    ensures !OneKeyPaged(KeyOf("id"), k, limit, offset, rows)
  {
    var page := rows[..End(limit, offset, |rows|)];
    assert page[0] in page && page[1] in page && KeyOf("id")(page[0]) != KeyOf("id")(page[1]);
  }

  /** With a page on the parents, every key leads where it leads alone exactly when the page takes
      nothing of what the batch finds, or all of it. */
  lemma ParentPageIsFairExactly(v: View, table: seq<Row>, fks: seq<Option<int>>)
    requires DistinctIDs(ParentRows(v, table, fks)) && !Unpaged(v)
    ensures var found := |ParentRows(v, table, fks)|;
            ParentsFair(v, table, fks) <==>
            found <= v.offset || (v.offset == 0 && found <= v.limit.value)
  {
    var key, keys, rows := KeyOf("id"), Keys(fks, |fks|), ParentRows(v, table, fks);
    ParentsFairIsFair(v, table, fks);
    ParentKeys(v, table, fks);
    DistinctIDsDistinct(rows);
    if v.offset == 0 {
      FairLimitExactly(key, keys, v.limit.value, rows);
    } else {
      FairPageExactly(key, keys, v.limit, v.offset, rows);
      if v.offset < |rows| {
        forall k { NotOneKeyPaged(rows, k, v.limit, v.offset); }
      }
    }
  }

  // ----- many to many -----

  function Owner(): JoinRow -> int {
    (j: JoinRow) => j.owner
  }

  /** The rows of the group query before its page is cut. */
  function GroupRowsOf(v: View, ids: seq<int>, stream: seq<JoinRow>): seq<JoinRow> {
    SelectJoined(Unlimited(v), ids, stream)
  }

  ghost predicate DistinctPairs(rows: seq<JoinRow>) {
    forall i, j :: 0 <= i < j < |rows| ==> rows[i].owner != rows[j].owner || GroupID(rows[i]) != GroupID(rows[j])
  }

  lemma OwnAsOfKey(rows: seq<JoinRow>, id: int)
    ensures Own(rows, id) == OfKey(Owner(), id, rows)
  {
    FilterAgree(OwnerIs(id), KeyIs(Owner(), id), rows);
  }

  lemma JoinedPage(v: View, ids: seq<int>, stream: seq<JoinRow>)
    ensures SelectJoined(v, ids, stream) == Page(v.limit, v.offset, GroupRowsOf(v, ids, stream))
  {
    var all := OrderedJoin(v.order, Filter(Selects(v, ids), stream));
    assert all[0..] == all;
    FilterAgree(Selects(v, ids), Selects(Unlimited(v), ids), stream);
  }

  lemma PagedJoin(v: View, ids: seq<int>, stream: seq<JoinRow>, id: int)
    requires id in ids
    ensures var rows := GroupRowsOf(v, ids, stream);
            SelectJoined(v, ids, stream) == Page(v.limit, v.offset, rows) &&
            SelectJoined(v, [id], stream) == OwnPage(Owner(), id, v.limit, v.offset, rows)
  {
    JoinedPage(v, ids, stream);
    JoinedPage(v, [id], stream);
    AloneRows(Unlimited(v), ids, stream, id);
    OwnAsOfKey(GroupRowsOf(v, ids, stream), id);
  }

  /** An account of the batch gets the groups it gets alone. */
  ghost predicate SameGroupsAlone(v: View, ids: seq<int>, stream: seq<JoinRow>, id: int) {
    forall e ::
      e in GroupsFor(ColumnsOf(v, Some("id")), SelectJoined(v, ids, stream), id) <==>
      e in GroupsFor(ColumnsOf(v, Some("id")), SelectJoined(v, [id], stream), id)
  }

  ghost predicate GroupsFair(v: View, ids: seq<int>, stream: seq<JoinRow>) {
    forall id :: id in ids ==> SameGroupsAlone(v, ids, stream, id)
  }

  /** A group owned within a page is a row of the owner's share. */
  lemma OwnedIsShared(rows: seq<JoinRow>, id: int, g: int)
    ensures Owns(rows, id, g) <==> exists j :: j in OfKey(Owner(), id, rows) && GroupID(j) == g
  {
    forall j { FilterMember(KeyIs(Owner(), id), rows, j); }
    if Owns(rows, id, g) {
      var k :| 0 <= k < |rows| && rows[k].owner == id && GroupID(rows[k]) == g;
      assert rows[k] in rows;
    }
  }

  lemma {:induction false} OwnGroupsDistinct(rows: seq<JoinRow>, id: int)
    requires DistinctPairs(rows)
    ensures var own := OfKey(Owner(), id, rows);
            forall i, j :: 0 <= i < j < |own| ==> GroupID(own[i]) != GroupID(own[j])
  {
    if rows != [] {
      OwnGroupsDistinct(rows[1..], id);
      forall j | j in OfKey(Owner(), id, rows[1..]) && rows[0].owner == id ensures GroupID(rows[0]) != GroupID(j) {
        FilterMember(KeyIs(Owner(), id), rows[1..], j);
        var k :| 0 <= k < |rows[1..]| && rows[1..][k] == j;
        assert rows[k + 1] == j;
      }
    }
  }

  /** A share is a slice of the key's rows. */
  lemma ShareIsSlice<T(!new)>(key: T -> int, k: int, limit: Option<nat>, offset: nat, xs: seq<T>)
    returns (i: nat, j: nat)
    ensures i <= j <= |OfKey(key, k, xs)| && Share(key, k, limit, offset, xs) == OfKey(key, k, xs)[i..j]
  {
    var end := End(limit, offset, |xs|);
    PageIs(limit, offset, xs);
    if offset < end {
      OfKeySplit(key, k, xs, end);
      OfKeySplit(key, k, xs[..end], offset);
      assert xs[..end][..offset] == xs[..offset] && xs[..end][offset..] == xs[offset..end];
      i := |OfKey(key, k, xs[..offset])|;
      j := i + |OfKey(key, k, xs[offset..end])|;
    } else {
      i, j := 0, 0;
    }
  }

  ghost predicate HasRow(rows: seq<JoinRow>, g: int) {
    exists j :: j in rows && GroupID(j) == g
  }

  /** Different slices of rows of different groups do not have the same groups. */
  lemma SlicesDiffer(own: seq<JoinRow>, i: nat, j: nat, k: nat, l: nat) returns (g: int)
    requires i <= j <= |own| && k <= l <= |own| && own[i..j] != own[k..l]
    requires forall m, n :: 0 <= m < n < |own| ==> GroupID(own[m]) != GroupID(own[n])
    ensures HasRow(own[i..j], g) != HasRow(own[k..l], g)
  {
    var m := if i < j && !(k <= i < l) then i else if i < j && !(k <= j - 1 < l) then j - 1
             else if k < l && !(i <= k < j) then k else l - 1;
    g := GroupID(own[m]);
    assert i <= m < j ==> own[m] in own[i..j];
    assert k <= m < l ==> own[m] in own[k..l];
    assert HasRow(own[i..j], g) <==> i <= m < j;
    assert HasRow(own[k..l], g) <==> k <= m < l;
  }

  /** When an account's share is not its own page, some group shows it. */
  lemma UnfairShows(rows: seq<JoinRow>, id: int, limit: Option<nat>, offset: nat) returns (g: int)
    requires DistinctPairs(rows)
    requires Share(Owner(), id, limit, offset, rows) != OwnPage(Owner(), id, limit, offset, rows)
    ensures Owns(Page(limit, offset, rows), id, g) != Owns(OwnPage(Owner(), id, limit, offset, rows), id, g)
  {
    var own := OfKey(Owner(), id, rows);
    var i, j := ShareIsSlice(Owner(), id, limit, offset, rows);
    var end := End(limit, offset, |own|);
    PageIs(limit, offset, own);
    OwnGroupsDistinct(rows, id);
    g := SlicesDiffer(own, i, j, if offset < end then offset else end, end);
    OwnedIsShared(Page(limit, offset, rows), id, g);
    OwnedIsShared(OwnPage(Owner(), id, limit, offset, rows), id, g);
    OwnPageOfKey(Owner(), id, limit, offset, rows);
  }

  lemma FairRowsSameGroups(v: View, ids: seq<int>, stream: seq<JoinRow>, id: int)
    requires Functional(stream) && id in ids
    requires Share(Owner(), id, v.limit, v.offset, GroupRowsOf(v, ids, stream)) ==
             OwnPage(Owner(), id, v.limit, v.offset, GroupRowsOf(v, ids, stream))
    ensures SameGroupsAlone(v, ids, stream, id)
  {
    PagedJoin(v, ids, stream, id);
    OwnAsOfKey(SelectJoined(v, ids, stream), id);
    GroupColumns(v);
    SelectedFunctional(v, ids, stream);
    SameGroups(ColumnsOf(v, Some("id")), SelectJoined(v, ids, stream), id);
  }

  lemma UnfairRowsDiffer(v: View, ids: seq<int>, stream: seq<JoinRow>, id: int)
    requires id in ids && DistinctPairs(GroupRowsOf(v, ids, stream))
    requires Share(Owner(), id, v.limit, v.offset, GroupRowsOf(v, ids, stream)) !=
             OwnPage(Owner(), id, v.limit, v.offset, GroupRowsOf(v, ids, stream))
    ensures !SameGroupsAlone(v, ids, stream, id)
  {
    var cols := ColumnsOf(v, Some("id"));
    var g := UnfairShows(GroupRowsOf(v, ids, stream), id, v.limit, v.offset);
    PagedJoin(v, ids, stream, id);
    GroupColumns(v);
    GroupsAreOwned(cols, SelectJoined(v, ids, stream), id);
    GroupsAreOwned(cols, SelectJoined(v, [id], stream), id);
    DifferentGroups(GroupsFor(cols, SelectJoined(v, ids, stream), id),
                    GroupsFor(cols, SelectJoined(v, [id], stream), id), g);
  }

  lemma DifferentGroups(a: seq<Entity>, b: seq<Entity>, g: int)
    requires HasGroup(a, g) != HasGroup(b, g)
    ensures exists e :: (e in a) != (e in b)
  {
    if HasGroup(a, g) {
      var i :| 0 <= i < |a| && Field(a[i], "id") == g;
      assert a[i] in a && a[i] !in b;
    } else {
      var i :| 0 <= i < |b| && Field(b[i], "id") == g;
      assert b[i] in b && b[i] !in a;
    }
  }

  lemma GroupsFairIsFair(v: View, ids: seq<int>, stream: seq<JoinRow>)
    requires Functional(stream) && DistinctPairs(GroupRowsOf(v, ids, stream))
    ensures GroupsFair(v, ids, stream) <==> Fair(Owner(), ids, v.limit, v.offset, GroupRowsOf(v, ids, stream))
  {
    var rows := GroupRowsOf(v, ids, stream);
    forall id | id in ids
      ensures SameGroupsAlone(v, ids, stream, id) <==>
              Share(Owner(), id, v.limit, v.offset, rows) == OwnPage(Owner(), id, v.limit, v.offset, rows)
    {
      if Share(Owner(), id, v.limit, v.offset, rows) == OwnPage(Owner(), id, v.limit, v.offset, rows) {
        FairRowsSameGroups(v, ids, stream, id);
      } else {
        UnfairRowsDiffer(v, ids, stream, id);
      }
    }
  }

  lemma GroupRowsOwned(v: View, ids: seq<int>, stream: seq<JoinRow>)
    ensures forall j :: j in GroupRowsOf(v, ids, stream) ==> Owner()(j) in ids
  {
    forall j | j in GroupRowsOf(v, ids, stream) { SelectedOwner(Unlimited(v), ids, stream, j); }
  }

  /** An account of the batch gets the sequence of groups it gets alone. */
  ghost predicate SameOrderAlone(v: View, ids: seq<int>, stream: seq<JoinRow>, id: int) {
    GroupsFor(ColumnsOf(v, Some("id")), SelectJoined(v, ids, stream), id) ==
    GroupsFor(ColumnsOf(v, Some("id")), SelectJoined(v, [id], stream), id)
  }

  ghost predicate GroupOrdersFair(v: View, ids: seq<int>, stream: seq<JoinRow>) {
    forall id :: id in ids ==> SameOrderAlone(v, ids, stream, id)
  }

  ghost predicate NoneOvertaken(rows: seq<JoinRow>, ids: seq<int>) {
    forall id :: id in ids ==> !Overtaken(rows, id)
  }

  /** The order is the account's own exactly when its rows are, and no other rows of the page reorder
      its groups. */
  lemma PagedOrder(v: View, ids: seq<int>, stream: seq<JoinRow>, id: int)
    requires Functional(stream) && id in ids && DistinctPairs(GroupRowsOf(v, ids, stream))
    ensures var rows := GroupRowsOf(v, ids, stream);
            SameOrderAlone(v, ids, stream, id) <==>
            Share(Owner(), id, v.limit, v.offset, rows) == OwnPage(Owner(), id, v.limit, v.offset, rows) &&
            !Overtaken(SelectJoined(v, ids, stream), id)
  {
    var rows := GroupRowsOf(v, ids, stream);
    if Share(Owner(), id, v.limit, v.offset, rows) == OwnPage(Owner(), id, v.limit, v.offset, rows) {
      PagedJoin(v, ids, stream, id);
      OwnAsOfKey(SelectJoined(v, ids, stream), id);
      GroupColumns(v);
      SelectedFunctional(v, ids, stream);
      OrderIsOwnExactly(ColumnsOf(v, Some("id")), SelectJoined(v, ids, stream), id);
    } else {
      UnfairRowsDiffer(v, ids, stream, id);
    }
  }

  lemma OrdersFairIsFair(v: View, ids: seq<int>, stream: seq<JoinRow>)
    requires Functional(stream) && DistinctPairs(GroupRowsOf(v, ids, stream))
    ensures GroupOrdersFair(v, ids, stream) <==>
            GroupsFair(v, ids, stream) && NoneOvertaken(SelectJoined(v, ids, stream), ids)
  {
    GroupsFairIsFair(v, ids, stream);
    forall id | id in ids { PagedOrder(v, ids, stream, id); }
  }

  lemma OneOwnerNotOvertaken(rows: seq<JoinRow>, k: int, id: int)
    requires AllOfKey(Owner(), k, rows)
    ensures !Overtaken(rows, id)
  {
    OfKeyLength(Owner(), k, rows);
    OwnAsOfKey(rows, k);
    forall g | Owns(rows, id, g) ensures id == k {
      var n :| 0 <= n < |rows| && rows[n].owner == id && GroupID(rows[n]) == g;
      assert rows[n] in rows && Owner()(rows[n]) == id;
    }
  }

  lemma OneOwnerInOrder(rows: seq<JoinRow>, ids: seq<int>)
    requires OneKey(Owner(), rows)
    ensures NoneOvertaken(rows, ids)
  {
    if rows != [] {
      assert rows[0] in rows;
      forall id { OneOwnerNotOvertaken(rows, Owner()(rows[0]), id); }
    }
  }

  /** With a limit on the group query, every account of a batch gets the groups it gets alone exactly
      when there is none, or it keeps all rows of the batch, or the rows are of one account. It gets
      them in the same order exactly when, unless they are of one account, no rows reorder them. */
  lemma GroupLimitIsFairExactly(v: View, ids: seq<int>, stream: seq<JoinRow>)
    requires v.limit.Some? && v.offset == 0 && Functional(stream) && DistinctPairs(GroupRowsOf(v, ids, stream))
    ensures var rows := GroupRowsOf(v, ids, stream);
            GroupsFair(v, ids, stream) <==>
            v.limit.value == 0 || |rows| <= v.limit.value || OneKey(Owner(), rows)
    ensures var rows := GroupRowsOf(v, ids, stream);
            GroupOrdersFair(v, ids, stream) <==>
            ((v.limit.value == 0 || |rows| <= v.limit.value) && NoneOvertaken(rows, ids)) || OneKey(Owner(), rows)
  {
    var rows := GroupRowsOf(v, ids, stream);
    GroupsFairIsFair(v, ids, stream);
    GroupRowsOwned(v, ids, stream);
    FairLimitExactly(Owner(), ids, v.limit.value, rows);
    OrdersFairIsFair(v, ids, stream);
    JoinedPage(v, ids, stream);
    PageIs(v.limit, 0, rows);
    if OneKey(Owner(), rows) {
      OneOwnerInOrder(rows, ids);
      OneOwnerInOrder(SelectJoined(v, ids, stream), ids);
    }
  }

  /** The page begins past its offset, so what is fair is of one account, if anything. */
  lemma PageInOrder(v: View, ids: seq<int>, stream: seq<JoinRow>)
    requires var rows := GroupRowsOf(v, ids, stream);
             |rows| <= v.offset || exists id :: OneKeyPaged(Owner(), id, v.limit, v.offset, rows)
    ensures NoneOvertaken(SelectJoined(v, ids, stream), ids)
  {
    var rows := GroupRowsOf(v, ids, stream);
    JoinedPage(v, ids, stream);
    PageIs(v.limit, v.offset, rows);
    if k :| OneKeyPaged(Owner(), k, v.limit, v.offset, rows) {
      forall j | j in SelectJoined(v, ids, stream) ensures Owner()(j) == k {
        assert j in rows[..End(v.limit, v.offset, |rows|)];
      }
    }
    OneOwnerInOrder(SelectJoined(v, ids, stream), ids);
  }

  /** With an offset, exactly when the page is empty or the rows up to its end are of one account and
      no other account has more rows than the offset; and then they are in the same order too. */
  lemma GroupOffsetIsFairExactly(v: View, ids: seq<int>, stream: seq<JoinRow>)
    requires v.offset > 0 && Functional(stream) && DistinctPairs(GroupRowsOf(v, ids, stream))
    ensures var rows := GroupRowsOf(v, ids, stream);
            GroupsFair(v, ids, stream) <==>
            |rows| <= v.offset || exists id :: OneKeyPaged(Owner(), id, v.limit, v.offset, rows)
    ensures GroupOrdersFair(v, ids, stream) <==> GroupsFair(v, ids, stream)
  {
    GroupsFairIsFair(v, ids, stream);
    GroupRowsOwned(v, ids, stream);
    FairPageExactly(Owner(), ids, v.limit, v.offset, GroupRowsOf(v, ids, stream));
    OrdersFairIsFair(v, ids, stream);
    if GroupsFair(v, ids, stream) {
      PageInOrder(v, ids, stream);
    }
  }
}
