/** What the many-to-many load means: the join, each group once; and exactly when an account gets
    its groups in the order it would get them alone (backend/ent/account_query.go, loadGroups). */
module GroupLaws {
  import opened Wrappers
  import opened Tables
  import opened Relational
  import opened EdgeQuery
  import opened EagerLaws
  import opened GroupLoad

  // ----- first occurrences -----

  /** The position of the first row of a group. */
  function FirstAt(rows: seq<JoinRow>, g: int): (k: nat)
    ensures k <= |rows|
    ensures k < |rows| ==> GroupID(rows[k]) == g
    ensures forall j :: 0 <= j < k ==> GroupID(rows[j]) != g
  {
    if rows == [] || GroupID(rows[0]) == g then 0 else 1 + FirstAt(rows[1..], g)
  }

  function FirstOf(rows: seq<JoinRow>): Entity -> int {
    e => FirstAt(rows, Field(e, "id"))
  }

  ghost predicate StrictlySorted<T(!new)>(key: T -> int, xs: seq<T>) {
    forall i, j :: 0 <= i < j < |xs| ==> key(xs[i]) < key(xs[j])
  }

  lemma FirstAtPrefix(rows: seq<JoinRow>, n: nat, g: int)
    requires n <= |rows| && Seen(rows[..n], g)
    ensures FirstAt(rows, g) == FirstAt(rows[..n], g) < n
  {
    var a, b := FirstAt(rows, g), FirstAt(rows[..n], g);
    var k :| 0 <= k < n && GroupID(rows[..n][k]) == g;
    assert b <= k && a <= k;
    assert rows[..n][a] == rows[a] && rows[..n][b] == rows[b];
  }

  /** A neighbour is the first row of its group. */
  predicate IsFirstRow(columns: seq<string>, rows: seq<JoinRow>, e: Entity) {
    Seen(rows, Field(e, "id")) &&
    FirstAt(rows, Field(e, "id")) < |rows| &&
    e == Project(columns, rows[FirstAt(rows, Field(e, "id"))].row)
  }

  predicate HasGroup(entities: seq<Entity>, g: int) {
    exists i :: 0 <= i < |entities| && Field(entities[i], "id") == g
  }

  /** The kept neighbours are the first rows of the groups, in the order of the stream. */
  lemma {:induction false} NeighborsAreFirstRows(columns: seq<string>, rows: seq<JoinRow>)
    requires columns == [] || "id" in columns
    ensures StrictlySorted(FirstOf(rows), Neighbors(columns, rows))
    ensures forall e :: e in Neighbors(columns, rows) ==> IsFirstRow(columns, rows, e)
    ensures forall g :: Seen(rows, g) ==> HasGroup(Neighbors(columns, rows), g)
    decreases |rows|
  {
    if rows != [] {
      var n := |rows| - 1;
      var prefix, last := rows[..n], rows[n];
      var before := Neighbors(columns, prefix);
      NeighborsAreFirstRows(columns, prefix);
      forall e | e in before ensures IsFirstRow(columns, rows, e) && FirstOf(rows)(e) == FirstOf(prefix)(e) < n {
        StillFirstRow(columns, rows, n, e);
      }
      if !Seen(prefix, GroupID(last)) {
        NotSeenBefore(columns, rows, n);
        SortedAppend(FirstOf(prefix), FirstOf(rows), before, Project(columns, last.row));
      }
      forall g | Seen(rows, g) ensures HasGroup(Neighbors(columns, rows), g) {
        LastOrBefore(columns, rows, g);
      }
    }
  }

  lemma StillFirstRow(columns: seq<string>, rows: seq<JoinRow>, n: nat, e: Entity)
    requires n <= |rows| && IsFirstRow(columns, rows[..n], e)
    ensures IsFirstRow(columns, rows, e) && FirstOf(rows)(e) == FirstOf(rows[..n])(e) < n
  {
    FirstAtPrefix(rows, n, Field(e, "id"));
    assert GroupID(rows[FirstOf(rows)(e)]) == Field(e, "id");
  }

  lemma SortedAppend(was: Entity -> int, key: Entity -> int, xs: seq<Entity>, x: Entity)
    requires StrictlySorted(was, xs)
    requires forall e :: e in xs ==> key(e) == was(e) < key(x)
    ensures StrictlySorted(key, xs + [x])
  {
    forall i, j | 0 <= i < j < |xs + [x]| ensures key((xs + [x])[i]) < key((xs + [x])[j]) {
      assert xs[i] in xs;
      if j < |xs| {
        assert xs[j] in xs;
      }
    }
  }

  lemma NotSeenBefore(columns: seq<string>, rows: seq<JoinRow>, n: nat)
    requires columns == [] || "id" in columns
    requires n < |rows| && !Seen(rows[..n], GroupID(rows[n]))
    ensures FirstAt(rows, GroupID(rows[n])) == n && FirstOf(rows)(Project(columns, rows[n].row)) == n
    ensures IsFirstRow(columns, rows, Project(columns, rows[n].row))
  {
    assert forall j :: 0 <= j < n ==> rows[..n][j] == rows[j];
    FieldOfProjection(columns, rows[n].row, "id");
  }

  lemma LastOrBefore(columns: seq<string>, rows: seq<JoinRow>, g: int)
    requires (columns == [] || "id" in columns) && Seen(rows, g) && |rows| > 0
    requires Seen(rows[..|rows| - 1], g) ==> HasGroup(Neighbors(columns, rows[..|rows| - 1]), g)
    ensures HasGroup(Neighbors(columns, rows), g)
  {
    var n := |rows| - 1;
    var before, all := Neighbors(columns, rows[..n]), Neighbors(columns, rows);
    FieldOfProjection(columns, rows[n].row, "id");
    if Seen(rows[..n], g) {
      var i :| 0 <= i < |before| && Field(before[i], "id") == g;
      assert all[i] == before[i];
    } else {
      assert forall j :: 0 <= j < n ==> rows[..n][j] == rows[j];
      var k :| 0 <= k < |rows| && GroupID(rows[k]) == g;
      assert k == n;
      assert all[|before|] == Project(columns, rows[n].row);
    }
  }

  lemma {:induction false} FilterStrictlySorted<T(!new)>(p: T -> bool, key: T -> int, xs: seq<T>)
    requires StrictlySorted(key, xs)
    ensures StrictlySorted(key, Filter(p, xs))
  {
    if xs != [] {
      FilterStrictlySorted(p, key, xs[1..]);
      forall x | x in Filter(p, xs[1..]) ensures key(xs[0]) < key(x) {
        FilterMember(p, xs[1..], x);
        var i :| 0 <= i < |xs[1..]| && xs[1..][i] == x;
        assert xs[i + 1] == x;
      }
    }
  }

  lemma GroupsOwnedOnly(columns: seq<string>, rows: seq<JoinRow>, id: int, e: Entity)
    requires columns == [] || "id" in columns
    requires e in GroupsFor(columns, rows, id)
    ensures IsFirstRow(columns, rows, e) && Owns(rows, id, Field(e, "id"))
  {
    NeighborsAreFirstRows(columns, rows);
    FilterMember(OwnedBy(rows, id), Neighbors(columns, rows), e);
  }

  lemma GroupsOwnedAll(columns: seq<string>, rows: seq<JoinRow>, id: int, g: int)
    requires (columns == [] || "id" in columns) && Owns(rows, id, g)
    ensures HasGroup(GroupsFor(columns, rows, id), g)
  {
    NeighborsAreFirstRows(columns, rows);
    var all := Neighbors(columns, rows);
    assert Seen(rows, g);
    assert HasGroup(all, g);
    var i :| 0 <= i < |all| && Field(all[i], "id") == g;
    FilterMember(OwnedBy(rows, id), all, all[i]);
  }

  /** An account gets exactly the groups it owns a row of, each once, each as its first row in the
      stream, in the order of those first rows. */
  lemma GroupsAreOwned(columns: seq<string>, rows: seq<JoinRow>, id: int)
    requires columns == [] || "id" in columns
    ensures var got := GroupsFor(columns, rows, id);
            StrictlySorted(FirstOf(rows), got) &&
            (forall e :: e in got ==> IsFirstRow(columns, rows, e)) &&
            (forall g :: HasGroup(got, g) <==> Owns(rows, id, g))
  {
    var got := GroupsFor(columns, rows, id);
    NeighborsAreFirstRows(columns, rows);
    FilterStrictlySorted(OwnedBy(rows, id), FirstOf(rows), Neighbors(columns, rows));
    forall e | e in got { GroupsOwnedOnly(columns, rows, id, e); }
    forall g | Owns(rows, id, g) { GroupsOwnedAll(columns, rows, id, g); }
    forall g | HasGroup(got, g) ensures Owns(rows, id, g) {
      var i :| 0 <= i < |got| && Field(got[i], "id") == g;
      assert got[i] in got;
    }
  }

  // ----- the order within one account -----

  function OwnerIs(id: int): JoinRow -> bool {
    (j: JoinRow) => j.owner == id
  }

  /** The rows of one account. */
  function Own(rows: seq<JoinRow>, id: int): seq<JoinRow> {
    Filter(OwnerIs(id), rows)
  }

  /** Rows of the same group are the same row of the groups table. */
  ghost predicate Functional(rows: seq<JoinRow>) {
    forall j, k :: j in rows && k in rows && GroupID(j) == GroupID(k) ==> j.row == k.row
  }

  /** Rows of other accounts bring g forward past h, which the account's own rows have first. */
  predicate Overtakes(rows: seq<JoinRow>, id: int, g: int, h: int) {
    Owns(rows, id, g) && Owns(rows, id, h) &&
    FirstAt(rows, g) < FirstAt(rows, h) && FirstAt(Own(rows, id), h) < FirstAt(Own(rows, id), g)
  }

  ghost predicate Overtaken(rows: seq<JoinRow>, id: int) {
    exists g, h :: Overtakes(rows, id, g, h)
  }

  lemma OwnRows(rows: seq<JoinRow>, id: int)
    ensures forall j :: j in Own(rows, id) <==> j in rows && j.owner == id
    ensures forall g :: Owns(Own(rows, id), id, g) <==> Owns(rows, id, g)
  {
    var own := Own(rows, id);
    forall j { FilterMember(OwnerIs(id), rows, j); }
    forall g ensures Owns(own, id, g) <==> Owns(rows, id, g) {
      if Owns(own, id, g) {
        var k :| 0 <= k < |own| && own[k].owner == id && GroupID(own[k]) == g;
        assert own[k] in own && own[k] in rows;
      }
      if Owns(rows, id, g) {
        var k :| 0 <= k < |rows| && rows[k].owner == id && GroupID(rows[k]) == g;
        assert rows[k] in rows && rows[k] in own;
      }
    }
  }

  lemma {:induction false} SameSortedSeq<T(!new)>(key: T -> int, xs: seq<T>, ys: seq<T>)
    requires StrictlySorted(key, xs) && StrictlySorted(key, ys) && forall x :: x in xs <==> x in ys
    ensures xs == ys
  {
    assert |xs| > 0 ==> xs[0] in ys;
    assert |ys| > 0 ==> ys[0] in xs;
    if xs != [] {
      assert xs[0] == ys[0];
      forall x ensures x in xs[1..] <==> x in ys[1..] {
        assert x in xs <==> x == xs[0] || x in xs[1..];
        assert x in ys <==> x == ys[0] || x in ys[1..];
      }
      SameSortedSeq(key, xs[1..], ys[1..]);
    }
  }

  /** The same neighbours, in whatever order: every one of a is one of b. */
  lemma SameEntity(columns: seq<string>, a: seq<JoinRow>, b: seq<JoinRow>, all: seq<JoinRow>, id: int, e: Entity)
    requires columns == [] || "id" in columns
    requires Functional(all) && (forall j :: j in a || j in b ==> j in all)
    requires Owns(a, id, Field(e, "id")) ==> Owns(b, id, Field(e, "id"))
    requires e in GroupsFor(columns, a, id)
    ensures e in GroupsFor(columns, b, id)
  {
    var g := Field(e, "id");
    GroupsOwnedOnly(columns, a, id, e);
    GroupsOwnedAll(columns, b, id, g);
    var got := GroupsFor(columns, b, id);
    var i :| 0 <= i < |got| && Field(got[i], "id") == g;
    assert got[i] in got;
    GroupsOwnedOnly(columns, b, id, got[i]);
    assert a[FirstAt(a, g)] in a && b[FirstAt(b, g)] in b;
  }

  /** A batch gives an account the groups it would get alone. */
  lemma SameGroups(columns: seq<string>, rows: seq<JoinRow>, id: int)
    requires (columns == [] || "id" in columns) && Functional(rows)
    ensures forall e :: e in GroupsFor(columns, rows, id) <==> e in GroupsFor(columns, Own(rows, id), id)
  {
    var own := Own(rows, id);
    OwnRows(rows, id);
    forall e | e in GroupsFor(columns, rows, id) { SameEntity(columns, rows, own, rows, id, e); }
    forall e | e in GroupsFor(columns, own, id) { SameEntity(columns, own, rows, rows, id, e); }
  }

  lemma OwnPair(rows: seq<JoinRow>, id: int, g: int, h: int)
    requires Owns(rows, id, g) && Owns(rows, id, h) && FirstAt(rows, g) < FirstAt(rows, h) && !Overtakes(rows, id, g, h)
    ensures FirstAt(Own(rows, id), g) < FirstAt(Own(rows, id), h)
  {
    var own := Own(rows, id);
    assert Owns(own, id, g) && Owns(own, id, h) by {
      OwnRows(rows, id);
    }
    SeenInOwn(rows, id, g);
    SeenInOwn(rows, id, h);
    assert FirstAt(own, g) != FirstAt(own, h);
  }

  lemma OwnOrder(columns: seq<string>, rows: seq<JoinRow>, id: int)
    requires (columns == [] || "id" in columns) && !Overtaken(rows, id)
    ensures StrictlySorted(FirstOf(Own(rows, id)), GroupsFor(columns, rows, id))
  {
    var got := GroupsFor(columns, rows, id);
    GroupsAreOwned(columns, rows, id);
    forall i, j | 0 <= i < j < |got| ensures FirstOf(Own(rows, id))(got[i]) < FirstOf(Own(rows, id))(got[j]) {
      var g, h := Field(got[i], "id"), Field(got[j], "id");
      assert HasGroup(got, g) && HasGroup(got, h) && FirstOf(rows)(got[i]) < FirstOf(rows)(got[j]);
      OwnPair(rows, id, g, h);
    }
  }

  lemma SeenInOwn(rows: seq<JoinRow>, id: int, g: int)
    requires Owns(Own(rows, id), id, g)
    ensures FirstAt(Own(rows, id), g) < |Own(rows, id)| && GroupID(Own(rows, id)[FirstAt(Own(rows, id), g)]) == g
  {
  }

  lemma SortedIndex<T(!new)>(key: T -> int, xs: seq<T>, i: nat, j: nat)
    requires StrictlySorted(key, xs) && i < |xs| && j < |xs|
    ensures key(xs[i]) < key(xs[j]) <==> i < j
  {
    assert i < j ==> key(xs[i]) < key(xs[j]);
    assert j < i ==> key(xs[j]) < key(xs[i]);
  }

  lemma NotOvertaken(columns: seq<string>, rows: seq<JoinRow>, id: int, g: int, h: int)
    requires (columns == [] || "id" in columns) && Overtakes(rows, id, g, h)
    ensures GroupsFor(columns, rows, id) != GroupsFor(columns, Own(rows, id), id)
  {
    var own, got := Own(rows, id), GroupsFor(columns, rows, id);
    GroupsAreOwned(columns, rows, id);
    assert HasGroup(got, g) && HasGroup(got, h);
    var i :| 0 <= i < |got| && Field(got[i], "id") == g;
    var j :| 0 <= j < |got| && Field(got[j], "id") == h;
    SortedIndex(FirstOf(rows), got, i, j);
    if got == GroupsFor(columns, own, id) {
      GroupsAreOwned(columns, own, id);
      SortedIndex(FirstOf(own), got, i, j);
    }
  }

  /** The order is the account's own exactly when no other account's rows reorder its groups. */
  lemma OrderIsOwnExactly(columns: seq<string>, rows: seq<JoinRow>, id: int)
    requires (columns == [] || "id" in columns) && Functional(rows)
    ensures GroupsFor(columns, rows, id) == GroupsFor(columns, Own(rows, id), id) <==> !Overtaken(rows, id)
  {
    if Overtaken(rows, id) {
      var g, h :| Overtakes(rows, id, g, h);
      NotOvertaken(columns, rows, id, g, h);
    } else {
      OwnOrder(columns, rows, id);
      GroupsAreOwned(columns, Own(rows, id), id);
      SameGroups(columns, rows, id);
      SameSortedSeq(FirstOf(Own(rows, id)), GroupsFor(columns, rows, id), GroupsFor(columns, Own(rows, id), id));
    }
  }

  // ----- an account in a batch and alone -----

  lemma AloneRows(v: View, ids: seq<int>, stream: seq<JoinRow>, id: int)
    requires Unpaged(v) && id in ids
    ensures SelectJoined(v, [id], stream) == Own(SelectJoined(v, ids, stream), id)
  {
    var kept := Filter(Selects(v, ids), stream);
    FilterTwice(OwnerIs(id), Selects(v, ids), stream);
    FilterAgree(Both(OwnerIs(id), Selects(v, ids)), Selects(v, [id]), stream);
    if v.order.Some? {
      FilterSort(OwnerIs(id), RowKey(v.order.value), kept);
    }
    var all, own := OrderedJoin(v.order, kept), OrderedJoin(v.order, Own(kept, id));
    assert all[0..] == all && own[0..] == own;
  }

  lemma Selected(v: View, ids: seq<int>, stream: seq<JoinRow>, j: JoinRow)
    requires Unpaged(v)
    ensures j in SelectJoined(v, ids, stream) <==> j in stream && j.owner in ids && Holds(v.predicates, j.row)
  {
    var kept := Filter(Selects(v, ids), stream);
    var sorted := OrderedJoin(v.order, kept);
    if v.order.Some? {
      SortByCorrect(RowKey(v.order.value), kept);
    }
    assert sorted[0..] == sorted && multiset(sorted) == multiset(kept);
    assert j in sorted <==> j in multiset(sorted);
    assert j in kept <==> j in multiset(kept);
    FilterMember(Selects(v, ids), stream, j);
  }

  lemma GroupColumns(v: View)
    ensures ColumnsOf(v, Some("id")) == [] || "id" in ColumnsOf(v, Some("id"))
  {
    ParentColumns(v);
  }

  lemma SelectedFunctional(v: View, ids: seq<int>, stream: seq<JoinRow>)
    requires Functional(stream)
    ensures Functional(SelectJoined(v, ids, stream))
  {
    forall j | j in SelectJoined(v, ids, stream) ensures j in stream {
      SelectedOwner(v, ids, stream, j);
    }
  }

  /** In a batch an account gets the groups it gets alone; and in the same order exactly when no
      other account's rows reorder them. */
  lemma BatchedGroups(v: View, ids: seq<int>, stream: seq<JoinRow>, id: int)
    requires Unpaged(v) && id in ids && Functional(stream)
    ensures var cols, rows := ColumnsOf(v, Some("id")), SelectJoined(v, ids, stream);
            var batched, alone := GroupsFor(cols, rows, id), GroupsFor(cols, SelectJoined(v, [id], stream), id);
            (forall e :: e in batched <==> e in alone) && (batched == alone <==> !Overtaken(rows, id))
  {
    GroupColumns(v);
    AloneRows(v, ids, stream, id);
    SelectedFunctional(v, ids, stream);
    SameGroups(ColumnsOf(v, Some("id")), SelectJoined(v, ids, stream), id);
    OrderIsOwnExactly(ColumnsOf(v, Some("id")), SelectJoined(v, ids, stream), id);
  }

  /** A key that tells groups apart. */
  ghost predicate Separates(key: Row -> int, stream: seq<JoinRow>) {
    forall j, k :: j in stream && k in stream && key(j.row) == key(k.row) ==> GroupID(j) == GroupID(k)
  }

  lemma KeyOrder(key: Row -> int, xs: seq<JoinRow>, i: nat, j: nat)
    requires i < |xs| && j < |xs| && Sorted(RowKey(key), xs)
    ensures key(xs[i].row) < key(xs[j].row) ==> i < j
  {
    assert j < i ==> RowKey(key)(xs[j]) <= RowKey(key)(xs[i]);
  }

  lemma SortedNotOvertaken(key: Row -> int, rows: seq<JoinRow>, id: int, g: int, h: int)
    requires Sorted(RowKey(key), rows) && Sorted(RowKey(key), Own(rows, id)) && Separates(key, rows) && Functional(rows)
    ensures !Overtakes(rows, id, g, h)
  {
    var own := Own(rows, id);
    OwnRows(rows, id);
    if Owns(rows, id, g) && Owns(rows, id, h) && FirstAt(rows, g) < FirstAt(rows, h) {
      SeenInOwn(rows, id, g);
      SeenInOwn(rows, id, h);
      var a, b := rows[FirstAt(rows, g)], rows[FirstAt(rows, h)];
      var c, d := own[FirstAt(own, g)], own[FirstAt(own, h)];
      assert c in own && d in own && a in rows && b in rows;
      assert RowKey(key)(a) <= RowKey(key)(b);
      KeyOrder(key, own, FirstAt(own, g), FirstAt(own, h));
    }
  }

  lemma SelectedSorted(v: View, ids: seq<int>, stream: seq<JoinRow>)
    requires Unpaged(v) && v.order.Some?
    ensures Sorted(RowKey(v.order.value), SelectJoined(v, ids, stream))
  {
    var kept := Filter(Selects(v, ids), stream);
    SortByCorrect(RowKey(v.order.value), kept);
    assert SortBy(RowKey(v.order.value), kept)[0..] == SortBy(RowKey(v.order.value), kept);
  }

  // ----- the join -----

  ghost predicate UniqueIDs(groups: seq<Row>) {
    forall i, j :: 0 <= i < j < |groups| ==> Field(groups[i], "id") != Field(groups[j], "id")
  }

  /** What joining keeps of that: no two rows share an id unless they are the same row. */
  ghost predicate Keyed(groups: seq<Row>) {
    forall r, s :: r in groups && s in groups && Field(r, "id") == Field(s, "id") ==> r == s
  }

  lemma UniqueIsKeyed(groups: seq<Row>)
    requires UniqueIDs(groups)
    ensures Keyed(groups)
  {
    forall r, s | r in groups && s in groups && Field(r, "id") == Field(s, "id") ensures r == s {
      var i :| 0 <= i < |groups| && groups[i] == r;
      var j :| 0 <= j < |groups| && groups[j] == s;
      assert i == j;
    }
  }

  /** Earlier joins only repeat or drop groups. */
  lemma {:induction false} JoinedBeforeRows(joins: seq<seq<int>>, memberships: seq<Row>, groups: seq<Row>)
    ensures forall r :: r in JoinedBefore(joins, memberships, groups) ==> r in groups
    decreases |joins|
  {
    if joins != [] {
      var n := |joins| - 1;
      var before := JoinedBefore(joins[..n], memberships, groups);
      var kept := Filter(OwnedIn(joins[n]), Join(memberships, before));
      JoinedBeforeRows(joins[..n], memberships, groups);
      forall r | r in JoinedBefore(joins, memberships, groups) ensures r in groups {
        var k :| 0 <= k < |kept| && Map(RowOf(), kept)[k] == r;
        FilterMember(OwnedIn(joins[n]), Join(memberships, before), kept[k]);
        JoinMember(memberships, before, kept[k]);
      }
    }
  }

  predicate Pairs(m: Row, j: JoinRow) {
    Field(m, "account_id") == j.owner && Field(m, "group_id") == GroupID(j)
  }

  lemma {:induction false} JoinWithMember(m: Row, groups: seq<Row>, j: JoinRow)
    ensures j in JoinWith(m, groups) <==> Pairs(m, j) && j.row in groups
  {
    if groups != [] {
      JoinWithMember(m, groups[1..], j);
    }
  }

  lemma {:induction false} JoinMember(memberships: seq<Row>, groups: seq<Row>, j: JoinRow)
    ensures j in Join(memberships, groups) <==> j.row in groups && exists m :: m in memberships && Pairs(m, j)
  {
    if memberships != [] {
      JoinWithMember(memberships[0], groups, j);
      JoinMember(memberships[1..], groups, j);
      assert forall m :: m in memberships <==> m == memberships[0] || m in memberships[1..];
    }
  }

  lemma JoinFunctional(memberships: seq<Row>, groups: seq<Row>)
    requires Keyed(groups)
    ensures Functional(Join(memberships, groups))
  {
    forall j | j in Join(memberships, groups) { JoinMember(memberships, groups, j); }
  }

  ghost predicate Linked(memberships: seq<Row>, id: int, g: int) {
    exists m :: m in memberships && Field(m, "account_id") == id && Field(m, "group_id") == g
  }

  ghost predicate Visible(v: View, groups: seq<Row>, g: int) {
    exists r :: r in groups && Field(r, "id") == g && Holds(v.predicates, r)
  }

  lemma OwnedIsLinked(v: View, memberships: seq<Row>, groups: seq<Row>, ids: seq<int>, id: int, g: int)
    requires Owns(SelectJoined(v, ids, Join(memberships, groups)), id, g)
    ensures Linked(memberships, id, g) && Visible(v, groups, g)
  {
    var rows := SelectJoined(v, ids, Join(memberships, groups));
    var k :| 0 <= k < |rows| && rows[k].owner == id && GroupID(rows[k]) == g;
    SelectedOwner(v, ids, Join(memberships, groups), rows[k]);
    JoinMember(memberships, groups, rows[k]);
  }

  lemma LinkedIsOwned(v: View, memberships: seq<Row>, groups: seq<Row>, ids: seq<int>, id: int, g: int)
    requires Unpaged(v) && id in ids && Linked(memberships, id, g) && Visible(v, groups, g)
    ensures Owns(SelectJoined(v, ids, Join(memberships, groups)), id, g)
  {
    var m :| m in memberships && Field(m, "account_id") == id && Field(m, "group_id") == g;
    var r :| r in groups && Field(r, "id") == g && Holds(v.predicates, r);
    var j := JoinRow(id, r);
    assert Pairs(m, j);
    JoinMember(memberships, groups, j);
    Selected(v, ids, Join(memberships, groups), j);
  }

  /** The load is the join: a group is attached exactly when the join table links it to the account
      and the user's query lets it through. */
  lemma LoadIsTheJoin(v: View, memberships: seq<Row>, groups: seq<Row>, ids: seq<int>, id: int, g: int)
    requires Unpaged(v) && id in ids
    ensures HasGroup(GroupsFor(ColumnsOf(v, Some("id")), SelectJoined(v, ids, Join(memberships, groups)), id), g) <==>
            Linked(memberships, id, g) && Visible(v, groups, g)
  {
    GroupColumns(v);
    GroupsAreOwned(ColumnsOf(v, Some("id")), SelectJoined(v, ids, Join(memberships, groups)), id);
    if Owns(SelectJoined(v, ids, Join(memberships, groups)), id, g) {
      OwnedIsLinked(v, memberships, groups, ids, id, g);
    }
    if Linked(memberships, id, g) && Visible(v, groups, g) {
      LinkedIsOwned(v, memberships, groups, ids, id, g);
    }
  }

  // ----- exactly which queries are batched exactly -----

  predicate IsVisible(v: View, groups: seq<Row>, r: Row) {
    r in groups && Holds(v.predicates, r)
  }

  /** Nothing in the query says which of the two rows comes first. */
  predicate Tied(v: View, r: Row, s: Row) {
    v.order.None? || v.order.value(r) == v.order.value(s)
  }

  /** The query orders any two groups it lets through. */
  ghost predicate TellsApart(v: View, groups: seq<Row>) {
    forall r, s :: IsVisible(v, groups, r) && IsVisible(v, groups, s) && Tied(v, r, s) ==>
      Field(r, "id") == Field(s, "id")
  }

  /** Whatever the join table and the batch, each account gets the sequence it would get alone. */
  ghost predicate BatchesExactly(v: View, groups: seq<Row>) {
    forall memberships: seq<Row>, ids: seq<int>, id: int :: id in ids ==>
      GroupsFor(ColumnsOf(v, Some("id")), SelectJoined(v, ids, Join(memberships, groups)), id) ==
      GroupsFor(ColumnsOf(v, Some("id")), SelectJoined(v, [id], Join(memberships, groups)), id)
  }

  lemma SelectedVisible(v: View, memberships: seq<Row>, groups: seq<Row>, ids: seq<int>, j: JoinRow)
    requires j in SelectJoined(v, ids, Join(memberships, groups))
    ensures IsVisible(v, groups, j.row)
  {
    SelectedOwner(v, ids, Join(memberships, groups), j);
    JoinMember(memberships, groups, j);
  }

  /** Without an order only rows of one group are selected, so nothing can be overtaken. */
  lemma OneGroupNotOvertaken(rows: seq<JoinRow>, id: int, g: int, h: int)
    requires forall j, k :: j in rows && k in rows ==> GroupID(j) == GroupID(k)
    ensures !Overtakes(rows, id, g, h)
  {
    if Owns(rows, id, g) && Owns(rows, id, h) {
      var i :| 0 <= i < |rows| && GroupID(rows[i]) == g;
      var k :| 0 <= k < |rows| && GroupID(rows[k]) == h;
      assert rows[i] in rows && rows[k] in rows;
    }
  }

  lemma ApartRows(v: View, memberships: seq<Row>, groups: seq<Row>, ids: seq<int>, j: JoinRow, k: JoinRow)
    requires TellsApart(v, groups)
    requires var rows := SelectJoined(v, ids, Join(memberships, groups)); j in rows && k in rows
    ensures Tied(v, j.row, k.row) ==> GroupID(j) == GroupID(k)
  {
    SelectedVisible(v, memberships, groups, ids, j);
    SelectedVisible(v, memberships, groups, ids, k);
  }

  lemma SortedApart(v: View, ids: seq<int>, stream: seq<JoinRow>, id: int)
    requires Unpaged(v) && id in ids && Functional(stream) && v.order.Some?
    requires Separates(v.order.value, SelectJoined(v, ids, stream))
    ensures !Overtaken(SelectJoined(v, ids, stream), id)
  {
    SelectedFunctional(v, ids, stream);
    SelectedSorted(v, ids, stream);
    SelectedSorted(v, [id], stream);
    AloneRows(v, ids, stream, id);
    forall g, h { SortedNotOvertaken(v.order.value, SelectJoined(v, ids, stream), id, g, h); }
  }

  lemma ApartNotOvertaken(v: View, memberships: seq<Row>, groups: seq<Row>, ids: seq<int>, id: int)
    requires Unpaged(v) && id in ids && Keyed(groups) && TellsApart(v, groups)
    ensures !Overtaken(SelectJoined(v, ids, Join(memberships, groups)), id)
  {
    var stream := Join(memberships, groups);
    var rows := SelectJoined(v, ids, stream);
    if v.order.Some? {
      assert Separates(v.order.value, rows) by {
        forall j, k | j in rows && k in rows { ApartRows(v, memberships, groups, ids, j, k); }
      }
      JoinFunctional(memberships, groups);
      SortedApart(v, ids, stream, id);
    } else {
      forall j, k | j in rows && k in rows { ApartRows(v, memberships, groups, ids, j, k); }
      forall g, h { OneGroupNotOvertaken(rows, id, g, h); }
    }
  }

  /** A query that orders the groups it lets through is batched exactly. */
  lemma ApartBatches(v: View, groups: seq<Row>)
    requires Unpaged(v) && Keyed(groups) && TellsApart(v, groups)
    ensures BatchesExactly(v, groups)
  {
    forall memberships: seq<Row>, ids: seq<int>, id: int | id in ids
      ensures GroupsFor(ColumnsOf(v, Some("id")), SelectJoined(v, ids, Join(memberships, groups)), id) ==
              GroupsFor(ColumnsOf(v, Some("id")), SelectJoined(v, [id], Join(memberships, groups)), id)
    {
      JoinFunctional(memberships, groups);
      ApartNotOvertaken(v, memberships, groups, ids, id);
      BatchedGroups(v, ids, Join(memberships, groups), id);
    }
  }

  function Membership(account: int, g: Row): Row {
    map["account_id" := account, "group_id" := Field(g, "id")]
  }

  lemma {:induction false} JoinWithNone(m: Row, groups: seq<Row>)
    requires forall r :: r in groups ==> Field(r, "id") != Field(m, "group_id")
    ensures JoinWith(m, groups) == []
  {
    if groups != [] {
      JoinWithNone(m, groups[1..]);
    }
  }

  lemma {:induction false} JoinWithOne(account: int, g: Row, groups: seq<Row>)
    requires UniqueIDs(groups) && g in groups
    ensures JoinWith(Membership(account, g), groups) == [JoinRow(account, g)]
  {
    var m := Membership(account, g);
    if groups[0] == g {
      JoinWithNone(m, groups[1..]);
    } else {
      JoinWithOne(account, g, groups[1..]);
      assert Field(groups[0], "id") != Field(g, "id");
    }
  }

  lemma JoinOfThree(groups: seq<Row>, g: Row, h: Row)
    requires UniqueIDs(groups) && g in groups && h in groups
    ensures Join([Membership(2, g), Membership(1, h), Membership(1, g)], groups) ==
            [JoinRow(2, g), JoinRow(1, h), JoinRow(1, g)]
  {
    var a, b, c := Membership(2, g), Membership(1, h), Membership(1, g);
    var ms: seq<Row>, bc: seq<Row>, last: seq<Row> := [a, b, c], [b, c], [c];
    assert ms[1..] == bc && bc[1..] == last && last[1..] == [];
    JoinWithOne(2, g, groups);
    JoinWithOne(1, h, groups);
    JoinWithOne(1, g, groups);
    assert Join(last, groups) == [JoinRow(1, g)];
    assert Join(bc, groups) == [JoinRow(1, h), JoinRow(1, g)];
  }

  lemma {:induction false} TiedStaySorted(key: JoinRow -> int, xs: seq<JoinRow>, k: int)
    requires forall x :: x in xs ==> key(x) == k
    ensures SortBy(key, xs) == xs
  {
    if xs != [] {
      TiedStaySorted(key, xs[1..], k);
    }
  }

  lemma TiedSelected(v: View, ids: seq<int>, kept: seq<JoinRow>, stream: seq<JoinRow>)
    requires Unpaged(v) && Filter(Selects(v, ids), stream) == kept
    requires forall x, y :: x in kept && y in kept ==> Tied(v, x.row, y.row)
    ensures SelectJoined(v, ids, stream) == kept
  {
    if v.order.Some? && kept != [] {
      assert kept[0] in kept;
      TiedStaySorted(RowKey(v.order.value), kept, v.order.value(kept[0].row));
    }
    assert OrderedJoin(v.order, kept) == kept && kept[0..] == kept;
  }

  lemma TiedRows(v: View, g: Row, h: Row)
    requires Unpaged(v) && Holds(v.predicates, g) && Holds(v.predicates, h) && Tied(v, g, h)
    ensures var x, y, z := JoinRow(2, g), JoinRow(1, h), JoinRow(1, g);
            SelectJoined(v, [1, 2], [x, y, z]) == [x, y, z] && SelectJoined(v, [1], [x, y, z]) == [y, z]
  {
    var x, y, z := JoinRow(2, g), JoinRow(1, h), JoinRow(1, g);
    FilterThree(Selects(v, [1, 2]), x, y, z);
    TiedSelected(v, [1, 2], [x, y, z], [x, y, z]);
    FilterThree(Selects(v, [1]), x, y, z);
    TiedSelected(v, [1], [y, z], [x, y, z]);
  }

  /** Two groups that tie come in the order of the batch's rows. */
  lemma TiedReorder(v: View, g: Row, h: Row)
    requires Unpaged(v) && Holds(v.predicates, g) && Holds(v.predicates, h)
    requires Field(g, "id") != Field(h, "id") && Tied(v, g, h)
    ensures GroupsFor([], SelectJoined(v, [1, 2], [JoinRow(2, g), JoinRow(1, h), JoinRow(1, g)]), 1) == [g, h]
    ensures GroupsFor([], SelectJoined(v, [1], [JoinRow(2, g), JoinRow(1, h), JoinRow(1, g)]), 1) == [h, g]
  {
    var x, y, z := JoinRow(2, g), JoinRow(1, h), JoinRow(1, g);
    TiedRows(v, g, h);
    assert GroupsFor([], [x, y, z], 1) == [g, h] by {
      FirstTwoKept(x, y, z);
      TwoOwned([x, y, z], g, h, 1, 2, 1);
    }
    assert GroupsFor([], [y, z], 1) == [h, g] by {
      FirstTwoKept(y, z, y);
      TwoOwned([y, z], h, g, 1, 0, 1);
    }
  }

  lemma ProjectedDiffer(columns: seq<string>, g: Row, h: Row)
    requires (columns == [] || "id" in columns) && Field(g, "id") != Field(h, "id")
    ensures Map(Projection(columns), [g, h]) != Map(Projection(columns), [h, g])
  {
    FieldOfProjection(columns, g, "id");
    FieldOfProjection(columns, h, "id");
    assert Map(Projection(columns), [g, h])[0] == Project(columns, g);
    assert Map(Projection(columns), [h, g])[0] == Project(columns, h);
  }

  lemma TiedDoesNotBatch(v: View, groups: seq<Row>, g: Row, h: Row)
    requires Unpaged(v) && UniqueIDs(groups) && IsVisible(v, groups, g) && IsVisible(v, groups, h)
    requires Tied(v, g, h) && Field(g, "id") != Field(h, "id")
    ensures !BatchesExactly(v, groups)
  {
    var cols := ColumnsOf(v, Some("id"));
    var memberships := [Membership(2, g), Membership(1, h), Membership(1, g)];
    var stream := [JoinRow(2, g), JoinRow(1, h), JoinRow(1, g)];
    assert Join(memberships, groups) == stream by {
      JoinOfThree(groups, g, h);
    }
    GroupColumns(v);
    assert GroupsFor(cols, SelectJoined(v, [1, 2], stream), 1) != GroupsFor(cols, SelectJoined(v, [1], stream), 1) by {
      TiedReorder(v, g, h);
      GroupsProjected(cols, SelectJoined(v, [1, 2], stream), 1);
      GroupsProjected(cols, SelectJoined(v, [1], stream), 1);
      ProjectedDiffer(cols, g, h);
    }
    assert 1 in [1, 2];
  }

  /** A group query gives every account of every batch the sequence it would get alone, whatever the
      join table, exactly when it orders any two groups it lets through. */
  lemma OrderedBatchesExactly(v: View, groups: seq<Row>)
    requires Unpaged(v) && UniqueIDs(groups)
    ensures BatchesExactly(v, groups) <==> TellsApart(v, groups)
  {
    if TellsApart(v, groups) {
      UniqueIsKeyed(groups);
      ApartBatches(v, groups);
    } else {
      var g, h :| IsVisible(v, groups, g) && IsVisible(v, groups, h) && Tied(v, g, h) &&
        Field(g, "id") != Field(h, "id");
      TiedDoesNotBatch(v, groups, g, h);
    }
  }

  // ----- an order the batch changes -----

  lemma FilterThree<T(!new)>(p: T -> bool, x: T, y: T, z: T)
    ensures Filter(p, [x, y, z]) ==
            (if p(x) then [x] else []) + (if p(y) then [y] else []) + if p(z) then [z] else []
  {
    var all := [x, y, z];
    assert all[1..] == [y, z] && all[1..][1..] == [z] && all[1..][1..][1..] == [];
    assert Filter(p, [z]) == if p(z) then [z] else [];
    assert Filter(p, [y, z]) == (if p(y) then [y] else []) + Filter(p, [z]);
  }

  /** One row each of a group, then the first group again. */
  lemma FirstTwoKept(x: JoinRow, y: JoinRow, z: JoinRow)
    requires GroupID(x) != GroupID(y) && GroupID(z) == GroupID(x)
    ensures Neighbors([], [x, y]) == [x.row, y.row] && Neighbors([], [x, y, z]) == [x.row, y.row]
  {
    var one, two, three := [x], [x, y], [x, y, z];
    assert one[..0] == [] && two[..1] == one && three[..2] == two;
    assert Neighbors([], one) == [x.row];
    assert three[..2][0] == x;
  }

  /** Account 1 joined group 20 before group 10, but account 2 brings group 10 first. */
  lemma BatchReorders()
    ensures var a, b, c := map["account_id" := 2, "group_id" := 10], map["account_id" := 1, "group_id" := 20],
                           map["account_id" := 1, "group_id" := 10];
            var g, h := map["id" := 10], map["id" := 20];
            var v, stream := View([], [], None, None, 0), Join([a, b, c], [g, h]);
            GroupsFor([], SelectJoined(v, [1, 2], stream), 1) == [g, h] &&
            GroupsFor([], SelectJoined(v, [1], stream), 1) == [h, g]
  {
    var a, b, c := map["account_id" := 2, "group_id" := 10], map["account_id" := 1, "group_id" := 20],
                   map["account_id" := 1, "group_id" := 10];
    var g, h := map["id" := 10], map["id" := 20];
    var v := View([], [], None, None, 0);
    assert a == Membership(2, g) && b == Membership(1, h) && c == Membership(1, g);
    JoinOfThree([g, h], g, h);
    TiedReorder(v, g, h);
  }

  lemma TwoOwned(rows: seq<JoinRow>, g: Row, h: Row, id: int, i: nat, j: nat)
    requires i < |rows| && rows[i].owner == id && GroupID(rows[i]) == Field(g, "id")
    requires j < |rows| && rows[j].owner == id && GroupID(rows[j]) == Field(h, "id")
    ensures Filter(OwnedBy(rows, id), [g, h]) == [g, h]
  {
    var both := [g, h];
    assert both[1..] == [h] && both[1..][1..] == [];
    assert Owns(rows, id, Field(g, "id")) && Owns(rows, id, Field(h, "id"));
    assert Filter(OwnedBy(rows, id), [h]) == [h];
  }

  /** Selecting fields projects the groups and changes nothing else. */
  lemma {:induction false} NeighborsProjected(columns: seq<string>, rows: seq<JoinRow>)
    ensures Neighbors(columns, rows) == Map(Projection(columns), Neighbors([], rows))
    decreases |rows|
  {
    if rows != [] {
      var n := |rows| - 1;
      NeighborsProjected(columns, rows[..n]);
      MapAppend(Projection(columns), Neighbors([], rows[..n]),
                if Seen(rows[..n], GroupID(rows[n])) then [] else [rows[n].row]);
    }
  }

  lemma GroupsProjected(columns: seq<string>, rows: seq<JoinRow>, id: int)
    requires columns == [] || "id" in columns
    ensures GroupsFor(columns, rows, id) == Map(Projection(columns), GroupsFor([], rows, id))
  {
    var all := Neighbors([], rows);
    NeighborsProjected(columns, rows);
    FilterMap(OwnedBy(rows, id), Projection(columns), all);
    forall e | e in all ensures After(OwnedBy(rows, id), Projection(columns))(e) == OwnedBy(rows, id)(e) {
      FieldOfProjection(columns, e, "id");
    }
    FilterAgree(After(OwnedBy(rows, id), Projection(columns)), OwnedBy(rows, id), all);
  }
}
