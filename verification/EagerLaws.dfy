/** What batched one-to-many and many-to-one loads mean: the relational join, whatever else is
    loaded with it and whatever is projected (backend/ent/account_query.go). */
module EagerLaws {
  import opened Wrappers
  import opened Tables
  import opened Relational
  import opened EdgeQuery
  import opened EagerLoad

  /** A filter on a kept column commutes with the projection. */
  lemma FilterProjected(columns: seq<string>, column: string, k: int, rows: seq<Row>)
    requires columns == [] || column in columns
    ensures Filter(HasKey(column, k), Map(Projection(columns), rows)) ==
            Map(Projection(columns), Filter(HasKey(column, k), rows))
  {
    FilterMap(HasKey(column, k), Projection(columns), rows);
    forall r | r in rows ensures After(HasKey(column, k), Projection(columns))(r) == HasKey(column, k)(r) {
      FieldOfProjection(columns, r, column);
    }
    FilterAgree(After(HasKey(column, k), Projection(columns)), HasKey(column, k), rows);
  }

  /** Of a batch of keys, the rows of one of them are those the user's own query has for it. */
  lemma BatchOfOne(v: View, column: string, keys: seq<int>, k: int, table: seq<Row>)
    requires Unpaged(v) && k in keys
    ensures Filter(HasKey(column, k), Select(Where(v, ColumnIn(column, keys)), table)) ==
            Filter(HasKey(column, k), Select(v, table))
  {
    var rows := Select(v, table);
    SelectWhere(v, ColumnIn(column, keys), table);
    FilterTwice(HasKey(column, k), ColumnIn(column, keys), rows);
    FilterAgree(Both(HasKey(column, k), ColumnIn(column, keys)), HasKey(column, k), rows);
  }

  /** Some row of the user's own query has the key. */
  ghost predicate HasRows(v: View, column: string, k: int, table: seq<Row>) {
    exists r :: r in Select(v, table) && Field(r, column) == k
  }

  lemma RowsOfKey(v: View, column: string, k: int, table: seq<Row>)
    ensures Filter(HasKey(column, k), Select(v, table)) != [] <==> HasRows(v, column, k, table)
  {
    var kept := Filter(HasKey(column, k), Select(v, table));
    forall r { FilterMember(HasKey(column, k), Select(v, table), r); }
    if kept != [] {
      assert kept[0] in kept;
    }
  }

  lemma ChildColumns(v: View, idColumn: Option<string>)
    requires idColumn != Some("account_id")
    ensures var cols := ColumnsOf(AppendFieldOnce(v, "account_id"), idColumn); cols == [] || "account_id" in cols
  {
    if v.fields != [] {
      ColumnsSuffice(AppendFieldOnce(v, "account_id").fields, idColumn, []);
    }
  }

  lemma ParentColumns(v: View)
    ensures var cols := ColumnsOf(v, Some("id")); cols == [] || "id" in cols
  {
    if v.fields != [] {
      ColumnsSuffice(v.fields, Some("id"), []);
    }
  }

  // ----- one to many -----

  /** The join: the rows of the user's own query with this foreign key, in their order, projected. */
  function Joined(v: View, idColumn: Option<string>, table: seq<Row>, id: int): seq<Entity> {
    Map(Projection(ColumnsOf(AppendFieldOnce(v, "account_id"), idColumn)),
        Filter(HasKey("account_id", id), Select(v, table)))
  }

  /** Each parent in the batch gets exactly its join, in the order of the query. */
  lemma ChildrenAreTheJoin(v: View, idColumn: Option<string>, table: seq<Row>, ids: seq<int>, id: int)
    requires Unpaged(v) && id in ids && idColumn != Some("account_id")
    ensures Children(Run(ChildView(v, ids), idColumn, table), "account_id", id) == Joined(v, idColumn, table, id)
  {
    var w := AppendFieldOnce(v, "account_id");
    var q := ChildView(v, ids);
    assert ColumnsOf(q, idColumn) == ColumnsOf(w, idColumn) && Select(w, table) == Select(v, table);
    ChildColumns(v, idColumn);
    FilterProjected(ColumnsOf(q, idColumn), "account_id", id, Select(q, table));
    BatchOfOne(w, "account_id", ids, id, table);
  }

  /** Selecting fields projects the children and changes nothing else, with or without paging. */
  lemma ChildrenProjected(v: View, idColumn: Option<string>, table: seq<Row>, ids: seq<int>, id: int)
    requires idColumn != Some("account_id")
    ensures Children(Run(ChildView(v, ids), idColumn, table), "account_id", id) ==
            Map(Projection(ColumnsOf(AppendFieldOnce(v, "account_id"), idColumn)),
                Children(Run(ChildView(v.(fields := []), ids), idColumn, table), "account_id", id))
  {
    var cols := ColumnsOf(AppendFieldOnce(v, "account_id"), idColumn);
    var q, all := ChildView(v, ids), ChildView(v.(fields := []), ids);
    ChildColumns(v, idColumn);
    assert Select(q, table) == Select(all, table);
    FilterProjected(cols, "account_id", id, Select(q, table));
    FilterProjected([], "account_id", id, Select(q, table));
    MapIdentity(Projection([]), Filter(HasKey("account_id", id), Select(q, table)));
  }

  lemma {:induction false} MapIdentity(f: Row -> Entity, rows: seq<Row>)
    requires forall r :: f(r) == r
    ensures Map(f, rows) == rows
  {
    if rows != [] {
      MapIdentity(f, rows[1..]);
    }
  }

  // ----- many to one -----

  function Last<T>(xs: seq<T>): Option<T> {
    if xs == [] then None else Some(xs[|xs| - 1])
  }

  lemma {:induction false} ReferencedIsLast(neighbors: seq<Entity>, k: int)
    ensures Referenced(neighbors, Some(k)) == Last(Filter(HasKey("id", k), neighbors))
  {
    if neighbors != [] {
      var prefix, last := neighbors[..|neighbors| - 1], neighbors[|neighbors| - 1];
      ReferencedIsLast(prefix, k);
      assert neighbors == prefix + [last];
      FilterAppend(HasKey("id", k), prefix, [last]);
    }
  }

  /** The row of the user's own query that a key refers to. */
  function RowReferenced(v: View, table: seq<Row>, k: int): Option<Row> {
    Last(Filter(HasKey("id", k), Select(v, table)))
  }

  /** The rows found for one key of a batch are those the user's own query has for it. */
  lemma FoundForKey(v: View, table: seq<Row>, fks: seq<Option<int>>, k: int)
    requires Unpaged(v) && k in Keys(fks, |fks|)
    ensures Filter(HasKey("id", k), ParentsFound(v, fks, table)) ==
            Map(Projection(ColumnsOf(v, Some("id"))), Filter(HasKey("id", k), Select(v, table)))
  {
    ParentColumns(v);
    FilterProjected(ColumnsOf(v, Some("id")), "id", k, Select(ParentView(v, fks), table));
    BatchOfOne(v, "id", Keys(fks, |fks|), k, table);
  }

  /** Each key in the batch leads to the row it leads to alone. */
  lemma ParentIsTheReferencedRow(v: View, table: seq<Row>, fks: seq<Option<int>>, k: int)
    requires Unpaged(v) && Some(k) in fks
    ensures Referenced(ParentsFound(v, fks, table), Some(k)) ==
            match RowReferenced(v, table, k)
            case None => None
            case Some(r) => Some(Project(ColumnsOf(v, Some("id")), r))
  {
    assert k in Keys(fks, |fks|) by {
      KeysCorrect(fks, |fks|);
      assert fks[..|fks|] == fks;
    }
    ReferencedIsLast(ParentsFound(v, fks, table), k);
    FoundForKey(v, table, fks, k);
  }

  /** A key that is set leads somewhere exactly when some returned row carries it. */
  lemma {:induction false} ReferencedFound(neighbors: seq<Entity>, k: Option<int>)
    ensures match Referenced(neighbors, k)
            case Some(e) => e in neighbors && k == Some(Field(e, "id"))
            case None => k == None || forall e :: e in neighbors ==> Field(e, "id") != k.value
  {
    if k.Some? {
      ReferencedIsLast(neighbors, k.value);
      var found := Filter(HasKey("id", k.value), neighbors);
      forall e { FilterMember(HasKey("id", k.value), neighbors, e); }
    } else {
      NothingReferenced(neighbors);
    }
  }

  lemma {:induction false} NothingReferenced(neighbors: seq<Entity>)
    ensures Referenced(neighbors, None) == None
  {
  }

  lemma {:induction false} ReferencedProjected(columns: seq<string>, rows: seq<Row>, k: Option<int>)
    requires columns == [] || "id" in columns
    ensures Referenced(Map(Projection(columns), rows), k) ==
            match Referenced(rows, k)
            case None => None
            case Some(r) => Some(Project(columns, r))
  {
    if k.Some? {
      ReferencedIsLast(rows, k.value);
      ReferencedIsLast(Map(Projection(columns), rows), k.value);
      FilterProjected(columns, "id", k.value, rows);
    } else {
      NothingReferenced(rows);
      NothingReferenced(Map(Projection(columns), rows));
    }
  }

  /** Selecting fields of the parent projects it and changes nothing else, with or without paging. */
  lemma ParentProjected(v: View, table: seq<Row>, fks: seq<Option<int>>, k: Option<int>)
    ensures Referenced(ParentsFound(v, fks, table), k) ==
            match Referenced(ParentsFound(v.(fields := []), fks, table), k)
            case None => None
            case Some(e) => Some(Project(ColumnsOf(v, Some("id")), e))
  {
    if Keys(fks, |fks|) != [] {
      var rows := Select(ParentView(v, fks), table);
      assert Select(ParentView(v.(fields := []), fks), table) == rows;
      ParentColumns(v);
      ReferencedProjected(ColumnsOf(v, Some("id")), rows, k);
      MapIdentity(Projection([]), rows);
    }
  }
}
