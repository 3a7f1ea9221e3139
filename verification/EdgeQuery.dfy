/** Queries on neighbouring tables: the column list of `querySpec`, and what a query returns
    (backend/ent/account_query.go, querySpec; backend/ent/accountgroup_query.go, querySpec). */
module EdgeQuery {
  import opened Wrappers
  import opened Tables
  import opened Relational

  // ----- columns -----

  /** `AddColumnOnce` and `AppendFieldOnce`. */
  function AddOnce<C(==, !new)>(columns: seq<C>, c: C): (r: seq<C>)
    ensures forall d :: d in r <==> d in columns || d == c
  {
    if c in columns then columns else columns + [c]
  }

  function Without<C(==, !new)>(fields: seq<C>, id: C): (r: seq<C>)
    ensures forall c :: c in r <==> c in fields && c != id
  {
    if fields == [] then []
    else
      assert forall c :: c in fields <==> c == fields[0] || c in fields[1..];
      (if fields[0] != id then [fields[0]] else []) + Without(fields[1..], id)
  }

  /** The columns of a query with selected fields: the id first where the entity has one, then the
      fields, then the foreign keys that eager loading needs. */
  function NodeColumns<C(==, !new)>(fields: seq<C>, id: Option<C>, needed: seq<C>): seq<C> {
    if needed == [] then
      if id.Some? then [id.value] + Without(fields, id.value) else fields
    else AddOnce(NodeColumns(fields, id, needed[..|needed| - 1]), needed[|needed| - 1])
  }

  lemma WithoutAppend<C(!new)>(a: seq<C>, c: C, id: C)
    ensures Without(a + [c], id) == Without(a, id) + if c != id then [c] else []
  {
    if a == [] {
      assert a + [c] == [c];
    } else {
      assert (a + [c])[0] == a[0] && (a + [c])[1..] == a[1..] + [c];
      WithoutAppend(a[1..], c, id);
    }
  }

  /** `querySpec`: the column list, built by appending. */
  method QuerySpecColumns<C(==, !new)>(fields: seq<C>, id: Option<C>, needed: seq<C>) returns (columns: seq<C>)
    ensures columns == NodeColumns(fields, id, needed)
  {
    columns := [];
    if id.Some? {
      columns := columns + [id.value];
      for i := 0 to |fields|
        invariant columns == [id.value] + Without(fields[..i], id.value)
      {
        assert fields[..i + 1] == fields[..i] + [fields[i]];
        WithoutAppend(fields[..i], fields[i], id.value);
        if fields[i] != id.value {
          columns := columns + [fields[i]];
        }
      }
      assert fields[..|fields|] == fields;
    } else {
      for i := 0 to |fields|
        invariant columns == fields[..i]
      {
        columns := columns + [fields[i]];
      }
    }
    for i := 0 to |needed|
      invariant columns == NodeColumns(fields, id, needed[..i])
    {
      assert needed[..i + 1][..i] == needed[..i] && needed[..i + 1][i] == needed[i];
      columns := AddOnce(columns, needed[i]);
    }
    assert needed[..|needed|] == needed;
  }

  /** Projection keeps what eager loading needs: the id comes first and only once, every field and
      every needed foreign key is there, and nothing else. */
  lemma {:induction false} ColumnsSuffice<C(!new)>(fields: seq<C>, id: Option<C>, needed: seq<C>)
    requires id.Some? ==> id.value !in needed
    ensures var cols := NodeColumns(fields, id, needed);
            (forall c :: c in cols <==> c in fields || c in needed || id == Some(c)) &&
            (id.Some? ==> cols != [] && cols[0] == id.value && id.value !in cols[1..])
    decreases |needed|
  {
    if needed == [] {
      if id.Some? {
        assert NodeColumns(fields, id, needed)[1..] == Without(fields, id.value);
      }
    } else {
      var prefix, last := needed[..|needed| - 1], needed[|needed| - 1];
      assert forall c :: c in needed <==> c in prefix || c == last;
      ColumnsSuffice(fields, id, prefix);
      var cols := NodeColumns(fields, id, prefix);
      if id.Some? && last !in cols {
        assert (cols + [last])[1..] == cols[1..] + [last];
      }
    }
  }

  // ----- queries -----

  type Predicate = Row -> bool

  /** What a query denotes. */
  datatype View = View(fields: seq<string>, predicates: seq<Predicate>, order: Option<Row -> int>,
                       limit: Option<nat>, offset: nat)

  function Unpaged(v: View): bool {
    !Limits(v.limit) && v.offset == 0
  }

  function ColumnIn(column: string, ids: seq<int>): Predicate {
    r => Field(r, column) in ids
  }

  function Where(v: View, p: Predicate): View {
    v.(predicates := v.predicates + [p])
  }

  /** Selecting nothing means selecting everything, so only then is nothing appended. */
  function AppendFieldOnce(v: View, field: string): View {
    if v.fields == [] then v else v.(fields := AddOnce(v.fields, field))
  }

  predicate Holds(ps: seq<Predicate>, r: Row) {
    forall i :: 0 <= i < |ps| ==> ps[i](r)
  }

  function Matching(ps: seq<Predicate>): Predicate {
    r => Holds(ps, r)
  }

  function Ordered(order: Option<Row -> int>, rows: seq<Row>): seq<Row> {
    if order.None? then rows else SortBy(order.value, rows)
  }

  /** The rows a query selects from a table. */
  function Select(v: View, table: seq<Row>): seq<Row> {
    Page(v.limit, v.offset, Ordered(v.order, Filter(Matching(v.predicates), table)))
  }

  function Project(columns: seq<string>, r: Row): Entity {
    if columns == [] then r else map c | c in columns && c in r :: r[c]
  }

  /** The columns of the entities a query returns; `idColumn` is None for a composite key. */
  function ColumnsOf(v: View, idColumn: Option<string>): seq<string> {
    if v.fields == [] then [] else NodeColumns(v.fields, idColumn, [])
  }

  function Projection(columns: seq<string>): Row -> Entity {
    r => Project(columns, r)
  }

  function Run(v: View, idColumn: Option<string>, table: seq<Row>): seq<Entity> {
    Map(Projection(ColumnsOf(v, idColumn)), Select(v, table))
  }

  class EdgeQuery {
    var view: View
    /** The joins with a join table that loading has added, each with the ids it asks for. */
    var joins: seq<seq<int>>

    constructor ()
      ensures view == View([], [], None, None, 0) && joins == []
    {
      view, joins := View([], [], None, None, 0), [];
    }
  }

  // ----- selection lemmas -----

  lemma SelectedRow(v: View, table: seq<Row>, r: Row)
    requires r in Select(v, table)
    ensures r in table && Holds(v.predicates, r)
  {
    var kept := Filter(Matching(v.predicates), table);
    var sorted := Ordered(v.order, kept);
    if v.order.Some? {
      SortByCorrect(v.order.value, kept);
    }
    assert r in sorted;
    assert r in multiset(sorted) && multiset(sorted) == multiset(kept);
    assert r in kept;
    FilterMember(Matching(v.predicates), table, r);
  }

  lemma HoldsWhere(v: View, p: Predicate, r: Row)
    ensures Holds(Where(v, p).predicates, r) <==> Holds(v.predicates, r) && p(r)
  {
    var ps := Where(v, p).predicates;
    assert ps[|ps| - 1] == p;
    if Holds(ps, r) {
      forall i | 0 <= i < |v.predicates| ensures v.predicates[i](r) {
        assert ps[i] == v.predicates[i];
      }
    }
  }

  /** Without paging, a further condition is a filter on the selected rows, in the same order. */
  lemma SelectWhere(v: View, p: Predicate, table: seq<Row>)
    requires Unpaged(v)
    ensures Select(Where(v, p), table) == Filter(p, Select(v, table))
  {
    var all := Filter(Matching(v.predicates), table);
    forall r { HoldsWhere(v, p, r); }
    FilterTwice(p, Matching(v.predicates), table);
    FilterAgree(Matching(Where(v, p).predicates), Both(p, Matching(v.predicates)), table);
    if v.order.Some? {
      FilterSort(p, v.order.value, all);
    }
    assert Ordered(v.order, all)[0..] == Ordered(v.order, all);
    assert Ordered(v.order, Filter(p, all))[0..] == Ordered(v.order, Filter(p, all));
  }

  /** A projection that keeps a column keeps its value. */
  lemma FieldOfProjection(columns: seq<string>, r: Row, column: string)
    requires columns == [] || column in columns
    ensures Field(Project(columns, r), column) == Field(r, column)
  {
  }
}
