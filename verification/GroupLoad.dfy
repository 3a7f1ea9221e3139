/** The many-to-many load: wrapped scan and assign callbacks keep each neighbour once and record
    which parents own it (backend/ent/account_query.go, loadGroups). */
module GroupLoad {
  import opened Wrappers
  import opened Tables
  import opened Relational
  import opened EdgeQuery
  import opened Account
  import opened EagerLoad

  /** A row of groups joined with account_groups, with the account id in front. */
  datatype JoinRow = JoinRow(owner: int, row: Row)

  function GroupID(j: JoinRow): int {
    Field(j.row, "id")
  }

  function JoinWith(membership: Row, groups: seq<Row>): seq<JoinRow> {
    if groups == [] then []
    else
      (if Field(groups[0], "id") == Field(membership, "group_id")
       then [JoinRow(Field(membership, "account_id"), groups[0])] else [])
      + JoinWith(membership, groups[1..])
  }

  /** The join of the two tables. */
  function Join(memberships: seq<Row>, groups: seq<Row>): seq<JoinRow> {
    if memberships == [] then [] else JoinWith(memberships[0], groups) + Join(memberships[1..], groups)
  }

  function Selects(v: View, ids: seq<int>): JoinRow -> bool {
    (j: JoinRow) => j.owner in ids && Holds(v.predicates, j.row)
  }

  function RowKey(key: Row -> int): JoinRow -> int {
    (j: JoinRow) => key(j.row)
  }

  function OrderedJoin(order: Option<Row -> int>, rows: seq<JoinRow>): seq<JoinRow> {
    if order.None? then rows else SortBy(RowKey(order.value), rows)
  }

  /** The rows the group query returns for the given accounts. */
  function SelectJoined(v: View, ids: seq<int>, stream: seq<JoinRow>): seq<JoinRow> {
    Page(v.limit, v.offset, OrderedJoin(v.order, Filter(Selects(v, ids), stream)))
  }

  // ----- what the load computes -----

  predicate Seen(rows: seq<JoinRow>, gid: int) {
    exists k :: 0 <= k < |rows| && GroupID(rows[k]) == gid
  }

  predicate Owns(rows: seq<JoinRow>, id: int, gid: int) {
    exists k :: 0 <= k < |rows| && rows[k].owner == id && GroupID(rows[k]) == gid
  }

  /** The neighbours the wrapped callback keeps: the first row of each group. */
  function Neighbors(columns: seq<string>, rows: seq<JoinRow>): seq<Entity> {
    if rows == [] then []
    else
      var prefix, last := rows[..|rows| - 1], rows[|rows| - 1];
      Neighbors(columns, prefix) + if Seen(prefix, GroupID(last)) then [] else [Project(columns, last.row)]
  }

  function OwnedBy(rows: seq<JoinRow>, id: int): Entity -> bool {
    e => Owns(rows, id, Field(e, "id"))
  }

  function GroupsFor(columns: seq<string>, rows: seq<JoinRow>, id: int): seq<Entity> {
    Filter(OwnedBy(rows, id), Neighbors(columns, rows))
  }

  /** What the load gives the i-th account. */
  ghost function GroupsOf(columns: seq<string>, rows: seq<JoinRow>, ids: seq<int>, i: nat): seq<Entity>
    requires i < |ids|
  {
    if IsLast(ids, i) then GroupsFor(columns, rows, ids[i]) else []
  }

  // ----- the callbacks -----

  ghost predicate From(rows: seq<JoinRow>, byID: map<int, Account>, g: int, n: Account) {
    exists k :: 0 <= k < |rows| && GroupID(rows[k]) == g && rows[k].owner in byID && byID[rows[k].owner] == n
  }

  /** The parents recorded for each group. */
  ghost predicate Recorded(nids: map<int, set<Account>>, byID: map<int, Account>, rows: seq<JoinRow>) {
    (forall g :: g in nids <==> Seen(rows, g)) &&
    (forall j :: 0 <= j < |rows| ==> rows[j].owner in byID) &&
    (forall k :: 0 <= k < |rows| ==> byID[rows[k].owner] in nids[GroupID(rows[k])]) &&
    (forall g, n :: g in nids && n in nids[g] ==> From(rows, byID, g, n))
  }

  lemma RecordStep(nids: map<int, set<Account>>, byID: map<int, Account>, rows: seq<JoinRow>, m: nat)
    requires m < |rows| && Recorded(nids, byID, rows[..m]) && rows[m].owner in byID
    ensures var g := GroupID(rows[m]);
            Recorded(nids[g := (if g in nids then nids[g] else {}) + {byID[rows[m].owner]}], byID, rows[..m + 1])
    ensures Seen(rows[..m], GroupID(rows[m])) <==> GroupID(rows[m]) in nids
  {
    var a, b := rows[..m], rows[..m + 1];
    assert b == a + [rows[m]];
    var g0 := GroupID(rows[m]);
    var nids' := nids[g0 := (if g0 in nids then nids[g0] else {}) + {byID[rows[m].owner]}];
    forall g ensures Seen(b, g) <==> Seen(a, g) || g == g0 {
      assert b[m] == rows[m];
      if Seen(a, g) {
        var k :| 0 <= k < |a| && GroupID(a[k]) == g;
        assert b[k] == a[k];
      }
    }
    forall g, n | g in nids' && n in nids'[g] ensures From(b, byID, g, n) {
      assert b[m] == rows[m];
      if g in nids && n in nids[g] {
        assert From(a, byID, g, n);
        var k :| 0 <= k < |a| && GroupID(a[k]) == g && byID[a[k].owner] == n;
        assert b[k] == a[k];
      }
    }
    forall k | 0 <= k < |b| ensures byID[b[k].owner] in nids'[GroupID(b[k])] {
      if k < m {
        assert b[k] == a[k];
      }
    }
  }

  /** The column behind the account id in a row, which the callbacks take for the group's id. */
  function SecondColumn(columns: seq<string>): string {
    if columns == [] then "id" else columns[0]
  }

  /** `spec.Assign`, called by the driver once for each row. */
  method CollectRows(columns: seq<string>, rows: seq<JoinRow>, byID: map<int, Account>)
    returns (neighbors: seq<Entity>, nids: map<int, set<Account>>)
    requires forall j :: 0 <= j < |rows| ==> rows[j].owner in byID
    requires SecondColumn(columns) == "id"
    ensures neighbors == Neighbors(columns, rows) && Recorded(nids, byID, rows)
  {
    neighbors, nids := [], map[];
    for m := 0 to |rows|
      invariant neighbors == Neighbors(columns, rows[..m]) && Recorded(nids, byID, rows[..m])
    {
      RecordStep(nids, byID, rows, m);
      assert rows[..m + 1][..m] == rows[..m] && rows[..m + 1][m] == rows[m];
      var outValue, inValue := rows[m].owner, Field(rows[m].row, SecondColumn(columns));
      if inValue !in nids {
        nids := nids[inValue := {byID[outValue]}];
        neighbors := neighbors + [Project(columns, rows[m].row)];
      } else {
        nids := nids[inValue := nids[inValue] + {byID[outValue]}];
      }
    }
    assert rows[..|rows|] == rows;
  }

  // ----- the scatter -----

  method IndexGroups(nodes: seq<Account>, ghost ids: seq<int>) returns (edgeIDs: seq<int>, byID: map<int, Account>)
    requires Distinct(nodes) && HaveIDs(nodes, ids)
    modifies (set n | n in nodes)`groups
    ensures edgeIDs == ids && byID == ByID(nodes, ids, |ids|)
    ensures forall i :: 0 <= i < |nodes| ==> nodes[i].groups == []
  {
    edgeIDs, byID := [], map[];
    for i := 0 to |nodes|
      invariant edgeIDs == ids[..i] && byID == ByID(nodes, ids, i)
      invariant forall j :: 0 <= j < i ==> nodes[j].groups == []
    {
      edgeIDs := edgeIDs + [nodes[i].fields.id];
      byID := byID[nodes[i].fields.id := nodes[i]];
      nodes[i].groups := [];
    }
    assert ids[..|nodes|] == ids;
  }

  /** Appends to every node of a set; the order in which Go visits the set is left open. */
  method AppendToAll(owners: set<Account>, e: Entity)
    modifies owners`groups
    ensures forall n :: n in owners ==> n.groups == old(n.groups) + [e]
  {
    var rest := owners;
    while rest != {}
      invariant rest <= owners
      invariant forall n :: n in rest ==> n.groups == old(n.groups)
      invariant forall n :: n in owners - rest ==> n.groups == old(n.groups) + [e]
      decreases |rest|
    {
      var kn :| kn in rest;
      kn.groups := kn.groups + [e];
      rest := rest - {kn};
    }
  }

  /** A node is recorded for a group exactly when it is the last with its id and owns a row. */
  lemma OwnerOf(nids: map<int, set<Account>>, nodes: seq<Account>, ids: seq<int>, rows: seq<JoinRow>, g: int, i: nat)
    requires Distinct(nodes) && |ids| == |nodes| && i < |nodes| && g in nids
    requires Recorded(nids, ByID(nodes, ids, |ids|), rows)
    ensures nodes[i] in nids[g] <==> IsLast(ids, i) && Owns(rows, ids[i], g)
  {
    var byID := ByID(nodes, ids, |ids|);
    ByIDKeys(nodes, ids, |ids|);
    assert ids[..|ids|] == ids;
    if nodes[i] in nids[g] {
      assert From(rows, byID, g, nodes[i]);
      var k :| 0 <= k < |rows| && GroupID(rows[k]) == g && byID[rows[k].owner] == nodes[i];
      var l := LastExists(ids, rows[k].owner);
      ByIDLast(nodes, ids, |ids|, l);
      assert l == i;
    }
    if IsLast(ids, i) && Owns(rows, ids[i], g) {
      ByIDLast(nodes, ids, |ids|, i);
      var k :| 0 <= k < |rows| && rows[k].owner == ids[i] && GroupID(rows[k]) == g;
      assert byID[rows[k].owner] == nodes[i];
    }
  }

  lemma OwnersAmongNodes(nids: map<int, set<Account>>, nodes: seq<Account>, ids: seq<int>, rows: seq<JoinRow>, g: int)
    requires |ids| == |nodes| && g in nids && Recorded(nids, ByID(nodes, ids, |ids|), rows)
    ensures forall n :: n in nids[g] ==> n in nodes
  {
    forall n | n in nids[g] ensures n in nodes {
      assert From(rows, ByID(nodes, ids, |ids|), g, n);
      var k :| 0 <= k < |rows| && GroupID(rows[k]) == g && ByID(nodes, ids, |ids|)[rows[k].owner] == n;
      ByIDKeys(nodes, ids, |ids|);
      assert ids[..|ids|] == ids;
      var l := LastExists(ids, rows[k].owner);
      ByIDLast(nodes, ids, |ids|, l);
    }
  }

  lemma {:induction false} NeighborsSeen(columns: seq<string>, rows: seq<JoinRow>, e: Entity)
    requires columns == [] || "id" in columns
    requires e in Neighbors(columns, rows)
    ensures Seen(rows, Field(e, "id"))
  {
    var prefix, last := rows[..|rows| - 1], rows[|rows| - 1];
    FieldOfProjection(columns, last.row, "id");
    if e in Neighbors(columns, prefix) {
      NeighborsSeen(columns, prefix, e);
      var k :| 0 <= k < |prefix| && GroupID(prefix[k]) == Field(e, "id");
      assert rows[k] == prefix[k];
    }
  }

  /** The groups given to the i-th account after m neighbours. */
  ghost function GroupsSoFar(neighbors: seq<Entity>, rows: seq<JoinRow>, ids: seq<int>, m: nat, i: nat): seq<Entity>
    requires i < |ids| && m <= |neighbors|
  {
    if IsLast(ids, i) then Filter(OwnedBy(rows, ids[i]), neighbors[..m]) else []
  }

  lemma GroupsStep(neighbors: seq<Entity>, rows: seq<JoinRow>, ids: seq<int>, m: nat, i: nat)
    requires i < |ids| && m < |neighbors|
    ensures GroupsSoFar(neighbors, rows, ids, m + 1, i) ==
            GroupsSoFar(neighbors, rows, ids, m, i) +
            if IsLast(ids, i) && Owns(rows, ids[i], Field(neighbors[m], "id")) then [neighbors[m]] else []
  {
    assert neighbors[..m + 1] == neighbors[..m] + [neighbors[m]];
    FilterAppend(OwnedBy(rows, ids[i]), neighbors[..m], [neighbors[m]]);
  }

  method ScatterGroups(nodes: seq<Account>, ghost ids: seq<int>, ghost rows: seq<JoinRow>, neighbors: seq<Entity>,
                       nids: map<int, set<Account>>)
    returns (err: Option<LoadError>)
    requires Distinct(nodes) && |ids| == |nodes| && Recorded(nids, ByID(nodes, ids, |ids|), rows)
    requires forall e :: e in neighbors ==> Seen(rows, Field(e, "id"))
    requires forall i :: 0 <= i < |nodes| ==> nodes[i].groups == []
    modifies (set n | n in nodes)`groups
    ensures err == None
    ensures forall i :: 0 <= i < |nodes| ==> nodes[i].groups == GroupsSoFar(neighbors, rows, ids, |neighbors|, i)
  {
    for m := 0 to |neighbors|
      invariant forall i :: 0 <= i < |nodes| ==> nodes[i].groups == GroupsSoFar(neighbors, rows, ids, m, i)
    {
      var e := neighbors[m];
      assert e in neighbors;
      var id := Field(e, "id");
      if id !in nids {
        return Some(UnexpectedNode("groups", id));
      }
      forall i: nat | i < |nodes|
        ensures GroupsSoFar(neighbors, rows, ids, m + 1, i) ==
                GroupsSoFar(neighbors, rows, ids, m, i) + if nodes[i] in nids[id] then [e] else []
      {
        OwnerOf(nids, nodes, ids, rows, id, i);
        GroupsStep(neighbors, rows, ids, m, i);
      }
      OwnersAmongNodes(nids, nodes, ids, rows, id);
      AppendToAll(nids[id], e);
    }
    return None;
  }

  lemma SelectedOwner(v: View, ids: seq<int>, stream: seq<JoinRow>, j: JoinRow)
    requires j in SelectJoined(v, ids, stream)
    ensures j in stream && j.owner in ids && Holds(v.predicates, j.row)
  {
    var kept := Filter(Selects(v, ids), stream);
    var sorted := OrderedJoin(v.order, kept);
    if v.order.Some? {
      SortByCorrect(RowKey(v.order.value), kept);
    }
    assert j in sorted;
    assert j in multiset(sorted) && multiset(sorted) == multiset(kept);
    assert j in kept;
    FilterMember(Selects(v, ids), stream, j);
  }

  // ----- a group query that is loaded again -----

  function RowOf(): JoinRow -> Row {
    (j: JoinRow) => j.row
  }

  function OwnedIn(ids: seq<int>): JoinRow -> bool {
    (j: JoinRow) => j.owner in ids
  }

  /** The groups as earlier loads of the query have joined them: every load adds a join for its ids. */
  function JoinedBefore(joins: seq<seq<int>>, memberships: seq<Row>, groups: seq<Row>): seq<Row> {
    if joins == [] then groups
    else
      var n := |joins| - 1;
      Map(RowOf(), Filter(OwnedIn(joins[n]), Join(memberships, JoinedBefore(joins[..n], memberships, groups))))
  }

  /** The rows a load gets for its ids. */
  function GroupRows(v: View, joins: seq<seq<int>>, db: Database, ids: seq<int>): seq<JoinRow> {
    SelectJoined(v, ids, Join(db.accountGroups, JoinedBefore(joins, db.accountGroups, db.groups)))
  }

  /** How a load fails. On a query that was loaded before, the second column of a row is the account id
      of an earlier join, which is not a column of groups: the assertion on its type panics. */
  function GroupsFail(v: View, joins: seq<seq<int>>, db: Database, ids: seq<int>): Option<LoadError> {
    var failed := QueryFails(v, AskedGroups, db);
    if failed.Some? then failed
    else if joins != [] && GroupRows(v, joins, db, ids) != [] then Some(Panicked(AskedGroups)) else None
  }

  /** The load: index the accounts, add the join, collect the rows, scatter the neighbours. */
  method LoadGroups(query: EdgeQuery, nodes: seq<Account>, db: Database, ghost ids: seq<int>)
    returns (err: Option<LoadError>)
    requires Distinct(nodes) && HaveIDs(nodes, ids)
    modifies query`joins, (set n | n in nodes)`groups
    ensures err == GroupsFail(query.view, old(query.joins), db, ids)
    ensures query.joins == old(query.joins) + [ids]
    ensures err == None ==> forall i :: 0 <= i < |nodes| ==>
      nodes[i].groups ==
      GroupsOf(ColumnsOf(query.view, Some("id")), GroupRows(query.view, old(query.joins), db, ids), ids, i)
  {
    var before := query.joins;
    var edgeIDs, byID := IndexGroups(nodes, ids);
    query.joins := query.joins + [edgeIDs];
    err := Execute(query.view, AskedGroups, db);
    if err != None {
      return;
    }
    var rows := GroupRows(query.view, before, db, edgeIDs);
    if |query.joins| > 1 && |rows| > 0 {
      return Some(Panicked(AskedGroups));
    }
    err := ScatterJoined(query.view, nodes, before, db, byID, ids, rows);
  }

  method ScatterJoined(v: View, nodes: seq<Account>, ghost joins: seq<seq<int>>, ghost db: Database,
                       byID: map<int, Account>, ghost ids: seq<int>, rows: seq<JoinRow>)
    returns (err: Option<LoadError>)
    requires Distinct(nodes) && |ids| == |nodes| && byID == ByID(nodes, ids, |ids|)
    requires rows == GroupRows(v, joins, db, ids) && forall i :: 0 <= i < |nodes| ==> nodes[i].groups == []
    modifies (set n | n in nodes)`groups
    ensures err == None
    ensures forall i :: 0 <= i < |nodes| ==> nodes[i].groups == GroupsOf(ColumnsOf(v, Some("id")), rows, ids, i)
  {
    var neighbors, nids := CollectJoined(v, nodes, joins, db, byID, ids, rows);
    err := ScatterGroups(nodes, ids, rows, neighbors, nids);
    assert neighbors[..|neighbors|] == neighbors;
  }

  method CollectJoined(v: View, nodes: seq<Account>, ghost joins: seq<seq<int>>, ghost db: Database,
                       byID: map<int, Account>, ghost ids: seq<int>, rows: seq<JoinRow>)
    returns (neighbors: seq<Entity>, nids: map<int, set<Account>>)
    requires |ids| == |nodes| && byID == ByID(nodes, ids, |ids|)
    requires rows == GroupRows(v, joins, db, ids)
    ensures neighbors == Neighbors(ColumnsOf(v, Some("id")), rows) && Recorded(nids, byID, rows)
    ensures forall e :: e in neighbors ==> Seen(rows, Field(e, "id"))
  {
    var columns := ColumnsOf(v, Some("id"));
    JoinedAmongNodes(v, nodes, ids, Join(db.accountGroups, JoinedBefore(joins, db.accountGroups, db.groups)));
    if v.fields != [] {
      ColumnsSuffice(v.fields, Some("id"), []);
    }
    neighbors, nids := CollectRows(columns, rows, byID);
    forall e | e in neighbors { NeighborsSeen(columns, rows, e); }
  }

  lemma JoinedAmongNodes(v: View, nodes: seq<Account>, ids: seq<int>, stream: seq<JoinRow>)
    requires |ids| == |nodes|
    ensures forall j :: j in SelectJoined(v, ids, stream) ==> j.owner in ByID(nodes, ids, |ids|)
  {
    ByIDKeys(nodes, ids, |ids|);
    assert ids[..|ids|] == ids;
    forall j | j in SelectJoined(v, ids, stream) { SelectedOwner(v, ids, stream, j); }
  }
}
