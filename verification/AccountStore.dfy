/** What creating an account leaves in the other tables, and what loading it then gives
    (backend/ent/account_create.go, createSpec; backend/ent/account_query.go). */
module AccountStore {
  import opened Wrappers
  import opened Tables
  import opened Relational
  import opened EdgeQuery
  import opened Account
  import opened AccountCreate
  import opened EagerLoad
  import opened GroupLoad
  import opened GroupLaws
  import opened AccountQuery
  import opened QueryLaws
  import opened EdgeLaws

  // ----- storing edges -----

  /** The order in which ids are taken from a set, each once. */
  ghost predicate Listing(order: set<int> -> seq<int>) {
    forall s :: |order(s)| == |s| && forall x :: x in order(s) <==> x in s
  }

  function LinkRow(columns: seq<string>, id: int, fields: JoinFields): int -> Row
    requires |columns| == 2
  {
    target => map[columns[0] := id, columns[1] := target, "priority" := fields.priority,
                  "created_at" := fields.createdAt]
  }

  /** A row of another table that is made to point at the new one. */
  function PointAt(column: string, id: int, targets: set<int>): Row -> Row {
    r => if Field(r, "id") in targets then r[column := id] else r
  }

  /** A join row for each target, or the targets' own foreign key; the foreign key of a many-to-one edge
      is in the new row itself. */
  function StoreEdge(e: Edge, id: int, order: set<int> -> seq<int>, db: Database): Database {
    match e
    case M2M(table, columns, targets, fields) =>
      if table == "account_groups" && |columns| == 2
      then db.(accountGroups := db.accountGroups + Map(LinkRow(columns, id, fields), order(targets))) else db
    case O2M(table, column, targets) =>
      if table == "usage_logs" then db.(usageLogs := Map(PointAt(column, id, targets), db.usageLogs)) else db
    case M2O(_, _, _) => db
  }

  /** What an accepted INSERT does to the other tables. */
  function StoreEdges(edges: seq<Edge>, id: int, order: set<int> -> seq<int>, db: Database): Database
    decreases |edges|
  {
    if edges == [] then db else StoreEdges(edges[1..], id, order, StoreEdge(edges[0], id, order, db))
  }

  /** The join row of an account and a group: the default priority, and the time it was made. */
  function Membership(id: int, group: int, now: Time): Row {
    map["account_id" := id, "group_id" := group, "priority" := 50, "created_at" := now]
  }

  lemma {:induction false} StoreAppend(a: seq<Edge>, b: seq<Edge>, id: int, order: set<int> -> seq<int>, db: Database)
    ensures StoreEdges(a + b, id, order, db) == StoreEdges(b, id, order, StoreEdges(a, id, order, db))
    decreases |a|
  {
    if a == [] {
      assert a + b == b;
    } else {
      assert (a + b)[0] == a[0] && (a + b)[1..] == a[1..] + b;
      StoreAppend(a[1..], b, id, order, StoreEdge(a[0], id, order, db));
    }
  }

  lemma OneEdge(e: Edge, id: int, order: set<int> -> seq<int>, db: Database)
    ensures StoreEdges([e], id, order, db) == StoreEdge(e, id, order, db)
  {
    assert [e][1..] == [];
  }

  /** One join row for every group of the mutation, in some order, after those that were there. */
  ghost predicate LinksAdded(m: Mutation, now: Time, id: int, order: set<int> -> seq<int>, before: seq<Row>,
                             after: seq<Row>)
  {
    |after| == |before| + |order(m.groups)| && before <= after &&
    forall k :: 0 <= k < |order(m.groups)| ==> after[|before| + k] == Membership(id, order(m.groups)[k], now)
  }

  /** The usage logs of the mutation point at the account; nothing else in the table has changed. */
  ghost predicate LogsPointed(m: Mutation, id: int, before: seq<Row>, after: seq<Row>) {
    |after| == |before| &&
    forall k :: 0 <= k < |before| ==>
      after[k] == if Field(before[k], "id") in m.usageLogs then before[k]["account_id" := id] else before[k]
  }

  function GroupEdges(m: Mutation, now: Time): seq<Edge> {
    if m.groups != {} then [M2M("account_groups", ["account_id", "group_id"], m.groups, JoinDefaults(now))] else []
  }

  function ProxyEdges(m: Mutation): seq<Edge> {
    if m.proxy.Some? then [M2O("accounts", "proxy_id", m.proxy.value)] else []
  }

  function LogEdges(m: Mutation): seq<Edge> {
    if m.usageLogs != {} then [O2M("usage_logs", "account_id", m.usageLogs)] else []
  }

  lemma GroupsStored(m: Mutation, now: Time, id: int, order: set<int> -> seq<int>, db: Database)
    requires Listing(order)
    ensures var after := StoreEdges(GroupEdges(m, now), id, order, db);
            LinksAdded(m, now, id, order, db.accountGroups, after.accountGroups) &&
            after == db.(accountGroups := after.accountGroups)
  {
    if m.groups != {} {
      OneEdge(GroupEdges(m, now)[0], id, order, db);
    }
  }

  lemma ProxyStoredElsewhere(m: Mutation, id: int, order: set<int> -> seq<int>, db: Database)
    ensures StoreEdges(ProxyEdges(m), id, order, db) == db
  {
    if m.proxy.Some? {
      OneEdge(ProxyEdges(m)[0], id, order, db);
    }
  }

  lemma LogsStored(m: Mutation, id: int, order: set<int> -> seq<int>, db: Database)
    ensures var after := StoreEdges(LogEdges(m), id, order, db);
            LogsPointed(m, id, db.usageLogs, after.usageLogs) && after == db.(usageLogs := after.usageLogs)
  {
    if m.usageLogs != {} {
      OneEdge(LogEdges(m)[0], id, order, db);
    }
  }

  /** What storing a spec leaves in the other tables. */
  lemma EdgesStored(m: Mutation, now: Time, id: int, order: set<int> -> seq<int>, db: Database)
    requires Listing(order)
    ensures var after := StoreEdges(SpecOf(m, now).edges, id, order, db);
            LinksAdded(m, now, id, order, db.accountGroups, after.accountGroups) &&
            LogsPointed(m, id, db.usageLogs, after.usageLogs) &&
            after == db.(accountGroups := after.accountGroups, usageLogs := after.usageLogs)
  {
    var groups, proxy, logs := GroupEdges(m, now), ProxyEdges(m), LogEdges(m);
    assert SpecOf(m, now).edges == groups + proxy + logs;
    StoreAppend(groups + proxy, logs, id, order, db);
    StoreAppend(groups, proxy, id, order, db);
    GroupsStored(m, now, id, order, db);
    var linked := StoreEdges(groups, id, order, db);
    ProxyStoredElsewhere(m, id, order, linked);
    LogsStored(m, id, order, linked);
  }

  // ----- the new account's rows -----

  /** No row refers to the id yet. */
  ghost predicate IsNew(id: int, db: Database) {
    (forall r :: r in db.accountGroups ==> Field(r, "account_id") != id) &&
    (forall r :: r in db.usageLogs ==> Field(r, "account_id") != id)
  }

  /** The memberships of a new account are one for each group of its mutation. */
  lemma MembershipsExactly(m: Mutation, now: Time, id: int, order: set<int> -> seq<int>, db: Database, r: Row)
    requires Listing(order) && IsNew(id, db)
    ensures var after := StoreEdges(SpecOf(m, now).edges, id, order, db);
            r in after.accountGroups && Field(r, "account_id") == id <==>
            exists g :: g in m.groups && r == Membership(id, g, now)
    ensures var after := StoreEdges(SpecOf(m, now).edges, id, order, db);
            |after.accountGroups| == |db.accountGroups| + |m.groups|
  {
    var after := StoreEdges(SpecOf(m, now).edges, id, order, db);
    EdgesStored(m, now, id, order, db);
    if r in after.accountGroups && Field(r, "account_id") == id {
      var k :| 0 <= k < |after.accountGroups| && after.accountGroups[k] == r;
      AddedAt(m, now, id, order, db.accountGroups, after.accountGroups, k);
    }
    if g :| g in m.groups && r == Membership(id, g, now) {
      var k :| 0 <= k < |order(m.groups)| && order(m.groups)[k] == g;
      assert after.accountGroups[|db.accountGroups| + k] == r;
    }
  }

  lemma AddedAt(m: Mutation, now: Time, id: int, order: set<int> -> seq<int>, before: seq<Row>, after: seq<Row>, k: nat)
    requires Listing(order) && LinksAdded(m, now, id, order, before, after) && k < |after|
    requires Field(after[k], "account_id") == id && forall r :: r in before ==> Field(r, "account_id") != id
    ensures exists g :: g in m.groups && after[k] == Membership(id, g, now)
  {
    var n := |before|;
    assert before == after[..n];
    assert n <= k by {
      assert after[k] !in after[..n];
    }
    assert after[n + (k - n)] == Membership(id, order(m.groups)[k - n], now);
  }

  /** The usage logs of a new account are those its mutation named. */
  lemma LogsExactly(m: Mutation, now: Time, id: int, order: set<int> -> seq<int>, db: Database, k: nat)
    requires Listing(order) && IsNew(id, db) && k < |db.usageLogs|
    ensures var after := StoreEdges(SpecOf(m, now).edges, id, order, db);
            |after.usageLogs| == |db.usageLogs| &&
            (Field(after.usageLogs[k], "account_id") == id <==> Field(db.usageLogs[k], "id") in m.usageLogs)
  {
    EdgesStored(m, now, id, order, db);
    assert db.usageLogs[k] in db.usageLogs;
  }

  // ----- loading the new account -----

  lemma LinkedExactly(m: Mutation, now: Time, id: int, order: set<int> -> seq<int>, db: Database, g: int)
    requires Listing(order) && IsNew(id, db)
    ensures Linked(StoreEdges(SpecOf(m, now).edges, id, order, db).accountGroups, id, g) <==> g in m.groups
  {
    var rows := StoreEdges(SpecOf(m, now).edges, id, order, db).accountGroups;
    if r :| r in rows && Field(r, "account_id") == id && Field(r, "group_id") == g {
      MembershipsExactly(m, now, id, order, db, r);
    }
    if g in m.groups {
      MembershipsExactly(m, now, id, order, db, Membership(id, g, now));
      assert Field(Membership(id, g, now), "group_id") == g;
    }
  }

  /** A group that the mutation named and the user's query lets through. */
  ghost predicate JoinedGroup(m: Mutation, v: View, groups: seq<Row>, r: Row) {
    r in groups && Field(r, "id") in m.groups && Satisfies(v, r)
  }

  /** A usage log that the mutation named, as it is once it points at the account. */
  ghost predicate NamedLog(m: Mutation, v: View, id: int, logs: seq<Row>, r: Row) {
    r in logs && Field(r, "id") in m.usageLogs && Satisfies(v, r["account_id" := id])
  }

  lemma LogChild(m: Mutation, now: Time, id: int, order: set<int> -> seq<int>, db: Database, v: View, e: Entity)
    requires Listing(order) && IsNew(id, db)
    ensures var logs := StoreEdges(SpecOf(m, now).edges, id, order, db).usageLogs;
            (exists r :: IsChild(v, logs, id, r) && Shows(v, Some("id"), ["account_id"], r, e)) <==>
            exists r :: NamedLog(m, v, id, db.usageLogs, r) &&
                        Shows(v, Some("id"), ["account_id"], r["account_id" := id], e)
  {
    var logs := StoreEdges(SpecOf(m, now).edges, id, order, db).usageLogs;
    EdgesStored(m, now, id, order, db);
    if r :| IsChild(v, logs, id, r) && Shows(v, Some("id"), ["account_id"], r, e) {
      var k :| 0 <= k < |logs| && logs[k] == r;
      LogsExactly(m, now, id, order, db, k);
      assert NamedLog(m, v, id, db.usageLogs, db.usageLogs[k]);
    }
    if r :| NamedLog(m, v, id, db.usageLogs, r) && Shows(v, Some("id"), ["account_id"], r["account_id" := id], e) {
      var k :| 0 <= k < |db.usageLogs| && db.usageLogs[k] == r;
      assert logs[k] == r["account_id" := id] && logs[k] in logs;
      assert IsChild(v, logs, id, r["account_id" := id]);
    }
  }

  /** The row an account was stored as, read with every column. */
  function CreatedRow(m: Mutation, now: Time, id: int, filler: Column -> Cell): seq<Fields> {
    AllFields(COLUMNS, [StoredRow(SpecOf(m, now), id, filler)])
  }

  /** Loading a created account, whatever its edges and theirs: its fields are those created; its groups are
      those of its mutation that the user's query lets through; its usage logs are those its mutation named;
      and its proxy is the one it was given. */
  lemma CreatedThenLoaded(node: Account, m: Mutation, now: Time, id: int, filler: Column -> Cell,
                          order: set<int> -> seq<int>, db: Database, views: Views, e: Entity)
    requires RequiredPresent(m) && Listing(order) && IsNew(id, db)
    requires AllUnpaged(views) && views.joins == [] && UniqueIDs(db.groups) && UniqueIDs(db.proxies)
    requires Loaded([node], CreatedRow(m, now, id, filler), StoreEdges(SpecOf(m, now).edges, id, order, db), views)
    ensures node.fields == NodeOf(m).(id := id)
    ensures e in node.groups <==>
            views.groups.Some? &&
            exists r :: JoinedGroup(m, views.groups.value, db.groups, r) &&
                        Shows(views.groups.value, Some("id"), [], r, e)
    ensures e in node.usageLogs <==>
            views.usageLogs.Some? &&
            exists r :: NamedLog(m, views.usageLogs.value, id, db.usageLogs, r) &&
                        Shows(views.usageLogs.value, Some("id"), ["account_id"], r["account_id" := id], e)
    ensures node.proxy == Some(e) <==>
            views.proxy.Some? && m.proxy.Some? &&
            exists r :: IsParent(views.proxy.value, db.proxies, m.proxy.value, r) &&
                        Shows(views.proxy.value, Some("id"), [], r, e)
  {
    var all, after := CreatedRow(m, now, id, filler), StoreEdges(SpecOf(m, now).edges, id, order, db);
    CreateThenRead(m, now, id, filler);
    EdgesStored(m, now, id, order, db);
    assert all == [NodeOf(m).(id := id)] && node == [node][0];
    LoadedProxyIs([node], all, after, views, 0, e);
    LoadedChildren([node], all, after, views, 0, e);
    LoadedGroupsAre([node], all, after, views, 0, e);
    if views.usageLogs.Some? {
      LogChild(m, now, id, order, db, views.usageLogs.value, e);
    }
    if views.groups.Some? {
      forall r ensures IsGroup(views.groups.value, after.accountGroups, db.groups, id, r) <==>
                       JoinedGroup(m, views.groups.value, db.groups, r)
      {
        LinkedExactly(m, now, id, order, db, Field(r, "id"));
      }
    }
  }

  /** And its memberships are those just made, as far as the user's query lets them through. */
  lemma CreatedMemberships(node: Account, m: Mutation, now: Time, id: int, filler: Column -> Cell,
                           order: set<int> -> seq<int>, db: Database, views: Views, e: Entity)
    requires RequiredPresent(m) && Listing(order) && IsNew(id, db) && AllUnpaged(views)
    requires Loaded([node], CreatedRow(m, now, id, filler), StoreEdges(SpecOf(m, now).edges, id, order, db), views)
    ensures e in node.accountGroups <==>
            views.accountGroups.Some? &&
            exists g :: g in m.groups && Satisfies(views.accountGroups.value, Membership(id, g, now)) &&
                        Shows(views.accountGroups.value, None, ["account_id"], Membership(id, g, now), e)
  {
    var all, after := CreatedRow(m, now, id, filler), StoreEdges(SpecOf(m, now).edges, id, order, db);
    CreateThenRead(m, now, id, filler);
    assert all == [NodeOf(m).(id := id)] && node == [node][0];
    LoadedChildren([node], all, after, views, 0, e);
    forall r { MembershipsExactly(m, now, id, order, db, r); }
    assert forall g :: Field(Membership(id, g, now), "account_id") == id;
  }
}
