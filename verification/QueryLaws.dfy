/** What running an account query promises: each account has the edges it would have alone, whatever
    other accounts and edges are loaded with it and whatever columns are selected
    (backend/ent/account_query.go, sqlAll; backend/ent/account.go). */
module QueryLaws {
  import opened Wrappers
  import opened Tables
  import opened Relational
  import opened EdgeQuery
  import opened Account
  import opened EagerLoad
  import opened EagerLaws
  import opened GroupLoad
  import opened GroupLaws
  import opened AccountQuery

  // ----- in a batch and alone -----

  predicate AllUnpaged(views: Views) {
    (views.groups.Some? ==> Unpaged(views.groups.value)) &&
    (views.proxy.Some? ==> Unpaged(views.proxy.value)) &&
    (views.usageLogs.Some? ==> Unpaged(views.usageLogs.value)) &&
    (views.accountGroups.Some? ==> Unpaged(views.accountGroups.value))
  }

  lemma LogsAlone(v: Option<View>, db: Database, ids: seq<int>, i: nat)
    requires i < |ids| && IsLast(ids, i) && (v.Some? ==> Unpaged(v.value))
    ensures LoadedLogs(v, db, ids, i) == LoadedLogs(v, db, [ids[i]], 0)
    ensures v.Some? ==> LoadedLogs(v, db, ids, i) == Joined(v.value, Some("id"), db.usageLogs, ids[i])
  {
    if v.Some? {
      ChildrenAreTheJoin(v.value, Some("id"), db.usageLogs, ids, ids[i]);
      ChildrenAreTheJoin(v.value, Some("id"), db.usageLogs, [ids[i]], ids[i]);
    }
  }

  lemma MembershipsAlone(v: Option<View>, db: Database, ids: seq<int>, i: nat)
    requires i < |ids| && IsLast(ids, i) && (v.Some? ==> Unpaged(v.value))
    ensures LoadedMemberships(v, db, ids, i) == LoadedMemberships(v, db, [ids[i]], 0)
    ensures v.Some? ==> LoadedMemberships(v, db, ids, i) == Joined(v.value, None, db.accountGroups, ids[i])
  {
    if v.Some? {
      ChildrenAreTheJoin(v.value, None, db.accountGroups, ids, ids[i]);
      ChildrenAreTheJoin(v.value, None, db.accountGroups, [ids[i]], ids[i]);
    }
  }

  lemma ProxyAlone(v: Option<View>, db: Database, fks: seq<Option<int>>, i: nat)
    requires i < |fks| && (v.Some? ==> Unpaged(v.value))
    ensures LoadedProxy(v, db, fks, i) == LoadedProxy(v, db, [fks[i]], 0)
  {
    if v.Some? {
      if fks[i].Some? {
        ParentIsTheReferencedRow(v.value, db.proxies, fks, fks[i].value);
        ParentIsTheReferencedRow(v.value, db.proxies, [fks[i]], fks[i].value);
      } else {
        NothingReferenced(ParentsFound(v.value, fks, db.proxies));
        NothingReferenced(ParentsFound(v.value, [fks[i]], db.proxies));
      }
    }
  }

  lemma GroupsAlone(v: Option<View>, joins: seq<seq<int>>, db: Database, ids: seq<int>, i: nat)
    requires i < |ids| && IsLast(ids, i) && (v.Some? ==> Unpaged(v.value)) && UniqueIDs(db.groups)
    ensures forall e :: e in LoadedGroups(v, joins, db, ids, i) <==> e in LoadedGroups(v, joins, db, [ids[i]], 0)
    ensures LoadedGroups(v, joins, db, ids, i) == LoadedGroups(v, joins, db, [ids[i]], 0) <==>
            (v.Some? ==> !Overtaken(GroupRows(v.value, joins, db, ids), ids[i]))
    ensures v.Some? && TellsApart(v.value, db.groups) ==>
            LoadedGroups(v, joins, db, ids, i) == LoadedGroups(v, joins, db, [ids[i]], 0)
  {
    if v.Some? {
      var groups := JoinedBefore(joins, db.accountGroups, db.groups);
      UniqueIsKeyed(db.groups);
      JoinedBeforeRows(joins, db.accountGroups, db.groups);
      if TellsApart(v.value, db.groups) {
        ApartNotOvertaken(v.value, db.accountGroups, groups, ids, ids[i]);
      }
      JoinFunctional(db.accountGroups, groups);
      BatchedGroups(v.value, ids, Join(db.accountGroups, groups), ids[i]);
    }
  }

  /** Loaded in a batch, an account has its own columns and the edges it has when loaded alone; its
      groups are the same ones, in the same order exactly when no other account's rows reorder them,
      and so always when the group query orders the groups it lets through. */
  lemma BatchedEqualsAlone(nodes: seq<Account>, all: seq<Fields>, db: Database, views: Views, i: nat, alone: Account)
    requires i < |nodes| && Loaded(nodes, all, db, views) && Loaded([alone], [all[i]], db, views)
    requires IsLast(IDs(all), i) && AllUnpaged(views) && UniqueIDs(db.groups)
    ensures nodes[i].fields == alone.fields && nodes[i].loadedTypes == alone.loadedTypes
    ensures nodes[i].proxy == alone.proxy
    ensures SameEdges(nodes[i], alone)
    ensures nodes[i].groups == alone.groups <==>
            (views.groups.Some? ==> !Overtaken(GroupRows(views.groups.value, views.joins, db, IDs(all)), IDs(all)[i]))
    ensures (views.groups.Some? ==> TellsApart(views.groups.value, db.groups)) ==> nodes[i].groups == alone.groups
  {
    var ids, fks := IDs(all), ProxyIDs(all);
    assert IDs([all[i]]) == [ids[i]] && ProxyIDs([all[i]]) == [fks[i]];
    assert alone == [alone][0];
    GroupsAlone(views.groups, views.joins, db, ids, i);
    ProxyAlone(views.proxy, db, fks, i);
    LogsAlone(views.usageLogs, db, ids, i);
    MembershipsAlone(views.accountGroups, db, ids, i);
  }

  /** The edges keyed by an account's id: the same neighbours, and the same order but for groups. */
  ghost predicate SameEdges(a: Account, b: Account)
    reads a, b
  {
    a.usageLogs == b.usageLogs && a.accountGroups == b.accountGroups && forall e :: e in a.groups <==> e in b.groups
  }

  ghost predicate NoKeyedEdges(a: Account)
    reads a
  {
    a.groups == [] && a.usageLogs == [] && a.accountGroups == []
  }

  /** An account whose id occurs again later gets no edges keyed by its id. */
  lemma EarlierDuplicateGetsNothing(nodes: seq<Account>, all: seq<Fields>, db: Database, views: Views, i: nat)
    requires i < |nodes| && Loaded(nodes, all, db, views) && !IsLast(IDs(all), i)
    ensures NoKeyedEdges(nodes[i])
  {
  }

  /** No group that the user's query lets through is linked to the account. */
  ghost predicate NoGroups(v: View, memberships: seq<Row>, groups: seq<Row>, id: int) {
    forall g :: Visible(v, groups, g) ==> !Linked(memberships, id, g)
  }

  lemma NoGroupsExactly(v: View, memberships: seq<Row>, groups: seq<Row>, ids: seq<int>, id: int)
    requires Unpaged(v) && id in ids
    ensures GroupsFor(ColumnsOf(v, Some("id")), SelectJoined(v, ids, Join(memberships, groups)), id) == [] <==>
            NoGroups(v, memberships, groups, id)
  {
    var got := GroupsFor(ColumnsOf(v, Some("id")), SelectJoined(v, ids, Join(memberships, groups)), id);
    forall g ensures HasGroup(got, g) <==> Visible(v, groups, g) && Linked(memberships, id, g) {
      LoadIsTheJoin(v, memberships, groups, ids, id, g);
    }
    if got != [] {
      assert HasGroup(got, Field(got[0], "id"));
    }
  }

  /** The database has nothing for the edges keyed by an account's id: no visible group is linked to it,
      and the user's own child queries have no row with the id. */
  ghost predicate NothingKeyed(views: Views, db: Database, id: int) {
    (views.groups.Some? ==>
      NoGroups(views.groups.value, db.accountGroups, JoinedBefore(views.joins, db.accountGroups, db.groups), id)) &&
    (views.usageLogs.Some? ==> !HasRows(views.usageLogs.value, "account_id", id, db.usageLogs)) &&
    (views.accountGroups.Some? ==> !HasRows(views.accountGroups.value, "account_id", id, db.accountGroups))
  }

  lemma JoinedRows(v: View, idColumn: Option<string>, table: seq<Row>, id: int)
    ensures Joined(v, idColumn, table, id) != [] <==> HasRows(v, "account_id", id, table)
  {
    RowsOfKey(v, "account_id", id, table);
  }

  lemma NothingAlone(db: Database, views: Views, id: int)
    requires AllUnpaged(views)
    ensures LoadedGroups(views.groups, views.joins, db, [id], 0) == [] &&
            LoadedLogs(views.usageLogs, db, [id], 0) == [] &&
            LoadedMemberships(views.accountGroups, db, [id], 0) == [] <==>
            NothingKeyed(views, db, id)
  {
    LogsAlone(views.usageLogs, db, [id], 0);
    MembershipsAlone(views.accountGroups, db, [id], 0);
    if views.groups.Some? {
      NoGroupsExactly(views.groups.value, db.accountGroups, JoinedBefore(views.joins, db.accountGroups, db.groups),
                      [id], id);
    }
    if views.usageLogs.Some? {
      JoinedRows(views.usageLogs.value, Some("id"), db.usageLogs, id);
    }
    if views.accountGroups.Some? {
      JoinedRows(views.accountGroups.value, None, db.accountGroups, id);
    }
  }

  /** An account gets the edges it gets alone exactly when it is the last with its id or the database
      has none for it. */
  lemma DuplicateLosesExactly(nodes: seq<Account>, all: seq<Fields>, db: Database, views: Views, i: nat, alone: Account)
    requires i < |nodes| && Loaded(nodes, all, db, views) && Loaded([alone], [all[i]], db, views)
    requires AllUnpaged(views) && UniqueIDs(db.groups)
    ensures SameEdges(nodes[i], alone) <==> IsLast(IDs(all), i) || NothingKeyed(views, db, all[i].id)
  {
    if IsLast(IDs(all), i) {
      BatchedEqualsAlone(nodes, all, db, views, i, alone);
    } else {
      EarlierDuplicateGetsNothing(nodes, all, db, views, i);
      assert IDs([all[i]]) == [all[i].id] && alone == [alone][0];
      NothingAlone(db, views, all[i].id);
      if alone.groups != [] {
        assert alone.groups[0] in alone.groups;
      }
    }
  }

  lemma OneRow(p: Row -> bool, row: Row)
    requires p(row)
    ensures Filter(p, [row]) == [row]
  {
    var one, none: seq<Row> := [row], [];
    assert one[1..] == none;
  }

  /** Two accounts with id 1 and one usage log of it: the first gets none, and would get it alone. */
  lemma DuplicateLoses(row: Row, db: Database)
    requires Field(row, "account_id") == 1 && db.usageLogs == [row]
    ensures var v := Some(View([], [], None, None, 0));
            LoadedLogs(v, db, [1, 1], 0) == [] && LoadedLogs(v, db, [1], 0) == [row]
  {
    var v := View([], [], None, None, 0);
    assert !IsLast([1, 1], 0) by {
      assert [1, 1][1] == 1;
    }
    LogsAlone(Some(v), db, [1], 0);
    OneRow(Matching(v.predicates), row);
    OneRow(HasKey("account_id", 1), row);
    assert Select(v, [row]) == [row];
    MapIdentity(Projection([]), [row]);
  }

  // ----- selected columns -----

  lemma TableColumns()
    ensures COLUMNS != [] && COLUMNS[0] == Id && Id !in COLUMNS[1..]
  {
    assert IDENTITY[0] == Id && Id !in IDENTITY[1..];
    assert COLUMNS[1..] == IDENTITY[1..] + SETTINGS + LIMITS;
    SettingColumns(Id);
    LimitColumns(Id);
  }

  /** Every column of the table if no field is selected; otherwise the selected ones, the id, and the
      foreign key of the proxy when that edge is loaded. */
  predicate IsRead(fields: seq<Column>, withProxy: bool, c: Column) {
    if fields == [] then !c.Other? else c == Id || c in fields || (withProxy && c == ProxyID)
  }

  /** These are the columns read and no other, the id first and only once. */
  lemma QueryColumns(fields: seq<Column>, withProxy: bool)
    ensures var cols := Columns(fields, withProxy);
            (forall c :: c in cols <==> IsRead(fields, withProxy, c)) && cols != [] && cols[0] == Id && Id !in cols[1..]
  {
    if fields == [] {
      TableColumns();
      forall c { AllColumns(c); }
    } else {
      ColumnsSuffice(fields, Some(Id), if withProxy then [ProxyID] else []);
    }
  }

  /** A loaded account shows what its row holds in the columns read, and the zero value elsewhere. */
  lemma FieldsExactly(nodes: seq<Account>, fields: seq<Column>, rows: seq<Source>, db: Database, views: Views, i: nat,
                      c: Column)
    requires FirstError(Columns(fields, views.proxy.Some?), rows) == None && i < |rows|
    requires Loaded(nodes, AllFields(Columns(fields, views.proxy.Some?), rows), db, views)
    ensures |nodes| == |rows|
    ensures Get(nodes[i].fields, c) ==
            if IsRead(fields, views.proxy.Some?, c) then FieldRead(c, rows[i]) else Get(ZERO, c)
  {
    var cols := Columns(fields, views.proxy.Some?);
    QueryColumns(fields, views.proxy.Some?);
    NoRowFails(cols, rows, i);
    ReadFields(cols, rows[i]);
  }

  /** Two reads of a row agree on a column that both select. */
  lemma ReadsAgree(a: seq<Column>, b: seq<Column>, row: Source, c: Column)
    requires Read(a, row).1 == None && Read(b, row).1 == None && c in a && c in b
    ensures Get(Read(a, row).0, c) == Get(Read(b, row).0, c)
  {
    ReadFields(a, row);
    ReadFields(b, row);
  }

  lemma SameKeys(f: Fields, g: Fields)
    ensures Get(f, Id) == Get(g, Id) ==> f.id == g.id
    ensures Get(f, ProxyID) == Get(g, ProxyID) ==> f.proxyID == g.proxyID
  {
  }

  /** Both reads decode the keys of a row alike. */
  lemma KeysSurvive(fields: seq<Column>, withProxy: bool, row: Source)
    requires Read(Columns(fields, withProxy), row).1 == None && Read(COLUMNS, row).1 == None
    ensures Read(Columns(fields, withProxy), row).0.id == Read(COLUMNS, row).0.id
    ensures withProxy ==> Read(Columns(fields, withProxy), row).0.proxyID == Read(COLUMNS, row).0.proxyID
  {
    var cols := Columns(fields, withProxy);
    QueryColumns(fields, withProxy);
    AllColumns(Id);
    AllColumns(ProxyID);
    ReadsAgree(cols, COLUMNS, row, Id);
    if withProxy {
      ReadsAgree(cols, COLUMNS, row, ProxyID);
    }
    SameKeys(Read(cols, row).0, Read(COLUMNS, row).0);
  }

  lemma {:induction false} NoErrorAt(errs: seq<Option<LoadError>>, from: nat, i: nat)
    requires from <= i < |errs| && ErrorFrom(errs, from) == None
    ensures errs[i] == None
    decreases i - from
  {
    if from < i {
      NoErrorAt(errs, from + 1, i);
    }
  }

  lemma NoRowFails(columns: seq<Column>, rows: seq<Source>, i: nat)
    requires i < |rows| && FirstError(columns, rows) == None
    ensures Read(columns, rows[i]).1 == None
  {
    NoErrorAt(RowErrors(columns, rows), 0, i);
  }

  lemma AllKeysSurvive(fields: seq<Column>, withProxy: bool, rows: seq<Source>)
    requires FirstError(Columns(fields, withProxy), rows) == None && FirstError(COLUMNS, rows) == None
    ensures IDs(AllFields(Columns(fields, withProxy), rows)) == IDs(AllFields(COLUMNS, rows))
    ensures withProxy ==> ProxyIDs(AllFields(Columns(fields, withProxy), rows)) == ProxyIDs(AllFields(COLUMNS, rows))
  {
    forall i: nat | i < |rows|
      ensures Read(Columns(fields, withProxy), rows[i]).0.id == Read(COLUMNS, rows[i]).0.id
      ensures withProxy ==> Read(Columns(fields, withProxy), rows[i]).0.proxyID == Read(COLUMNS, rows[i]).0.proxyID
    {
      NoRowFails(Columns(fields, withProxy), rows, i);
      NoRowFails(COLUMNS, rows, i);
      KeysSurvive(fields, withProxy, rows[i]);
    }
  }

  /** Whatever fields a query selects, its accounts get the edges the unprojected query gives them. */
  lemma ProjectionKeepsEdges(some: seq<Account>, full: seq<Account>, fields: seq<Column>, rows: seq<Source>,
                             db: Database, views: Views, i: nat)
    requires FirstError(Columns(fields, views.proxy.Some?), rows) == None && FirstError(COLUMNS, rows) == None
    requires Loaded(some, AllFields(Columns(fields, views.proxy.Some?), rows), db, views)
    requires Loaded(full, AllFields(COLUMNS, rows), db, views) && i < |some|
    ensures some[i].groups == full[i].groups && some[i].proxy == full[i].proxy
    ensures some[i].usageLogs == full[i].usageLogs && some[i].accountGroups == full[i].accountGroups
  {
    AllKeysSurvive(fields, views.proxy.Some?, rows);
  }

  // ----- the accessors after a load -----

  predicate Names(found: seq<Entity>, k: Option<int>) {
    k.Some? && exists p :: p in found && Field(p, "id") == k.value
  }

  /** The proxy accessor finds the proxy exactly when the key is set and names a returned row, and
      otherwise says it was not found, never that it was not loaded. */
  lemma ProxyAccessor(nodes: seq<Account>, all: seq<Fields>, db: Database, views: Views, i: nat)
    requires i < |nodes| && Loaded(nodes, all, db, views) && views.proxy.Some?
    ensures var found := ParentsFound(views.proxy.value, ProxyIDs(all), db.proxies);
            match nodes[i].ProxyOrErr()
            case Success(p) => p in found && all[i].proxyID == Some(Field(p, "id"))
            case Failure(e) => e == NotFound("proxy") && !Names(found, all[i].proxyID)
  {
    ReferencedFound(ParentsFound(views.proxy.value, ProxyIDs(all), db.proxies), ProxyIDs(all)[i]);
  }

  /** Accounts that share a key get the same proxy. */
  lemma SharedKeysShareProxy(nodes: seq<Account>, all: seq<Fields>, db: Database, views: Views, i: nat, j: nat)
    requires Loaded(nodes, all, db, views) && i < |nodes| && j < |nodes| && all[i].proxyID == all[j].proxyID
    ensures nodes[i].proxy == nodes[j].proxy
  {
    assert ProxyIDs(all)[i] == ProxyIDs(all)[j];
  }

  /** Each key that some account has is asked for, once. */
  lemma KeysAskedOnce(all: seq<Fields>)
    ensures Distinct(Keys(ProxyIDs(all), |all|))
    ensures forall k :: k in Keys(ProxyIDs(all), |all|) <==> exists i :: 0 <= i < |all| && all[i].proxyID == Some(k)
  {
    var fks := ProxyIDs(all);
    KeysCorrect(fks, |all|);
    assert fks[..|all|] == fks;
    forall k ensures Some(k) in fks <==> exists i :: 0 <= i < |all| && all[i].proxyID == Some(k) {
      if Some(k) in fks {
        var i :| 0 <= i < |fks| && fks[i] == Some(k);
        assert all[i].proxyID == Some(k);
      }
      if i :| 0 <= i < |all| && all[i].proxyID == Some(k) {
        assert fks[i] == Some(k);
      }
    }
  }

  /** An edge accessor of a loaded account gives the edge exactly when it was requested, and otherwise says
      which edge was not loaded. */
  lemma EdgeAccessors(nodes: seq<Account>, all: seq<Fields>, db: Database, views: Views, i: nat)
    requires i < |nodes| && Loaded(nodes, all, db, views)
    ensures nodes[i].GroupsOrErr() ==
            if views.groups.Some? then Success(nodes[i].groups) else Failure(NotLoaded("groups"))
    ensures nodes[i].UsageLogsOrErr() ==
            if views.usageLogs.Some? then Success(nodes[i].usageLogs) else Failure(NotLoaded("usage_logs"))
    ensures nodes[i].AccountGroupsOrErr() ==
            if views.accountGroups.Some? then Success(nodes[i].accountGroups) else Failure(NotLoaded("account_groups"))
    ensures nodes[i].ProxyOrErr() == Failure(NotLoaded("proxy")) <==> views.proxy.None?
    ensures nodes[i].proxy.Some? ==> nodes[i].ProxyOrErr() == Success(nodes[i].proxy.value)
  {
  }

  // ----- how a run fails -----

  /** The first field that is no column of the queried table. */
  ghost predicate FirstUnknown(fields: seq<string>, valid: set<string>, i: int) {
    0 <= i < |fields| && fields[i] !in valid && forall j :: 0 <= j < i ==> fields[j] in valid
  }

  lemma {:induction false} InvalidExactly(fields: seq<string>, valid: set<string>)
    ensures FirstInvalid(fields, valid) == None <==> forall f :: f in fields ==> f in valid
    ensures forall i :: FirstUnknown(fields, valid, i) ==> FirstInvalid(fields, valid) == Some(fields[i])
  {
    if fields != [] {
      InvalidExactly(fields[1..], valid);
      forall i | FirstUnknown(fields, valid, i) && i > 0 ensures FirstUnknown(fields[1..], valid, i - 1) { }
    }
  }

  /** An edge query fails on the first selected field that is no column, and otherwise exactly when the
      database refuses it. */
  lemma QueryFailsExactly(v: View, query: Asked, db: Database)
    ensures QueryFails(v, query, db) == None <==>
            (forall f :: f in v.fields ==> f in db.columns(query)) && query !in db.refused
    ensures forall i :: FirstUnknown(v.fields, db.columns(query), i) ==>
              QueryFails(v, query, db) == Some(InvalidField(query, v.fields[i]))
    ensures QueryFails(v, query, db) == Some(Refused(query)) <==>
            (forall f :: f in v.fields ==> f in db.columns(query)) && query in db.refused
  {
    InvalidExactly(v.fields, db.columns(query));
  }

  lemma {:induction false} ErrorFromFirst(errs: seq<Option<LoadError>>, from: nat, i: nat)
    requires from <= i < |errs| && errs[i].Some? && forall j :: from <= j < i ==> errs[j] == None
    ensures ErrorFrom(errs, from) == errs[i]
    decreases i - from
  {
    if from < i {
      ErrorFromFirst(errs, from + 1, i);
    }
  }

  lemma {:induction false} NoErrorFrom(errs: seq<Option<LoadError>>, from: nat)
    requires from <= |errs| && forall j :: from <= j < |errs| ==> errs[j] == None
    ensures ErrorFrom(errs, from) == None
    decreases |errs| - from
  {
    if from < |errs| {
      NoErrorFrom(errs, from + 1);
    }
  }

  /** The row error is that of the first row that cannot be decoded. */
  lemma RowErrorExactly(columns: seq<Column>, rows: seq<Source>)
    ensures FirstError(columns, rows) == None <==> forall i :: 0 <= i < |rows| ==> Read(columns, rows[i]).1 == None
    ensures forall i: nat :: i < |rows| && FirstBadRow(columns, rows, i) ==>
              FirstError(columns, rows) == Some(BadRow(Read(columns, rows[i]).1.value))
  {
    var errs := RowErrors(columns, rows);
    forall i: nat | i < |rows| && FirstBadRow(columns, rows, i) { ErrorFromFirst(errs, 0, i); }
    if FirstError(columns, rows) == None {
      forall i: nat | i < |rows| { NoErrorAt(errs, 0, i); }
    } else if forall i :: 0 <= i < |rows| ==> Read(columns, rows[i]).1 == None {
      NoErrorFrom(errs, 0);
    }
  }

  ghost predicate FirstBadRow(columns: seq<Column>, rows: seq<Source>, i: nat)
    requires i < |rows|
  {
    Read(columns, rows[i]).1.Some? && forall j :: 0 <= j < i ==> Read(columns, rows[j]).1 == None
  }

  /** The failures of a run in the order of execution: the account query, its rows, then the edges. */
  function Failures(bad: Option<LoadError>, all: seq<Fields>, db: Database, views: Views): seq<Option<LoadError>> {
    [if AskedAccounts in db.refused then Some(Refused(AskedAccounts)) else None, bad] +
    if all == [] then []
    else [GroupsFailure(views, db, all), ProxyFailure(views.proxy, db, all),
          ChildFailure(views.usageLogs, AskedLogs, db, all),
          ChildFailure(views.accountGroups, AskedMemberships, db, all)]
  }

  /** A run fails with the first of these, and succeeds if there is none. */
  lemma FailsWithFirst(bad: Option<LoadError>, all: seq<Fields>, db: Database, views: Views)
    ensures var fs := Failures(bad, all, db, views);
            (QueryError(bad, all, db, views) == None <==> forall i :: 0 <= i < |fs| ==> fs[i] == None) &&
            forall i :: 0 <= i < |fs| && fs[i].Some? && (forall j :: 0 <= j < i ==> fs[j] == None) ==>
              QueryError(bad, all, db, views) == fs[i]
  {
    var fs := Failures(bad, all, db, views);
    assert fs[0] == if AskedAccounts in db.refused then Some(Refused(AskedAccounts)) else None;
    assert fs[1] == bad;
    if all != [] {
      assert fs[2] == GroupsFailure(views, db, all) && fs[3] == ProxyFailure(views.proxy, db, all);
      assert fs[4] == ChildFailure(views.usageLogs, AskedLogs, db, all);
      assert fs[5] == ChildFailure(views.accountGroups, AskedMemberships, db, all);
    }
  }
}
