/** Running an account query again: its edge queries keep the conditions and joins that earlier runs
    added, as far as those runs got (backend/ent/account_query.go, the load methods). */
module RunAgain {
  import opened Wrappers
  import opened Tables
  import opened Relational
  import opened EdgeQuery
  import opened Account
  import opened EagerLoad
  import opened EagerLaws
  import opened GroupLoad
  import opened GroupLaws
  import opened AccountQuery
  import opened QueryLaws

  // ----- one to many -----

  /** A key asked for both times has its rows; a key asked for the second time only has none. */
  lemma AskedTwice(v: View, column: string, first: seq<int>, k: int, table: seq<Row>)
    requires Unpaged(v)
    ensures Filter(HasKey(column, k), Select(Where(v, ColumnIn(column, first)), table)) ==
            if k in first then Filter(HasKey(column, k), Select(v, table)) else []
  {
    if k in first {
      BatchOfOne(v, column, first, k, table);
    } else {
      var again := Where(v, ColumnIn(column, first));
      if Filter(HasKey(column, k), Select(again, table)) != [] {
        RowsOfKey(again, column, k, table);
        var r :| r in Select(again, table) && Field(r, column) == k;
        SelectedRow(again, table, r);
        HoldsWhere(v, ColumnIn(column, first), r);
      }
    }
  }

  lemma JoinedAgain(v: View, idColumn: Option<string>, table: seq<Row>, first: seq<int>, id: int)
    requires Unpaged(v)
    ensures Joined(ChildView(v, first), idColumn, table, id) ==
            if id in first then Joined(v, idColumn, table, id) else []
  {
    var w := AppendFieldOnce(v, "account_id");
    assert ColumnsOf(AppendFieldOnce(ChildView(v, first), "account_id"), idColumn) == ColumnsOf(w, idColumn);
    assert Select(w, table) == Select(v, table);
    AskedTwice(w, "account_id", first, id, table);
  }

  /** A query that was asked for the children of these accounts, one list after the other. */
  function AskedWith(v: View, lists: seq<seq<Fields>>): View
    decreases |lists|
  {
    if lists == [] then v
    else ChildView(AskedWith(v, lists[..|lists| - 1]), IDs(lists[|lists| - 1]))
  }

  predicate InEach(lists: seq<seq<Fields>>, id: int) {
    forall n :: 0 <= n < |lists| ==> id in IDs(lists[n])
  }

  lemma InOneMore(lists: seq<seq<Fields>>, id: int)
    requires lists != []
    ensures InEach(lists, id) <==> InEach(lists[..|lists| - 1], id) && id in IDs(lists[|lists| - 1])
  {
    assert forall n :: 0 <= n < |lists| - 1 ==> lists[..|lists| - 1][n] == lists[n];
  }

  lemma {:induction false} JoinedEachTime(v: View, idColumn: Option<string>, table: seq<Row>, lists: seq<seq<Fields>>,
                                          id: int)
    requires Unpaged(v)
    ensures Unpaged(AskedWith(v, lists))
    ensures Joined(AskedWith(v, lists), idColumn, table, id) ==
            if InEach(lists, id) then Joined(v, idColumn, table, id) else []
    decreases |lists|
  {
    if lists != [] {
      var n := |lists| - 1;
      JoinedEachTime(v, idColumn, table, lists[..n], id);
      JoinedAgain(AskedWith(v, lists[..n]), idColumn, table, IDs(lists[n]), id);
      InOneMore(lists, id);
    }
  }

  /** Every key of this run that has rows was asked for each time. */
  ghost predicate AskedBefore(v: View, table: seq<Row>, lists: seq<seq<Fields>>, ids: seq<int>) {
    forall id :: id in ids && HasRows(v, "account_id", id, table) ==> InEach(lists, id)
  }

  lemma ChildAgain(v: View, idColumn: Option<string>, table: seq<Row>, lists: seq<seq<Fields>>, ids: seq<int>, i: nat)
    requires Unpaged(v) && i < |ids| && idColumn != Some("account_id")
    ensures ChildrenOf(Run(ChildView(AskedWith(v, lists), ids), idColumn, table), "account_id", ids, i) ==
            ChildrenOf(Run(ChildView(v, ids), idColumn, table), "account_id", ids, i) <==>
            !IsLast(ids, i) || InEach(lists, ids[i]) || !HasRows(v, "account_id", ids[i], table)
  {
    JoinedEachTime(v, idColumn, table, lists, ids[i]);
    ChildrenAreTheJoin(AskedWith(v, lists), idColumn, table, ids, ids[i]);
    ChildrenAreTheJoin(v, idColumn, table, ids, ids[i]);
    JoinedRows(v, idColumn, table, ids[i]);
  }

  /** A run gives every account what a fresh query gives it exactly when every id with rows was asked
      for each time before. */
  lemma ChildrenAgainExactly(v: View, idColumn: Option<string>, table: seq<Row>, lists: seq<seq<Fields>>, ids: seq<int>)
    requires Unpaged(v) && idColumn != Some("account_id")
    ensures (forall i: nat :: i < |ids| ==>
              ChildrenOf(Run(ChildView(AskedWith(v, lists), ids), idColumn, table), "account_id", ids, i) ==
              ChildrenOf(Run(ChildView(v, ids), idColumn, table), "account_id", ids, i)) <==>
            AskedBefore(v, table, lists, ids)
  {
    forall i: nat | i < |ids| { ChildAgain(v, idColumn, table, lists, ids, i); }
    if id :| id in ids && HasRows(v, "account_id", id, table) && !InEach(lists, id) {
      var last := LastExists(ids, id);
    }
  }

  // ----- many to one -----

  /** A load without keys asks for nothing and adds no condition. */
  predicate Asks(first: seq<Option<int>>, k: int) {
    Keys(first, |first|) == [] || Some(k) in first
  }

  lemma RowAgain(v: View, table: seq<Row>, first: seq<Option<int>>, k: int)
    requires Unpaged(v)
    ensures RowReferenced(ParentView(v, first), table, k) ==
            if Asks(first, k) then RowReferenced(v, table, k) else None
  {
    if Keys(first, |first|) != [] {
      KeysCorrect(first, |first|);
      assert first[..|first|] == first;
      AskedTwice(v, "id", Keys(first, |first|), k, table);
    }
  }

  /** A query that was asked for the proxies of these accounts, one list after the other. */
  function AskedFor(v: View, lists: seq<seq<Fields>>): View
    decreases |lists|
  {
    if lists == [] then v
    else ParentView(AskedFor(v, lists[..|lists| - 1]), ProxyIDs(lists[|lists| - 1]))
  }

  predicate AskedEach(lists: seq<seq<Fields>>, k: int) {
    forall n :: 0 <= n < |lists| ==> Asks(ProxyIDs(lists[n]), k)
  }

  lemma AskedOneMore(lists: seq<seq<Fields>>, k: int)
    requires lists != []
    ensures AskedEach(lists, k) <==> AskedEach(lists[..|lists| - 1], k) && Asks(ProxyIDs(lists[|lists| - 1]), k)
  {
    assert forall n :: 0 <= n < |lists| - 1 ==> lists[..|lists| - 1][n] == lists[n];
  }

  lemma {:induction false} RowEachTime(v: View, table: seq<Row>, lists: seq<seq<Fields>>, k: int)
    requires Unpaged(v)
    ensures Unpaged(AskedFor(v, lists)) && ColumnsOf(AskedFor(v, lists), Some("id")) == ColumnsOf(v, Some("id"))
    ensures RowReferenced(AskedFor(v, lists), table, k) ==
            if AskedEach(lists, k) then RowReferenced(v, table, k) else None
    decreases |lists|
  {
    if lists != [] {
      var n := |lists| - 1;
      RowEachTime(v, table, lists[..n], k);
      RowAgain(AskedFor(v, lists[..n]), table, ProxyIDs(lists[n]), k);
      AskedOneMore(lists, k);
    }
  }

  lemma ParentAgain(v: View, table: seq<Row>, lists: seq<seq<Fields>>, fks: seq<Option<int>>, k: int)
    requires Unpaged(v) && Some(k) in fks
    ensures Referenced(ParentsFound(AskedFor(v, lists), fks, table), Some(k)) ==
            if AskedEach(lists, k) then Referenced(ParentsFound(v, fks, table), Some(k)) else None
  {
    RowEachTime(v, table, lists, k);
    ParentIsTheReferencedRow(AskedFor(v, lists), table, fks, k);
    ParentIsTheReferencedRow(v, table, fks, k);
  }

  /** Each earlier run that asked for proxies asked for all that this one needs. */
  ghost predicate ParentsAskedBefore(v: View, table: seq<Row>, lists: seq<seq<Fields>>, fks: seq<Option<int>>) {
    forall k :: Some(k) in fks && HasRows(v, "id", k, table) ==> AskedEach(lists, k)
  }

  lemma ParentOfNode(v: View, table: seq<Row>, lists: seq<seq<Fields>>, fks: seq<Option<int>>, i: nat)
    requires Unpaged(v) && i < |fks|
    ensures Referenced(ParentsFound(AskedFor(v, lists), fks, table), fks[i]) ==
            Referenced(ParentsFound(v, fks, table), fks[i]) <==>
            fks[i] == None || AskedEach(lists, fks[i].value) || !HasRows(v, "id", fks[i].value, table)
  {
    if fks[i] == None {
      NothingReferenced(ParentsFound(AskedFor(v, lists), fks, table));
      NothingReferenced(ParentsFound(v, fks, table));
    } else {
      ParentAgain(v, table, lists, fks, fks[i].value);
      ParentIsTheReferencedRow(v, table, fks, fks[i].value);
      RowsOfKey(v, "id", fks[i].value, table);
    }
  }

  lemma ParentsAgainExactly(v: View, table: seq<Row>, lists: seq<seq<Fields>>, fks: seq<Option<int>>)
    requires Unpaged(v)
    ensures (forall i: nat :: i < |fks| ==>
              Referenced(ParentsFound(AskedFor(v, lists), fks, table), fks[i]) ==
              Referenced(ParentsFound(v, fks, table), fks[i])) <==>
            ParentsAskedBefore(v, table, lists, fks)
  {
    forall i: nat | i < |fks| { ParentOfNode(v, table, lists, fks, i); }
    if k :| Some(k) in fks && HasRows(v, "id", k, table) && !AskedEach(lists, k) {
      var i :| 0 <= i < |fks| && fks[i] == Some(k);
      ParentOfNode(v, table, lists, fks, i);
    }
  }

  // ----- many to many -----

  ghost predicate LinkedToSome(memberships: seq<Row>, ids: seq<int>, g: int) {
    exists id :: id in ids && Linked(memberships, id, g)
  }

  ghost predicate LinkedEachTime(memberships: seq<Row>, joins: seq<seq<int>>, g: int) {
    forall n :: 0 <= n < |joins| ==> LinkedToSome(memberships, joins[n], g)
  }

  lemma JoinedOnce(memberships: seq<Row>, groups: seq<Row>, ids: seq<int>, r: Row)
    ensures (exists j :: j in Join(memberships, groups) && j.owner in ids && j.row == r) <==>
            r in groups && LinkedToSome(memberships, ids, Field(r, "id"))
  {
    if j :| j in Join(memberships, groups) && j.owner in ids && j.row == r {
      JoinMember(memberships, groups, j);
      assert Linked(memberships, j.owner, Field(r, "id"));
    }
    if r in groups && LinkedToSome(memberships, ids, Field(r, "id")) {
      var id :| id in ids && Linked(memberships, id, Field(r, "id"));
      var m :| m in memberships && Field(m, "account_id") == id && Field(m, "group_id") == Field(r, "id");
      assert Pairs(m, JoinRow(id, r));
      JoinMember(memberships, groups, JoinRow(id, r));
    }
  }

  lemma KeptRow(joined: seq<JoinRow>, ids: seq<int>, r: Row)
    ensures r in Map(RowOf(), Filter(OwnedIn(ids), joined)) <==>
            exists j :: j in joined && j.owner in ids && j.row == r
  {
    var kept := Filter(OwnedIn(ids), joined);
    forall j { FilterMember(OwnedIn(ids), joined, j); }
    if r in Map(RowOf(), kept) {
      var k :| 0 <= k < |kept| && Map(RowOf(), kept)[k] == r;
      assert kept[k] in kept;
    }
    if j :| j in joined && j.owner in ids && j.row == r {
      var k :| 0 <= k < |kept| && kept[k] == j;
      assert Map(RowOf(), kept)[k] == r;
    }
  }

  lemma OneMoreTime(memberships: seq<Row>, joins: seq<seq<int>>, g: int)
    requires joins != []
    ensures var n := |joins| - 1;
            LinkedEachTime(memberships, joins, g) <==>
            LinkedEachTime(memberships, joins[..n], g) && LinkedToSome(memberships, joins[n], g)
  {
    var n := |joins| - 1;
    assert forall k :: 0 <= k < n ==> joins[..n][k] == joins[k];
  }

  /** One more join keeps the groups it links to one of its accounts. */
  lemma OneMoreJoin(joins: seq<seq<int>>, memberships: seq<Row>, groups: seq<Row>, r: Row)
    requires joins != []
    ensures var n := |joins| - 1;
            r in JoinedBefore(joins, memberships, groups) <==>
            r in JoinedBefore(joins[..n], memberships, groups) && LinkedToSome(memberships, joins[n], Field(r, "id"))
  {
    var n := |joins| - 1;
    var before := JoinedBefore(joins[..n], memberships, groups);
    JoinedOnce(memberships, before, joins[n], r);
    KeptRow(Join(memberships, before), joins[n], r);
  }

  /** After earlier joins a group is left exactly when each of them links it to one of its accounts. */
  lemma {:induction false} JoinedBeforeExactly(joins: seq<seq<int>>, memberships: seq<Row>, groups: seq<Row>, r: Row)
    ensures r in JoinedBefore(joins, memberships, groups) <==>
            r in groups && LinkedEachTime(memberships, joins, Field(r, "id"))
    decreases |joins|
  {
    if joins != [] {
      JoinedBeforeExactly(joins[..|joins| - 1], memberships, groups, r);
      OneMoreJoin(joins, memberships, groups, r);
      OneMoreTime(memberships, joins, Field(r, "id"));
    }
  }

  /** A group the user's query lets through belongs to an account of every earlier run and of this one. */
  ghost predicate SharedGroup(v: View, joins: seq<seq<int>>, db: Database, ids: seq<int>, r: Row) {
    r in db.groups && Holds(v.predicates, r) && LinkedEachTime(db.accountGroups, joins, Field(r, "id")) &&
    LinkedToSome(db.accountGroups, ids, Field(r, "id"))
  }

  lemma GroupRowsExactly(v: View, joins: seq<seq<int>>, db: Database, ids: seq<int>)
    requires Unpaged(v)
    ensures GroupRows(v, joins, db, ids) != [] <==> exists r :: SharedGroup(v, joins, db, ids, r)
  {
    var before := JoinedBefore(joins, db.accountGroups, db.groups);
    var rows := GroupRows(v, joins, db, ids);
    if rows != [] {
      var j := rows[0];
      assert j in rows;
      GroupLaws.Selected(v, ids, Join(db.accountGroups, before), j);
      JoinedOnce(db.accountGroups, before, ids, j.row);
      JoinedBeforeExactly(joins, db.accountGroups, db.groups, j.row);
      assert SharedGroup(v, joins, db, ids, j.row);
    }
    if r :| SharedGroup(v, joins, db, ids, r) {
      JoinedBeforeExactly(joins, db.accountGroups, db.groups, r);
      JoinedOnce(db.accountGroups, before, ids, r);
      var j :| j in Join(db.accountGroups, before) && j.owner in ids && j.row == r;
      GroupLaws.Selected(v, ids, Join(db.accountGroups, before), j);
    }
  }

  /** Loading a group query again panics exactly when some group it lets through belongs to an account
      of every earlier run and to one of this run. */
  lemma GroupsAgainPanicExactly(v: View, joins: seq<seq<int>>, db: Database, ids: seq<int>)
    requires Unpaged(v) && QueryFails(v, AskedGroups, db) == None
    ensures GroupsFail(v, joins, db, ids) == Some(Panicked(AskedGroups)) <==>
            joins != [] && exists r :: SharedGroup(v, joins, db, ids, r)
  {
    GroupRowsExactly(v, joins, db, ids);
  }

  // ----- whole runs -----

  /** A run of the query: its first row error, what its rows decode to, and the database it meets. */
  datatype EarlierRun = EarlierRun(bad: Option<LoadError>, all: seq<Fields>, db: Database)

  /** What earlier runs, successful or not, leave for the next. */
  function LeftBy(views: Views, runs: seq<EarlierRun>): Views
    decreases |runs|
  {
    if runs == [] then views
    else
      var last := runs[|runs| - 1];
      AfterRun(last.bad, last.all, last.db, LeftBy(views, runs[..|runs| - 1]))
  }

  /** A run gets as far as one of its edge queries: all that comes before it succeeds. */
  predicate Reaches(edge: Asked, views: Views, run: EarlierRun) {
    AskedAccounts !in run.db.refused && run.bad.None? && run.all != [] &&
    (edge != AskedGroups ==> GroupsFailure(views, run.db, run.all).None?) &&
    (edge == AskedLogs || edge == AskedMemberships ==> ProxyFailure(views.proxy, run.db, run.all).None?) &&
    (edge == AskedMemberships ==> ChildFailure(views.usageLogs, AskedLogs, run.db, run.all).None?)
  }

  /** The accounts of each earlier run that got as far as an edge query. */
  function Reaching(edge: Asked, views: Views, runs: seq<EarlierRun>): seq<seq<Fields>>
    decreases |runs|
  {
    if runs == [] then []
    else
      var before, last := runs[..|runs| - 1], runs[|runs| - 1];
      Reaching(edge, views, before) + if Reaches(edge, LeftBy(views, before), last) then [last.all] else []
  }

  // Each edge query a run gets as far as keeps what its load added.

  lemma OneRunRequests(views: Views, run: EarlierRun)
    ensures var left := AfterRun(run.bad, run.all, run.db, views);
            left.groups == views.groups && Requested(left) == Requested(views)
  {
  }

  lemma OneRunJoins(views: Views, run: EarlierRun)
    ensures var left := AfterRun(run.bad, run.all, run.db, views);
            left.joins == (if Reaches(AskedGroups, views, run) then WithJoin(views, run.all) else views).joins
  {
  }

  lemma OneRunProxies(views: Views, run: EarlierRun)
    ensures var left := AfterRun(run.bad, run.all, run.db, views);
            left.proxy == (if Reaches(AskedProxies, views, run) then WithParents(views, run.all) else views).proxy
  {
  }

  lemma OneRunLogs(views: Views, run: EarlierRun)
    ensures var left := AfterRun(run.bad, run.all, run.db, views);
            left.usageLogs == (if Reaches(AskedLogs, views, run) then WithLogs(views, run.all) else views).usageLogs
  {
  }

  lemma OneRunMemberships(views: Views, run: EarlierRun)
    ensures var left := AfterRun(run.bad, run.all, run.db, views);
            left.accountGroups ==
            (if Reaches(AskedMemberships, views, run) then WithMemberships(views, run.all) else views).accountGroups
  {
  }

  lemma LastRun(views: Views, runs: seq<EarlierRun>)
    requires runs != []
    ensures var before, last := runs[..|runs| - 1], runs[|runs| - 1];
            LeftBy(views, runs) == AfterRun(last.bad, last.all, last.db, LeftBy(views, before)) &&
            forall edge :: Reaching(edge, views, runs) ==
              Reaching(edge, views, before) + if Reaches(edge, LeftBy(views, before), last) then [last.all] else []
  {
  }

  lemma OneMoreList(v: View, lists: seq<seq<Fields>>, all: seq<Fields>)
    ensures lists + [] == lists
    ensures AskedWith(v, lists + [all]) == ChildView(AskedWith(v, lists), IDs(all))
    ensures AskedFor(v, lists + [all]) == ParentView(AskedFor(v, lists), ProxyIDs(all))
    ensures IDLists(lists + [all]) == IDLists(lists) + [IDs(all)]
  {
    assert (lists + [all])[..|lists|] == lists;
  }

  function IDLists(lists: seq<seq<Fields>>): (r: seq<seq<int>>)
    ensures |r| == |lists| && forall n :: 0 <= n < |lists| ==> r[n] == IDs(lists[n])
  {
    seq(|lists|, n requires 0 <= n < |lists| => IDs(lists[n]))
  }

  /** What earlier runs left on the usage log query: a condition for each run that got as far. */
  lemma {:induction false} LogsLeft(views: Views, runs: seq<EarlierRun>)
    requires views.usageLogs.Some?
    ensures LeftBy(views, runs).usageLogs == Some(AskedWith(views.usageLogs.value, Reaching(AskedLogs, views, runs)))
    decreases |runs|
  {
    if runs != [] {
      var before, last := runs[..|runs| - 1], runs[|runs| - 1];
      LogsLeft(views, before);
      LastRun(views, runs);
      OneRunLogs(LeftBy(views, before), last);
      OneMoreList(views.usageLogs.value, Reaching(AskedLogs, views, before), last.all);
    }
  }

  lemma {:induction false} MembershipsLeft(views: Views, runs: seq<EarlierRun>)
    requires views.accountGroups.Some?
    ensures LeftBy(views, runs).accountGroups ==
            Some(AskedWith(views.accountGroups.value, Reaching(AskedMemberships, views, runs)))
    decreases |runs|
  {
    if runs != [] {
      var before, last := runs[..|runs| - 1], runs[|runs| - 1];
      MembershipsLeft(views, before);
      LastRun(views, runs);
      OneRunMemberships(LeftBy(views, before), last);
      OneMoreList(views.accountGroups.value, Reaching(AskedMemberships, views, before), last.all);
    }
  }

  lemma {:induction false} ProxyLeft(views: Views, runs: seq<EarlierRun>)
    requires views.proxy.Some?
    ensures LeftBy(views, runs).proxy == Some(AskedFor(views.proxy.value, Reaching(AskedProxies, views, runs)))
    decreases |runs|
  {
    if runs != [] {
      var before, last := runs[..|runs| - 1], runs[|runs| - 1];
      ProxyLeft(views, before);
      LastRun(views, runs);
      OneRunProxies(LeftBy(views, before), last);
      OneMoreList(views.proxy.value, Reaching(AskedProxies, views, before), last.all);
    }
  }

  /** Which edges are requested stays as it was. */
  lemma {:induction false} RequestsKept(views: Views, runs: seq<EarlierRun>)
    ensures Requested(LeftBy(views, runs)) == Requested(views) && LeftBy(views, runs).groups == views.groups
    decreases |runs|
  {
    if runs != [] {
      RequestsKept(views, runs[..|runs| - 1]);
      LastRun(views, runs);
      OneRunRequests(LeftBy(views, runs[..|runs| - 1]), runs[|runs| - 1]);
    }
  }

  /** Each earlier run that got as far as the group query left a join on it. */
  lemma {:induction false} JoinsLeft(views: Views, runs: seq<EarlierRun>)
    requires views.groups.Some?
    ensures LeftBy(views, runs).joins == views.joins + IDLists(Reaching(AskedGroups, views, runs))
    decreases |runs|
  {
    if runs != [] {
      var before, last := runs[..|runs| - 1], runs[|runs| - 1];
      JoinsLeft(views, before);
      RequestsKept(views, before);
      LastRun(views, runs);
      OneRunJoins(LeftBy(views, before), last);
      OneMoreList(views.groups.value, Reaching(AskedGroups, views, before), last.all);
    }
  }

  /** After any earlier runs, a run gives the usage logs a fresh query gives exactly when every id with
      rows was asked for by each of those that got as far as the usage logs. */
  lemma LaterLogsExactly(again: seq<Account>, anew: seq<Account>, runs: seq<EarlierRun>, all: seq<Fields>,
                         db: Database, views: Views)
    requires AllUnpaged(views)
    requires Loaded(again, all, db, LeftBy(views, runs)) && Loaded(anew, all, db, views)
    ensures (forall i: nat :: i < |all| ==> again[i].usageLogs == anew[i].usageLogs) <==>
            (views.usageLogs.Some? ==>
             AskedBefore(views.usageLogs.value, db.usageLogs, Reaching(AskedLogs, views, runs), IDs(all)))
  {
    RequestsKept(views, runs);
    if views.usageLogs.Some? {
      LogsLeft(views, runs);
      LogsAgain(again, anew, Reaching(AskedLogs, views, runs), all, db, views.usageLogs.value);
    }
  }

  lemma LogsAgain(again: seq<Account>, anew: seq<Account>, lists: seq<seq<Fields>>, all: seq<Fields>, db: Database,
                  v: View)
    requires HasLogs(again, Some(AskedWith(v, lists)), db, IDs(all)) && HasLogs(anew, Some(v), db, IDs(all))
    requires Unpaged(v)
    ensures (forall i: nat :: i < |all| ==> again[i].usageLogs == anew[i].usageLogs) <==>
            AskedBefore(v, db.usageLogs, lists, IDs(all))
  {
    var ids := IDs(all);
    forall i: nat | i < |all|
      ensures again[i].usageLogs == anew[i].usageLogs <==>
              ChildrenOf(Run(ChildView(AskedWith(v, lists), ids), Some("id"), db.usageLogs), "account_id", ids, i) ==
              ChildrenOf(Run(ChildView(v, ids), Some("id"), db.usageLogs), "account_id", ids, i)
    {
      assert again[i].usageLogs == LoadedLogs(Some(AskedWith(v, lists)), db, ids, i);
      assert anew[i].usageLogs == LoadedLogs(Some(v), db, ids, i);
    }
    ChildrenAgainExactly(v, Some("id"), db.usageLogs, lists, ids);
  }

  /** The same of the memberships and the runs that got as far as those. */
  lemma LaterMembershipsExactly(again: seq<Account>, anew: seq<Account>, runs: seq<EarlierRun>, all: seq<Fields>,
                                db: Database, views: Views)
    requires AllUnpaged(views)
    requires Loaded(again, all, db, LeftBy(views, runs)) && Loaded(anew, all, db, views)
    ensures (forall i: nat :: i < |all| ==> again[i].accountGroups == anew[i].accountGroups) <==>
            (views.accountGroups.Some? ==>
             AskedBefore(views.accountGroups.value, db.accountGroups, Reaching(AskedMemberships, views, runs),
                         IDs(all)))
  {
    RequestsKept(views, runs);
    if views.accountGroups.Some? {
      var lists := Reaching(AskedMemberships, views, runs);
      MembershipsLeft(views, runs);
      ChildrenAgainExactly(views.accountGroups.value, None, db.accountGroups, lists, IDs(all));
    }
  }

  /** The same of the proxies, where a run whose accounts had no proxies does not matter. */
  lemma LaterProxiesExactly(again: seq<Account>, anew: seq<Account>, runs: seq<EarlierRun>, all: seq<Fields>,
                            db: Database, views: Views)
    requires AllUnpaged(views)
    requires Loaded(again, all, db, LeftBy(views, runs)) && Loaded(anew, all, db, views)
    ensures (forall i: nat :: i < |all| ==> again[i].proxy == anew[i].proxy) <==>
            (views.proxy.Some? ==>
             ParentsAskedBefore(views.proxy.value, db.proxies, Reaching(AskedProxies, views, runs), ProxyIDs(all)))
  {
    RequestsKept(views, runs);
    if views.proxy.Some? {
      ProxyLeft(views, runs);
      ParentsAgainExactly(views.proxy.value, db.proxies, Reaching(AskedProxies, views, runs), ProxyIDs(all));
    }
  }

  /** After any earlier runs, loading the groups panics exactly when one of them got as far as the groups
      and some group the query lets through belongs to an account of each that did and to one of this. */
  lemma LaterRunPanicsExactly(runs: seq<EarlierRun>, all: seq<Fields>, db: Database, views: Views)
    requires views.groups.Some? && views.joins == [] && Unpaged(views.groups.value)
    requires QueryFails(views.groups.value, AskedGroups, db) == None
    ensures var lists := Reaching(AskedGroups, views, runs);
            GroupsFailure(LeftBy(views, runs), db, all) == Some(Panicked(AskedGroups)) <==>
            lists != [] && exists r :: SharedGroup(views.groups.value, IDLists(lists), db, IDs(all), r)
  {
    RequestsKept(views, runs);
    JoinsLeft(views, runs);
    assert LeftBy(views, runs).joins == IDLists(Reaching(AskedGroups, views, runs));
    GroupsAgainPanicExactly(views.groups.value, LeftBy(views, runs).joins, db, IDs(all));
  }

  /** Once some run got as far as the groups, a run that does not fail attaches none; so it gives the
      groups a fresh query gives exactly when no visible group is linked to any of its accounts. */
  lemma LaterGroupsExactly(again: seq<Account>, anew: seq<Account>, runs: seq<EarlierRun>, all: seq<Fields>,
                           db: Database, views: Views)
    requires AllUnpaged(views) && views.joins == [] && GroupsFailure(LeftBy(views, runs), db, all) == None
    requires Loaded(again, all, db, LeftBy(views, runs)) && Loaded(anew, all, db, views)
    ensures (forall i: nat :: i < |all| ==> again[i].groups == anew[i].groups) <==>
            (views.groups.Some? && Reaching(AskedGroups, views, runs) != [] ==>
             forall id :: id in IDs(all) ==> NoGroups(views.groups.value, db.accountGroups, db.groups, id))
  {
    RequestsKept(views, runs);
    if views.groups.Some? {
      JoinsLeft(views, runs);
      if Reaching(AskedGroups, views, runs) != [] {
        GroupsAgain(again, anew, LeftBy(views, runs).joins, all, db, views.groups.value);
      } else {
        assert LeftBy(views, runs).joins == [];
      }
    }
  }

  lemma GroupsAgain(again: seq<Account>, anew: seq<Account>, joins: seq<seq<int>>, all: seq<Fields>, db: Database,
                    v: View)
    requires HasGroups(again, Some(v), joins, db, IDs(all)) && HasGroups(anew, Some(v), [], db, IDs(all))
    requires Unpaged(v) && joins != [] && GroupsFail(v, joins, db, IDs(all)) == None
    ensures (forall i: nat :: i < |all| ==> again[i].groups == anew[i].groups) <==>
            forall id :: id in IDs(all) ==> NoGroups(v, db.accountGroups, db.groups, id)
  {
    var ids := IDs(all);
    forall i: nat | i < |all|
      ensures again[i].groups == [] &&
              (anew[i].groups == [] <==> !IsLast(ids, i) || NoGroups(v, db.accountGroups, db.groups, ids[i]))
    {
      NothingJoined(v, joins, db, ids, i);
      NoGroupsExactly(v, db.accountGroups, db.groups, ids, ids[i]);
      assert again[i].groups == LoadedGroups(Some(v), joins, db, ids, i);
      assert anew[i].groups == LoadedGroups(Some(v), [], db, ids, i);
    }
    if id :| id in ids && !NoGroups(v, db.accountGroups, db.groups, id) {
      var last := LastExists(ids, id);
    }
  }

  lemma NothingJoined(v: View, joins: seq<seq<int>>, db: Database, ids: seq<int>, i: nat)
    requires i < |ids| && joins != [] && GroupsFail(v, joins, db, ids) == None
    ensures LoadedGroups(Some(v), joins, db, ids, i) == []
  {
  }
}
