/** Running an account query with any of its four edges eager-loaded
    (backend/ent/account_query.go, sqlAll and querySpec). */
module AccountQuery {
  import opened Wrappers
  import opened Tables
  import opened EdgeQuery
  import opened Account
  import opened EagerLoad
  import opened GroupLoad

  type Source = Column -> Cell

  /** The columns a query reads: all of them, or the selected ones with the id in front and the
      foreign key of the proxy when that edge is loaded. */
  function Columns(fields: seq<Column>, withProxy: bool): seq<Column> {
    if fields == [] then COLUMNS else NodeColumns(fields, Some(Id), if withProxy then [ProxyID] else [])
  }

  function First(a: Option<LoadError>, b: Option<LoadError>): Option<LoadError> {
    if a.Some? then a else b
  }

  function RowError(columns: seq<Column>, row: Source): Option<LoadError> {
    var err := Read(columns, row).1;
    if err.Some? then Some(BadRow(err.value)) else None
  }

  function RowErrors(columns: seq<Column>, rows: seq<Source>): (errs: seq<Option<LoadError>>)
    ensures |errs| == |rows| && forall i :: 0 <= i < |rows| ==> errs[i] == RowError(columns, rows[i])
  {
    seq(|rows|, i requires 0 <= i < |rows| => RowError(columns, rows[i]))
  }

  /** The first error from the i-th row on. */
  function ErrorFrom(errs: seq<Option<LoadError>>, i: nat): Option<LoadError>
    requires i <= |errs|
    decreases |errs| - i
  {
    if i == |errs| then None else First(errs[i], ErrorFrom(errs, i + 1))
  }

  function FirstError(columns: seq<Column>, rows: seq<Source>): Option<LoadError> {
    ErrorFrom(RowErrors(columns, rows), 0)
  }

  /** What each row decodes to. */
  function AllFields(columns: seq<Column>, rows: seq<Source>): (all: seq<Fields>)
    ensures |all| == |rows| && forall i :: 0 <= i < |rows| ==> all[i] == Read(columns, rows[i]).0
  {
    seq(|rows|, i requires 0 <= i < |rows| => Read(columns, rows[i]).0)
  }

  /** Each row with what it decodes to and how that fails. */
  ghost predicate Decoding(columns: seq<Column>, rows: seq<Source>, all: seq<Fields>, errs: seq<Option<LoadError>>) {
    |all| == |rows| && |errs| == |rows| &&
    forall i {:trigger Read(columns, rows[i])} :: 0 <= i < |rows| ==>
      all[i] == Read(columns, rows[i]).0 && errs[i] == RowError(columns, rows[i])
  }

  function IDs(all: seq<Fields>): (ids: seq<int>)
    ensures |ids| == |all| && forall i :: 0 <= i < |all| ==> ids[i] == all[i].id
  {
    seq(|all|, i requires 0 <= i < |all| => all[i].id)
  }

  function ProxyIDs(all: seq<Fields>): (fks: seq<Option<int>>)
    ensures |fks| == |all| && forall i :: 0 <= i < |all| ==> fks[i] == all[i].proxyID
  {
    seq(|all|, i requires 0 <= i < |all| => all[i].proxyID)
  }

  // ----- the four edges of the i-th account -----

  ghost function LoadedGroups(v: Option<View>, joins: seq<seq<int>>, db: Database, ids: seq<int>, i: nat): seq<Entity>
    requires i < |ids|
  {
    if v.None? then []
    else GroupsOf(ColumnsOf(v.value, Some("id")), GroupRows(v.value, joins, db, ids), ids, i)
  }

  function LoadedProxy(v: Option<View>, db: Database, fks: seq<Option<int>>, i: nat): Option<Entity>
    requires i < |fks|
  {
    if v.None? then None else Referenced(ParentsFound(v.value, fks, db.proxies), fks[i])
  }

  ghost function LoadedLogs(v: Option<View>, db: Database, ids: seq<int>, i: nat): seq<Entity>
    requires i < |ids|
  {
    if v.None? then []
    else ChildrenOf(Run(ChildView(v.value, ids), Some("id"), db.usageLogs), "account_id", ids, i)
  }

  ghost function LoadedMemberships(v: Option<View>, db: Database, ids: seq<int>, i: nat): seq<Entity>
    requires i < |ids|
  {
    if v.None? then []
    else ChildrenOf(Run(ChildView(v.value, ids), None, db.accountGroups), "account_id", ids, i)
  }

  function ViewOf(q: EdgeQuery?): Option<View>
    reads q
  {
    if q == null then None else Some(q.view)
  }

  /** What the four edge queries denote, where they are requested, and the joins that earlier runs have
      added to the group query. */
  datatype Views = MakeViews(
    groups: Option<View>, joins: seq<seq<int>>, proxy: Option<View>, usageLogs: Option<View>,
    accountGroups: Option<View>)

  function Requested(views: Views): LoadedTypes {
    LoadedTypes(views.groups.Some?, views.proxy.Some?, views.usageLogs.Some?, views.accountGroups.Some?)
  }

  // ----- which query fails first -----

  function GroupsFailure(views: Views, db: Database, all: seq<Fields>): Option<LoadError> {
    if views.groups.None? then None else GroupsFail(views.groups.value, views.joins, db, IDs(all))
  }

  /** Without keys the proxies are not asked for. */
  function ProxyFailure(v: Option<View>, db: Database, all: seq<Fields>): Option<LoadError> {
    if v.None? || Keys(ProxyIDs(all), |all|) == [] then None
    else QueryFails(ParentView(v.value, ProxyIDs(all)), AskedProxies, db)
  }

  function ChildFailure(v: Option<View>, query: Asked, db: Database, all: seq<Fields>): Option<LoadError> {
    if v.None? then None else QueryFails(ChildView(v.value, IDs(all)), query, db)
  }

  /** The first of the edge queries to fail. */
  function EdgeFailure(views: Views, db: Database, all: seq<Fields>): Option<LoadError> {
    First(GroupsFailure(views, db, all),
          First(ProxyFailure(views.proxy, db, all),
                First(ChildFailure(views.usageLogs, AskedLogs, db, all),
                      ChildFailure(views.accountGroups, AskedMemberships, db, all))))
  }

  /** What the whole query fails with, if it fails: `bad` is the first row error, `all` what the rows
      decode to. */
  function QueryError(bad: Option<LoadError>, all: seq<Fields>, db: Database, views: Views): Option<LoadError> {
    First(First(if AskedAccounts in db.refused then Some(Refused(AskedAccounts)) else None, bad),
          if all == [] then None else EdgeFailure(views, db, all))
  }

  // ----- what a run leaves on the edge queries -----

  function WithJoin(views: Views, all: seq<Fields>): Views {
    if views.groups.None? then views else views.(joins := views.joins + [IDs(all)])
  }

  function WithParents(views: Views, all: seq<Fields>): Views {
    if views.proxy.None? then views else views.(proxy := Some(ParentView(views.proxy.value, ProxyIDs(all))))
  }

  function WithLogs(views: Views, all: seq<Fields>): Views {
    if views.usageLogs.None? then views else views.(usageLogs := Some(ChildView(views.usageLogs.value, IDs(all))))
  }

  function WithMemberships(views: Views, all: seq<Fields>): Views {
    if views.accountGroups.None? then views
    else views.(accountGroups := Some(ChildView(views.accountGroups.value, IDs(all))))
  }

  /** Each edge query that was reached keeps what its load added to it. */
  function AfterLoads(views: Views, db: Database, all: seq<Fields>): Views {
    var joined := WithJoin(views, all);
    if GroupsFailure(views, db, all).Some? then joined
    else if ProxyFailure(views.proxy, db, all).Some? then WithParents(joined, all)
    else if ChildFailure(views.usageLogs, AskedLogs, db, all).Some? then WithLogs(WithParents(joined, all), all)
    else WithMemberships(WithLogs(WithParents(joined, all), all), all)
  }

  /** Without accounts no edge query is reached. */
  function AfterRun(bad: Option<LoadError>, all: seq<Fields>, db: Database, views: Views): Views {
    if AskedAccounts in db.refused || bad.Some? || all == [] then views else AfterLoads(views, db, all)
  }

  // ----- the same as predicates on the nodes, one field each -----

  ghost predicate HasFields(nodes: seq<Account>, all: seq<Fields>)
    reads (set n | n in nodes)`fields
  {
    |nodes| == |all| && forall i :: 0 <= i < |nodes| ==> nodes[i].fields == all[i]
  }

  ghost predicate NoEdges(nodes: seq<Account>)
    reads (set n | n in nodes)`groups, (set n | n in nodes)`proxy
    reads (set n | n in nodes)`usageLogs, (set n | n in nodes)`accountGroups
  {
    forall i :: 0 <= i < |nodes| ==>
      nodes[i].groups == [] && nodes[i].proxy == None && nodes[i].usageLogs == [] && nodes[i].accountGroups == []
  }

  ghost predicate HasTypes(nodes: seq<Account>, types: LoadedTypes)
    reads (set n | n in nodes)`loadedTypes
  {
    forall i :: 0 <= i < |nodes| ==> nodes[i].loadedTypes == types
  }

  ghost predicate HasGroups(nodes: seq<Account>, v: Option<View>, joins: seq<seq<int>>, db: Database, ids: seq<int>)
    reads (set n | n in nodes)`groups
  {
    |ids| == |nodes| && forall i :: 0 <= i < |nodes| ==> nodes[i].groups == LoadedGroups(v, joins, db, ids, i)
  }

  ghost predicate HasProxy(nodes: seq<Account>, v: Option<View>, db: Database, fks: seq<Option<int>>)
    reads (set n | n in nodes)`proxy
  {
    |fks| == |nodes| && forall i :: 0 <= i < |nodes| ==> nodes[i].proxy == LoadedProxy(v, db, fks, i)
  }

  ghost predicate HasLogs(nodes: seq<Account>, v: Option<View>, db: Database, ids: seq<int>)
    reads (set n | n in nodes)`usageLogs
  {
    |ids| == |nodes| && forall i :: 0 <= i < |nodes| ==> nodes[i].usageLogs == LoadedLogs(v, db, ids, i)
  }

  ghost predicate HasMemberships(nodes: seq<Account>, v: Option<View>, db: Database, ids: seq<int>)
    reads (set n | n in nodes)`accountGroups
  {
    |ids| == |nodes| && forall i :: 0 <= i < |nodes| ==> nodes[i].accountGroups == LoadedMemberships(v, db, ids, i)
  }

  /** The edges of every account are those of the given queries. */
  ghost predicate HasEdges(nodes: seq<Account>, all: seq<Fields>, db: Database, views: Views)
    reads (set n | n in nodes)`groups, (set n | n in nodes)`proxy
    reads (set n | n in nodes)`usageLogs, (set n | n in nodes)`accountGroups
  {
    HasGroups(nodes, views.groups, views.joins, db, IDs(all)) && HasProxy(nodes, views.proxy, db, ProxyIDs(all)) &&
    HasLogs(nodes, views.usageLogs, db, IDs(all)) && HasMemberships(nodes, views.accountGroups, db, IDs(all))
  }

  /** One account for each row, in order, each with its own fields and the edges asked for. */
  ghost predicate Loaded(nodes: seq<Account>, all: seq<Fields>, db: Database, views: Views)
    reads (set n | n in nodes)`fields, (set n | n in nodes)`loadedTypes
    reads (set n | n in nodes)`groups, (set n | n in nodes)`proxy
    reads (set n | n in nodes)`usageLogs, (set n | n in nodes)`accountGroups
  {
    Decodes(nodes, all, Requested(views)) && HasEdges(nodes, all, db, views)
  }

  /** The accounts of the first rows, as decoded. */
  ghost predicate Decodes(nodes: seq<Account>, all: seq<Fields>, types: LoadedTypes)
    reads (set n | n in nodes)`fields, (set n | n in nodes)`loadedTypes
  {
    |nodes| == |all| && Distinct(nodes) && HasFields(nodes, all) && HasTypes(nodes, types)
  }

  lemma HaveKeys(nodes: seq<Account>, all: seq<Fields>)
    requires HasFields(nodes, all)
    ensures HaveIDs(nodes, IDs(all)) && HaveProxyIDs(nodes, ProxyIDs(all))
  {
  }

  /** The accounts before any edge is loaded. */
  ghost predicate Bare(nodes: seq<Account>, all: seq<Fields>, types: LoadedTypes)
    reads (set n | n in nodes)`fields, (set n | n in nodes)`loadedTypes
    reads (set n | n in nodes)`groups, (set n | n in nodes)`proxy
    reads (set n | n in nodes)`usageLogs, (set n | n in nodes)`accountGroups
  {
    Decodes(nodes, all, types) && NoEdges(nodes)
  }

  lemma AddNode(nodes: seq<Account>, node: Account, all: seq<Fields>, types: LoadedTypes)
    requires Bare(nodes, all, types) && node !in nodes && node.loadedTypes == types
    requires node.groups == [] && node.proxy == None && node.usageLogs == [] && node.accountGroups == []
    ensures Bare(nodes + [node], all + [node.fields], types)
  {
  }

  /** What a query without edges gives: the start of every load. */
  lemma NodesReady(nodes: seq<Account>, all: seq<Fields>, db: Database, views: Views)
    requires |nodes| == |all| && NoEdges(nodes)
    ensures HasEdges(nodes, all, db, MakeViews(None, [], None, None, None))
    ensures nodes == [] ==> HasEdges(nodes, all, db, views)
  {
  }

  class AccountQuery {
    var fields: seq<Column>
    var withGroups: EdgeQuery?
    var withProxy: EdgeQuery?
    var withUsageLogs: EdgeQuery?
    var withAccountGroups: EdgeQuery?

    constructor ()
      ensures fields == []
      ensures withGroups == null && withProxy == null && withUsageLogs == null && withAccountGroups == null
    {
      fields := [];
      withGroups, withProxy, withUsageLogs, withAccountGroups := null, null, null, null;
    }

    /** Each With call made its own edge query. */
    ghost predicate Valid()
      reads this
    {
      (withGroups != null ==>
        withGroups != withProxy && withGroups != withUsageLogs && withGroups != withAccountGroups) &&
      (withProxy != null ==> withProxy != withUsageLogs && withProxy != withAccountGroups) &&
      (withUsageLogs != null ==> withUsageLogs != withAccountGroups)
    }

    function Views(): Views
      reads this, withGroups, withProxy, withUsageLogs, withAccountGroups
    {
      MakeViews(ViewOf(withGroups), if withGroups == null then [] else withGroups.joins,
                ViewOf(withProxy), ViewOf(withUsageLogs), ViewOf(withAccountGroups))
    }

    /** `_spec.Assign` for one row, from the slots `_spec.ScanValues` allocated. */
    method AssignRow(columns: seq<Column>, row: Source, types: LoadedTypes)
      returns (node: Account, err: Option<LoadError>)
      ensures fresh(node) && err == RowError(columns, row) && node.fields == Read(columns, row).0
      ensures node.groups == [] && node.proxy == None && node.usageLogs == [] && node.accountGroups == []
      ensures node.loadedTypes == types
    {
      var values := ScanRow(columns, row);
      node := new Account();
      node.loadedTypes := types;
      var bad := node.AssignValues(columns, values[..]);
      err := if bad.None? then None else Some(BadRow(bad.value));
    }

    method AppendRow(nodes: seq<Account>, columns: seq<Column>, rows: seq<Source>, types: LoadedTypes,
                     ghost all: seq<Fields>, ghost errs: seq<Option<LoadError>>)
      returns (node: Account, err: Option<LoadError>)
      requires |nodes| < |rows| && Decoding(columns, rows, all, errs) && Bare(nodes, all[..|nodes|], types)
      ensures fresh(node) && err == errs[|nodes|] && Bare(nodes + [node], all[..|nodes| + 1], types)
    {
      node, err := AssignRow(columns, rows[|nodes|], types);
      AddNode(nodes, node, all[..|nodes|], types);
      assert all[..|nodes| + 1] == all[..|nodes|] + [node.fields];
    }

    /** `sqlgraph.QueryNodes`: one node for each row, stopping at a row that cannot be decoded. */
    method QueryNodes(columns: seq<Column>, rows: seq<Source>, types: LoadedTypes,
                      ghost all: seq<Fields>, ghost errs: seq<Option<LoadError>>)
      returns (nodes: seq<Account>, err: Option<LoadError>)
      requires Decoding(columns, rows, all, errs)
      ensures fresh(nodes) && err == ErrorFrom(errs, 0)
      ensures if err == None then Bare(nodes, all, types) else nodes == []
    {
      nodes := [];
      for i := 0 to |rows|
        invariant fresh(nodes) && |nodes| == i && ErrorFrom(errs, 0) == ErrorFrom(errs, i)
        invariant Bare(nodes, all[..i], types)
      {
        var node, bad := AppendRow(nodes, columns, rows, types, all, errs);
        if bad != None {
          return [], bad;
        }
        assert fresh(nodes + [node]);
        nodes := nodes + [node];
      }
      assert all[..|rows|] == all;
      return nodes, None;
    }

    method TryGroups(nodes: seq<Account>, db: Database, ghost all: seq<Fields>, ghost views: Views)
      returns (err: Option<LoadError>)
      requires Distinct(nodes) && HasFields(nodes, all) && HasGroups(nodes, None, [], db, IDs(all)) && views == Views()
      modifies withGroups, (set n | n in nodes)`groups
      ensures err == GroupsFailure(views, db, all)
      ensures err == None ==> HasGroups(nodes, views.groups, views.joins, db, IDs(all))
      ensures withGroups != null ==> withGroups.view == old(withGroups.view)
      ensures withGroups != null ==> withGroups.joins == old(withGroups.joins) + [IDs(all)]
    {
      HaveKeys(nodes, all);
      err := None;
      if withGroups != null {
        err := LoadGroups(withGroups, nodes, db, IDs(all));
      }
    }

    method TryProxy(nodes: seq<Account>, db: Database, ghost all: seq<Fields>) returns (err: Option<LoadError>)
      requires Distinct(nodes) && HasFields(nodes, all) && HasProxy(nodes, None, db, ProxyIDs(all))
      modifies withProxy, (set n | n in nodes)`proxy
      ensures err == ProxyFailure(old(ViewOf(withProxy)), db, all)
      ensures err == None ==> HasProxy(nodes, old(ViewOf(withProxy)), db, ProxyIDs(all))
      ensures withProxy != null ==> withProxy.view == ParentView(old(withProxy.view), ProxyIDs(all))
    {
      HaveKeys(nodes, all);
      err := None;
      if withProxy != null {
        err := LoadProxy(withProxy, nodes, db, ProxyIDs(all));
      }
    }

    method TryUsageLogs(nodes: seq<Account>, db: Database, ghost all: seq<Fields>) returns (err: Option<LoadError>)
      requires Distinct(nodes) && HasFields(nodes, all) && HasLogs(nodes, None, db, IDs(all))
      modifies withUsageLogs, (set n | n in nodes)`usageLogs
      ensures err == ChildFailure(old(ViewOf(withUsageLogs)), AskedLogs, db, all)
      ensures err == None ==> HasLogs(nodes, old(ViewOf(withUsageLogs)), db, IDs(all))
      ensures withUsageLogs != null ==> withUsageLogs.view == ChildView(old(withUsageLogs.view), IDs(all))
    {
      HaveKeys(nodes, all);
      err := None;
      if withUsageLogs != null {
        err := LoadUsageLogs(withUsageLogs, nodes, db, IDs(all));
      }
    }

    method TryAccountGroups(nodes: seq<Account>, db: Database, ghost all: seq<Fields>) returns (err: Option<LoadError>)
      requires Distinct(nodes) && HasFields(nodes, all) && HasMemberships(nodes, None, db, IDs(all))
      modifies withAccountGroups, (set n | n in nodes)`accountGroups
      ensures err == ChildFailure(old(ViewOf(withAccountGroups)), AskedMemberships, db, all)
      ensures err == None ==> HasMemberships(nodes, old(ViewOf(withAccountGroups)), db, IDs(all))
      ensures withAccountGroups != null ==> withAccountGroups.view == ChildView(old(withAccountGroups.view), IDs(all))
    {
      HaveKeys(nodes, all);
      err := None;
      if withAccountGroups != null {
        err := LoadAccountGroups(withAccountGroups, nodes, db, IDs(all));
      }
    }

    // Each of the four adds one edge to those already done. `now` is what the edge queries denote.

    method AddGroups(nodes: seq<Account>, db: Database, ghost all: seq<Fields>, ghost types: LoadedTypes,
                     ghost done: Views, ghost now: Views) returns (err: Option<LoadError>)
      requires Valid() && Decodes(nodes, all, types) && HasEdges(nodes, all, db, done) && now == Views()
      requires done.groups == None && done.joins == []
      modifies withGroups, (set n | n in nodes)`groups
      ensures err == GroupsFailure(now, db, all) && Decodes(nodes, all, types) && Views() == WithJoin(now, all)
      ensures err == None ==> HasEdges(nodes, all, db, done.(groups := now.groups, joins := now.joins))
    {
      err := TryGroups(nodes, db, all, now);
    }

    method AddProxy(nodes: seq<Account>, db: Database, ghost all: seq<Fields>, ghost types: LoadedTypes,
                    ghost done: Views, ghost now: Views) returns (err: Option<LoadError>)
      requires Valid() && Decodes(nodes, all, types) && HasEdges(nodes, all, db, done) && now == Views()
      requires done.proxy == None
      modifies withProxy, (set n | n in nodes)`proxy
      ensures err == ProxyFailure(now.proxy, db, all) && Decodes(nodes, all, types) && Views() == WithParents(now, all)
      ensures err == None ==> HasEdges(nodes, all, db, done.(proxy := now.proxy))
    {
      err := TryProxy(nodes, db, all);
    }

    method AddUsageLogs(nodes: seq<Account>, db: Database, ghost all: seq<Fields>, ghost types: LoadedTypes,
                        ghost done: Views, ghost now: Views) returns (err: Option<LoadError>)
      requires Valid() && Decodes(nodes, all, types) && HasEdges(nodes, all, db, done) && now == Views()
      requires done.usageLogs == None
      modifies withUsageLogs, (set n | n in nodes)`usageLogs
      ensures err == ChildFailure(now.usageLogs, AskedLogs, db, all)
      ensures Decodes(nodes, all, types) && Views() == WithLogs(now, all)
      ensures err == None ==> HasEdges(nodes, all, db, done.(usageLogs := now.usageLogs))
    {
      err := TryUsageLogs(nodes, db, all);
    }

    method AddAccountGroups(nodes: seq<Account>, db: Database, ghost all: seq<Fields>, ghost types: LoadedTypes,
                            ghost done: Views, ghost now: Views) returns (err: Option<LoadError>)
      requires Valid() && Decodes(nodes, all, types) && HasEdges(nodes, all, db, done) && now == Views()
      requires done.accountGroups == None
      modifies withAccountGroups, (set n | n in nodes)`accountGroups
      ensures err == ChildFailure(now.accountGroups, AskedMemberships, db, all)
      ensures Decodes(nodes, all, types) && Views() == WithMemberships(now, all)
      ensures err == None ==> HasEdges(nodes, all, db, done.(accountGroups := now.accountGroups))
    {
      err := TryAccountGroups(nodes, db, all);
    }

    /** Each requested edge, for all nodes with one query; edges change, and only edges. */
    method LoadEdges(nodes: seq<Account>, db: Database, ghost all: seq<Fields>, ghost types: LoadedTypes)
      returns (err: Option<LoadError>)
      requires Valid() && Decodes(nodes, all, types) && HasEdges(nodes, all, db, MakeViews(None, [], None, None, None))
      modifies withGroups, withProxy, withUsageLogs, withAccountGroups
      modifies (set n | n in nodes)`groups, (set n | n in nodes)`proxy
      modifies (set n | n in nodes)`usageLogs, (set n | n in nodes)`accountGroups
      ensures err == EdgeFailure(old(Views()), db, all) && Decodes(nodes, all, types)
      ensures Views() == AfterLoads(old(Views()), db, all)
      ensures err == None ==> HasEdges(nodes, all, db, old(Views()))
    {
      ghost var views := Views();
      err := LoadJoined(nodes, db, all, types, views);
      if err == None {
        err := LoadChildren(nodes, db, all, types, views, WithParents(WithJoin(views, all), all));
      }
    }

    /** Groups, then proxies. */
    method LoadJoined(nodes: seq<Account>, db: Database, ghost all: seq<Fields>, ghost types: LoadedTypes,
                      ghost views: Views) returns (err: Option<LoadError>)
      requires Valid() && Decodes(nodes, all, types) && HasEdges(nodes, all, db, MakeViews(None, [], None, None, None))
      requires views == Views()
      modifies withGroups, withProxy, (set n | n in nodes)`groups, (set n | n in nodes)`proxy
      ensures err == First(GroupsFailure(views, db, all), ProxyFailure(views.proxy, db, all))
      ensures Decodes(nodes, all, types)
      ensures Views() == if GroupsFailure(views, db, all).Some? then WithJoin(views, all)
                         else WithParents(WithJoin(views, all), all)
      ensures err == None ==> HasEdges(nodes, all, db, views.(usageLogs := None, accountGroups := None))
    {
      ghost var none := MakeViews(None, [], None, None, None);
      err := AddGroups(nodes, db, all, types, none, views);
      if err == None {
        err := AddProxy(nodes, db, all, types, none.(groups := views.groups, joins := views.joins),
                        WithJoin(views, all));
      }
    }

    /** Usage logs, then memberships. */
    method LoadChildren(nodes: seq<Account>, db: Database, ghost all: seq<Fields>, ghost types: LoadedTypes,
                        ghost views: Views, ghost now: Views) returns (err: Option<LoadError>)
      requires Valid() && Decodes(nodes, all, types) && now == Views()
      requires HasEdges(nodes, all, db, views.(usageLogs := None, accountGroups := None))
      requires now.usageLogs == views.usageLogs && now.accountGroups == views.accountGroups
      modifies withUsageLogs, withAccountGroups
      modifies (set n | n in nodes)`usageLogs, (set n | n in nodes)`accountGroups
      ensures err == First(ChildFailure(views.usageLogs, AskedLogs, db, all),
                           ChildFailure(views.accountGroups, AskedMemberships, db, all))
      ensures Decodes(nodes, all, types)
      ensures Views() == if ChildFailure(views.usageLogs, AskedLogs, db, all).Some? then WithLogs(now, all)
                         else WithMemberships(WithLogs(now, all), all)
      ensures err == None ==> HasEdges(nodes, all, db, views)
    {
      err := AddUsageLogs(nodes, db, all, types, views.(usageLogs := None, accountGroups := None), now);
      if err == None {
        err := AddAccountGroups(nodes, db, all, types, views.(accountGroups := None), WithLogs(now, all));
      }
    }

    method SqlColumns() returns (columns: seq<Column>)
      ensures columns == Columns(fields, withProxy != null)
    {
      columns := COLUMNS;
      if |fields| > 0 {
        columns := QuerySpecColumns(fields, Some(Id), if withProxy != null then [ProxyID] else []);
      }
    }

    /** Rows become nodes in their order, then the requested edges are loaded. */
    method SqlAll(rows: seq<Source>, db: Database) returns (nodes: seq<Account>, err: Option<LoadError>)
      requires Valid()
      modifies withGroups, withProxy, withUsageLogs, withAccountGroups
      ensures var columns := Columns(fields, withProxy != null);
              var bad, all := FirstError(columns, rows), AllFields(columns, rows);
              fresh(nodes) && err == QueryError(bad, all, db, old(Views())) &&
              (if err == None then Loaded(nodes, all, db, old(Views())) else nodes == []) &&
              Views() == AfterRun(bad, all, db, old(Views()))
    {
      var columns := SqlColumns();
      nodes, err := Run(columns, rows, db, AllFields(columns, rows), RowErrors(columns, rows));
    }

    method Run(columns: seq<Column>, rows: seq<Source>, db: Database, ghost all: seq<Fields>,
               ghost errs: seq<Option<LoadError>>) returns (nodes: seq<Account>, err: Option<LoadError>)
      requires Valid() && Decoding(columns, rows, all, errs)
      modifies withGroups, withProxy, withUsageLogs, withAccountGroups
      ensures fresh(nodes) && err == QueryError(ErrorFrom(errs, 0), all, db, old(Views()))
      ensures if err == None then Loaded(nodes, all, db, old(Views())) else nodes == []
      ensures Views() == AfterRun(ErrorFrom(errs, 0), all, db, old(Views()))
    {
      if AskedAccounts in db.refused {
        return [], Some(Refused(AskedAccounts));
      }
      nodes, err := QueryNodes(columns, rows, Requested(Views()), all, errs);
      if err == None {
        err := FillEdges(nodes, db, all);
        if err != None {
          return [], err;
        }
      }
    }

    /** Without nodes no edge query is executed. */
    method FillEdges(nodes: seq<Account>, db: Database, ghost all: seq<Fields>) returns (err: Option<LoadError>)
      requires Valid() && Bare(nodes, all, Requested(Views()))
      modifies withGroups, withProxy, withUsageLogs, withAccountGroups
      modifies (set n | n in nodes)`groups, (set n | n in nodes)`proxy
      modifies (set n | n in nodes)`usageLogs, (set n | n in nodes)`accountGroups
      ensures err == if all == [] then None else EdgeFailure(old(Views()), db, all)
      ensures err == None ==> Loaded(nodes, all, db, old(Views()))
      ensures Views() == if all == [] then old(Views()) else AfterLoads(old(Views()), db, all)
    {
      NodesReady(nodes, all, db, Views());
      if |nodes| == 0 {
        return None;
      }
      err := LoadEdges(nodes, db, all, Requested(Views()));
    }
  }
}
