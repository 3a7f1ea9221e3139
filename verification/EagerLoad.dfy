/** Batched eager loading: one query per edge, scattered back onto the parent nodes through
    in-memory maps (backend/ent/account_query.go, sqlAll and the load methods;
    backend/ent/accountgroup_query.go, loadAccount). */
module EagerLoad {
  import opened Wrappers
  import opened Tables
  import opened Relational
  import opened EdgeQuery
  import opened Account

  datatype LoadError =
    | UnexpectedNode(edge: string, id: int)
    | UnexpectedForeignKey(column: string, id: int)
    | BadRow(error: AssignError)
    | InvalidField(query: Asked, field: string)
    | Refused(query: Asked)
    | Panicked(query: Asked)

  /** The queries a load may execute. */
  datatype Asked = AskedAccounts | AskedGroups | AskedProxies | AskedLogs | AskedMemberships

  /** The tables, the columns that may be selected, and the queries the database refuses. */
  datatype Database = Database(groups: seq<Row>, accountGroups: seq<Row>, proxies: seq<Row>, usageLogs: seq<Row>,
                               columns: Asked -> set<string>, refused: set<Asked>)

  function FirstInvalid(fields: seq<string>, valid: set<string>): Option<string> {
    if fields == [] then None else if fields[0] !in valid then Some(fields[0]) else FirstInvalid(fields[1..], valid)
  }

  /** How executing an edge query fails, if it does. */
  function QueryFails(v: View, query: Asked, db: Database): Option<LoadError> {
    var field := FirstInvalid(v.fields, db.columns(query));
    if field.Some? then Some(InvalidField(query, field.value))
    else if query in db.refused then Some(Refused(query)) else None
  }

  /** `prepareQuery`: every selected field must be a column. */
  method PrepareQuery(v: View, query: Asked, db: Database) returns (err: Option<LoadError>)
    ensures var field := FirstInvalid(v.fields, db.columns(query));
            err == if field.Some? then Some(InvalidField(query, field.value)) else None
  {
    for i := 0 to |v.fields|
      invariant FirstInvalid(v.fields, db.columns(query)) == FirstInvalid(v.fields[i..], db.columns(query))
    {
      assert v.fields[i..][1..] == v.fields[i + 1..];
      if v.fields[i] !in db.columns(query) {
        return Some(InvalidField(query, v.fields[i]));
      }
    }
    return None;
  }

  /** Prepared, then sent to the database. */
  method Execute(v: View, query: Asked, db: Database) returns (err: Option<LoadError>)
    ensures err == QueryFails(v, query, db)
  {
    err := PrepareQuery(v, query, db);
    if err == None && query in db.refused {
      err := Some(Refused(query));
    }
  }

  ghost predicate Distinct<T>(xs: seq<T>) {
    forall i, j :: 0 <= i < j < |xs| ==> xs[i] != xs[j]
  }

  ghost predicate HaveIDs(nodes: seq<Account>, ids: seq<int>)
    reads (set n | n in nodes)`fields
  {
    |ids| == |nodes| && forall i :: 0 <= i < |nodes| ==> nodes[i].fields.id == ids[i]
  }

  ghost predicate HaveProxyIDs(nodes: seq<Account>, fks: seq<Option<int>>)
    reads (set n | n in nodes)`fields
  {
    |fks| == |nodes| && forall i :: 0 <= i < |nodes| ==> nodes[i].fields.proxyID == fks[i]
  }

  /** The last node with its id: the one a map from ids to nodes ends up with. */
  ghost predicate IsLast(ids: seq<int>, i: int)
    requires 0 <= i < |ids|
  {
    forall j :: i < j < |ids| ==> ids[j] != ids[i]
  }

  lemma LastExists(ids: seq<int>, id: int) returns (i: nat)
    requires id in ids
    ensures i < |ids| && ids[i] == id && IsLast(ids, i)
  {
    i := |ids| - 1;
    while ids[i] != id
      invariant i < |ids| && id in ids[..i + 1]
      invariant forall j :: i < j < |ids| ==> ids[j] != id
      decreases i
    {
      assert ids[..i + 1] == ids[..i] + [ids[i]];
      i := i - 1;
    }
  }

  /** The map from ids to nodes after n nodes: later nodes replace earlier ones. */
  function ByID(nodes: seq<Account>, ids: seq<int>, n: nat): map<int, Account>
    requires n <= |ids| == |nodes|
  {
    if n == 0 then map[] else ByID(nodes, ids, n - 1)[ids[n - 1] := nodes[n - 1]]
  }

  lemma {:induction false} ByIDKeys(nodes: seq<Account>, ids: seq<int>, n: nat)
    requires n <= |ids| == |nodes|
    ensures forall id :: id in ByID(nodes, ids, n) <==> id in ids[..n]
  {
    if n > 0 {
      ByIDKeys(nodes, ids, n - 1);
      assert ids[..n] == ids[..n - 1] + [ids[n - 1]];
    }
  }

  lemma {:induction false} ByIDLast(nodes: seq<Account>, ids: seq<int>, n: nat, i: nat)
    requires i < n <= |ids| == |nodes| && forall j :: i < j < n ==> ids[j] != ids[i]
    ensures ids[i] in ByID(nodes, ids, n) && ByID(nodes, ids, n)[ids[i]] == nodes[i]
  {
    if i < n - 1 {
      ByIDLast(nodes, ids, n - 1, i);
    }
  }

  /** Only one node is the last with a given id. */
  lemma LastUnique(ids: seq<int>, i: nat, j: nat)
    requires i < |ids| && j < |ids| && IsLast(ids, i) && IsLast(ids, j) && ids[i] == ids[j]
    ensures i == j
  {
  }

  // ----- one to many -----

  function HasKey(column: string, id: int): Entity -> bool {
    e => Field(e, column) == id
  }

  function Children(neighbors: seq<Entity>, column: string, id: int): seq<Entity> {
    Filter(HasKey(column, id), neighbors)
  }

  /** What a one-to-many load gives the i-th node. */
  ghost function ChildrenOf(neighbors: seq<Entity>, column: string, ids: seq<int>, i: nat): seq<Entity>
    requires i < |ids|
  {
    if IsLast(ids, i) then Children(neighbors, column, ids[i]) else []
  }

  lemma ChildrenStep(neighbors: seq<Entity>, column: string, ids: seq<int>, m: nat, i: nat)
    requires m < |neighbors| && i < |ids|
    ensures ChildrenOf(neighbors[..m + 1], column, ids, i) ==
            ChildrenOf(neighbors[..m], column, ids, i) +
            if IsLast(ids, i) && ids[i] == Field(neighbors[m], column) then [neighbors[m]] else []
  {
    assert neighbors[..m + 1] == neighbors[..m] + [neighbors[m]];
    FilterAppend(HasKey(column, ids[i]), neighbors[..m], [neighbors[m]]);
  }

  /** The query a one-to-many load executes. */
  function ChildView(v: View, ids: seq<int>): View {
    Where(AppendFieldOnce(v, "account_id"), ColumnIn("account_id", ids))
  }

  /** Every returned child names one of the parents: the foreign key is always selected. */
  lemma ChildHasParent(v: View, idColumn: Option<string>, ids: seq<int>, table: seq<Row>, e: Entity)
    requires idColumn != Some("account_id")
    requires e in Run(ChildView(v, ids), idColumn, table)
    ensures Field(e, "account_id") in ids
  {
    var q := ChildView(v, ids);
    var cols := ColumnsOf(q, idColumn);
    var k :| 0 <= k < |Run(q, idColumn, table)| && Run(q, idColumn, table)[k] == e;
    var r := Select(q, table)[k];
    assert Field(r, "account_id") in ids by {
      SelectedRow(q, table, r);
      HoldsWhere(AppendFieldOnce(v, "account_id"), ColumnIn("account_id", ids), r);
    }
    assert cols == [] || "account_id" in cols by {
      if q.fields != [] {
        ColumnsSuffice(q.fields, idColumn, []);
      }
    }
    FieldOfProjection(cols, r, "account_id");
  }

  lemma ChildrenHaveParents(v: View, idColumn: Option<string>, ids: seq<int>, table: seq<Row>)
    requires idColumn != Some("account_id")
    ensures forall e :: e in Run(ChildView(v, ids), idColumn, table) ==> Field(e, "account_id") in ids
  {
    forall e | e in Run(ChildView(v, ids), idColumn, table) { ChildHasParent(v, idColumn, ids, table, e); }
  }

  /** The m-th neighbour goes to the last node with its key and to no other. */
  lemma ChildGoesToLast(neighbors: seq<Entity>, column: string, ids: seq<int>, m: nat) returns (last: nat)
    requires m < |neighbors| && Field(neighbors[m], column) in ids
    ensures last < |ids| && IsLast(ids, last) && ids[last] == Field(neighbors[m], column)
    ensures forall i: nat :: i < |ids| ==>
      ChildrenOf(neighbors[..m + 1], column, ids, i) ==
      ChildrenOf(neighbors[..m], column, ids, i) + if i == last then [neighbors[m]] else []
  {
    last := LastExists(ids, Field(neighbors[m], column));
    forall i: nat | i < |ids|
      ensures ChildrenOf(neighbors[..m + 1], column, ids, i) ==
              ChildrenOf(neighbors[..m], column, ids, i) + if i == last then [neighbors[m]] else []
    {
      ChildrenStep(neighbors, column, ids, m, i);
      if IsLast(ids, i) && ids[i] == Field(neighbors[m], column) {
        LastUnique(ids, i, last);
      }
    }
  }

  method IndexUsageLogs(nodes: seq<Account>, ghost ids: seq<int>) returns (fks: seq<int>, nodeids: map<int, Account>)
    requires Distinct(nodes) && HaveIDs(nodes, ids)
    modifies (set n | n in nodes)`usageLogs
    ensures fks == ids && nodeids == ByID(nodes, ids, |ids|)
    ensures forall i :: 0 <= i < |nodes| ==> nodes[i].usageLogs == []
  {
    fks, nodeids := [], map[];
    for i := 0 to |nodes|
      invariant fks == ids[..i] && nodeids == ByID(nodes, ids, i)
      invariant forall j :: 0 <= j < i ==> nodes[j].usageLogs == []
    {
      fks := fks + [nodes[i].fields.id];
      nodeids := nodeids[nodes[i].fields.id := nodes[i]];
      nodes[i].usageLogs := [];
    }
    assert ids[..|nodes|] == ids;
  }

  method ScatterUsageLogs(nodes: seq<Account>, ghost ids: seq<int>, nodeids: map<int, Account>, neighbors: seq<Entity>)
    returns (err: Option<LoadError>)
    requires Distinct(nodes) && |ids| == |nodes| && nodeids == ByID(nodes, ids, |ids|)
    requires forall i :: 0 <= i < |nodes| ==> nodes[i].usageLogs == []
    requires forall e :: e in neighbors ==> Field(e, "account_id") in ids
    modifies (set n | n in nodes)`usageLogs
    ensures err == None
    ensures forall i :: 0 <= i < |nodes| ==> nodes[i].usageLogs == ChildrenOf(neighbors, "account_id", ids, i)
  {
    for m := 0 to |neighbors|
      invariant forall i :: 0 <= i < |nodes| ==> nodes[i].usageLogs == ChildrenOf(neighbors[..m], "account_id", ids, i)
    {
      var e := neighbors[m];
      var fk := Field(e, "account_id");
      assert e in neighbors;
      ghost var last := ChildGoesToLast(neighbors, "account_id", ids, m);
      ByIDLast(nodes, ids, |ids|, last);
      if fk !in nodeids {
        return Some(UnexpectedForeignKey("account_id", fk));
      }
      var node := nodeids[fk];
      node.usageLogs := node.usageLogs + [e];
    }
    assert neighbors[..|neighbors|] == neighbors;
    return None;
  }

  method LoadUsageLogs(query: EdgeQuery, nodes: seq<Account>, db: Database, ghost ids: seq<int>)
    returns (err: Option<LoadError>)
    requires Distinct(nodes) && HaveIDs(nodes, ids)
    modifies query, (set n | n in nodes)`usageLogs
    ensures err == QueryFails(query.view, AskedLogs, db)
    ensures query.view == ChildView(old(query.view), ids)
    ensures err == None ==> forall i :: 0 <= i < |nodes| ==>
      nodes[i].usageLogs == ChildrenOf(Run(query.view, Some("id"), db.usageLogs), "account_id", ids, i)
  {
    var fks, nodeids := IndexUsageLogs(nodes, ids);
    if |query.view.fields| > 0 {
      query.view := AppendFieldOnce(query.view, "account_id");
    }
    query.view := Where(query.view, ColumnIn("account_id", fks));
    err := Execute(query.view, AskedLogs, db);
    if err != None {
      return;
    }
    ChildrenHaveParents(old(query.view), Some("id"), ids, db.usageLogs);
    err := ScatterUsageLogs(nodes, ids, nodeids, Run(query.view, Some("id"), db.usageLogs));
  }

  method IndexAccountGroups(nodes: seq<Account>, ghost ids: seq<int>)
    returns (fks: seq<int>, nodeids: map<int, Account>)
    requires Distinct(nodes) && HaveIDs(nodes, ids)
    modifies (set n | n in nodes)`accountGroups
    ensures fks == ids && nodeids == ByID(nodes, ids, |ids|)
    ensures forall i :: 0 <= i < |nodes| ==> nodes[i].accountGroups == []
  {
    fks, nodeids := [], map[];
    for i := 0 to |nodes|
      invariant fks == ids[..i] && nodeids == ByID(nodes, ids, i)
      invariant forall j :: 0 <= j < i ==> nodes[j].accountGroups == []
    {
      fks := fks + [nodes[i].fields.id];
      nodeids := nodeids[nodes[i].fields.id := nodes[i]];
      nodes[i].accountGroups := [];
    }
    assert ids[..|nodes|] == ids;
  }

  method ScatterAccountGroups(nodes: seq<Account>, ghost ids: seq<int>, nodeids: map<int, Account>,
                              neighbors: seq<Entity>)
    returns (err: Option<LoadError>)
    requires Distinct(nodes) && |ids| == |nodes| && nodeids == ByID(nodes, ids, |ids|)
    requires forall i :: 0 <= i < |nodes| ==> nodes[i].accountGroups == []
    requires forall e :: e in neighbors ==> Field(e, "account_id") in ids
    modifies (set n | n in nodes)`accountGroups
    ensures err == None
    ensures forall i :: 0 <= i < |nodes| ==> nodes[i].accountGroups == ChildrenOf(neighbors, "account_id", ids, i)
  {
    for m := 0 to |neighbors|
      invariant forall i :: 0 <= i < |nodes| ==>
        nodes[i].accountGroups == ChildrenOf(neighbors[..m], "account_id", ids, i)
    {
      var e := neighbors[m];
      var fk := Field(e, "account_id");
      assert e in neighbors;
      ghost var last := ChildGoesToLast(neighbors, "account_id", ids, m);
      ByIDLast(nodes, ids, |ids|, last);
      if fk !in nodeids {
        return Some(UnexpectedForeignKey("account_id", fk));
      }
      var node := nodeids[fk];
      node.accountGroups := node.accountGroups + [e];
    }
    assert neighbors[..|neighbors|] == neighbors;
    return None;
  }

  method LoadAccountGroups(query: EdgeQuery, nodes: seq<Account>, db: Database, ghost ids: seq<int>)
    returns (err: Option<LoadError>)
    requires Distinct(nodes) && HaveIDs(nodes, ids)
    modifies query, (set n | n in nodes)`accountGroups
    ensures err == QueryFails(query.view, AskedMemberships, db)
    ensures query.view == ChildView(old(query.view), ids)
    ensures err == None ==> forall i :: 0 <= i < |nodes| ==>
      nodes[i].accountGroups == ChildrenOf(Run(query.view, None, db.accountGroups), "account_id", ids, i)
  {
    var fks, nodeids := IndexAccountGroups(nodes, ids);
    if |query.view.fields| > 0 {
      query.view := AppendFieldOnce(query.view, "account_id");
    }
    query.view := Where(query.view, ColumnIn("account_id", fks));
    err := Execute(query.view, AskedMemberships, db);
    if err != None {
      return;
    }
    ChildrenHaveParents(old(query.view), None, ids, db.accountGroups);
    err := ScatterAccountGroups(nodes, ids, nodeids, Run(query.view, None, db.accountGroups));
  }

  // ----- many to one -----

  /** The distinct keys of the first n nodes, in the order they first occur. */
  function Keys(fks: seq<Option<int>>, n: nat): seq<int>
    requires n <= |fks|
  {
    if n == 0 then []
    else
      var before := Keys(fks, n - 1);
      if fks[n - 1].None? || fks[n - 1].value in before then before else before + [fks[n - 1].value]
  }

  lemma {:induction false} KeysCorrect(fks: seq<Option<int>>, n: nat)
    requires n <= |fks|
    ensures Distinct(Keys(fks, n))
    ensures forall k :: k in Keys(fks, n) <==> Some(k) in fks[..n]
  {
    if n > 0 {
      KeysCorrect(fks, n - 1);
      assert fks[..n] == fks[..n - 1] + [fks[n - 1]];
    }
  }

  /** The nodes with each key, in order. */
  function ByKey<T>(nodes: seq<T>, fks: seq<Option<int>>, n: nat): map<int, seq<T>>
    requires n <= |fks| == |nodes|
  {
    if n == 0 then map[]
    else
      var before := ByKey(nodes, fks, n - 1);
      if fks[n - 1].None? then before
      else
        var k := fks[n - 1].value;
        before[k := (if k in before then before[k] else []) + [nodes[n - 1]]]
  }

  lemma {:induction false} ByKeyKeys<T>(nodes: seq<T>, fks: seq<Option<int>>, n: nat)
    requires n <= |fks| == |nodes|
    ensures forall k :: k in ByKey(nodes, fks, n) <==> k in Keys(fks, n)
  {
    if n > 0 {
      ByKeyKeys(nodes, fks, n - 1);
    }
  }

  lemma {:induction false} ByKeyOwners<T>(nodes: seq<T>, fks: seq<Option<int>>, n: nat, k: int, i: nat)
    requires i < |nodes| == |fks| && n <= |fks| && Distinct(nodes) && k in ByKey(nodes, fks, n)
    ensures nodes[i] in ByKey(nodes, fks, n)[k] <==> i < n && fks[i] == Some(k)
  {
    if n > 0 {
      if k in ByKey(nodes, fks, n - 1) {
        ByKeyOwners(nodes, fks, n - 1, k, i);
      } else {
        ByKeyKeys(nodes, fks, n - 1);
        KeysCorrect(fks, n - 1);
        assert i < n - 1 ==> fks[..n - 1][i] == fks[i];
      }
    }
  }

  /** The neighbour a key leads to: the last one returned with that id. */
  function Referenced(neighbors: seq<Entity>, k: Option<int>): Option<Entity> {
    if neighbors == [] || k.None? then None
    else if Field(neighbors[|neighbors| - 1], "id") == k.value then Some(neighbors[|neighbors| - 1])
    else Referenced(neighbors[..|neighbors| - 1], k)
  }

  /** The query a many-to-one load executes; without keys it executes none. */
  function ParentView(v: View, fks: seq<Option<int>>): View {
    if Keys(fks, |fks|) == [] then v else Where(v, ColumnIn("id", Keys(fks, |fks|)))
  }

  function ParentsFound(v: View, fks: seq<Option<int>>, table: seq<Row>): seq<Entity> {
    if Keys(fks, |fks|) == [] then [] else Run(ParentView(v, fks), Some("id"), table)
  }

  /** Every returned parent was asked for: the id is always selected. */
  lemma ParentWasAsked(v: View, fks: seq<Option<int>>, table: seq<Row>, e: Entity)
    requires e in ParentsFound(v, fks, table)
    ensures Field(e, "id") in Keys(fks, |fks|)
  {
    var q := ParentView(v, fks);
    var cols := ColumnsOf(q, Some("id"));
    var k :| 0 <= k < |Run(q, Some("id"), table)| && Run(q, Some("id"), table)[k] == e;
    var r := Select(q, table)[k];
    SelectedRow(q, table, r);
    HoldsWhere(v, ColumnIn("id", Keys(fks, |fks|)), r);
    if q.fields != [] {
      ColumnsSuffice(q.fields, Some("id"), []);
    }
    FieldOfProjection(cols, r, "id");
  }

  lemma ReferencedStep(neighbors: seq<Entity>, m: nat, k: Option<int>)
    requires m < |neighbors|
    ensures Referenced(neighbors[..m + 1], k) ==
            if k == Some(Field(neighbors[m], "id")) then Some(neighbors[m]) else Referenced(neighbors[..m], k)
  {
    assert neighbors[..m + 1][..m] == neighbors[..m] && neighbors[..m + 1][m] == neighbors[m];
  }

  lemma {:induction false} OwnersAreNodes<T>(nodes: seq<T>, fks: seq<Option<int>>, n: nat, k: int)
    requires n <= |fks| == |nodes| && k in ByKey(nodes, fks, n)
    ensures forall x :: x in ByKey(nodes, fks, n)[k] ==> x in nodes
  {
    if k in ByKey(nodes, fks, n - 1) {
      OwnersAreNodes(nodes, fks, n - 1, k);
    }
  }

  method GroupProxy(nodes: seq<Account>, ghost fks: seq<Option<int>>)
    returns (ids: seq<int>, nodeids: map<int, seq<Account>>)
    requires |fks| == |nodes| && forall i :: 0 <= i < |nodes| ==> nodes[i].fields.proxyID == fks[i]
    ensures ids == Keys(fks, |fks|) && nodeids == ByKey(nodes, fks, |fks|)
  {
    ids, nodeids := [], map[];
    for i := 0 to |nodes|
      invariant ids == Keys(fks, i) && nodeids == ByKey(nodes, fks, i)
    {
      ByKeyKeys(nodes, fks, i);
      if nodes[i].fields.proxyID == None {
        continue;
      }
      var fk := nodes[i].fields.proxyID.value;
      if fk !in nodeids {
        ids := ids + [fk];
      }
      nodeids := nodeids[fk := (if fk in nodeids then nodeids[fk] else []) + [nodes[i]]];
    }
  }

  method AssignProxy(owners: seq<Account>, e: Entity)
    modifies (set n | n in owners)`proxy
    ensures forall n :: n in owners ==> n.proxy == Some(e)
  {
    for l := 0 to |owners|
      invariant forall n :: n in owners[..l] ==> n.proxy == Some(e)
    {
      owners[l].proxy := Some(e);
      assert owners[..l + 1] == owners[..l] + [owners[l]];
    }
    assert owners[..|owners|] == owners;
  }

  method ScatterProxy(nodes: seq<Account>, ghost fks: seq<Option<int>>, nodeids: map<int, seq<Account>>,
                      neighbors: seq<Entity>)
    returns (err: Option<LoadError>)
    requires Distinct(nodes) && |fks| == |nodes| && nodeids == ByKey(nodes, fks, |fks|)
    requires forall i :: 0 <= i < |nodes| ==> nodes[i].proxy == None
    requires forall e :: e in neighbors ==> Field(e, "id") in Keys(fks, |fks|)
    modifies (set n | n in nodes)`proxy
    ensures err == None
    ensures forall i :: 0 <= i < |nodes| ==> nodes[i].proxy == Referenced(neighbors, fks[i])
  {
    ByKeyKeys(nodes, fks, |fks|);
    for m := 0 to |neighbors|
      invariant forall i :: 0 <= i < |nodes| ==> nodes[i].proxy == Referenced(neighbors[..m], fks[i])
    {
      var e := neighbors[m];
      assert e in neighbors;
      var id := Field(e, "id");
      if id !in nodeids {
        return Some(UnexpectedForeignKey("proxy_id", id));
      }
      var owners := nodeids[id];
      forall i: nat | i < |nodes| ensures nodes[i] in owners <==> fks[i] == Some(id) {
        ByKeyOwners(nodes, fks, |fks|, id, i);
      }
      OwnersAreNodes(nodes, fks, |fks|, id);
      forall i: nat | i < |nodes| { ReferencedStep(neighbors, m, fks[i]); }
      AssignProxy(owners, e);
    }
    assert neighbors[..|neighbors|] == neighbors;
    return None;
  }

  method LoadProxy(query: EdgeQuery, nodes: seq<Account>, db: Database, ghost fks: seq<Option<int>>)
    returns (err: Option<LoadError>)
    requires Distinct(nodes) && |fks| == |nodes|
    requires forall i :: 0 <= i < |nodes| ==> nodes[i].fields.proxyID == fks[i] && nodes[i].proxy == None
    modifies query, (set n | n in nodes)`proxy
    ensures err == if Keys(fks, |fks|) == [] then None else QueryFails(query.view, AskedProxies, db)
    ensures query.view == ParentView(old(query.view), fks)
    ensures err == None ==> forall i :: 0 <= i < |nodes| ==>
      nodes[i].proxy == Referenced(ParentsFound(old(query.view), fks, db.proxies), fks[i])
  {
    var ids, nodeids := GroupProxy(nodes, fks);
    if |ids| == 0 {
      return None;
    }
    forall e | e in ParentsFound(query.view, fks, db.proxies) { ParentWasAsked(query.view, fks, db.proxies, e); }
    query.view := Where(query.view, ColumnIn("id", ids));
    err := Execute(query.view, AskedProxies, db);
    if err != None {
      return;
    }
    err := ScatterProxy(nodes, fks, nodeids, Run(query.view, Some("id"), db.proxies));
  }

  /** An entity with a composite key: both foreign keys are required. */
  class AccountGroup {
    const accountID: int
    const groupID: int
    var account: Option<Entity>

    constructor (accountID: int, groupID: int)
      ensures this.accountID == accountID && this.groupID == groupID && account == None
    {
      this.accountID, this.groupID, account := accountID, groupID, None;
    }
  }

  method GroupAccount(nodes: seq<AccountGroup>, ghost fks: seq<Option<int>>)
    returns (ids: seq<int>, nodeids: map<int, seq<AccountGroup>>)
    requires |fks| == |nodes| && forall i :: 0 <= i < |nodes| ==> Some(nodes[i].accountID) == fks[i]
    ensures ids == Keys(fks, |fks|) && nodeids == ByKey(nodes, fks, |fks|)
  {
    ids, nodeids := [], map[];
    for i := 0 to |nodes|
      invariant ids == Keys(fks, i) && nodeids == ByKey(nodes, fks, i)
    {
      ByKeyKeys(nodes, fks, i);
      var fk := nodes[i].accountID;
      if fk !in nodeids {
        ids := ids + [fk];
      }
      nodeids := nodeids[fk := (if fk in nodeids then nodeids[fk] else []) + [nodes[i]]];
    }
  }

  method AssignAccount(owners: seq<AccountGroup>, e: Entity)
    modifies (set n | n in owners)`account
    ensures forall n :: n in owners ==> n.account == Some(e)
  {
    for l := 0 to |owners|
      invariant forall n :: n in owners[..l] ==> n.account == Some(e)
    {
      owners[l].account := Some(e);
      assert owners[..l + 1] == owners[..l] + [owners[l]];
    }
    assert owners[..|owners|] == owners;
  }

  method ScatterAccount(nodes: seq<AccountGroup>, ghost fks: seq<Option<int>>, nodeids: map<int, seq<AccountGroup>>,
                        neighbors: seq<Entity>)
    returns (err: Option<LoadError>)
    requires Distinct(nodes) && |fks| == |nodes| && nodeids == ByKey(nodes, fks, |fks|)
    requires forall i :: 0 <= i < |nodes| ==> nodes[i].account == None
    requires forall e :: e in neighbors ==> Field(e, "id") in Keys(fks, |fks|)
    modifies (set n | n in nodes)`account
    ensures err == None
    ensures forall i :: 0 <= i < |nodes| ==> nodes[i].account == Referenced(neighbors, fks[i])
  {
    ByKeyKeys(nodes, fks, |fks|);
    for m := 0 to |neighbors|
      invariant forall i :: 0 <= i < |nodes| ==> nodes[i].account == Referenced(neighbors[..m], fks[i])
    {
      var e := neighbors[m];
      assert e in neighbors;
      var id := Field(e, "id");
      if id !in nodeids {
        return Some(UnexpectedForeignKey("account_id", id));
      }
      var owners := nodeids[id];
      forall i: nat | i < |nodes| ensures nodes[i] in owners <==> fks[i] == Some(id) {
        ByKeyOwners(nodes, fks, |fks|, id, i);
      }
      OwnersAreNodes(nodes, fks, |fks|, id);
      forall i: nat | i < |nodes| { ReferencedStep(neighbors, m, fks[i]); }
      AssignAccount(owners, e);
    }
    assert neighbors[..|neighbors|] == neighbors;
    return None;
  }

  method LoadAccount(query: EdgeQuery, nodes: seq<AccountGroup>, table: seq<Row>, db: Database,
                     ghost fks: seq<Option<int>>) returns (err: Option<LoadError>)
    requires Distinct(nodes) && |fks| == |nodes|
    requires forall i :: 0 <= i < |nodes| ==> Some(nodes[i].accountID) == fks[i] && nodes[i].account == None
    modifies query, (set n | n in nodes)`account
    ensures err == if Keys(fks, |fks|) == [] then None else QueryFails(query.view, AskedAccounts, db)
    ensures query.view == ParentView(old(query.view), fks)
    ensures err == None ==> forall i :: 0 <= i < |nodes| ==>
      nodes[i].account == Referenced(ParentsFound(old(query.view), fks, table), fks[i])
  {
    var ids, nodeids := GroupAccount(nodes, fks);
    if |ids| == 0 {
      return None;
    }
    forall e | e in ParentsFound(query.view, fks, table) { ParentWasAsked(query.view, fks, table, e); }
    query.view := Where(query.view, ColumnIn("id", ids));
    err := Execute(query.view, AskedAccounts, db);
    if err != None {
      return;
    }
    err := ScatterAccount(nodes, fks, nodeids, Run(query.view, Some("id"), table));
  }
}
