/** What a list of builder calls makes of a query, setting by setting
    (backend/ent/account_query.go, Where, Limit, Offset, Unique, Order, Select, GroupBy, With and locks). */
module QueryCalls {
  import opened Wrappers
  import opened QueryClone

  // ----- settings that accumulate -----

  function AllWhere(calls: seq<Call>): seq<Code> {
    if calls == [] then [] else (if calls[0].Where? then calls[0].ps else []) + AllWhere(calls[1..])
  }

  function AllOrder(calls: seq<Call>): seq<Code> {
    if calls == [] then [] else (if calls[0].Order? then calls[0].os else []) + AllOrder(calls[1..])
  }

  function AllLocks(calls: seq<Call>): seq<Code> {
    if calls == [] then [] else (if calls[0].Lock? then [calls[0].modifier] else []) + AllLocks(calls[1..])
  }

  function AllSelect(calls: seq<Call>): seq<string> {
    if calls == [] then [] else (if calls[0].Select? then calls[0].fields else []) + AllSelect(calls[1..])
  }

  /** The first call, then the rest. */
  lemma OneCall(m: Model, calls: seq<Call>)
    requires calls != []
    ensures Applied(m, calls) == Applied(After(m, calls[0]), calls[1..])
  {
  }

  lemma {:induction false} ConditionsAre(m: Model, calls: seq<Call>)
    ensures Applied(m, calls).predicates == m.predicates + AllWhere(calls)
    decreases |calls|
  {
    if calls != [] {
      OneCall(m, calls);
      ConditionsAre(After(m, calls[0]), calls[1..]);
    }
  }

  lemma {:induction false} OrderingsAre(m: Model, calls: seq<Call>)
    ensures Applied(m, calls).order == m.order + AllOrder(calls)
    decreases |calls|
  {
    if calls != [] {
      OneCall(m, calls);
      OrderingsAre(After(m, calls[0]), calls[1..]);
    }
  }

  lemma {:induction false} LocksAre(m: Model, calls: seq<Call>)
    ensures Applied(m, calls).modifiers == m.modifiers + AllLocks(calls)
    decreases |calls|
  {
    if calls != [] {
      OneCall(m, calls);
      LocksAre(After(m, calls[0]), calls[1..]);
    }
  }

  /** After any calls the conditions, orderings and locks are those there were, followed by all that the
      calls gave, in their order. */
  lemma SettingsAccumulate(m: Model, calls: seq<Call>)
    ensures Applied(m, calls).predicates == m.predicates + AllWhere(calls)
    ensures Applied(m, calls).order == m.order + AllOrder(calls)
    ensures Applied(m, calls).modifiers == m.modifiers + AllLocks(calls)
  {
    ConditionsAre(m, calls);
    OrderingsAre(m, calls);
    LocksAre(m, calls);
  }

  // ----- settings that the last call decides -----

  /** No call changes the dialect, the interceptors or where the query starts from. */
  lemma {:induction false} OriginKept(m: Model, calls: seq<Call>)
    ensures var r := Applied(m, calls);
            r.postgres == m.postgres && r.inters == m.inters && r.sql == m.sql && r.path == m.path
    decreases |calls|
  {
    if calls != [] {
      OneCall(m, calls);
      OriginKept(After(m, calls[0]), calls[1..]);
    }
  }

  /** The i-th call is the last that satisfies p. */
  ghost predicate IsLast(calls: seq<Call>, p: Call -> bool, i: int) {
    0 <= i < |calls| && p(calls[i]) && forall j :: i < j < |calls| ==> !p(calls[j])
  }

  ghost predicate HasNone(calls: seq<Call>, p: Call -> bool) {
    forall i :: 0 <= i < |calls| ==> !p(calls[i])
  }

  lemma LastStep(calls: seq<Call>, p: Call -> bool)
    requires calls != []
    ensures var n := |calls| - 1;
            if p(calls[n]) then !HasNone(calls, p) && forall i :: IsLast(calls, p, i) <==> i == n
            else (HasNone(calls, p) <==> HasNone(calls[..n], p)) &&
                 forall i :: IsLast(calls, p, i) <==> IsLast(calls[..n], p, i)
  {
    var n := |calls| - 1;
    assert forall i :: 0 <= i < n ==> calls[..n][i] == calls[i];
    assert calls[n] in calls;
  }

  lemma {:induction false} AppliedLast(m: Model, calls: seq<Call>)
    requires calls != []
    ensures var n := |calls| - 1; Applied(m, calls) == After(Applied(m, calls[..n]), calls[n])
    decreases |calls|
  {
    var n := |calls| - 1;
    OneCall(m, calls);
    if n > 0 {
      AppliedLast(After(m, calls[0]), calls[1..]);
      assert calls[1..][..n - 1] == calls[..n][1..];
      OneCall(m, calls[..n]);
    }
  }

  function IsLimit(): Call -> bool {
    (c: Call) => c.Limit?
  }

  function IsOffset(): Call -> bool {
    (c: Call) => c.Offset?
  }

  /** On Postgres a lock turns unique off. */
  function SetsUnique(postgres: bool): Call -> bool {
    (c: Call) => c.Unique? || (postgres && c.Lock?)
  }

  function IsGroupBy(): Call -> bool {
    (c: Call) => c.GroupBy?
  }

  function IsWith(edge: string): Call -> bool {
    (c: Call) => c.With? && c.edge == edge
  }

  lemma {:induction false} LimitIs(m: Model, calls: seq<Call>)
    ensures forall i :: IsLast(calls, IsLimit(), i) ==> Applied(m, calls).limit == Some(calls[i].limit)
    ensures HasNone(calls, IsLimit()) ==> Applied(m, calls).limit == m.limit
    decreases |calls|
  {
    if calls != [] {
      AppliedLast(m, calls);
      LimitIs(m, calls[..|calls| - 1]);
      LastStep(calls, IsLimit());
    }
  }

  lemma {:induction false} OffsetIs(m: Model, calls: seq<Call>)
    ensures forall i :: IsLast(calls, IsOffset(), i) ==> Applied(m, calls).offset == Some(calls[i].offset)
    ensures HasNone(calls, IsOffset()) ==> Applied(m, calls).offset == m.offset
    decreases |calls|
  {
    if calls != [] {
      AppliedLast(m, calls);
      OffsetIs(m, calls[..|calls| - 1]);
      LastStep(calls, IsOffset());
    }
  }

  lemma {:induction false} UniqueIs(m: Model, calls: seq<Call>)
    ensures forall i :: IsLast(calls, SetsUnique(m.postgres), i) ==>
              Applied(m, calls).unique == Some(calls[i].Unique? && calls[i].unique)
    ensures HasNone(calls, SetsUnique(m.postgres)) ==> Applied(m, calls).unique == m.unique
    decreases |calls|
  {
    if calls != [] {
      var n := |calls| - 1;
      assert Applied(m, calls).unique ==
             if SetsUnique(m.postgres)(calls[n]) then Some(calls[n].Unique? && calls[n].unique)
             else Applied(m, calls[..n]).unique by {
        AppliedLast(m, calls);
        OriginKept(m, calls[..n]);
      }
      UniqueIs(m, calls[..n]);
      LastStep(calls, SetsUnique(m.postgres));
    }
  }

  /** The limit, the offset and the unique setting are those of the last call that sets them, if any. */
  lemma SettingsReplaced(m: Model, calls: seq<Call>)
    ensures forall i :: IsLast(calls, IsLimit(), i) ==> Applied(m, calls).limit == Some(calls[i].limit)
    ensures HasNone(calls, IsLimit()) ==> Applied(m, calls).limit == m.limit
    ensures forall i :: IsLast(calls, IsOffset(), i) ==> Applied(m, calls).offset == Some(calls[i].offset)
    ensures HasNone(calls, IsOffset()) ==> Applied(m, calls).offset == m.offset
    ensures forall i :: IsLast(calls, SetsUnique(m.postgres), i) ==>
              Applied(m, calls).unique == Some(calls[i].Unique? && calls[i].unique)
    ensures HasNone(calls, SetsUnique(m.postgres)) ==> Applied(m, calls).unique == m.unique
  {
    LimitIs(m, calls);
    OffsetIs(m, calls);
    UniqueIs(m, calls);
  }

  lemma {:induction false} FieldsSelected(m: Model, calls: seq<Call>)
    requires HasNone(calls, IsGroupBy())
    ensures Applied(m, calls).fields == m.fields + AllSelect(calls)
    decreases |calls|
  {
    if calls != [] {
      var first, rest := if calls[0].Select? then calls[0].fields else [], AllSelect(calls[1..]);
      assert After(m, calls[0]).fields == m.fields + first by {
        assert !IsGroupBy()(calls[0]);
      }
      OneCall(m, calls);
      FieldsSelected(After(m, calls[0]), calls[1..]);
      assert m.fields + first + rest == m.fields + (first + rest);
    }
  }

  lemma {:induction false} AppliedAppend(m: Model, a: seq<Call>, b: seq<Call>)
    ensures Applied(m, a + b) == Applied(Applied(m, a), b)
    decreases |a|
  {
    if a == [] {
      assert a + b == b;
    } else {
      assert (a + b)[0] == a[0] && (a + b)[1..] == a[1..] + b;
      OneCall(m, a + b);
      OneCall(m, a);
      AppliedAppend(After(m, a[0]), a[1..], b);
    }
  }

  /** The i-th call on the query as the calls before it left it, then the rest. */
  lemma AppliedAt(m: Model, calls: seq<Call>, i: nat)
    requires i < |calls|
    ensures Applied(m, calls) == Applied(After(Applied(m, calls[..i]), calls[i]), calls[i + 1..])
  {
    assert calls == calls[..i] + calls[i..] && calls[i..][1..] == calls[i + 1..];
    AppliedAppend(m, calls[..i], calls[i..]);
    OneCall(Applied(m, calls[..i]), calls[i..]);
  }

  /** The selected fields are those of the last GroupBy, or those there were, and then those of every later
      Select. */
  lemma FieldsAre(m: Model, calls: seq<Call>)
    ensures forall i :: IsLast(calls, IsGroupBy(), i) ==>
              Applied(m, calls).fields == [calls[i].field] + calls[i].fields + AllSelect(calls[i + 1..])
    ensures HasNone(calls, IsGroupBy()) ==> Applied(m, calls).fields == m.fields + AllSelect(calls)
  {
    forall i | IsLast(calls, IsGroupBy(), i)
      ensures Applied(m, calls).fields == [calls[i].field] + calls[i].fields + AllSelect(calls[i + 1..])
    {
      AppliedAt(m, calls, i);
      FieldsSelected(After(Applied(m, calls[..i]), calls[i]), calls[i + 1..]);
    }
    if HasNone(calls, IsGroupBy()) {
      FieldsSelected(m, calls);
    }
  }

  lemma {:induction false} EdgeUntouched(m: Model, calls: seq<Call>, edge: string)
    requires HasNone(calls, IsWith(edge))
    ensures edge in Applied(m, calls).edges <==> edge in m.edges
    ensures edge in m.edges ==> Applied(m, calls).edges[edge] == m.edges[edge]
    decreases |calls|
  {
    if calls != [] {
      assert !IsWith(edge)(calls[0]);
      OneCall(m, calls);
      EdgeUntouched(After(m, calls[0]), calls[1..], edge);
    }
  }

  /** What a new query of the client is. */
  function Fresh(postgres: bool, inters: seq<Code>): Model {
    Model(postgres, [], None, None, None, [], inters, [], map[], [], None, None)
  }

  lemma EdgeBuilt(m: Model, calls: seq<Call>, edge: string, i: int)
    requires IsLast(calls, IsWith(edge), i)
    ensures edge in Applied(m, calls).edges
    ensures Applied(m, calls).edges[edge] == Applied(Fresh(m.postgres, calls[i].inters), calls[i].opts)
  {
    var before := Applied(m, calls[..i]);
    AppliedAt(m, calls, i);
    OriginKept(m, calls[..i]);
    EdgeUntouched(After(before, calls[i]), calls[i + 1..], edge);
  }

  /** An edge is what the last With for it built from a new query by its own options, or what it was. */
  lemma EdgesAre(m: Model, calls: seq<Call>, edge: string)
    ensures forall i :: IsLast(calls, IsWith(edge), i) ==>
              edge in Applied(m, calls).edges &&
              Applied(m, calls).edges[edge] == Applied(Fresh(m.postgres, calls[i].inters), calls[i].opts)
    ensures HasNone(calls, IsWith(edge)) ==>
              (edge in Applied(m, calls).edges <==> edge in m.edges) &&
              (edge in m.edges ==> Applied(m, calls).edges[edge] == m.edges[edge])
  {
    forall i | IsLast(calls, IsWith(edge), i) { EdgeBuilt(m, calls, edge, i); }
    if HasNone(calls, IsWith(edge)) {
      EdgeUntouched(m, calls, edge);
    }
  }

  // ----- what a clone is -----

  /** The same query but for the modifiers, at every level. */
  predicate SameButModifiers(a: Model, b: Model) {
    a.postgres == b.postgres && a.fields == b.fields && a.limit == b.limit && a.offset == b.offset &&
    a.unique == b.unique && a.order == b.order && a.inters == b.inters && a.predicates == b.predicates &&
    a.sql == b.sql && a.path == b.path && a.edges.Keys == b.edges.Keys &&
    forall e :: e in a.edges && e in b.edges ==> SameButModifiers(a.edges[e], b.edges[e])
  }

  /** The clone is the one query that is the same but for the modifiers and has none. */
  lemma {:induction false} CloneOnlyDropsModifiers(m: Model, c: Model)
    ensures c == Cloned(m) <==> SameButModifiers(m, c) && NoModifiers(c)
    decreases m
  {
    forall e | e in m.edges && e in c.edges { CloneOnlyDropsModifiers(m.edges[e], c.edges[e]); }
    forall e | e in m.edges { CloneOnlyDropsModifiers(m.edges[e], Cloned(m.edges[e])); }
    if SameButModifiers(m, c) && NoModifiers(c) {
      assert c.edges == Cloned(m).edges;
    }
  }
}
