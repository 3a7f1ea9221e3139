/** Conflict options of an upsert: a list built by typed calls, folded into one update per
    column when the statement is executed (backend/ent/account_create.go, AccountUpsertOne and
    AccountUpsertBulk; backend/ent/authfederatedidentity_create.go for two protected columns). */
module Upsert {
  import opened Wrappers

  /** What a column of the existing row becomes on conflict. */
  datatype Assign<V> = Proposed | Existing | Literal(value: V) | Null | Plus(value: V)

  /** One `sql.ConflictOption`. `KeepIfSet` is the closure of UpdateNewValues: executed late, it
      keeps each of its columns that some builder's mutation has set. */
  datatype Conflict<C, V> =
    | ConflictColumns(columns: seq<C>)
    | NewValues
    | IgnoreAll
    | DoNothing
    | KeepIfSet(columns: seq<C>)
    | Sets(sets: seq<(C, Assign<V>)>)

  /** Columns each builder's mutation has set when the statement runs. */
  type Present<C> = seq<set<C>>

  predicate SetBySome<C(==)>(present: Present<C>, c: C) {
    exists i :: 0 <= i < |present| && c in present[i]
  }

  // ----- the update of one column, read off the option list -----

  /** The last entry for a column: the update set overrides earlier ones. */
  function LastSet<C(==, !new), V>(sets: seq<(C, Assign<V>)>, c: C): Option<Assign<V>> {
    if sets == [] then None
    else if sets[|sets| - 1].0 == c then Some(sets[|sets| - 1].1)
    else LastSet(sets[..|sets| - 1], c)
  }

  /** What one option writes to a column. `inserted` are the columns of the INSERT. */
  function Writes<C(==, !new), V>(o: Conflict<C, V>, inserted: seq<C>, present: Present<C>, c: C): Option<Assign<V>> {
    match o
    case NewValues => if c in inserted then Some(Proposed) else None
    case IgnoreAll => if c in inserted then Some(Existing) else None
    case KeepIfSet(cs) => if c in cs && SetBySome(present, c) then Some(Existing) else None
    case Sets(sets) => LastSet(sets, c)
    case _ => None
  }

  function LastWrite<C(==, !new), V>(os: seq<Conflict<C, V>>, inserted: seq<C>, present: Present<C>,
                       c: C): Option<Assign<V>> {
    if os == [] then None
    else
      var last := Writes(os[|os| - 1], inserted, present, c);
      if last.Some? then last else LastWrite(os[..|os| - 1], inserted, present, c)
  }

  ghost predicate IsUpdate<C(!new), V>(u: map<C, Assign<V>>, os: seq<Conflict<C, V>>, inserted: seq<C>,
                             present: Present<C>) {
    forall c :: LastWrite(os, inserted, present, c) == if c in u then Some(u[c]) else None
  }

  // ----- the loops that run when the statement is executed -----

  method SetEach<C(==, !new), V>(u: map<C, Assign<V>>, columns: seq<C>, a: Assign<V>) returns (u': map<C, Assign<V>>)
    ensures forall c :: c in u' <==> c in u || c in columns
    ensures forall c :: c in u' ==> u'[c] == if c in columns then a else u[c]
  {
    u' := u;
    for i := 0 to |columns|
      invariant forall c :: c in u' <==> c in u || c in columns[..i]
      invariant forall c :: c in u' ==> u'[c] == if c in columns[..i] then a else u[c]
    {
      u' := u'[columns[i] := a];
      assert columns[..i + 1] == columns[..i] + [columns[i]];
    }
    assert columns[..|columns|] == columns;
  }

  /** For every builder, for every protected column its mutation has set. */
  method KeepPresent<C(==, !new), V>(u: map<C, Assign<V>>, columns: seq<C>, present: Present<C>)
    returns (u': map<C, Assign<V>>)
    ensures forall c :: c in u' <==> c in u || (c in columns && SetBySome(present, c))
    ensures forall c :: c in u' ==> u'[c] == if c in columns && SetBySome(present, c) then Existing else u[c]
  {
    u' := u;
    for b := 0 to |present|
      invariant forall c :: c in u' <==> c in u || (c in columns && SetBySome(present[..b], c))
      invariant forall c :: c in u' ==> u'[c] == if c in columns && SetBySome(present[..b], c) then Existing else u[c]
    {
      ghost var before := u';
      for i := 0 to |columns|
        invariant forall c :: c in u' <==> c in before || (c in columns[..i] && c in present[b])
        invariant forall c :: c in u' ==> u'[c] == if c in columns[..i] && c in present[b] then Existing else before[c]
      {
        if columns[i] in present[b] {
          u' := u'[columns[i] := Existing];
        }
        assert columns[..i + 1] == columns[..i] + [columns[i]];
      }
      assert columns[..|columns|] == columns;
      forall c ensures SetBySome(present[..b + 1], c) <==> SetBySome(present[..b], c) || c in present[b] {
        if c in present[b] {
          assert c in present[..b + 1][b];
        }
        if SetBySome(present[..b], c) {
          var i :| 0 <= i < b && c in present[..b][i];
          assert c in present[..b + 1][i];
        }
      }
    }
    assert present[..|present|] == present;
  }

  method ApplySets<C(==, !new), V>(u: map<C, Assign<V>>, sets: seq<(C, Assign<V>)>) returns (u': map<C, Assign<V>>)
    ensures forall c :: c in u' <==> c in u || LastSet(sets, c).Some?
    ensures forall c :: c in u' ==> u'[c] == LastSet(sets, c).GetOr(if c in u then u[c] else Existing)
  {
    u' := u;
    for i := 0 to |sets|
      invariant forall c :: c in u' <==> c in u || LastSet(sets[..i], c).Some?
      invariant forall c :: c in u' ==> u'[c] == LastSet(sets[..i], c).GetOr(if c in u then u[c] else Existing)
    {
      assert sets[..i + 1][..i] == sets[..i] && sets[..i + 1][i] == sets[i];
      u' := u'[sets[i].0 := sets[i].1];
    }
    assert sets[..|sets|] == sets;
  }

  /** All options from left to right, later ones overriding earlier ones. */
  method Resolve<C(==, !new), V>(os: seq<Conflict<C, V>>, inserted: seq<C>, present: Present<C>)
    returns (u: map<C, Assign<V>>)
    ensures IsUpdate(u, os, inserted, present)
  {
    u := map[];
    for i := 0 to |os|
      invariant IsUpdate(u, os[..i], inserted, present)
    {
      assert os[..i + 1][..i] == os[..i] && os[..i + 1][i] == os[i];
      match os[i] {
        case NewValues => u := SetEach(u, inserted, Proposed);
        case IgnoreAll => u := SetEach(u, inserted, Existing);
        case KeepIfSet(columns) => u := KeepPresent(u, columns, present);
        case Sets(sets) => u := ApplySets(u, sets);
        case DoNothing =>
        case ConflictColumns(_) =>
      }
    }
    assert os[..|os|] == os;
  }

  // ----- building the list -----

  ghost predicate TypedAt<C(!new), V(!new)>(os: seq<Conflict<C, V>>, protected: seq<C>, i: nat)
    requires i < |os|
  {
    (os[i].NewValues? ==> i + 1 < |os| && os[i + 1] == KeepIfSet(protected)) &&
    (os[i].Sets? ==> forall j :: 0 <= j < |os[i].sets| ==> os[i].sets[j].0 !in protected)
  }

  /** What the typed calls produce: each NewValues is followed by the closure that protects, and
      no setter names a protected column. */
  ghost predicate Typed<C(!new), V(!new)>(os: seq<Conflict<C, V>>, protected: seq<C>) {
    forall i: nat :: i < |os| ==> TypedAt(os, protected, i)
  }

  lemma TypedAppend<C(!new), V(!new)>(os: seq<Conflict<C, V>>, more: seq<Conflict<C, V>>, protected: seq<C>)
    requires Typed(os, protected) && Typed(more, protected)
    ensures Typed(os + more, protected)
  {
    forall i: nat | i < |os + more| ensures TypedAt(os + more, protected, i) {
      assert if i < |os| then TypedAt(os, protected, i) else TypedAt(more, protected, i - |os|);
    }
  }

  class Builder<C(==, !new), V(!new)> {
    /** The columns UpdateNewValues shields: created_at, and the id where callers supply it. */
    const protected: seq<C>
    var conflict: seq<Conflict<C, V>>

    constructor OnConflictColumns(protected: seq<C>, columns: seq<C>)
      ensures this.protected == protected
      ensures Typed(conflict, protected) && conflict == [ConflictColumns(columns)]
    {
      this.protected := protected;
      conflict := [ConflictColumns(columns)];
    }

    method UpdateNewValues()
      requires Typed(conflict, protected)
      modifies this
      ensures Typed(conflict, protected) && conflict == old(conflict) + [NewValues, KeepIfSet(protected)]
    {
      TypedAppend(conflict, [NewValues, KeepIfSet(protected)], protected);
      conflict := conflict + [NewValues];
      conflict := conflict + [KeepIfSet(protected)];
      assert conflict == old(conflict) + [NewValues, KeepIfSet(protected)];
    }

    method Ignore()
      requires Typed(conflict, protected)
      modifies this
      ensures Typed(conflict, protected) && conflict == old(conflict) + [IgnoreAll]
    {
      TypedAppend(conflict, [IgnoreAll], protected);
      conflict := conflict + [IgnoreAll];
    }

    method DoNothingOnConflict()
      requires Typed(conflict, protected)
      modifies this
      ensures Typed(conflict, protected) && conflict == old(conflict) + [DoNothing]
    {
      TypedAppend(conflict, [DoNothing], protected);
      conflict := conflict + [DoNothing];
    }

    /** A setter exists for every column but the protected ones. */
    method Update(sets: seq<(C, Assign<V>)>)
      requires Typed(conflict, protected)
      requires forall j :: 0 <= j < |sets| ==> sets[j].0 !in protected
      modifies this
      ensures Typed(conflict, protected) && conflict == old(conflict) + [Sets(sets)]
    {
      TypedAppend(conflict, [Sets(sets)], protected);
      conflict := conflict + [Sets(sets)];
    }
  }

  // ----- what happens to a conflicting row -----

  /** The row after the conflict; `add` is the database's addition. */
  function Updated<C(==, !new), V>(os: seq<Conflict<C, V>>, inserted: seq<C>, present: Present<C>,
                             existing: C -> V, proposed: C -> V, nullValue: V, add: (V, V) -> V, c: C): V
  {
    if exists i :: 0 <= i < |os| && os[i].DoNothing? then existing(c)
    else
      match LastWrite(os, inserted, present, c)
      case None => existing(c)
      case Some(Existing) => existing(c)
      case Some(Proposed) => proposed(c)
      case Some(Literal(v)) => v
      case Some(Null) => nullValue
      case Some(Plus(v)) => add(existing(c), v)
  }

  /** The INSERT names the columns some mutation has set, as they stand when it is executed. */
  ghost predicate InsertsPresent<C(!new)>(inserted: seq<C>, present: Present<C>) {
    forall c :: c in inserted <==> SetBySome(present, c)
  }

  lemma {:induction false} ProtectedPrefix<C(!new), V(!new)>(
    os: seq<Conflict<C, V>>, protected: seq<C>, inserted: seq<C>, present: Present<C>, p: C, k: nat)
    requires Typed(os, protected) && InsertsPresent(inserted, present) && p in protected && k <= |os|
    ensures var w := LastWrite(os[..k], inserted, present, p);
            w == None || w == Some(Existing) || (w == Some(Proposed) && os[k - 1].NewValues? && p in inserted)
  {
    if k > 0 {
      var prefix, o := os[..k], os[k - 1];
      assert prefix[..k - 1] == os[..k - 1] && prefix[k - 1] == o;
      ProtectedPrefix(os, protected, inserted, present, p, k - 1);
      assert TypedAt(os, protected, k - 1) && (k > 1 ==> TypedAt(os, protected, k - 2));
      if o.Sets? {
        UnnamedNotSet(o.sets, p);
      }
    }
  }

  lemma {:induction false} UnnamedNotSet<C(!new), V(!new)>(sets: seq<(C, Assign<V>)>, c: C)
    requires forall j :: 0 <= j < |sets| ==> sets[j].0 != c
    ensures LastSet(sets, c) == None
  {
    if sets != [] {
      UnnamedNotSet(sets[..|sets| - 1], c);
    }
  }

  /** Whatever typed calls were made, in whatever order, a protected column keeps its value. */
  lemma ProtectedKept<C(!new), V(!new)>(
    os: seq<Conflict<C, V>>, protected: seq<C>, inserted: seq<C>, present: Present<C>, p: C,
    existing: C -> V, proposed: C -> V, nullValue: V, add: (V, V) -> V)
    requires Typed(os, protected) && InsertsPresent(inserted, present) && p in protected
    ensures LastWrite(os, inserted, present, p) != Some(Proposed)
    ensures Updated(os, inserted, present, existing, proposed, nullValue, add, p) == existing(p)
  {
    ProtectedPrefix(os, protected, inserted, present, p, |os|);
    assert os[..|os|] == os;
    assert os != [] ==> TypedAt(os, protected, |os| - 1);
  }

  /** The i-th entry is the last for a column. */
  ghost predicate LastEntry<C(!new), V(!new)>(sets: seq<(C, Assign<V>)>, c: C, i: int) {
    0 <= i < |sets| && sets[i].0 == c && forall j :: i < j < |sets| ==> sets[j].0 != c
  }

  /** What one option says of a column, if anything. */
  ghost predicate Says<C(!new), V(!new)>(o: Conflict<C, V>, inserted: seq<C>, present: Present<C>, c: C, a: Assign<V>) {
    (o.NewValues? && c in inserted && a == Proposed) ||
    (o.IgnoreAll? && c in inserted && a == Existing) ||
    (o.KeepIfSet? && c in o.columns && SetBySome(present, c) && a == Existing) ||
    (o.Sets? && exists i :: LastEntry(o.sets, c, i) && o.sets[i].1 == a)
  }

  lemma {:induction false} LastSetExactly<C(!new), V(!new)>(sets: seq<(C, Assign<V>)>, c: C, a: Assign<V>)
    ensures LastSet(sets, c) == Some(a) <==> exists i :: LastEntry(sets, c, i) && sets[i].1 == a
  {
    if sets != [] {
      var n := |sets| - 1;
      var rest := sets[..n];
      LastSetExactly(rest, c, a);
      if sets[n].0 == c {
        assert LastEntry(sets, c, n);
      } else {
        assert forall i :: LastEntry(sets, c, i) <==> LastEntry(rest, c, i);
      }
    }
  }

  ghost predicate SaysNothing<C(!new), V(!new)>(o: Conflict<C, V>, inserted: seq<C>, present: Present<C>, c: C) {
    forall a :: !Says(o, inserted, present, c, a)
  }

  lemma WritesNothing<C(!new), V(!new)>(o: Conflict<C, V>, inserted: seq<C>, present: Present<C>, c: C)
    ensures Writes(o, inserted, present, c) == None <==> SaysNothing(o, inserted, present, c)
  {
    forall a { WritesSays(o, inserted, present, c, a); }
    if Writes(o, inserted, present, c).Some? {
      assert Says(o, inserted, present, c, Writes(o, inserted, present, c).value);
    }
  }

  lemma WritesSays<C(!new), V(!new)>(o: Conflict<C, V>, inserted: seq<C>, present: Present<C>, c: C, a: Assign<V>)
    ensures Writes(o, inserted, present, c) == Some(a) <==> Says(o, inserted, present, c, a)
  {
    if o.Sets? {
      LastSetExactly(o.sets, c, a);
    }
  }

  /** The i-th option says a of the column, and no later one says anything of it. */
  ghost predicate Decides<C(!new), V(!new)>(
    os: seq<Conflict<C, V>>, inserted: seq<C>, present: Present<C>, c: C, i: int, a: Assign<V>)
  {
    0 <= i < |os| && Says(os[i], inserted, present, c, a) &&
    forall j :: i < j < |os| ==> SaysNothing(os[j], inserted, present, c)
  }

  /** Whatever the options, a column gets what the last option that says anything of it says. */
  lemma {:induction false} WrittenExactly<C(!new), V(!new)>(
    os: seq<Conflict<C, V>>, inserted: seq<C>, present: Present<C>, c: C, a: Assign<V>)
    ensures LastWrite(os, inserted, present, c) == Some(a) <==> exists i :: Decides(os, inserted, present, c, i, a)
    ensures LastWrite(os, inserted, present, c) == None <==>
            forall i :: 0 <= i < |os| ==> SaysNothing(os[i], inserted, present, c)
  {
    if os != [] {
      var n := |os| - 1;
      var rest, o := os[..n], os[n];
      WrittenExactly(rest, inserted, present, c, a);
      WritesSays(o, inserted, present, c, a);
      WritesNothing(o, inserted, present, c);
      if SaysNothing(o, inserted, present, c) {
        assert forall i :: Decides(os, inserted, present, c, i, a) <==> Decides(rest, inserted, present, c, i, a);
      } else if Says(o, inserted, present, c, a) {
        assert Decides(os, inserted, present, c, n, a);
      }
    }
  }

  /** What the conflicting row then holds: nothing changes if some option says to do nothing. */
  lemma RowExactly<C(!new), V(!new)>(
    os: seq<Conflict<C, V>>, inserted: seq<C>, present: Present<C>, existing: C -> V, proposed: C -> V, nullValue: V,
    add: (V, V) -> V, c: C, i: int, a: Assign<V>)
    ensures (exists k :: 0 <= k < |os| && os[k].DoNothing?) ==>
              Updated(os, inserted, present, existing, proposed, nullValue, add, c) == existing(c)
    ensures Decides(os, inserted, present, c, i, a) && (forall k :: 0 <= k < |os| ==> !os[k].DoNothing?) ==>
              Updated(os, inserted, present, existing, proposed, nullValue, add, c) ==
              match a
              case Proposed => proposed(c)
              case Existing => existing(c)
              case Literal(v) => v
              case Null => nullValue
              case Plus(v) => add(existing(c), v)
  {
    WrittenExactly(os, inserted, present, c, a);
  }

  /** Options that write the proposed value to a column. */
  ghost predicate Offers<C(!new), V(!new)>(o: Conflict<C, V>, inserted: seq<C>, p: C) {
    (o.NewValues? && p in inserted) || (o.Sets? && exists i :: LastEntry(o.sets, p, i) && o.sets[i].1 == Proposed)
  }

  /** Options that write something else to it. */
  ghost predicate Shields<C(!new), V(!new)>(o: Conflict<C, V>, inserted: seq<C>, p: C) {
    (o.IgnoreAll? && p in inserted) || (o.KeepIfSet? && p in o.columns && p in inserted) ||
    (o.Sets? && exists i :: LastEntry(o.sets, p, i) && o.sets[i].1 != Proposed)
  }

  lemma OffersShields<C(!new), V(!new)>(o: Conflict<C, V>, inserted: seq<C>, present: Present<C>, p: C)
    requires InsertsPresent(inserted, present)
    ensures Offers(o, inserted, p) <==> Writes(o, inserted, present, p) == Some(Proposed)
    ensures Shields(o, inserted, p) <==>
            Writes(o, inserted, present, p).Some? && Writes(o, inserted, present, p) != Some(Proposed)
  {
    if o.Sets? {
      LastSetExactly(o.sets, p, Proposed);
      if LastSet(o.sets, p).Some? {
        LastSetExactly(o.sets, p, LastSet(o.sets, p).value);
      }
      forall i | LastEntry(o.sets, p, i) { LastSetExactly(o.sets, p, o.sets[i].1); }
    }
  }

  /** An offer at i that nothing after it takes back. */
  ghost predicate Unshielded<C(!new), V(!new)>(os: seq<Conflict<C, V>>, inserted: seq<C>, i: nat, p: C) {
    i < |os| && Offers(os[i], inserted, p) && forall j :: i < j < |os| ==> !Shields(os[j], inserted, p)
  }

  /** Raw options, as `OnConflict` accepts them: the proposed value wins exactly when some option
      offers it and none after that one writes anything else. */
  lemma {:induction false} ProposedExactly<C(!new), V(!new)>(
    os: seq<Conflict<C, V>>, inserted: seq<C>, present: Present<C>, p: C)
    requires InsertsPresent(inserted, present)
    ensures LastWrite(os, inserted, present, p) == Some(Proposed) <==>
            exists i: nat :: Unshielded(os, inserted, i, p)
  {
    if os != [] {
      var rest, o := os[..|os| - 1], os[|os| - 1];
      ProposedExactly(rest, inserted, present, p);
      OffersShields(o, inserted, present, p);
      if Offers(o, inserted, p) {
        assert Unshielded(os, inserted, |os| - 1, p);
      } else if !Shields(o, inserted, p) {
        if i: nat :| Unshielded(rest, inserted, i, p) {
          assert Unshielded(os, inserted, i, p);
        }
        if i: nat :| Unshielded(os, inserted, i, p) {
          assert Unshielded(rest, inserted, i, p);
        }
      }
    }
  }

  /** The comment on UpdateNewValues calls it equivalent to NewValues alone. For a column that is so
      exactly unless it is protected and some builder has set it. */
  lemma DocumentedEquivalenceExactly<C(!new), V(!new)>(protected: seq<C>, inserted: seq<C>, present: Present<C>, p: C)
    ensures LastWrite<C, V>([NewValues], inserted, present, p) ==
            LastWrite<C, V>([NewValues, KeepIfSet(protected)], inserted, present, p) <==>
            !(p in protected && SetBySome(present, p))
  {
    var short: seq<Conflict<C, V>> := [NewValues];
    var both: seq<Conflict<C, V>> := [NewValues, KeepIfSet(protected)];
    assert both[|both| - 1] == KeepIfSet(protected) && both[..|both| - 1] == short;
    assert short[|short| - 1] == NewValues && short[..|short| - 1] == [];
  }

  /** Where it fails, the comment's reading would overwrite the column. */
  lemma DocumentedEquivalenceFails<C(!new), V(!new)>(protected: seq<C>, inserted: seq<C>, present: Present<C>, p: C)
    requires InsertsPresent(inserted, present) && p in inserted && p in protected
    ensures LastWrite<C, V>([NewValues], inserted, present, p) == Some(Proposed)
    ensures LastWrite<C, V>([NewValues, KeepIfSet(protected)], inserted, present, p) == Some(Existing)
  {
    var short: seq<Conflict<C, V>> := [NewValues];
    var both: seq<Conflict<C, V>> := [NewValues, KeepIfSet(protected)];
    assert both[|both| - 1] == KeepIfSet(protected);
    assert short[|short| - 1] == NewValues;
  }
}
