/** Upserting accounts: the creation time survives although the caller may never have set it
    (backend/ent/account_create.go, UpdateNewValues and defaults). */
module AccountUpsert {
  import opened Wrappers
  import opened Account
  import opened AccountCreate
  import opened Upsert

  /** Columns the INSERT of a mutation names. */
  function InsertColumns(m: Mutation): set<Column> {
    set c | c in COLUMNS && (Written(m, c).Some? || (c == ProxyID && m.proxy.Some?))
  }

  /** They are those the row of the mutation's spec has, and the foreign key its edges give. */
  lemma InsertColumnsExactly(m: Mutation, now: Time, c: Column)
    ensures c in InsertColumns(m) <==>
            c in SpecOf(m, now).fields || (c == ProxyID && ForeignKey(SpecOf(m, now).edges) != NullCell)
  {
    AllColumns(c);
    SpecField(m, now, c);
    ForeignKeyOfEdges(m, now);
    if Written(m, c).Some? {
      WrittenIsNamed(m, c);
    }
  }

  lemma DefaultsSetCreatedAt(m: Mutation, rt: Runtime)
    requires Defaults(m, rt).1 == None
    ensures CreatedAt in InsertColumns(Defaults(m, rt).0)
  {
    AllColumns(CreatedAt);
  }

  /** The columns each builder's mutation has set once its own defaults have run. */
  function PresentAfter(ms: seq<Mutation>, rts: seq<Runtime>): (present: Present<Column>)
    requires |rts| == |ms|
    ensures |present| == |ms|
    ensures forall i :: 0 <= i < |ms| ==> present[i] == InsertColumns(Defaults(ms[i], rts[i]).0)
  {
    seq(|ms|, i requires 0 <= i < |ms| => InsertColumns(Defaults(ms[i], rts[i]).0))
  }

  function PresentBefore(ms: seq<Mutation>): (present: Present<Column>)
    ensures |present| == |ms| && forall i :: 0 <= i < |ms| ==> present[i] == InsertColumns(ms[i])
  {
    seq(|ms|, i requires 0 <= i < |ms| => InsertColumns(ms[i]))
  }

  ghost predicate DefaultsSucceed(ms: seq<Mutation>, rts: seq<Runtime>) {
    |rts| == |ms| && forall i :: 0 <= i < |ms| ==> Defaults(ms[i], rts[i]).1 == None
  }

  /** For any typed options on any number of accounts, evaluated once defaults have run: the
      conflicting row keeps its created_at, while NewValues alone would have replaced it. */
  lemma CreationTimeKept(ms: seq<Mutation>, rts: seq<Runtime>, os: seq<Conflict<Column, Cell>>, inserted: seq<Column>,
                         existing: Column -> Cell, proposed: Column -> Cell, add: (Cell, Cell) -> Cell)
    requires ms != [] && DefaultsSucceed(ms, rts) && Typed(os, [CreatedAt])
    requires InsertsPresent(inserted, PresentAfter(ms, rts))
    ensures var present := PresentAfter(ms, rts);
            Updated(os, inserted, present, existing, proposed, NullCell, add, CreatedAt) == existing(CreatedAt) &&
            LastWrite<Column, Cell>([NewValues], inserted, present, CreatedAt) == Some(Proposed)
  {
    var present := PresentAfter(ms, rts);
    DefaultsSetCreatedAt(ms[0], rts[0]);
    assert CreatedAt in present[0];
    ProtectedKept(os, [CreatedAt], inserted, present, CreatedAt, existing, proposed, NullCell, add);
    DocumentedEquivalenceFails<Column, Cell>([CreatedAt], inserted, present, CreatedAt);
  }

  /** Evaluated on the columns as they stood before defaults, UpdateNewValues would have kept
      created_at exactly when some caller had set it, and replaced it otherwise. */
  lemma EarlyEvaluationLoses(ms: seq<Mutation>, rts: seq<Runtime>, inserted: seq<Column>)
    requires ms != [] && DefaultsSucceed(ms, rts) && InsertsPresent(inserted, PresentAfter(ms, rts))
    ensures LastWrite<Column, Cell>([NewValues, KeepIfSet([CreatedAt])], inserted, PresentBefore(ms), CreatedAt) ==
            if exists i :: 0 <= i < |ms| && ms[i].createdAt.Some? then Some(Existing) else Some(Proposed)
  {
    var before := PresentBefore(ms);
    DefaultsSetCreatedAt(ms[0], rts[0]);
    assert CreatedAt in PresentAfter(ms, rts)[0] && CreatedAt in inserted;
    AllColumns(CreatedAt);
    assert SetBySome(before, CreatedAt) <==> exists i :: 0 <= i < |ms| && ms[i].createdAt.Some? by {
      if i :| 0 <= i < |ms| && ms[i].createdAt.Some? {
        assert CreatedAt in before[i];
      }
      if SetBySome(before, CreatedAt) {
        var i :| 0 <= i < |before| && CreatedAt in before[i];
        assert ms[i].createdAt.Some?;
      }
    }
    var both: seq<Conflict<Column, Cell>> := [NewValues, KeepIfSet([CreatedAt])];
    assert both[|both| - 1] == KeepIfSet([CreatedAt]) && both[..|both| - 1] == [NewValues];
    DocumentedEquivalenceExactly<Column, Cell>([CreatedAt], inserted, before, CreatedAt);
  }
}
