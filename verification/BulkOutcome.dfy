/** What a bulk save sends, creates and returns, said of the builders' fields alone
    (backend/ent/account_create.go, AccountCreateBulk.Save). */
module BulkOutcome {
  import opened Wrappers
  import opened BulkCreate
  import opened BulkSafety

  // ----- what is built shows the fields -----

  /** Specs and nodes carry the fields of their mutation. */
  ghost predicate Mirrors<F>(w: World<F>) {
    |w.specs| == |w.muts| && |w.nodes| == |w.muts| &&
    forall j :: 0 <= j < |w.muts| ==>
      (w.specs[j].Some? ==> w.specs[j].value.fields == w.muts[j].fields) &&
      (w.nodes[j].Some? ==> w.nodes[j].value.fields == w.muts[j].fields)
  }

  ghost predicate KeepsFields<F>(w: World<F>, w': World<F>) {
    SameMutFields(w, w') && (Mirrors(w) ==> Mirrors(w'))
  }

  lemma {:induction false} HookMirrors<F>(c: Config<F>, w: World<F>, i: nat, k: nat)
    requires Fits(c, w) && i < |c.hooks| && k <= |c.hooks[i]| && NoEdits(c)
    ensures KeepsFields(w, RunHook(c, w, i, k).0)
    decreases |c.hooks| - i, |c.hooks[i]| - k, 2
  {
    if k == |c.hooks[i]| {
      BaseMirrors(c, w, i);
    } else {
      assert EditFree(c.hooks[i][k]);
      ScriptMirrors(c, Log(w, Enter(i, k)), i, k, c.hooks[i][k], NotCalled);
    }
  }

  lemma {:induction false} ScriptMirrors<F>(c: Config<F>, w: World<F>, i: nat, k: nat, s: Script<F>, last: Outcome)
    requires Fits(c, w) && i < |c.hooks| && k < |c.hooks[i]| && NoEdits(c) && EditFree(s)
    ensures KeepsFields(w, RunScript(c, w, i, k, s, last).0)
    decreases |c.hooks| - i, |c.hooks[i]| - k, 1, s
  {
    if s.Next? {
      var (w1, err) := RunHook(c, w, i, k + 1);
      HookMirrors(c, w, i, k + 1);
      ScriptMirrors(c, w1, i, k, if err.None? then s.onOk else s.onError, Returned(err));
    }
  }

  lemma {:induction false} BaseMirrors<F>(c: Config<F>, w: World<F>, i: nat)
    requires Fits(c, w) && i < |c.hooks| && NoEdits(c)
    ensures KeepsFields(w, RunBase(c, w, i).0)
    decreases |c.hooks| - i, 0, 1
  {
    if c.check(w.muts[i].fields) {
      var built := Build(c, w, i);
      assert KeepsFields(w, built);
      if i + 1 < |c.hooks| {
        HookMirrors(c, built, i + 1, 0);
      }
      assert KeepsFields(built, RunRest(c, built, i).0);
    }
  }

  /** Without edits, what a save leaves built carries the fields its builders started with. */
  lemma SaveMirrors<F>(c: Config<F>, w: World<F>)
    requires Fits(c, w) && NoEdits(c)
    ensures KeepsFields(w, Save(c, w).0)
  {
    if |c.hooks| > 0 {
      HookMirrors(c, w, 0, 0);
    }
  }

  // ----- what pass-through hooks return -----

  ghost predicate AllPass<F>(c: Config<F>) {
    forall j, l :: 0 <= j < |c.hooks| && 0 <= l < |c.hooks[j]| ==> PassThrough(c.hooks[j][l])
  }

  /** A refusal comes back with its code, as a constraint error if it is one. */
  ghost predicate Answers(answer: BatchResult, err: Option<Error>) {
    match answer
    case Inserted(_) => err == None
    case Refused(code, constraint) => err == Some(if constraint then ConstraintError(code) else DatabaseError(code))
  }

  /** The first of the builders from i on whose fields do not pass the check. */
  ghost predicate FirstInvalid<F>(c: Config<F>, fields: seq<F>, i: nat, j: nat) {
    i <= j < |fields| && !c.check(fields[j]) && forall l :: i <= l < j ==> c.check(fields[l])
  }

  function FieldsOf<F>(w: World<F>): (fields: seq<F>)
    ensures |fields| == |w.muts| && forall j :: 0 <= j < |fields| ==> fields[j] == w.muts[j].fields
  {
    seq(|w.muts|, j requires 0 <= j < |w.muts| => w.muts[j].fields)
  }

  /** With every check passed one batch is sent, and its answer is returned; otherwise none, and the first
      builder that fails its check is named. */
  ghost predicate PassResult<F>(c: Config<F>, fields: seq<F>, i: nat, before: nat, after: nat, err: Option<Error>) {
    ((forall j :: i <= j < |fields| ==> c.check(fields[j])) ==> after == before + 1 && Answers(c.db(before), err)) &&
    forall j :: FirstInvalid(c, fields, i, j) ==> after == before && err == Some(InvalidBuilder(j))
  }

  lemma PassedOn<F>(c: Config<F>, w: World<F>, i: nat, k: nat)
    requires Fits(c, w) && i < |c.hooks| && k < |c.hooks[i]| && PassThrough(c.hooks[i][k])
    ensures var inner := RunHook(c, Log(w, Enter(i, k)), i, k + 1);
            RunHook(c, w, i, k) == (Log(inner.0, Leave(i, k)), inner.1)
  {
    var w0 := Log(w, Enter(i, k));
    var (w1, err) := RunHook(c, w0, i, k + 1);
    assert RunScript(c, w1, i, k, Report, Returned(err)) == (w1, err);
    assert RunScript(c, w0, i, k, c.hooks[i][k], NotCalled) == (w1, err);
  }

  lemma BatchAnswers<F>(c: Config<F>, w: World<F>)
    requires Fits(c, w)
    ensures |SendBatch(c, w).0.batches| == |w.batches| + 1 && Answers(c.db(|w.batches|), SendBatch(c, w).1)
  {
  }

  lemma {:induction false} PassOutcome<F>(c: Config<F>, w: World<F>, i: nat, k: nat)
    requires Fits(c, w) && i < |c.hooks| && k <= |c.hooks[i]| && AllPass(c)
    ensures var r := RunHook(c, w, i, k); PassResult(c, FieldsOf(w), i, |w.batches|, |r.0.batches|, r.1)
    decreases |c.hooks| - i, |c.hooks[i]| - k
  {
    if k < |c.hooks[i]| {
      PassedOn(c, w, i, k);
      PassOutcome(c, Log(w, Enter(i, k)), i, k + 1);
      assert FieldsOf(Log(w, Enter(i, k))) == FieldsOf(w);
    } else if c.check(w.muts[i].fields) {
      var built := Build(c, w, i);
      var rest := RunRest(c, built, i);
      assert FieldsOf(built) == FieldsOf(w);
      BasePassesOn(c, w, i);
      if i + 1 < |c.hooks| {
        PassOutcome(c, built, i + 1, 0);
      } else {
        BatchAnswers(c, built);
      }
      OneMoreValid(c, FieldsOf(w), i, |w.batches|, |rest.0.batches|, rest.1);
    }
  }

  /** A closure whose check passes passes on what it calls. */
  lemma BasePassesOn<F>(c: Config<F>, w: World<F>, i: nat)
    requires Fits(c, w) && i < |c.hooks| && c.check(w.muts[i].fields)
    ensures var r, rest := RunHook(c, w, i, |c.hooks[i]|), RunRest(c, Build(c, w, i), i);
            r.1 == rest.1 && r.0.batches == rest.0.batches
  {
    assert RunHook(c, w, i, |c.hooks[i]|) == RunBase(c, w, i);
  }

  lemma OneMoreValid<F>(c: Config<F>, fields: seq<F>, i: nat, before: nat, after: nat, err: Option<Error>)
    requires i < |fields| && c.check(fields[i]) && PassResult(c, fields, i + 1, before, after, err)
    requires i + 1 < |fields| || (after == before + 1 && Answers(c.db(before), err))
    ensures PassResult(c, fields, i, before, after, err)
  {
    assert forall j :: FirstInvalid(c, fields, i, j) ==> FirstInvalid(c, fields, i + 1, j);
  }

  /** A hook that fails before it calls on is what the save returns, with nothing sent. */
  lemma FailingHookStopsAll<F>(c: Config<F>, w: World<F>, code: int)
    requires Fits(c, w) && |c.hooks| > 0 && c.hooks[0] != [] && c.hooks[0][0] == Fail(code)
    ensures Save(c, w).1 == Some(HookError(code)) && Save(c, w).0.batches == w.batches
  {
    var w0 := Log(w, Enter(0, 0));
    assert RunScript(c, w0, 0, 0, c.hooks[0][0], NotCalled) == (w0, Some(HookError(code)));
    assert RunHook(c, w, 0, 0) == (Log(w0, Leave(0, 0)), Some(HookError(code)));
  }

  // ----- the whole save -----

  /** With pass-through hooks a save sends its one batch and returns the answer exactly when every builder
      passes its check. */
  lemma SaveOutcome<F>(c: Config<F>, w: World<F>)
    requires Fits(c, w) && AllPass(c) && |c.hooks| > 0
    ensures var r := Save(c, w); PassResult(c, FieldsOf(w), 0, |w.batches|, |r.0.batches|, r.1)
  {
    PassOutcome(c, w, 0, 0);
  }

  lemma FirstInvalidExists<F>(c: Config<F>, fields: seq<F>, i: nat, k: nat) returns (j: nat)
    requires i <= k < |fields| && !c.check(fields[k])
    ensures FirstInvalid(c, fields, i, j)
  {
    j := k;
    if l :| i <= l < k && !c.check(fields[l]) {
      j := FirstInvalidExists(c, fields, i, l);
    }
  }

  /** So a batch is sent exactly when all checks pass, and if the database accepts it, that is success. */
  lemma PassMeans<F>(c: Config<F>, fields: seq<F>, i: nat, before: nat, after: nat, err: Option<Error>)
    requires PassResult(c, fields, i, before, after, err)
    ensures after == before <==> exists j :: i <= j < |fields| && !c.check(fields[j])
    ensures c.db(before).Inserted? ==> (err == None <==> forall j :: i <= j < |fields| ==> c.check(fields[j]))
  {
    if k :| i <= k < |fields| && !c.check(fields[k]) {
      var j := FirstInvalidExists(c, fields, i, k);
    }
  }
}
