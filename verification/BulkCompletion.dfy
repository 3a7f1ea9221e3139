/** When a bulk save completes: the done flags, the ids and the returned error
    (backend/ent/account_create.go, AccountCreateBulk.Save;
    backend/ent/authfederatedidentity_create.go for caller-supplied ids). */
module BulkCompletion {
  import opened Wrappers
  import opened BulkCreate
  import opened BulkSafety

  // ----- honest hooks -----

  /** Whether a script returns nil only if the last mutator it called returned nil. */
  predicate HonestFrom<F>(s: Script<F>, called: bool, ok: bool) {
    match s
    case Fail(_) => true
    case Succeed => called && ok
    case Report => called
    case Edit(_, rest) => HonestFrom(rest, called, ok)
    case Next(onOk, onError) => HonestFrom(onOk, true, true) && HonestFrom(onError, true, false)
  }

  predicate Honest<F>(s: Script<F>) {
    HonestFrom(s, false, false)
  }

  ghost predicate AllHonest<F>(c: Config<F>) {
    forall i, k :: 0 <= i < |c.hooks| && 0 <= k < |c.hooks[i]| ==> Honest(c.hooks[i][k])
  }

  /** The hooks one usually meets: fail, or call the next mutator once and pass its error on. */
  predicate Faithful<F>(s: Script<F>) {
    match s
    case Fail(_) => true
    case Edit(_, rest) => Faithful(rest)
    case Next(onOk, onError) => MaxNext(s) == 1 && HonestFrom(onOk, true, true) && HonestFrom(onError, true, false)
    case _ => false
  }

  lemma {:induction false} FaithfulIsHonest<F>(s: Script<F>)
    requires Faithful(s)
    ensures Honest(s) && MaxNext(s) <= 1
  {
    if s.Edit? {
      FaithfulIsHonest(s.rest);
    }
  }

  // ----- the invariant of done flags -----

  ghost predicate Suffix<F>(w: World<F>) {
    forall j, l :: 0 <= j <= l < |w.muts| && w.muts[j].done ==> w.muts[l].done
  }

  ghost predicate SomeInserted<F>(c: Config<F>, w: World<F>) {
    exists n: nat :: n < |w.batches| && c.db(n).Inserted?
  }

  ghost predicate DoneInv<F>(c: Config<F>, w: World<F>) {
    Suffix(w) && forall j :: 0 <= j < |w.muts| && w.muts[j].done ==> SomeInserted(c, w)
  }

  ghost predicate Finished<F>(c: Config<F>, w: World<F>, j: nat)
    requires Fits(c, w) && j < |c.hooks|
  {
    w.muts[j].done && w.specs[j].Some? && w.nodes[j].Some? &&
    w.nodes[j].value.fields == w.specs[j].value.fields &&
    w.muts[j].id == Some(w.nodes[j].value.id) &&
    (!c.callerIDs ==> w.nodes[j].value.id == w.specs[j].value.id.GetOr(0))
  }

  /** Builders from i on are finished, by the last batch, which the database accepted. */
  ghost predicate Completed<F>(c: Config<F>, w: World<F>, i: nat)
    requires Fits(c, w)
  {
    w.batches != [] && c.db(|w.batches| - 1).Inserted? &&
    forall j :: i <= j < |c.hooks| ==> Finished(c, w, j)
  }

  ghost predicate Grown<F>(w: World<F>, w': World<F>) {
    |w.batches| <= |w'.batches| && |w'.muts| == |w.muts| &&
    forall j :: 0 <= j < |w.muts| && w.muts[j].done ==> w'.muts[j].done
  }

  ghost predicate Sound<F>(c: Config<F>, w: World<F>, i: nat, r: (World<F>, Option<Error>))
    requires Fits(c, r.0)
  {
    DoneInv(c, r.0) && Grown(w, r.0) && (r.1 == None ==> Completed(c, r.0, i))
  }

  lemma {:induction false} HookCompletes<F>(c: Config<F>, w: World<F>, i: nat, k: nat)
    requires Fits(c, w) && i < |c.hooks| && k <= |c.hooks[i]| && AllHonest(c) && DoneInv(c, w)
    ensures Sound(c, w, i, RunHook(c, w, i, k))
    decreases |c.hooks| - i, |c.hooks[i]| - k, 2
  {
    if k == |c.hooks[i]| {
      BaseCompletes(c, w, i);
    } else {
      assert Honest(c.hooks[i][k]);
      var w0 := Log(w, Enter(i, k));
      ScriptCompletes(c, w0, i, k, c.hooks[i][k], NotCalled);
      var (w1, err) := RunScript(c, w0, i, k, c.hooks[i][k], NotCalled);
      assert SomeInserted(c, w1) ==> SomeInserted(c, Log(w1, Leave(i, k)));
      if err == None {
        forall j | i <= j < |c.hooks| ensures Finished(c, Log(w1, Leave(i, k)), j) {
          assert Finished(c, w1, j);
        }
      }
    }
  }

  lemma {:induction false} ScriptCompletes<F>(c: Config<F>, w: World<F>, i: nat, k: nat, s: Script<F>, last: Outcome)
    requires Fits(c, w) && i < |c.hooks| && k < |c.hooks[i]| && AllHonest(c) && DoneInv(c, w)
    requires HonestFrom(s, last.Returned?, last == Returned(None))
    requires last == Returned(None) ==> Completed(c, w, i)
    ensures Sound(c, w, i, RunScript(c, w, i, k, s, last))
    decreases |c.hooks| - i, |c.hooks[i]| - k, 1, s
  {
    match s {
      case Edit(edit, rest) =>
        var w1 := EditFields(w, i, edit);
        assert SomeInserted(c, w) ==> SomeInserted(c, w1);
        assert Completed(c, w, i) ==> Completed(c, w1, i) by {
          if Completed(c, w, i) {
            forall j | i <= j < |c.hooks| ensures Finished(c, w1, j) { assert Finished(c, w, j); }
          }
        }
        ScriptCompletes(c, w1, i, k, rest, last);
      case Next(onOk, onError) =>
        var (w1, err) := RunHook(c, w, i, k + 1);
        HookCompletes(c, w, i, k + 1);
        ScriptCompletes(c, w1, i, k, if err.None? then onOk else onError, Returned(err));
      case _ =>
    }
  }

  lemma {:induction false} BaseCompletes<F>(c: Config<F>, w: World<F>, i: nat)
    requires Fits(c, w) && i < |c.hooks| && AllHonest(c) && DoneInv(c, w)
    ensures Sound(c, w, i, RunBase(c, w, i))
    decreases |c.hooks| - i, 0, 1
  {
    if c.check(w.muts[i].fields) {
      var built := Build(c, w, i);
      assert SomeInserted(c, w) ==> SomeInserted(c, built);
      var (w1, err) := if i + 1 < |c.hooks| then RunHook(c, built, i + 1, 0) else SendBatch(c, built);
      assert Sound(c, built, i + 1, (w1, err)) by {
        if i + 1 < |c.hooks| {
          HookCompletes(c, built, i + 1, 0);
        } else {
          BatchCompletes(c, built);
        }
      }
      if err == None {
        CompleteStep(c, built, w1, i);
        assert Grown(w, Complete(c, w1, i));
      }
    }
  }

  lemma BatchCompletes<F>(c: Config<F>, w: World<F>)
    requires Fits(c, w) && DoneInv(c, w)
    ensures Sound(c, w, |c.hooks|, SendBatch(c, w))
  {
    var w1 := SendBatch(c, w).0;
    if SomeInserted(c, w) {
      var n: nat :| n < |w.batches| && c.db(n).Inserted?;
      assert n < |w1.batches| && c.db(n).Inserted?;
    }
  }

  lemma CompleteStep<F>(c: Config<F>, built: World<F>, w1: World<F>, i: nat)
    requires Fits(c, built) && Fits(c, w1) && i < |c.hooks|
    requires built.specs[i].Some? && built.nodes[i].Some? && Before(built, w1, i + 1)
    requires built.nodes[i].value.fields == built.specs[i].value.fields
    requires !c.callerIDs ==> built.nodes[i].value.id == 0
    requires DoneInv(c, w1) && Completed(c, w1, i + 1)
    ensures SameFields(built.specs[i], w1.specs[i]) && w1.nodes[i] == built.nodes[i]
    ensures DoneInv(c, Complete(c, w1, i)) && Completed(c, Complete(c, w1, i), i)
  {
    assert SameFields(built.specs[i], w1.specs[i]);
    var w2 := Complete(c, w1, i);
    assert c.db(|w2.batches| - 1).Inserted?;
    assert SomeInserted(c, w2);
    forall j | i <= j < |c.hooks| ensures Finished(c, w2, j) {
      if j > i {
        assert Finished(c, w1, j);
      }
    }
    forall j, l | 0 <= j <= l < |w2.muts| && w2.muts[j].done ensures w2.muts[l].done {
      if l >= i {
        assert Finished(c, w2, l);
      }
    }
  }

  /** For honest hooks, however often they call on: the done mutations always form a suffix, there
      are none unless a batch was accepted, and when Save returns nil all are done, each node with
      the id of its spec. */
  lemma DoneIsSuffix<F>(c: Config<F>, w: World<F>)
    requires Fits(c, w) && AllHonest(c) && |c.hooks| > 0
    requires forall j :: 0 <= j < |w.muts| ==> !w.muts[j].done
    ensures Suffix(Save(c, w).0)
    ensures forall j :: 0 <= j < |c.hooks| && Save(c, w).0.muts[j].done ==> SomeInserted(c, Save(c, w).0)
    ensures Save(c, w).1 == None ==> Completed(c, Save(c, w).0, 0)
  {
    HookCompletes(c, w, 0, 0);
  }

  // ----- exactly which hooks are safe -----

  /** A world no mutator has been called on. */
  ghost predicate Untried<F>(w: World<F>) {
    w.batches == [] && forall j :: 0 <= j < |w.muts| ==> !w.muts[j].done
  }

  /** Among hooks that are honest, this one never lets Save return nil before everything is done,
      whatever the builders, their checks and the database. */
  ghost predicate Safe<F(!new)>(s: Script<F>) {
    forall c: Config<F>, w: World<F> ::
      Fits(c, w) && |c.hooks| > 0 && Untried(w) && OthersHonest(c, s) && Save(c, w).1 == None ==>
      Completed(c, Save(c, w).0, 0)
  }

  /** The same of one builder with this one hook. */
  ghost predicate SafeAlone<F(!new)>(s: Script<F>) {
    forall c: Config<F>, w: World<F> ::
      Fits(c, w) && c.hooks == [[s]] && Untried(w) && Save(c, w).1 == None ==> Completed(c, Save(c, w).0, 0)
  }

  ghost predicate OthersHonest<F>(c: Config<F>, s: Script<F>) {
    forall i, k :: 0 <= i < |c.hooks| && 0 <= k < |c.hooks[i]| ==> c.hooks[i][k] == s || Honest(c.hooks[i][k])
  }

  /** One valid builder with one hook. */
  function Solo<F>(s: Script<F>, db: nat -> BatchResult): Config<F> {
    Config([[s]], _ => true, false, db)
  }

  function Answer(db: nat -> BatchResult, n: nat, answer: BatchResult): nat -> BatchResult {
    (k: nat) => if k == n then answer else db(k)
  }

  const ACCEPT := Inserted(_ => Some(1))
  const REFUSE := Refused(0, false)

  /** What a hook remembers of its last call is what the database answered to the last batch. */
  ghost predicate Agrees<F>(w: World<F>, db: nat -> BatchResult, last: Outcome) {
    (last.Returned? <==> w.batches != []) &&
    (last.Returned? ==> (last.err == None <==> db(|w.batches| - 1).Inserted?))
  }

  /** The next call sends one batch and passes on the database's answer. */
  lemma SoloNext<F>(whole: Script<F>, w: World<F>, db: nat -> BatchResult)
    requires Fits(Solo(whole, db), w)
    ensures var r := RunHook(Solo(whole, db), w, 0, 1);
            |r.0.batches| == |w.batches| + 1 && (r.1 == None <==> db(|w.batches|).Inserted?)
  {
    var c := Solo(whole, db);
    assert RunHook(c, w, 0, 1) == RunBase(c, w, 0);
  }

  /** From any point, a script that is not honest from there on can be answered so that it returns
      nil although the last batch, if any, was refused. */
  lemma {:induction false} DishonestRun<F>(whole: Script<F>, s: Script<F>, w: World<F>, last: Outcome,
                                           given: nat -> BatchResult) returns (db: nat -> BatchResult)
    requires Fits(Solo(whole, given), w) && Agrees(w, given, last)
    requires !HonestFrom(s, last.Returned?, last == Returned(None))
    ensures forall n :: 0 <= n < |w.batches| ==> db(n) == given(n)
    ensures var r := RunScript(Solo(whole, db), w, 0, 0, s, last);
            r.1 == None && (r.0.batches == [] || db(|r.0.batches| - 1).Refused?)
    decreases s
  {
    match s {
      case Edit(edit, rest) =>
        db := DishonestRun(whole, rest, EditFields(w, 0, edit), last, given);
      case Next(onOk, onError) =>
        var ok := !HonestFrom(onOk, true, true);
        var next := Answer(given, |w.batches|, if ok then ACCEPT else REFUSE);
        var (w1, err) := RunHook(Solo(whole, next), w, 0, 1);
        assert |w1.batches| == |w.batches| + 1 && (err == None <==> ok) by {
          SoloNext(whole, w, next);
        }
        db := DishonestRun(whole, if ok then onOk else onError, w1, Returned(err), next);
        assert RunHook(Solo(whole, db), w, 0, 1) == (w1, err) by {
          SameNext(whole, w, next, db);
        }
      case _ =>
        db := given;
    }
  }

  /** One call looks at one answer only. */
  lemma SameNext<F>(whole: Script<F>, w: World<F>, a: nat -> BatchResult, b: nat -> BatchResult)
    requires Fits(Solo(whole, a), w) && a(|w.batches|) == b(|w.batches|)
    ensures RunHook(Solo(whole, a), w, 0, 1) == RunHook(Solo(whole, b), w, 0, 1)
  {
    assert RunHook(Solo(whole, a), w, 0, 1) == RunBase(Solo(whole, a), w, 0);
    assert RunHook(Solo(whole, b), w, 0, 1) == RunBase(Solo(whole, b), w, 0);
  }

  lemma DishonestIsUnsafe<F(!new)>(s: Script<F>, fields: F)
    requires !Honest(s)
    ensures !SafeAlone(s)
  {
    var w := World([Mut(fields, None, false)], [None], [None], [], []);
    var w0 := Log(w, Enter(0, 0));
    var db := DishonestRun(s, s, w0, NotCalled, _ => REFUSE);
    var c := Solo(s, db);
    assert Save(c, w) == RunHook(c, w, 0, 0);
    assert c.hooks == [[s]] && Untried(w) && Fits(c, w);
  }

  lemma HonestIsSafe<F(!new)>(s: Script<F>)
    requires Honest(s)
    ensures Safe(s)
  {
    forall c: Config<F>, w: World<F> |
      Fits(c, w) && |c.hooks| > 0 && Untried(w) && OthersHonest(c, s) && Save(c, w).1 == None
      ensures Completed(c, Save(c, w).0, 0)
    {
      DoneIsSuffix(c, w);
    }
  }

  lemma SafeIsSafeAlone<F(!new)>(s: Script<F>)
    requires Safe(s)
    ensures SafeAlone(s)
  {
    forall c: Config<F>, w: World<F> | Fits(c, w) && c.hooks == [[s]] && Untried(w) && Save(c, w).1 == None
      ensures Completed(c, Save(c, w).0, 0)
    {
      assert OthersHonest(c, s);
    }
  }

  /** A hook is safe exactly when it is honest: it returns nil only after the last mutator it called
      returned nil. */
  lemma HonestExactly<F(!new)>(s: Script<F>, fields: F)
    ensures Safe(s) <==> Honest(s)
    ensures SafeAlone(s) <==> Honest(s)
  {
    if Safe(s) {
      SafeIsSafeAlone(s);
    }
    if Honest(s) {
      HonestIsSafe(s);
      SafeIsSafeAlone(s);
    } else {
      DishonestIsUnsafe(s, fields);
    }
  }

  // ----- where the ids come from -----

  function StartOf<F>(c: Config<F>, id: Option<int>): Option<int> {
    if c.callerIDs then id else None
  }

  function Merged(start: Option<int>, fromDB: Option<int>): Option<int> {
    if fromDB.Some? then fromDB else start
  }

  ghost predicate OnceEach<F>(c: Config<F>) {
    forall i, k :: 0 <= i < |c.hooks| && 0 <= k < |c.hooks[i]| ==> Honest(c.hooks[i][k]) && MaxNext(c.hooks[i][k]) <= 1
  }

  ghost predicate Untouched<F>(c: Config<F>, w: World<F>, i: nat, ids: seq<Option<int>>)
    requires Fits(c, w)
  {
    |ids| == |c.hooks| && forall j :: i <= j < |c.hooks| ==> w.muts[j].id == ids[j]
  }

  /** From builder i on, specs carry the database's ids and nodes what follows from them; specs
      before i, built by the enclosing closures, have been given the database's ids too. */
  ghost predicate IdsSet<F>(c: Config<F>, w: World<F>, w': World<F>, i: nat, ids: seq<Option<int>>)
    requires Fits(c, w) && Fits(c, w') && |ids| == |c.hooks| && i <= |c.hooks|
  {
    |w'.batches| == |w.batches| + 1 && c.db(|w.batches|).Inserted? &&
    (forall j :: i <= j < |c.hooks| ==>
      w'.specs[j].Some? && w'.nodes[j].Some? &&
      w'.specs[j].value.id == Merged(StartOf(c, ids[j]), c.db(|w.batches|).ids(j)) &&
      w'.nodes[j].value.id == FinalID(c, StartOf(c, ids[j]).GetOr(0), w'.specs[j].value.id)) &&
    (forall j :: 0 <= j < i && w.specs[j].Some? ==>
      w'.specs[j].Some? && w'.specs[j].value.id == Merged(w.specs[j].value.id, c.db(|w.batches|).ids(j)))
  }

  lemma {:induction false} HookIds<F>(c: Config<F>, w: World<F>, i: nat, k: nat, ids: seq<Option<int>>)
    requires Fits(c, w) && i < |c.hooks| && k <= |c.hooks[i]| && OnceEach(c) && Untouched(c, w, i, ids)
    ensures RunHook(c, w, i, k).1 == None ==> IdsSet(c, w, RunHook(c, w, i, k).0, i, ids)
    decreases |c.hooks| - i, |c.hooks[i]| - k, 2
  {
    if k == |c.hooks[i]| {
      BaseIds(c, w, i, ids);
    } else {
      var s := c.hooks[i][k];
      assert Honest(s) && MaxNext(s) <= 1;
      var w0 := Log(w, Enter(i, k));
      ScriptIds(c, w0, w0, i, k, s, NotCalled, ids);
    }
  }

  /** `start` is the state before the script's one call, if it has been made. */
  lemma {:induction false} ScriptIds<F>(c: Config<F>, start: World<F>, w: World<F>, i: nat, k: nat, s: Script<F>,
                                        last: Outcome, ids: seq<Option<int>>)
    requires Fits(c, start) && Fits(c, w) && i < |c.hooks| && k < |c.hooks[i]| && OnceEach(c)
    requires HonestFrom(s, last.Returned?, last == Returned(None)) && |ids| == |c.hooks|
    requires last.NotCalled? ==> start.batches == w.batches && start.specs == w.specs
    requires last.NotCalled? ==> MaxNext(s) <= 1 && Untouched(c, w, i, ids)
    requires last.Returned? ==> MaxNext(s) == 0
    requires last == Returned(None) ==> IdsSet(c, start, w, i, ids)
    ensures RunScript(c, w, i, k, s, last).1 == None ==> IdsSet(c, start, RunScript(c, w, i, k, s, last).0, i, ids)
    decreases |c.hooks| - i, |c.hooks[i]| - k, 1, s
  {
    match s {
      case Edit(edit, rest) =>
        ScriptIds(c, start, EditFields(w, i, edit), i, k, rest, last, ids);
      case Next(onOk, onError) =>
        var (w1, err) := RunHook(c, w, i, k + 1);
        HookIds(c, w, i, k + 1, ids);
        ScriptIds(c, start, w1, i, k, if err.None? then onOk else onError, Returned(err), ids);
      case _ =>
    }
  }

  lemma {:induction false} BaseIds<F>(c: Config<F>, w: World<F>, i: nat, ids: seq<Option<int>>)
    requires Fits(c, w) && i < |c.hooks| && OnceEach(c) && Untouched(c, w, i, ids)
    ensures RunBase(c, w, i).1 == None ==> IdsSet(c, w, RunBase(c, w, i).0, i, ids)
    decreases |c.hooks| - i, 0, 1
  {
    if c.check(w.muts[i].fields) {
      var built := Build(c, w, i);
      var (w1, err) := if i + 1 < |c.hooks| then RunHook(c, built, i + 1, 0) else SendBatch(c, built);
      if i + 1 < |c.hooks| {
        HookIds(c, built, i + 1, 0, ids);
      }
      if err == None {
        assert IdsSet(c, built, w1, i + 1, ids);
        assert w1.nodes[i] == built.nodes[i];
      }
    }
  }

  /** Caller-supplied ids survive: when Save returns nil after one pass, a node has the id its
      caller gave it where that is not zero, and the database's id otherwise. */
  lemma CallerIdsSurvive<F>(c: Config<F>, w: World<F>, j: nat)
    requires Fits(c, w) && OnceEach(c) && c.callerIDs && j < |c.hooks|
    requires Save(c, w).1 == None
    ensures Save(c, w).0.nodes[j].Some? && c.db(|w.batches|).Inserted?
    ensures var id := Save(c, w).0.nodes[j].value.id;
            if w.muts[j].id.Some? && w.muts[j].id.value != 0 then id == w.muts[j].id.value
            else id == c.db(|w.batches|).ids(j).GetOr(0)
  {
    var ids := seq(|w.muts|, j requires 0 <= j < |w.muts| => w.muts[j].id);
    HookIds(c, w, 0, 0, ids);
  }

  /** Without caller-supplied ids every node gets the database's id. */
  lemma DatabaseIds<F>(c: Config<F>, w: World<F>, j: nat)
    requires Fits(c, w) && OnceEach(c) && !c.callerIDs && j < |c.hooks|
    requires Save(c, w).1 == None
    ensures Save(c, w).0.nodes[j].Some? && c.db(|w.batches|).Inserted?
    ensures Save(c, w).0.nodes[j].value.id == c.db(|w.batches|).ids(j).GetOr(0)
  {
    var ids := seq(|w.muts|, j requires 0 <= j < |w.muts| => w.muts[j].id);
    HookIds(c, w, 0, 0, ids);
  }

  // ----- what a dishonest hook can do -----

  /** A hook that succeeds without calling on makes Save return nil with nothing inserted. */
  lemma SkippingHookReportsSuccess<F>(c: Config<F>, w: World<F>)
    requires Fits(c, w) && |c.hooks| > 0 && c.hooks[0] != [] && c.hooks[0][0] == Succeed
    ensures Save(c, w).1 == None
    ensures Save(c, w).0 == w.(trace := w.trace + [Enter(0, 0)] + [Leave(0, 0)])
  {
    var w0 := Log(w, Enter(0, 0));
    assert RunScript(c, w0, 0, 0, c.hooks[0][0], NotCalled) == (w0, None);
    assert RunHook(c, w, 0, 0) == (Log(w0, Leave(0, 0)), None);
  }

  /** The same hook on the second of two builders breaks the suffix: the first is done, the second not. */
  lemma SkippingHookBreaksSuffix<F>(c: Config<F>, w: World<F>)
    requires Fits(c, w) && |c.hooks| == 2 && c.hooks[0] == [] && c.hooks[1] != [] && c.hooks[1][0] == Succeed
    requires c.check(w.muts[0].fields) && !w.muts[1].done
    ensures Save(c, w).1 == None && Save(c, w).0.batches == w.batches
    ensures !Suffix(Save(c, w).0)
  {
    var built := Build(c, w, 0);
    var w0 := Log(built, Enter(1, 0));
    assert RunScript(c, w0, 1, 0, c.hooks[1][0], NotCalled) == (w0, None);
    var w1 := Log(w0, Leave(1, 0));
    assert RunHook(c, built, 1, 0) == (w1, None);
    assert RunBase(c, w, 0) == (Complete(c, w1, 0), None);
    assert RunHook(c, w, 0, 0) == RunBase(c, w, 0);
    var w' := Save(c, w).0;
    assert w'.muts[0].done && !w'.muts[1].done;
  }
}
