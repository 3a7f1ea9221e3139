/** What every bulk save keeps, for all hooks: which batches reach the database, how many, and
    how the calls nest (backend/ent/account_create.go, AccountCreateBulk.Save). */
module BulkSafety {
  import opened Wrappers
  import opened BulkCreate

  // ----- every batch is complete and checked -----

  predicate EditFree<F>(s: Script<F>) {
    match s
    case Edit(_, _) => false
    case Next(onOk, onError) => EditFree(onOk) && EditFree(onError)
    case _ => true
  }

  ghost predicate NoEdits<F>(c: Config<F>) {
    forall i, k :: 0 <= i < |c.hooks| && 0 <= k < |c.hooks[i]| ==> EditFree(c.hooks[i][k])
  }

  /** One spec for every builder, built from fields that passed the check. */
  ghost predicate GoodBatch<F>(c: Config<F>, b: seq<Option<Spec<F>>>) {
    |b| == |c.hooks| && forall j :: 0 <= j < |b| ==> b[j].Some? && c.check(b[j].value.fields)
  }

  ghost predicate HasFields<F>(b: seq<Option<Spec<F>>>, w: World<F>) {
    |b| == |w.muts| && forall j :: 0 <= j < |b| ==> b[j].Some? && b[j].value.fields == w.muts[j].fields
  }

  /** The builders before i have been checked and built from their present fields. */
  ghost predicate Prepared<F>(c: Config<F>, w: World<F>, i: nat)
    requires Fits(c, w) && i <= |c.hooks|
  {
    forall j :: 0 <= j < i ==>
      c.check(w.muts[j].fields) && w.specs[j].Some? && w.specs[j].value.fields == w.muts[j].fields
  }

  ghost predicate SameMutFields<F>(w: World<F>, w': World<F>) {
    |w'.muts| == |w.muts| && forall j :: 0 <= j < |w.muts| ==> w'.muts[j].fields == w.muts[j].fields
  }

  /** The batches sent between two states of a run. */
  ghost predicate GoodRun<F>(c: Config<F>, w: World<F>, w': World<F>) {
    w.batches <= w'.batches &&
    (forall n :: |w.batches| <= n < |w'.batches| ==> GoodBatch(c, w'.batches[n])) &&
    (NoEdits(c) ==> SameMutFields(w, w') && forall n :: |w.batches| <= n < |w'.batches| ==> HasFields(w'.batches[n], w))
  }

  lemma GoodRunTrans<F>(c: Config<F>, a: World<F>, b: World<F>, d: World<F>)
    requires GoodRun(c, a, b) && GoodRun(c, b, d)
    ensures GoodRun(c, a, d)
  {
    forall n | |a.batches| <= n < |d.batches|
      ensures GoodBatch(c, d.batches[n]) && (NoEdits(c) ==> HasFields(d.batches[n], a))
    {
      if n < |b.batches| {
        assert d.batches[n] == b.batches[n];
      }
    }
  }

  lemma PreparedKept<F>(c: Config<F>, w: World<F>, w': World<F>, i: nat)
    requires Fits(c, w) && Fits(c, w') && i <= |c.hooks| && Prepared(c, w, i) && Before(w, w', i)
    ensures Prepared(c, w', i)
  {
    forall j | 0 <= j < i
      ensures c.check(w'.muts[j].fields) && w'.specs[j].Some? && w'.specs[j].value.fields == w'.muts[j].fields
    {
      assert SameFields(w.specs[j], w'.specs[j]) && w'.muts[j] == w.muts[j];
    }
  }

  lemma {:induction false} HookGood<F>(c: Config<F>, w: World<F>, i: nat, k: nat)
    requires Fits(c, w) && i < |c.hooks| && k <= |c.hooks[i]| && Prepared(c, w, i)
    ensures GoodRun(c, w, RunHook(c, w, i, k).0)
    decreases |c.hooks| - i, |c.hooks[i]| - k, 2
  {
    if k == |c.hooks[i]| {
      BaseGood(c, w, i);
    } else {
      assert NoEdits(c) ==> EditFree(c.hooks[i][k]);
      ScriptGood(c, Log(w, Enter(i, k)), i, k, c.hooks[i][k], NotCalled);
    }
  }

  lemma {:induction false} ScriptGood<F>(c: Config<F>, w: World<F>, i: nat, k: nat, s: Script<F>, last: Outcome)
    requires Fits(c, w) && i < |c.hooks| && k < |c.hooks[i]| && Prepared(c, w, i)
    requires NoEdits(c) ==> EditFree(s)
    ensures GoodRun(c, w, RunScript(c, w, i, k, s, last).0)
    decreases |c.hooks| - i, |c.hooks[i]| - k, 1, s
  {
    match s {
      case Edit(edit, rest) =>
        var w1 := EditFields(w, i, edit);
        ScriptGood(c, w1, i, k, rest, last);
      case Next(onOk, onError) =>
        var (w1, err) := RunHook(c, w, i, k + 1);
        HookGood(c, w, i, k + 1);
        PreparedKept(c, w, w1, i);
        ScriptGood(c, w1, i, k, if err.None? then onOk else onError, Returned(err));
        GoodRunTrans(c, w, w1, RunScript(c, w, i, k, s, last).0);
      case _ =>
    }
  }

  lemma BuildPrepares<F>(c: Config<F>, w: World<F>, i: nat)
    requires Fits(c, w) && i < |c.hooks| && Prepared(c, w, i) && c.check(w.muts[i].fields)
    ensures Prepared(c, Build(c, w, i), i + 1)
  {
  }

  lemma SendGood<F>(c: Config<F>, w: World<F>)
    requires Fits(c, w) && Prepared(c, w, |c.hooks|)
    ensures GoodRun(c, w, SendBatch(c, w).0)
  {
    assert GoodBatch(c, w.specs) && HasFields(w.specs, w);
  }

  /** Building and completing leave the batches and the fields alone. */
  lemma BaseRun<F>(c: Config<F>, w: World<F>, i: nat, w1: World<F>, w2: World<F>)
    requires Fits(c, w) && i < |c.hooks| && GoodRun(c, Build(c, w, i), w1)
    requires w2.batches == w1.batches && SameMutFields(w1, w2)
    ensures GoodRun(c, w, w2)
  {
    assert NoEdits(c) ==> forall n :: |w.batches| <= n < |w2.batches| ==> HasFields(w2.batches[n], w);
  }

  lemma {:induction false} BaseGood<F>(c: Config<F>, w: World<F>, i: nat)
    requires Fits(c, w) && i < |c.hooks| && Prepared(c, w, i)
    ensures GoodRun(c, w, RunBase(c, w, i).0)
    decreases |c.hooks| - i, 0, 1
  {
    if c.check(w.muts[i].fields) {
      var built := Build(c, w, i);
      BuildPrepares(c, w, i);
      assert GoodRun(c, built, RunRest(c, built, i).0) by {
        if i + 1 < |c.hooks| {
          HookGood(c, built, i + 1, 0);
        } else {
          SendGood(c, built);
        }
      }
      BaseRun(c, w, i, RunRest(c, built, i).0, RunBase(c, w, i).0);
    }
  }

  /** All or nothing: whatever the hooks do, a batch that reaches the database has a spec for
      every builder, built after its check passed. */
  lemma BatchesAreComplete<F>(c: Config<F>, w: World<F>)
    requires Fits(c, w)
    ensures GoodRun(c, w, Save(c, w).0)
  {
    if |c.hooks| > 0 {
      HookGood(c, w, 0, 0);
    }
  }

  lemma NewBatchMeansChecked<F>(c: Config<F>, w: World<F>, w': World<F>)
    requires GoodRun(c, w, w') && NoEdits(c) && |w.batches| < |w'.batches|
    ensures forall j :: 0 <= j < |w.muts| ==> c.check(w.muts[j].fields)
  {
    var b := w'.batches[|w.batches|];
    assert GoodBatch(c, b) && HasFields(b, w);
    forall j | 0 <= j < |w.muts| ensures c.check(w.muts[j].fields) {
      assert b[j].value.fields == w.muts[j].fields;
    }
  }

  /** A builder that fails its check keeps every batch away, when no hook repairs it. */
  lemma InvalidBuilderStopsAll<F>(c: Config<F>, w: World<F>, j: nat)
    requires Fits(c, w) && NoEdits(c) && j < |c.hooks| && !c.check(w.muts[j].fields)
    ensures Save(c, w).0.batches == w.batches
  {
    BatchesAreComplete(c, w);
    var w' := Save(c, w).0;
    if |w'.batches| > |w.batches| {
      NewBatchMeansChecked(c, w, w');
    }
  }

  // ----- how many batches -----

  function Max(a: nat, b: nat): nat {
    if a < b then b else a
  }

  /** The most often a script can call the next mutator. */
  function MaxNext<F>(s: Script<F>): nat {
    match s
    case Edit(_, rest) => MaxNext(rest)
    case Next(onOk, onError) => 1 + Max(MaxNext(onOk), MaxNext(onError))
    case _ => 0
  }

  /** The product of the limits of all hooks from hook k of builder i on. */
  function Limit<F>(c: Config<F>, i: nat, k: nat): nat
    requires i < |c.hooks| && k <= |c.hooks[i]|
    decreases |c.hooks| - i, |c.hooks[i]| - k
  {
    if k < |c.hooks[i]| then MaxNext(c.hooks[i][k]) * Limit(c, i, k + 1)
    else if i + 1 < |c.hooks| then Limit(c, i + 1, 0)
    else 1
  }

  lemma {:induction false} HookCount<F>(c: Config<F>, w: World<F>, i: nat, k: nat)
    requires Fits(c, w) && i < |c.hooks| && k <= |c.hooks[i]|
    ensures |RunHook(c, w, i, k).0.batches| <= |w.batches| + Limit(c, i, k)
    decreases |c.hooks| - i, |c.hooks[i]| - k, 2
  {
    if k == |c.hooks[i]| {
      if c.check(w.muts[i].fields) {
        var built := Build(c, w, i);
        if i + 1 < |c.hooks| {
          HookCount(c, built, i + 1, 0);
        }
        assert |RunRest(c, built, i).0.batches| <= |w.batches| + Limit(c, i, k);
        assert RunHook(c, w, i, k) == RunBase(c, w, i);
      }
    } else {
      ScriptCount(c, Log(w, Enter(i, k)), i, k, c.hooks[i][k], NotCalled);
    }
  }

  lemma {:induction false} ScriptCount<F>(c: Config<F>, w: World<F>, i: nat, k: nat, s: Script<F>, last: Outcome)
    requires Fits(c, w) && i < |c.hooks| && k < |c.hooks[i]|
    ensures |RunScript(c, w, i, k, s, last).0.batches| <= |w.batches| + MaxNext(s) * Limit(c, i, k + 1)
    decreases |c.hooks| - i, |c.hooks[i]| - k, 1, s
  {
    match s {
      case Edit(edit, rest) =>
        ScriptCount(c, EditFields(w, i, edit), i, k, rest, last);
      case Next(onOk, onError) =>
        var (w1, err) := RunHook(c, w, i, k + 1);
        HookCount(c, w, i, k + 1);
        var rest := if err.None? then onOk else onError;
        ScriptCount(c, w1, i, k, rest, Returned(err));
        Distribute(MaxNext(rest), MaxNext(s) - 1, Limit(c, i, k + 1));
      case _ =>
    }
  }

  lemma Distribute(a: nat, b: nat, x: nat)
    requires a <= b
    ensures x + a * x <= (b + 1) * x
  {
    assert (b + 1) * x == x + b * x;
    assert a * x <= b * x;
  }

  lemma {:induction false} LimitOne<F>(c: Config<F>, i: nat, k: nat)
    requires i < |c.hooks| && k <= |c.hooks[i]|
    requires forall j, l :: 0 <= j < |c.hooks| && 0 <= l < |c.hooks[j]| ==> MaxNext(c.hooks[j][l]) <= 1
    ensures Limit(c, i, k) <= 1
    decreases |c.hooks| - i, |c.hooks[i]| - k
  {
    if k < |c.hooks[i]| {
      LimitOne(c, i, k + 1);
      assert MaxNext(c.hooks[i][k]) <= 1;
      if MaxNext(c.hooks[i][k]) == 1 {
        assert Limit(c, i, k) == Limit(c, i, k + 1);
      } else {
        assert Limit(c, i, k) == 0 * Limit(c, i, k + 1);
      }
    } else if i + 1 < |c.hooks| {
      LimitOne(c, i + 1, 0);
    }
  }

  /** The number of batches is at most the product of how often each hook can call on. */
  lemma BatchesAreFew<F>(c: Config<F>, w: World<F>)
    requires Fits(c, w) && |c.hooks| > 0
    ensures |Save(c, w).0.batches| <= |w.batches| + Limit(c, 0, 0)
    ensures (forall j, l :: 0 <= j < |c.hooks| && 0 <= l < |c.hooks[j]| ==> MaxNext(c.hooks[j][l]) <= 1) ==>
            |Save(c, w).0.batches| <= |w.batches| + 1
  {
    HookCount(c, w, 0, 0);
    if forall j, l :: 0 <= j < |c.hooks| && 0 <= l < |c.hooks[j]| ==> MaxNext(c.hooks[j][l]) <= 1 {
      LimitOne(c, 0, 0);
    }
  }

  // ----- how the calls nest -----

  /** The hooks entered on the way to hook k of builder i: all those before it. */
  function Open<F>(c: Config<F>, i: nat, k: nat): seq<(nat, nat)>
    requires i < |c.hooks| && k <= |c.hooks[i]|
    decreases i, k
  {
    if k > 0 then Open(c, i, k - 1) + [(i, k - 1)]
    else if i > 0 then Open(c, i - 1, |c.hooks[i - 1]|)
    else []
  }

  /** Reads events against a stack of open hooks; a batch is legal only with every hook open. */
  function Replay<F>(c: Config<F>, events: seq<Event>, stack: seq<(nat, nat)>): Option<seq<(nat, nat)>> {
    if events == [] then Some(stack)
    else
      match events[0]
      case Enter(i, k) => Replay(c, events[1..], stack + [(i, k)])
      case Leave(i, k) =>
        if stack != [] && stack[|stack| - 1] == (i, k) then Replay(c, events[1..], stack[..|stack| - 1]) else None
      case Batch =>
        if c.hooks != [] && stack == Open(c, |c.hooks| - 1, |c.hooks[|c.hooks| - 1]|)
        then Replay(c, events[1..], stack) else None
  }

  lemma {:induction false} ReplayAppend<F>(c: Config<F>, a: seq<Event>, b: seq<Event>, stack: seq<(nat, nat)>)
    requires Replay(c, a, stack).Some?
    ensures Replay(c, a + b, stack) == Replay(c, b, Replay(c, a, stack).value)
    decreases |a|
  {
    if a == [] {
      assert a + b == b;
    } else {
      assert (a + b)[0] == a[0] && (a + b)[1..] == a[1..] + b;
      match a[0]
      case Enter(i, k) => ReplayAppend(c, a[1..], b, stack + [(i, k)]);
      case Leave(_, _) => ReplayAppend(c, a[1..], b, stack[..|stack| - 1]);
      case Batch => ReplayAppend(c, a[1..], b, stack);
    }
  }

  /** The events between two states bring the stack back to where it was. */
  ghost predicate Balanced<F>(c: Config<F>, w: World<F>, w': World<F>, stack: seq<(nat, nat)>) {
    w.trace <= w'.trace && Replay(c, w'.trace[|w.trace|..], stack) == Some(stack)
  }

  lemma BalancedTrans<F>(c: Config<F>, a: World<F>, b: World<F>, d: World<F>, stack: seq<(nat, nat)>)
    requires Balanced(c, a, b, stack) && Balanced(c, b, d, stack)
    ensures Balanced(c, a, d, stack)
  {
    assert d.trace[|a.trace|..] == b.trace[|a.trace|..] + d.trace[|b.trace|..];
    ReplayAppend(c, b.trace[|a.trace|..], d.trace[|b.trace|..], stack);
  }

  /** A hook entered before and left after something balanced is balanced itself. */
  lemma Bracketed<F>(c: Config<F>, w: World<F>, w1: World<F>, i: nat, k: nat, stack: seq<(nat, nat)>)
    requires Balanced(c, Log(w, Enter(i, k)), w1, stack + [(i, k)])
    ensures Balanced(c, w, Log(w1, Leave(i, k)), stack)
  {
    var inner, n := stack + [(i, k)], |w.trace|;
    var mid := w1.trace[n + 1..];
    var events := [Enter(i, k)] + (mid + [Leave(i, k)]);
    assert Log(w1, Leave(i, k)).trace[n..] == events by {
      assert w1.trace[..n + 1] == w.trace + [Enter(i, k)];
    }
    ReplayAppend(c, mid, [Leave(i, k)], inner);
    assert inner[..|inner| - 1] == stack;
    assert Replay(c, [Leave(i, k)], inner) == Some(stack);
    assert events[1..] == mid + [Leave(i, k)];
  }

  lemma {:induction false} BaseNests<F>(c: Config<F>, w: World<F>, i: nat)
    requires Fits(c, w) && i < |c.hooks|
    ensures Balanced(c, w, RunBase(c, w, i).0, Open(c, i, |c.hooks[i]|))
    decreases |c.hooks| - i, 0, 1
  {
    if c.check(w.muts[i].fields) {
      var built := Build(c, w, i);
      if i + 1 < |c.hooks| {
        HookNests(c, built, i + 1, 0);
      } else {
        assert SendBatch(c, built).0.trace[|w.trace|..] == [Batch];
      }
    }
  }

  lemma {:induction false} HookNests<F>(c: Config<F>, w: World<F>, i: nat, k: nat)
    requires Fits(c, w) && i < |c.hooks| && k <= |c.hooks[i]|
    ensures Balanced(c, w, RunHook(c, w, i, k).0, Open(c, i, k))
    decreases |c.hooks| - i, |c.hooks[i]| - k, 2
  {
    if k == |c.hooks[i]| {
      BaseNests(c, w, i);
    } else {
      var w0 := Log(w, Enter(i, k));
      ScriptNests(c, w0, i, k, c.hooks[i][k], NotCalled);
      Bracketed(c, w, RunScript(c, w0, i, k, c.hooks[i][k], NotCalled).0, i, k, Open(c, i, k));
    }
  }

  lemma {:induction false} ScriptNests<F>(c: Config<F>, w: World<F>, i: nat, k: nat, s: Script<F>, last: Outcome)
    requires Fits(c, w) && i < |c.hooks| && k < |c.hooks[i]|
    ensures Balanced(c, w, RunScript(c, w, i, k, s, last).0, Open(c, i, k + 1))
    decreases |c.hooks| - i, |c.hooks[i]| - k, 1, s
  {
    match s {
      case Edit(edit, rest) =>
        ScriptNests(c, EditFields(w, i, edit), i, k, rest, last);
      case Next(onOk, onError) =>
        var (w1, err) := RunHook(c, w, i, k + 1);
        HookNests(c, w, i, k + 1);
        ScriptNests(c, w1, i, k, if err.None? then onOk else onError, Returned(err));
        BalancedTrans(c, w, w1, RunScript(c, w, i, k, s, last).0, Open(c, i, k + 1));
      case _ =>
    }
  }

  /** Calls are properly bracketed, builder by builder and hook by hook, with every batch at the
      innermost point, whatever the hooks do. */
  lemma CallsNest<F>(c: Config<F>, w: World<F>)
    requires Fits(c, w) && w.trace == []
    ensures Replay(c, Save(c, w).0.trace, []) == Some([])
  {
    if |c.hooks| > 0 {
      HookNests(c, w, 0, 0);
      assert Save(c, w).0.trace[0..] == Save(c, w).0.trace;
    }
  }

  // ----- pass-through hooks -----

  predicate PassThrough<F>(s: Script<F>) {
    s == Next(Report, Report)
  }

  /** The hooks from hook k of builder i on, in the order they are entered. */
  function Rest<F>(c: Config<F>, i: nat, k: nat): seq<(nat, nat)>
    requires i < |c.hooks| && k <= |c.hooks[i]|
    decreases |c.hooks| - i, |c.hooks[i]| - k
  {
    if k < |c.hooks[i]| then [(i, k)] + Rest(c, i, k + 1)
    else if i + 1 < |c.hooks| then Rest(c, i + 1, 0)
    else []
  }

  function Enters(hs: seq<(nat, nat)>): seq<Event> {
    seq(|hs|, j requires 0 <= j < |hs| => Enter(hs[j].0, hs[j].1))
  }

  /** In reverse: the last one entered is left first. */
  function Leaves(hs: seq<(nat, nat)>): seq<Event> {
    seq(|hs|, j requires 0 <= j < |hs| => Leave(hs[|hs| - 1 - j].0, hs[|hs| - 1 - j].1))
  }

  lemma OneMoreHook(h: (nat, nat), rest: seq<(nat, nat)>)
    ensures Enters([h] + rest) == [Enter(h.0, h.1)] + Enters(rest)
    ensures Leaves([h] + rest) == Leaves(rest) + [Leave(h.0, h.1)]
  {
  }

  lemma Regroup(t: seq<Event>, enter: Event, ins: seq<Event>, outs: seq<Event>, leave: Event)
    ensures (t + [enter]) + ins + [Batch] + outs + [leave] == t + ([enter] + ins) + [Batch] + (outs + [leave])
  {
  }

  /** A pass-through hook adds its two events to what happens inside it. */
  lemma PassThroughHook<F>(c: Config<F>, w: World<F>, i: nat, k: nat)
    requires Fits(c, w) && i < |c.hooks| && k < |c.hooks[i]| && PassThrough(c.hooks[i][k])
    ensures RunHook(c, w, i, k).0.trace == RunHook(c, Log(w, Enter(i, k)), i, k + 1).0.trace + [Leave(i, k)]
  {
    var w0 := Log(w, Enter(i, k));
    var (w1, err) := RunHook(c, w0, i, k + 1);
    assert RunScript(c, w1, i, k, Report, Returned(err)) == (w1, err);
    assert RunScript(c, w0, i, k, c.hooks[i][k], NotCalled) == (w1, err);
  }

  /** A valid builder adds nothing itself. */
  lemma ValidBase<F>(c: Config<F>, w: World<F>, i: nat)
    requires Fits(c, w) && i < |c.hooks| && c.check(w.muts[i].fields)
    ensures RunHook(c, w, i, |c.hooks[i]|).0.trace ==
            if i + 1 < |c.hooks| then RunHook(c, Build(c, w, i), i + 1, 0).0.trace else w.trace + [Batch]
  {
    assert RunHook(c, w, i, |c.hooks[i]|) == RunBase(c, w, i);
  }

  lemma {:induction false} PassThroughTrace<F>(c: Config<F>, w: World<F>, i: nat, k: nat)
    requires Fits(c, w) && i < |c.hooks| && k <= |c.hooks[i]|
    requires forall j, l :: 0 <= j < |c.hooks| && 0 <= l < |c.hooks[j]| ==> PassThrough(c.hooks[j][l])
    requires forall j :: i <= j < |c.hooks| ==> c.check(w.muts[j].fields)
    ensures var rest := Rest(c, i, k);
            RunHook(c, w, i, k).0.trace == w.trace + Enters(rest) + [Batch] + Leaves(rest)
    decreases |c.hooks| - i, |c.hooks[i]| - k
  {
    if k < |c.hooks[i]| {
      var rest := Rest(c, i, k + 1);
      PassThroughHook(c, w, i, k);
      assert RunHook(c, w, i, k).0.trace ==
             (w.trace + [Enter(i, k)]) + Enters(rest) + [Batch] + Leaves(rest) + [Leave(i, k)] by {
        PassThroughTrace(c, Log(w, Enter(i, k)), i, k + 1);
      }
      OneMoreHook((i, k), rest);
      Regroup(w.trace, Enter(i, k), Enters(Rest(c, i, k + 1)), Leaves(Rest(c, i, k + 1)), Leave(i, k));
    } else {
      ValidBase(c, w, i);
      if i + 1 < |c.hooks| {
        PassThroughTrace(c, Build(c, w, i), i + 1, 0);
      } else {
        assert Enters([]) == [] && Leaves([]) == [];
      }
    }
  }
}
