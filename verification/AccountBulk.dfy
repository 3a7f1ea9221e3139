/** Saving accounts in bulk: exactly which builders are accepted, and what is then sent and created
    (backend/ent/account_create.go, AccountCreateBulk.Save, defaults and check). */
module AccountBulk {
  import opened Wrappers
  import opened Account
  import opened AccountCreate
  import BulkCreate
  import BulkSafety
  import BulkCompletion
  import BulkOutcome
  import BulkSave

  /** Every provider that the mutation needs is there. */
  predicate Provided(m: Mutation, rt: Runtime) {
    (m.createdAt.Some? || rt.createdAt.Some?) && (m.updatedAt.Some? || rt.updatedAt.Some?) &&
    (m.credentials.Some? || rt.credentials.Some?) && (m.extra.Some? || rt.extra.Some?)
  }

  /** What an account's caller must supply: a name, a platform and a type; what is given, and the default
      status, must be valid. */
  predicate Acceptable(m: Mutation, rt: Runtime, v: Validators) {
    Provided(m, rt) &&
    m.name.Some? && v.name(m.name.value) &&
    m.platform.Some? && v.platform(m.platform.value) &&
    m.typ.Some? && v.typ(m.typ.value) &&
    v.status(m.status.GetOr("active")) &&
    (m.sessionWindowStatus.Some? ==> v.sessionWindowStatus(m.sessionWindowStatus.value))
  }

  lemma AcceptedExactly(m: Mutation, rt: Runtime, v: Validators)
    ensures Check(Defaults(m, rt).0, v) == None <==> Acceptable(m, rt, v)
  {
    if Defaults(m, rt).1.Some? {
      FailedDefaultsFailCheck(m, rt, v);
    } else {
      DefaultsThenCheck(m, rt, v);
    }
  }

  /** The defaults of builder i, whose providers may give other values than those of another. */
  function DefaultsOf(rts: seq<Runtime>): (nat, Mutation) -> Mutation {
    (i: nat, m: Mutation) => if i < |rts| then Defaults(m, rts[i]).0 else m
  }

  function Accounts(hooks: seq<seq<BulkCreate.Script<Mutation>>>, v: Validators, db: nat -> BulkCreate.BatchResult)
    : BulkCreate.Config<Mutation>
  {
    BulkCreate.Config(hooks, m => Check(m, v) == None, false, db)
  }

  /** With pass-through hooks and a database that accepts the batch, saving accounts succeeds exactly when
      every builder is acceptable; then one batch has been sent and every account is created with its
      defaults. Otherwise nothing is sent. */
  method SaveAccounts(ms: seq<BulkSave.Mutation<Mutation>>, hooks: seq<seq<BulkCreate.Script<Mutation>>>,
                      rts: seq<Runtime>, v: Validators, db: nat -> BulkCreate.BatchResult,
                      ghost before: seq<BulkCreate.Mut<Mutation>>)
    returns (bulk: BulkSave.Bulk<Mutation>, nodes: array?<BulkSave.Created?<Mutation>>, err: Option<BulkCreate.Error>)
    requires |ms| == |hooks| == |rts| > 0 && BulkSave.Given(ms, before)
    requires forall i, j :: 0 <= i < j < |ms| ==> ms[i] != ms[j]
    requires forall i, j :: 0 <= i < j < |ms| && ms[i].id != null && ms[j].id != null ==> ms[i].id != ms[j].id
    requires BulkOutcome.AllPass(Accounts(hooks, v, db))
    modifies ms
    ensures db(0).Inserted? ==>
      (err == None <==> forall j :: 0 <= j < |ms| ==> Acceptable(before[j].fields, rts[j], v))
    ensures bulk.sent == [] <==> exists j :: 0 <= j < |ms| && !Acceptable(before[j].fields, rts[j], v)
    ensures forall n, j :: 0 <= n < |bulk.sent| && 0 <= j < |ms| ==>
      |bulk.sent[n]| == |ms| && bulk.sent[n][j].Some? &&
      bulk.sent[n][j].value.fields == Defaults(before[j].fields, rts[j]).0
    ensures err == None ==>
      nodes != null && nodes.Length == |ms| &&
      forall j :: 0 <= j < |ms| ==> nodes[j] != null && nodes[j].fields == Defaults(before[j].fields, rts[j]).0
  {
    var config := Accounts(hooks, v, db);
    PassIsPlain(config);
    var saved;
    saved, nodes, err := BulkSave.SaveAll(None, config, ms, DefaultsOf(rts), before);
    bulk := saved;
    ghost var fields := BulkSave.Filled(before, DefaultsOf(rts));
    FilledAccounts(before, rts, v);
    BulkOutcome.PassMeans(config, fields, 0, 0, |bulk.sent|, err);
  }

  lemma FilledAccounts(before: seq<BulkCreate.Mut<Mutation>>, rts: seq<Runtime>, v: Validators)
    requires |rts| == |before|
    ensures var fields := BulkSave.Filled(before, DefaultsOf(rts));
            forall j :: 0 <= j < |before| ==>
              fields[j] == Defaults(before[j].fields, rts[j]).0 &&
              (Check(fields[j], v) == None <==> Acceptable(before[j].fields, rts[j], v))
  {
    forall j | 0 <= j < |before| { AcceptedExactly(before[j].fields, rts[j], v); }
  }

  lemma PassIsPlain<F>(c: BulkCreate.Config<F>)
    requires BulkOutcome.AllPass(c)
    ensures BulkSafety.NoEdits(c) && BulkCompletion.AllHonest(c)
  {
    forall i, k | 0 <= i < |c.hooks| && 0 <= k < |c.hooks[i]|
      ensures BulkSafety.EditFree(c.hooks[i][k]) && BulkCompletion.Honest(c.hooks[i][k])
    {
      assert BulkSafety.PassThrough(c.hooks[i][k]);
    }
  }
}
