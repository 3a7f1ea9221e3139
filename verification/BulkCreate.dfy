/** The nested protocol of a bulk save (backend/ent/account_create.go, AccountCreateBulk.Save and
    backend/ent/authfederatedidentity_create.go for builders with caller-supplied ids): what one
    run does to the shared slices, as a function of the hooks and of the database's answers. */
module BulkCreate {
  import opened Wrappers

  datatype Error =
    | BadInput | InvalidBuilder(builder: nat)
    | HookError(code: int) | ConstraintError(code: int) | DatabaseError(code: int)

  /** What a user hook does: it may edit its mutation, call the next mutator any number of times,
      look at each outcome, and then fail, succeed or report the last outcome. */
  datatype Script<!F> =
    | Fail(code: int)
    | Succeed
    | Report
    | Edit(edit: F -> F, rest: Script<F>)
    | Next(onOk: Script<F>, onError: Script<F>)

  /** The last call to the next mutator, as the hook sees it. */
  datatype Outcome = NotCalled | Returned(err: Option<Error>)

  datatype Mut<F> = Mut(fields: F, id: Option<int>, done: bool)
  datatype Spec<F> = Spec(fields: F, id: Option<int>)
  datatype Node<F> = Node(fields: F, id: int)

  datatype BatchResult = Refused(code: int, constraint: bool) | Inserted(ids: nat -> Option<int>)

  datatype Event = Enter(builder: nat, hook: nat) | Leave(builder: nat, hook: nat) | Batch

  /** Hooks of each builder, outermost first; validity of a builder's fields; whether the entity's
      id may be set by the caller; and the answer of the database to its n-th batch. */
  datatype Config<!F> = Config(hooks: seq<seq<Script<F>>>, check: F -> bool, callerIDs: bool, db: nat -> BatchResult)

  /** The mutations and the slices the closures share, with the batches sent and the calls made. */
  datatype World<F> = World(
    muts: seq<Mut<F>>, specs: seq<Option<Spec<F>>>, nodes: seq<Option<Node<F>>>,
    batches: seq<seq<Option<Spec<F>>>>, trace: seq<Event>)

  predicate Fits<F>(c: Config<F>, w: World<F>) {
    |w.muts| == |c.hooks| && |w.specs| == |c.hooks| && |w.nodes| == |c.hooks|
  }

  // ----- single steps -----

  function Log<F>(w: World<F>, e: Event): World<F> {
    w.(trace := w.trace + [e])
  }

  function EditFields<F>(w: World<F>, i: nat, edit: F -> F): World<F>
    requires i < |w.muts|
  {
    w.(muts := w.muts[i := w.muts[i].(fields := edit(w.muts[i].fields))])
  }

  /** The id `createSpec` starts from: the mutation's own where the caller may set it. */
  function StartID<F>(c: Config<F>, m: Mut<F>): Option<int> {
    if c.callerIDs then m.id else None
  }

  /** `nodes[i], specs[i] = builder.createSpec()`. */
  function Build<F>(c: Config<F>, w: World<F>, i: nat): World<F>
    requires Fits(c, w) && i < |c.hooks|
  {
    var m := w.muts[i];
    var id := StartID(c, m);
    w.(specs := w.specs[i := Some(Spec(m.fields, id))], nodes := w.nodes[i := Some(Node(m.fields, id.GetOr(0)))])
  }

  ghost predicate SameFields<F>(a: Option<Spec<F>>, b: Option<Spec<F>>) {
    a.Some? == b.Some? && (a.Some? ==> a.value.fields == b.value.fields)
  }

  /** Builders before i are out of reach, except that a batch may give their specs an id. */
  ghost predicate Before<F>(w: World<F>, w': World<F>, i: nat) {
    |w'.muts| == |w.muts| && |w'.nodes| == |w.nodes| && |w'.specs| == |w.specs| &&
    i <= |w.muts| && i <= |w.nodes| && i <= |w.specs| &&
    (forall j :: 0 <= j < i ==> w'.muts[j] == w.muts[j] && w'.nodes[j] == w.nodes[j]) &&
    (forall j :: 0 <= j < i ==> SameFields(w.specs[j], w'.specs[j]))
  }

  function WithID<F>(s: Option<Spec<F>>, id: Option<int>): Option<Spec<F>> {
    if s.Some? && id.Some? then Some(s.value.(id := id)) else s
  }

  function WithIDs<F>(specs: seq<Option<Spec<F>>>, ids: nat -> Option<int>): (r: seq<Option<Spec<F>>>)
    ensures |r| == |specs| && forall j :: 0 <= j < |r| ==> r[j] == WithID(specs[j], ids(j))
  {
    seq(|specs|, j requires 0 <= j < |specs| => WithID(specs[j], ids(j)))
  }

  /** `sqlgraph.BatchCreate`: one call with all specs, which get the database's ids. */
  function SendBatch<F>(c: Config<F>, w: World<F>): (r: (World<F>, Option<Error>))
    requires Fits(c, w)
    ensures Fits(c, r.0) && Before(w, r.0, |c.hooks|)
  {
    var sent := w.(batches := w.batches + [w.specs], trace := w.trace + [Batch]);
    match c.db(|w.batches|)
    case Refused(code, constraint) => (sent, Some(if constraint then ConstraintError(code) else DatabaseError(code)))
    case Inserted(ids) => (sent.(specs := WithIDs(w.specs, ids)), None)
  }

  /** The id a node ends with: the spec's, unless the caller supplied a non-zero one. */
  function FinalID<F>(c: Config<F>, nodeID: int, specID: Option<int>): int {
    if specID.Some? && !(c.callerIDs && nodeID != 0) then specID.value else nodeID
  }

  /** What a successful closure writes while unwinding. */
  function Complete<F>(c: Config<F>, w: World<F>, i: nat): World<F>
    requires Fits(c, w) && i < |c.hooks|
    requires w.specs[i].Some? && w.nodes[i].Some?
  {
    var id := FinalID(c, w.nodes[i].value.id, w.specs[i].value.id);
    w.(nodes := w.nodes[i := Some(w.nodes[i].value.(id := id))],
       muts := w.muts[i := w.muts[i].(id := Some(id), done := true)])
  }

  // ----- the run -----

  /** Mutator i from its hook k on. */
  function RunHook<F>(c: Config<F>, w: World<F>, i: nat, k: nat): (r: (World<F>, Option<Error>))
    requires Fits(c, w) && i < |c.hooks| && k <= |c.hooks[i]|
    ensures Fits(c, r.0) && Before(w, r.0, i)
    decreases |c.hooks| - i, |c.hooks[i]| - k, 2
  {
    if k == |c.hooks[i]| then RunBase(c, w, i)
    else
      var (w1, err) := RunScript(c, Log(w, Enter(i, k)), i, k, c.hooks[i][k], NotCalled);
      (Log(w1, Leave(i, k)), err)
  }

  /** The rest of the script of hook k of builder i. */
  function RunScript<F>(c: Config<F>, w: World<F>, i: nat, k: nat, s: Script<F>, last: Outcome): (r: (World<F>,
                        Option<Error>))
    requires Fits(c, w) && i < |c.hooks| && k < |c.hooks[i]|
    ensures Fits(c, r.0) && Before(w, r.0, i)
    decreases |c.hooks| - i, |c.hooks[i]| - k, 1, s
  {
    match s
    case Fail(code) => (w, Some(HookError(code)))
    case Succeed => (w, None)
    case Report => (w, if last.Returned? then last.err else None)
    case Edit(edit, rest) => RunScript(c, EditFields(w, i, edit), i, k, rest, last)
    case Next(onOk, onError) =>
      var (w1, err) := RunHook(c, w, i, k + 1);
      RunScript(c, w1, i, k, if err.None? then onOk else onError, Returned(err))
  }

  /** What builder i calls from inside its closure: the next builder's mutator, or the batch. */
  function RunRest<F>(c: Config<F>, w: World<F>, i: nat): (r: (World<F>, Option<Error>))
    requires Fits(c, w) && i < |c.hooks|
    ensures Fits(c, r.0) && Before(w, r.0, i + 1)
    decreases |c.hooks| - i, 0, 0
  {
    if i + 1 < |c.hooks| then RunHook(c, w, i + 1, 0) else SendBatch(c, w)
  }

  /** The closure of builder i, inside all its hooks. */
  function RunBase<F>(c: Config<F>, w: World<F>, i: nat): (r: (World<F>, Option<Error>))
    requires Fits(c, w) && i < |c.hooks|
    ensures Fits(c, r.0) && Before(w, r.0, i)
    decreases |c.hooks| - i, 0, 1
  {
    if !c.check(w.muts[i].fields) then (w, Some(InvalidBuilder(i)))
    else
      var built := Build(c, w, i);
      var (w1, err) := RunRest(c, built, i);
      if err.Some? then (w1, err)
      else
        assert SameFields(built.specs[i], w1.specs[i]) && w1.nodes[i] == built.nodes[i];
        (Complete(c, w1, i), None)
  }

  function Save<F>(c: Config<F>, w: World<F>): (World<F>, Option<Error>)
    requires Fits(c, w)
  {
    if |c.hooks| == 0 then (w, None) else RunHook(c, w, 0, 0)
  }
}
