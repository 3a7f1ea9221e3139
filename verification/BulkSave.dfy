/** The bulk save as the source writes it: closures over shared slices, mutations whose id is a
    pointer into the node they created (backend/ent/account_create.go, AccountCreateBulk.Save). */
module BulkSave {
  import opened Wrappers
  import opened BulkCreate
  import opened BulkSafety
  import opened BulkCompletion
  import opened BulkOutcome

  /** An int64 that can be pointed at. */
  class Cell {
    var value: int

    constructor (value: int)
      ensures this.value == value
    {
      this.value := value;
    }
  }

  class Mutation<F> {
    var fields: F
    var id: Cell?
    var done: bool

    constructor (fields: F, id: Cell?)
      ensures this.fields == fields && this.id == id && !done
    {
      this.fields, this.id, done := fields, id, false;
    }
  }

  /** A node; its `ID` field is the cell mutations point at. */
  class Created<F> {
    const fields: F
    const id: Cell

    constructor (fields: F, id: Cell)
      ensures this.fields == fields && this.id == id
    {
      this.fields, this.id := fields, id;
    }
  }

  class Bulk<!F> {
    const config: Config<F>
    const muts: seq<Mutation<F>>
    const specs: array<Option<Spec<F>>>
    const nodes: array<Created?<F>>
    /** The batches the database received. */
    var sent: seq<seq<Option<Spec<F>>>>
    ghost var trace: seq<Event>

    /** No two builders share a mutation, a node's id or a pointed-at id. */
    ghost predicate Separate()
      reads *
    {
      |muts| == |config.hooks| && specs.Length == |config.hooks| && nodes.Length == |config.hooks| &&
      (forall i, j :: 0 <= i < j < |muts| ==> muts[i] != muts[j]) &&
      (forall i, j :: 0 <= i < |muts| && 0 <= j < |muts| && i != j ==>
        (nodes[i] != null && nodes[j] != null ==> nodes[i].id != nodes[j].id) &&
        (muts[i].id != null && nodes[j] != null ==> muts[i].id != nodes[j].id) &&
        (muts[i].id != null && muts[j].id != null ==> muts[i].id != muts[j].id))
    }

    ghost function MutAt(i: nat): Mut<F>
      requires i < |muts|
      reads *
    {
      Mut(muts[i].fields, if muts[i].id == null then None else Some(muts[i].id.value), muts[i].done)
    }

    ghost function NodeAt(i: nat): Option<Node<F>>
      requires i < nodes.Length
      reads *
    {
      if nodes[i] == null then None else Some(Node(nodes[i].fields, nodes[i].id.value))
    }

    /** The heap shows the given state of the protocol. */
    ghost predicate Shows(w: World<F>)
      reads *
    {
      Separate() && Fits(config, w) && w.batches == sent && w.trace == trace &&
      (forall i :: 0 <= i < |muts| ==> w.muts[i] == MutAt(i)) &&
      (forall i :: 0 <= i < |muts| ==> w.specs[i] == specs[i]) &&
      (forall i :: 0 <= i < |muts| ==> w.nodes[i] == NodeAt(i))
    }

    constructor (config: Config<F>, muts: seq<Mutation<F>>)
      requires |muts| == |config.hooks|
      requires forall i, j :: 0 <= i < j < |muts| ==> muts[i] != muts[j]
      requires forall i, j :: 0 <= i < j < |muts| && muts[i].id != null && muts[j].id != null ==>
        muts[i].id != muts[j].id
      ensures this.config == config && this.muts == muts && fresh(specs) && fresh(nodes)
      ensures Separate() && sent == [] && trace == []
      ensures forall i :: 0 <= i < |muts| ==> specs[i] == None && nodes[i] == null
    {
      this.config, this.muts := config, muts;
      specs := new Option<Spec<F>>[|muts|](_ => None);
      nodes := new Created?<F>[|muts|](_ => null);
      sent, trace := [], [];
    }

    ghost method Record(w: World<F>, e: Event)
      requires Shows(w)
      modifies this`trace
      ensures Shows(Log(w, e))
    {
      trace := trace + [e];
    }

    method Edit(ghost w: World<F>, i: nat, edit: F -> F)
      requires Shows(w) && i < |muts|
      modifies muts
      ensures Shows(EditFields(w, i, edit))
      ensures forall j :: 0 <= j < nodes.Length ==> nodes[j] == old(nodes[j])
    {
      muts[i].fields := edit(muts[i].fields);
    }

    method NewNode(i: nat) returns (node: Created<F>, start: Option<int>)
      requires i < |muts|
      ensures fresh(node) && fresh(node.id) && node.fields == muts[i].fields
      ensures start == StartID(config, MutAt(i)) && node.id.value == start.GetOr(0)
    {
      start := None;
      if config.callerIDs && muts[i].id != null {
        start := Some(muts[i].id.value);
      }
      var id := new Cell(start.GetOr(0));
      node := new Created(muts[i].fields, id);
    }

    method CreateSpec(ghost w: World<F>, i: nat)
      requires Shows(w) && i < |muts|
      modifies specs, nodes
      ensures Shows(Build(config, w, i))
      ensures nodes[i] != null && fresh(nodes[i]) && fresh(nodes[i].id)
      ensures forall j :: 0 <= j < nodes.Length && j != i ==> nodes[j] == old(nodes[j])
    {
      var node, start := NewNode(i);
      nodes[i], specs[i] := node, Some(Spec(node.fields, start));
      assert forall j :: 0 <= j < |muts| ==> MutAt(j) == old(MutAt(j));
      assert forall j :: 0 <= j < |muts| && j != i ==> NodeAt(j) == old(NodeAt(j));
    }

    method BatchCreate(ghost w: World<F>) returns (err: Option<Error>)
      requires Shows(w)
      modifies this, specs
      ensures Shows(SendBatch(config, w).0) && err == SendBatch(config, w).1
      ensures forall j :: 0 <= j < nodes.Length ==> nodes[j] == old(nodes[j])
    {
      var answer := config.db(|sent|);
      sent := sent + [specs[..]];
      trace := trace + [Batch];
      assert w.specs == old(specs[..]);
      match answer {
        case Refused(code, constraint) =>
          return Some(if constraint then ConstraintError(code) else DatabaseError(code));
        case Inserted(ids) =>
          for j := 0 to specs.Length
            modifies specs
            invariant forall l :: 0 <= l < j ==> specs[l] == WithID(w.specs[l], ids(l))
            invariant forall l :: j <= l < specs.Length ==> specs[l] == w.specs[l]
          {
            if specs[j].Some? && ids(j).Some? {
              specs[j] := Some(specs[j].value.(id := ids(j)));
            }
          }
          return None;
      }
    }

    /** `mutation.id = &nodes[i].ID` comes before the id is written through the node. */
    method Finish(ghost w: World<F>, i: nat)
      requires Shows(w) && i < |muts| && nodes[i] != null && specs[i].Some?
      modifies muts[i], nodes[i].id
      ensures Shows(Complete(config, w, i))
      ensures forall j :: 0 <= j < nodes.Length ==> nodes[j] == old(nodes[j])
    {
      muts[i].id := nodes[i].id;
      if specs[i].value.id.Some? && !(config.callerIDs && nodes[i].id.value != 0) {
        nodes[i].id.value := specs[i].value.id.value;
      }
      muts[i].done := true;
      assert forall j :: 0 <= j < |muts| && j != i ==> MutAt(j) == old(MutAt(j));
      assert forall j :: 0 <= j < |muts| && j != i ==> NodeAt(j) == old(NodeAt(j));
      assert MutAt(i) == Complete(config, w, i).muts[i] && NodeAt(i) == Complete(config, w, i).nodes[i];
    }

    /** Mutator i from its hook k on. */
    method Mutate(ghost w: World<F>, i: nat, k: nat) returns (err: Option<Error>)
      requires Shows(w) && i < |config.hooks| && k <= |config.hooks[i]|
      modifies this, specs, nodes, muts
      ensures Shows(RunHook(config, w, i, k).0) && err == RunHook(config, w, i, k).1
      ensures forall j :: 0 <= j < i ==> nodes[j] == old(nodes[j])
      decreases |config.hooks| - i, |config.hooks[i]| - k, 2
    {
      if k == |config.hooks[i]| {
        err := Closure(w, i);
      } else {
        Record(w, Enter(i, k));
        ghost var w0 := Log(w, Enter(i, k));
        err := Interpret(w0, i, k, config.hooks[i][k], NotCalled);
        Record(RunScript(config, w0, i, k, config.hooks[i][k], NotCalled).0, Leave(i, k));
      }
    }

    method Interpret(ghost w: World<F>, i: nat, k: nat, s: Script<F>, last: Outcome) returns (err: Option<Error>)
      requires Shows(w) && i < |config.hooks| && k < |config.hooks[i]|
      modifies this, specs, nodes, muts
      ensures Shows(RunScript(config, w, i, k, s, last).0) && err == RunScript(config, w, i, k, s, last).1
      ensures forall j :: 0 <= j < i ==> nodes[j] == old(nodes[j])
      decreases |config.hooks| - i, |config.hooks[i]| - k, 1, s
    {
      match s {
        case Fail(code) => return Some(HookError(code));
        case Succeed => return None;
        case Report => return if last.Returned? then last.err else None;
        case Edit(edit, rest) =>
          Edit(w, i, edit);
          err := Interpret(EditFields(w, i, edit), i, k, rest, last);
        case Next(onOk, onError) =>
          var inner := Mutate(w, i, k + 1);
          ghost var w1 := RunHook(config, w, i, k + 1).0;
          err := Interpret(w1, i, k, if inner.None? then onOk else onError, Returned(inner));
      }
    }

    /** What the closure of builder i calls. */
    method CallRest(ghost w: World<F>, i: nat) returns (err: Option<Error>)
      requires Shows(w) && i < |config.hooks|
      modifies this, specs, nodes, muts
      ensures Shows(RunRest(config, w, i).0) && err == RunRest(config, w, i).1
      ensures forall j :: 0 <= j <= i ==> nodes[j] == old(nodes[j])
      decreases |config.hooks| - i, 0, 0
    {
      if i + 1 < |config.hooks| {
        err := Mutate(w, i + 1, 0);
      } else {
        err := BatchCreate(w);
      }
    }

    /** The closure of builder i. */
    method Closure(ghost w: World<F>, i: nat) returns (err: Option<Error>)
      requires Shows(w) && i < |config.hooks|
      modifies this, specs, nodes, muts
      ensures Shows(RunBase(config, w, i).0) && err == RunBase(config, w, i).1
      ensures forall j :: 0 <= j < i ==> nodes[j] == old(nodes[j])
      decreases |config.hooks| - i, 0, 1
    {
      if !config.check(muts[i].fields) {
        return Some(InvalidBuilder(i));
      }
      CreateSpec(w, i);
      ghost var built := Build(config, w, i);
      err := CallRest(built, i);
      if err == None {
        ghost var w1 := RunRest(config, built, i).0;
        assert SameFields(built.specs[i], w1.specs[i]);
        Finish(w1, i);
      }
    }

    /** One save of all builders. */
    method Save(ghost w: World<F>) returns (err: Option<Error>)
      requires Shows(w)
      modifies this, specs, nodes, muts
      ensures Shows(BulkCreate.Save(config, w).0) && err == BulkCreate.Save(config, w).1
    {
      if |config.hooks| > 0 {
        err := Mutate(w, 0, 0);
      } else {
        err := None;
      }
    }
  }

  /** What one builder's mutation is before the save, as the caller made it. */
  ghost predicate Given<F>(muts: seq<Mutation<F>>, before: seq<Mut<F>>)
    reads muts, set m | m in muts && m.id != null :: m.id
  {
    |before| == |muts| &&
    forall i :: 0 <= i < |muts| ==>
      !muts[i].done &&
      before[i] == Mut(muts[i].fields, if muts[i].id == null then None else Some(muts[i].id.value), false)
  }

  /** The fields of every builder once its own defaults have run. */
  function Filled<F>(before: seq<Mut<F>>, defaults: (nat, F) -> F): (fields: seq<F>)
    ensures |fields| == |before|
    ensures forall j :: 0 <= j < |before| ==> fields[j] == defaults(j, before[j].fields)
  {
    seq(|before|, j requires 0 <= j < |before| => defaults(j, before[j].fields))
  }

  /** The state when the first mutator is called: defaults are in, nothing is built. */
  function Initial<F>(muts: seq<Mut<F>>, defaults: (nat, F) -> F): World<F> {
    World(seq(|muts|, i requires 0 <= i < |muts| => muts[i].(fields := defaults(i, muts[i].fields), done := false)),
          seq(|muts|, _ => None), seq(|muts|, _ => None), [], [])
  }

  /** For each builder a spec of its fields, which pass the check. */
  ghost predicate SpecsOf<F>(config: Config<F>, fields: seq<F>, batch: seq<Option<Spec<F>>>) {
    |batch| == |fields| &&
    forall j :: 0 <= j < |fields| ==>
      batch[j].Some? && batch[j].value.fields == fields[j] && config.check(fields[j])
  }

  /** Every batch has for each builder a spec of its filled fields. */
  ghost predicate SendsFilled<F>(bulk: Bulk<F>, fields: seq<F>)
    reads bulk
  {
    forall n :: 0 <= n < |bulk.sent| ==> SpecsOf(bulk.config, fields, bulk.sent[n])
  }

  /** Every builder has a node with its filled fields, and its mutation is done and points at its id. */
  ghost predicate CreatesFilled<F>(bulk: Bulk<F>, fields: seq<F>)
    reads *
  {
    bulk.nodes.Length == |fields| == |bulk.muts| &&
    forall j :: 0 <= j < |fields| ==>
      bulk.nodes[j] != null && bulk.nodes[j].fields == fields[j] && bulk.muts[j].done &&
      bulk.muts[j].id != null && bulk.muts[j].id.value == bulk.nodes[j].id.value
  }

  lemma InitialShows<F>(config: Config<F>, before: seq<Mut<F>>, defaults: (nat, F) -> F)
    requires |before| == |config.hooks|
    ensures Fits(config, Initial(before, defaults)) && FieldsOf(Initial(before, defaults)) == Filled(before, defaults)
  {
  }

  lemma ShownSends<F>(bulk: Bulk<F>, before: seq<Mut<F>>, defaults: (nat, F) -> F)
    requires |before| == |bulk.config.hooks| && NoEdits(bulk.config)
    requires bulk.Shows(BulkCreate.Save(bulk.config, Initial(before, defaults)).0)
    ensures SendsFilled(bulk, Filled(before, defaults))
  {
    var w := Initial(before, defaults);
    BatchesAreComplete(bulk.config, w);
    forall n | 0 <= n < |bulk.sent| ensures SpecsOf(bulk.config, Filled(before, defaults), bulk.sent[n]) {
      assert GoodBatch(bulk.config, bulk.sent[n]) && BulkSafety.HasFields(bulk.sent[n], w);
    }
  }

  lemma ShownCreates<F>(bulk: Bulk<F>, before: seq<Mut<F>>, defaults: (nat, F) -> F)
    requires |before| == |bulk.config.hooks| && NoEdits(bulk.config) && AllHonest(bulk.config)
    requires bulk.Shows(BulkCreate.Save(bulk.config, Initial(before, defaults)).0)
    requires BulkCreate.Save(bulk.config, Initial(before, defaults)).1 == None
    ensures CreatesFilled(bulk, Filled(before, defaults))
  {
    var w := Initial(before, defaults);
    var w' := BulkCreate.Save(bulk.config, w).0;
    SaveMirrors(bulk.config, w);
    if |before| > 0 {
      DoneIsSuffix(bulk.config, w);
      forall j: nat | j < |before|
        ensures bulk.nodes[j] != null && bulk.nodes[j].fields == Filled(before, defaults)[j] && bulk.muts[j].done &&
                bulk.muts[j].id != null && bulk.muts[j].id.value == bulk.nodes[j].id.value
      {
        assert Finished(bulk.config, w', j);
        assert w'.muts[j] == bulk.MutAt(j) && w'.nodes[j] == bulk.NodeAt(j);
      }
    }
  }

  /** What the shown state says of the filled fields. */
  lemma ShownSave<F>(bulk: Bulk<F>, before: seq<Mut<F>>, defaults: (nat, F) -> F, err: Option<Error>)
    requires |before| == |bulk.config.hooks|
    requires bulk.Shows(BulkCreate.Save(bulk.config, Initial(before, defaults)).0)
    requires err == BulkCreate.Save(bulk.config, Initial(before, defaults)).1
    ensures NoEdits(bulk.config) ==> SendsFilled(bulk, Filled(before, defaults))
    ensures AllPass(bulk.config) && |before| > 0 ==>
      PassResult(bulk.config, Filled(before, defaults), 0, 0, |bulk.sent|, err)
    ensures err == None && NoEdits(bulk.config) && AllHonest(bulk.config) ==>
      CreatesFilled(bulk, Filled(before, defaults))
  {
    InitialShows(bulk.config, before, defaults);
    if NoEdits(bulk.config) {
      ShownSends(bulk, before, defaults);
      if AllHonest(bulk.config) && err == None {
        ShownCreates(bulk, before, defaults);
      }
    }
    if AllPass(bulk.config) && |before| > 0 {
      SaveOutcome(bulk.config, Initial(before, defaults));
    }
  }

  /** A whole bulk save: the error the builder was created with, if any; otherwise the defaults of every
      builder and then the chain of mutators. Only a save without error returns its nodes. */
  method SaveAll<F>(stored: Option<Error>, config: Config<F>, muts: seq<Mutation<F>>, defaults: (nat, F) -> F,
                    ghost before: seq<Mut<F>>)
    returns (bulk: Bulk?<F>, nodes: array?<Created?<F>>, err: Option<Error>)
    requires |muts| == |config.hooks| && Given(muts, before)
    requires forall i, j :: 0 <= i < j < |muts| ==> muts[i] != muts[j]
    requires forall i, j :: 0 <= i < j < |muts| && muts[i].id != null && muts[j].id != null ==> muts[i].id != muts[j].id
    modifies if stored.Some? then [] else muts
    ensures bulk == null <==> stored.Some?
    ensures bulk != null ==>
      bulk.config == config && bulk.muts == muts && bulk.Shows(BulkCreate.Save(config, Initial(before, defaults)).0)
    ensures err == if stored.Some? then stored else BulkCreate.Save(config, Initial(before, defaults)).1
    ensures nodes == if err == None then bulk.nodes else null
    ensures bulk != null && NoEdits(config) ==> SendsFilled(bulk, Filled(before, defaults))
    ensures bulk != null && AllPass(config) && |muts| > 0 ==>
      PassResult(config, Filled(before, defaults), 0, 0, |bulk.sent|, err)
    ensures err == None && NoEdits(config) && AllHonest(config) ==> CreatesFilled(bulk, Filled(before, defaults))
  {
    if stored.Some? {
      return null, null, stored;
    }
    for i := 0 to |muts|
      invariant forall j :: 0 <= j < |muts| ==> muts[j].id == old(muts[j].id) && !muts[j].done
      invariant forall j :: 0 <= j < i ==> muts[j].fields == defaults(j, before[j].fields)
      invariant forall j :: i <= j < |muts| ==> muts[j].fields == before[j].fields
    {
      muts[i].fields := defaults(i, muts[i].fields);
    }
    bulk := new Bulk(config, muts);
    err := bulk.Save(Initial(before, defaults));
    nodes := if err == None then bulk.nodes else null;
    ShownSave(bulk, before, defaults, err);
  }
}
