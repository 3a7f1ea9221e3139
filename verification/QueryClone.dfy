/** The query builder as heap objects: slices with shared backing arrays, a context object and a
    tree of edge queries, and what Clone copies of them (backend/ent/account_query.go). */
module QueryClone {
  import opened Wrappers

  /** Predicates, orderings, interceptors and modifiers are opaque. */
  type Code = int

  /** A Go slice: a backing array and a length; the array may be longer. */
  datatype Slice<T> = Slice(buf: array<T>, len: nat)

  ghost predicate Fits<T>(s: Slice<T>)
    reads s.buf
  {
    s.len <= s.buf.Length
  }

  ghost function Items<T>(s: Slice<T>): seq<T>
    requires Fits(s)
    reads s.buf
  {
    s.buf[..s.len]
  }

  /** `append`: in place when the backing array has room, into a larger copy when it has not. */
  method Append<T(0)>(s: Slice<T>, xs: seq<T>) returns (r: Slice<T>)
    requires Fits(s)
    modifies s.buf
    ensures Fits(r) && Items(r) == old(Items(s)) + xs
    ensures r.buf == s.buf || fresh(r.buf)
  {
    var n := s.len + |xs|;
    if n <= s.buf.Length {
      r := Slice(s.buf, n);
    } else {
      var buf := new T[2 * n];
      r := Slice(buf, n);
      for k := 0 to s.len
        invariant fresh(r.buf) && r.buf.Length == 2 * n && s.buf[..] == old(s.buf[..])
        invariant r.buf[..k] == s.buf[..k]
      {
        r.buf[k] := s.buf[k];
      }
    }
    for k := 0 to |xs|
      invariant Fits(r) && r.buf[..s.len + k] == old(Items(s)) + xs[..k]
    {
      r.buf[s.len + k] := xs[k];
    }
  }

  method Empty<T(0)>() returns (r: Slice<T>)
    ensures Fits(r) && fresh(r.buf) && Items(r) == []
  {
    var buf := new T[0];
    r := Slice(buf, 0);
  }

  /** `append([]T{}, s...)`: a copy with a backing array of its own. */
  method Copy<T(0)>(s: Slice<T>) returns (r: Slice<T>)
    requires Fits(s)
    ensures Fits(r) && fresh(r.buf) && Items(r) == Items(s)
  {
    r := Empty();
    r := Append(r, s.buf[..s.len]);
  }

  /** `append([]T{x}, xs...)`. */
  method Listed<T(0)>(x: T, xs: seq<T>) returns (r: Slice<T>)
    ensures Fits(r) && fresh(r.buf) && Items(r) == [x] + xs
  {
    r := Empty();
    r := Append(r, [x]);
    r := Append(r, xs);
  }

  // ----- what a query is -----

  /** Everything a query holds; its result is a function of this. */
  datatype Model = Model(
    postgres: bool, fields: seq<string>, limit: Option<int>, offset: Option<int>, unique: Option<bool>,
    order: seq<Code>, inters: seq<Code>, predicates: seq<Code>, edges: map<string, Model>,
    modifiers: seq<Code>, sql: Option<Code>, path: Option<Code>)

  /** The query a client starts. */
  function NewModel(postgres: bool, inters: seq<Code>): Model {
    Model(postgres, [], None, None, None, [], inters, [], map[], [], None, None)
  }

  /** The builder calls; `With` configures a new edge query by further calls. */
  datatype Call =
    | Where(ps: seq<Code>)
    | Limit(limit: int)
    | Offset(offset: int)
    | Unique(unique: bool)
    | Order(os: seq<Code>)
    | Select(fields: seq<string>)
    | GroupBy(field: string, fields: seq<string>)
    | Lock(modifier: Code)
    | With(edge: string, inters: seq<Code>, opts: seq<Call>)

  function Step(m: Model, c: Call): Model
    requires !c.With?
  {
    match c
    case Where(ps) => m.(predicates := m.predicates + ps)
    case Limit(limit) => m.(limit := Some(limit))
    case Offset(offset) => m.(offset := Some(offset))
    case Unique(unique) => m.(unique := Some(unique))
    case Order(os) => m.(order := m.order + os)
    case Select(fields) => m.(fields := m.fields + fields)
    case GroupBy(field, fields) => m.(fields := [field] + fields)
    case Lock(x) => (if m.postgres then m.(unique := Some(false)) else m).(modifiers := m.modifiers + [x])
  }

  function Applied(m: Model, calls: seq<Call>): Model
    decreases calls
  {
    if calls == [] then m
    else
      var c := calls[0];
      var next := if c.With? then m.(edges := m.edges[c.edge := Applied(NewModel(m.postgres, c.inters), c.opts)])
                  else Step(m, c);
      Applied(next, calls[1..])
  }

  /** The effect of one call. */
  function After(m: Model, c: Call): Model {
    if c.With? then m.(edges := m.edges[c.edge := Applied(NewModel(m.postgres, c.inters), c.opts)]) else Step(m, c)
  }

  /** What a clone is: a copy of everything but the modifiers, at every level. */
  function Cloned(m: Model): Model {
    m.(modifiers := [], edges := map e | e in m.edges :: Cloned(m.edges[e]))
  }

  predicate NoModifiers(m: Model) {
    m.modifiers == [] && forall e :: e in m.edges ==> NoModifiers(m.edges[e])
  }

  /** A clone is the same query exactly when no query of the tree has modifiers. */
  lemma {:induction false} CloneIsExact(m: Model)
    ensures Cloned(m) == m <==> NoModifiers(m)
  {
    forall e | e in m.edges ensures Cloned(m.edges[e]) == m.edges[e] <==> NoModifiers(m.edges[e]) {
      CloneIsExact(m.edges[e]);
    }
    assert Cloned(m).edges == m.edges <==> forall e :: e in m.edges ==> Cloned(m.edges[e]) == m.edges[e] by {
      if Cloned(m).edges == m.edges {
        forall e | e in m.edges ensures Cloned(m.edges[e]) == m.edges[e] {
          assert Cloned(m).edges[e] == m.edges[e];
        }
      }
    }
  }

  lemma ClonedHasNone(m: Model)
    ensures NoModifiers(Cloned(m))
  {
    forall e | e in m.edges { ClonedHasNone(m.edges[e]); }
  }

  // ----- the objects -----

  class QueryContext {
    var fields: Slice<string>
    var limit: Option<int>
    var offset: Option<int>
    var unique: Option<bool>

    constructor (fields: Slice<string>, limit: Option<int>, offset: Option<int>, unique: Option<bool>)
      ensures this.fields == fields && this.limit == limit && this.offset == offset && this.unique == unique
    {
      this.fields, this.limit, this.offset, this.unique := fields, limit, offset, unique;
    }
  }

  /** An edge query that lives entirely among the given objects. */
  ghost predicate EdgeValid(edges: map<string, Query>, below: set<object>, models: map<string, Model>, e: string)
    reads below
    decreases below, 0, 0
  {
    e in edges && e in models && edges[e] in below && edges[e].ctx in below &&
    edges[e].Repr() <= below && edges[e].below < below && edges[e].Valid() && edges[e].Value() == models[e]
  }

  ghost predicate EdgesValid(edges: map<string, Query>, below: set<object>, models: map<string, Model>)
    reads below
    decreases below, 0, 1
  {
    edges.Keys == models.Keys &&
    forall e {:trigger EdgeValid(edges, below, models, e)} :: e in edges ==> EdgeValid(edges, below, models, e)
  }

  lemma OneMoreEdge(edges: map<string, Query>, below: set<object>, models: map<string, Model>, edge: string,
                    query: Query)
    requires EdgesValid(edges, below, models) && query.Valid()
    ensures EdgesValid(edges[edge := query], below + query.Repr(), models[edge := query.Value()])
  {
    var edges', below', models' := edges[edge := query], below + query.Repr(), models[edge := query.Value()];
    forall e | e in edges' ensures EdgeValid(edges', below', models', e) {
      if e == edge {
        assert query.below < below';
      } else {
        assert EdgeValid(edges, below, models, e);
      }
    }
  }

  class Query {
    const postgres: bool
    var ctx: QueryContext
    var order: Slice<Code>
    var inters: seq<Code>
    var predicates: Slice<Code>
    var edges: map<string, Query>
    var modifiers: Slice<Code>
    var sql: Option<Code>
    var path: Option<Code>

    /** The objects of the edge queries, and what those queries are. */
    ghost var below: set<object>
    ghost var edgeModels: map<string, Model>

    /** The objects of this query itself. */
    ghost function Own(): set<object>
      reads this, ctx
    {
      {this, ctx, ctx.fields.buf, order.buf, predicates.buf, modifiers.buf}
    }

    ghost function Repr(): set<object>
      reads this, ctx
    {
      Own() + below
    }

    ghost predicate OwnValid()
      reads Own()
    {
      order.buf != predicates.buf && order.buf != modifiers.buf && predicates.buf != modifiers.buf &&
      Fits(ctx.fields) && Fits(order) && Fits(predicates) && Fits(modifiers)
    }

    ghost function Value(): Model
      requires OwnValid()
      reads Own()
    {
      Model(postgres, Items(ctx.fields), ctx.limit, ctx.offset, ctx.unique, Items(order), inters, Items(predicates),
            edgeModels, Items(modifiers), sql, path)
    }

    ghost predicate Valid()
      reads this, ctx, Repr()
      decreases below, 1, 0
    {
      Own() !! below && OwnValid() && EdgesValid(edges, below, edgeModels)
    }

    constructor (postgres: bool, ctx: QueryContext, order: Slice<Code>, inters: seq<Code>, predicates: Slice<Code>,
                 edges: map<string, Query>, modifiers: Slice<Code>, sql: Option<Code>, path: Option<Code>,
                 ghost below: set<object>, ghost edgeModels: map<string, Model>)
      requires order.buf != predicates.buf && order.buf != modifiers.buf && predicates.buf != modifiers.buf
      requires Fits(ctx.fields) && Fits(order) && Fits(predicates) && Fits(modifiers)
      ensures OwnValid() && this.ctx == ctx && this.order == order
      ensures this.predicates == predicates && this.modifiers == modifiers
      ensures Value() == Model(postgres, Items(ctx.fields), ctx.limit, ctx.offset, ctx.unique, Items(order), inters,
                               Items(predicates), edgeModels, Items(modifiers), sql, path)
      ensures this.edges == edges && this.below == below && this.edgeModels == edgeModels
    {
      this.postgres, this.ctx, this.order, this.inters := postgres, ctx, order, inters;
      this.predicates, this.edges, this.modifiers := predicates, edges, modifiers;
      this.sql, this.path, this.below, this.edgeModels := sql, path, below, edgeModels;
    }

    method Where(ps: seq<Code>)
      requires Valid()
      modifies this`predicates, predicates.buf
      ensures Valid() && fresh(Own() - old(Own())) && below == old(below)
      ensures Value() == Step(old(Value()), Call.Where(ps))
    {
      predicates := Append(predicates, ps);
    }

    method Limit(limit: int)
      requires Valid()
      modifies ctx`limit
      ensures Valid() && Own() == old(Own()) && below == old(below)
      ensures Value() == Step(old(Value()), Call.Limit(limit))
    {
      ctx.limit := Some(limit);
    }

    method Offset(offset: int)
      requires Valid()
      modifies ctx`offset
      ensures Valid() && Own() == old(Own()) && below == old(below)
      ensures Value() == Step(old(Value()), Call.Offset(offset))
    {
      ctx.offset := Some(offset);
    }

    method Unique(unique: bool)
      requires Valid()
      modifies ctx`unique
      ensures Valid() && Own() == old(Own()) && below == old(below)
      ensures Value() == Step(old(Value()), Call.Unique(unique))
    {
      ctx.unique := Some(unique);
    }

    method Order(os: seq<Code>)
      requires Valid()
      modifies this`order, order.buf
      ensures Valid() && fresh(Own() - old(Own())) && below == old(below)
      ensures Value() == Step(old(Value()), Call.Order(os))
    {
      order := Append(order, os);
    }

    method Select(fields: seq<string>)
      requires Valid()
      modifies ctx`fields, ctx.fields.buf
      ensures Valid() && fresh(Own() - old(Own())) && below == old(below)
      ensures Value() == Step(old(Value()), Call.Select(fields))
    {
      ctx.fields := Append(ctx.fields, fields);
    }

    method GroupBy(field: string, fields: seq<string>)
      requires Valid()
      modifies ctx`fields
      ensures Valid() && fresh(Own() - old(Own())) && below == old(below)
      ensures Value() == Step(old(Value()), Call.GroupBy(field, fields))
    {
      var all := Listed(field, fields);
      ctx.fields := all;
    }

    /** `ForUpdate` and `ForShare`. */
    method Lock(modifier: Code)
      requires Valid()
      modifies this`modifiers, modifiers.buf, ctx`unique
      ensures Valid() && fresh(Own() - old(Own())) && below == old(below)
      ensures Value() == Step(old(Value()), Call.Lock(modifier))
    {
      if postgres {
        Unique(false);
      }
      modifiers := Append(modifiers, [modifier]);
    }

    /** Copies all but the edges, which are given, and the modifiers, which are not copied. */
    method CopyWith(edges: map<string, Query>, ghost below: set<object>, ghost edgeModels: map<string, Model>)
      returns (c: Query)
      requires OwnValid() && EdgesValid(edges, below, edgeModels)
      ensures c.Valid() && c.below == below && fresh(c.Own())
      ensures c.Value() == Value().(modifiers := [], edges := edgeModels)
    {
      var ctx' := CopyContext(ctx);
      var order', predicates', modifiers' := CopySlices(order, predicates);
      c := new Query(postgres, ctx', order', inters, predicates', edges, modifiers', sql, path, below, edgeModels);
      assert c.Own() == {c} + {ctx', ctx'.fields.buf} + {order'.buf, predicates'.buf, modifiers'.buf};
      Assembled(c);
    }

    /** `Clone`: a query of its own, all the way down. */
    method Clone() returns (c: Query)
      requires Valid()
      ensures c.Valid() && fresh(c.Repr()) && c.Value() == Cloned(Value())
      decreases below, 1, 0
    {
      var copies;
      ghost var objs, copied;
      copies, objs, copied := CloneEdges(edges, below, edgeModels);
      assert copied == Cloned(Value()).edges;
      c := CopyWith(copies, objs, copied);
      assert c.Repr() == c.Own() + objs;
    }

    /** `WithGroups` and the other edges: attaches a query that nothing else holds. */
    method Attach(edge: string, query: Query)
      requires Valid() && query.Valid() && query.Repr() !! Own()
      modifies this`edges, this`below, this`edgeModels
      ensures Valid() && Own() == old(Own()) && below == old(below) + query.Repr()
      ensures Value() == old(Value()).(edges := old(edgeModels)[edge := query.Value()])
    {
      OneMoreEdge(edges, below, edgeModels, edge, query);
      edges := edges[edge := query];
      edgeModels := edgeModels[edge := query.Value()];
      below := below + query.Repr();
    }
  }

  /** Three empty slices with backing arrays of their own. */
  method EmptySlices() returns (a: Slice<Code>, b: Slice<Code>, c: Slice<Code>)
    ensures Fits(a) && Fits(b) && Fits(c) && Items(a) == Items(b) == Items(c) == []
    ensures fresh({a.buf, b.buf, c.buf}) && a.buf != b.buf && a.buf != c.buf && b.buf != c.buf
  {
    a := Empty();
    b := Empty();
    c := Empty();
  }

  method NewContext() returns (ctx: QueryContext)
    ensures fresh({ctx, ctx.fields.buf}) && Fits(ctx.fields) && Items(ctx.fields) == []
    ensures ctx.limit == None && ctx.offset == None && ctx.unique == None
  {
    var fields := Empty<string>();
    ctx := new QueryContext(fields, None, None, None);
  }

  lemma Assembled(q: Query)
    requires q.OwnValid() && q.Own() !! q.below && EdgesValid(q.edges, q.below, q.edgeModels)
    ensures q.Valid()
    ensures q.Repr() == {q} + {q.ctx, q.ctx.fields.buf} + {q.order.buf, q.predicates.buf, q.modifiers.buf} + q.below
  {
  }

  method NewQuery(postgres: bool, inters: seq<Code>) returns (q: Query)
    ensures q.Valid() && fresh(q.Repr()) && q.Value() == NewModel(postgres, inters)
  {
    var order, predicates, modifiers := EmptySlices();
    var ctx := NewContext();
    q := new Query(postgres, ctx, order, inters, predicates, map[], modifiers, None, None, {}, map[]);
    Assembled(q);
  }

  method CopyContext(ctx: QueryContext) returns (c: QueryContext)
    requires Fits(ctx.fields)
    ensures fresh({c, c.fields.buf}) && Fits(c.fields) && Items(c.fields) == Items(ctx.fields)
    ensures c.limit == ctx.limit && c.offset == ctx.offset && c.unique == ctx.unique
  {
    var fields := Copy(ctx.fields);
    c := new QueryContext(fields, ctx.limit, ctx.offset, ctx.unique);
  }

  method CopySlices(a: Slice<Code>, b: Slice<Code>) returns (x: Slice<Code>, y: Slice<Code>, z: Slice<Code>)
    requires Fits(a) && Fits(b)
    ensures Fits(x) && Fits(y) && Fits(z) && Items(x) == Items(a) && Items(y) == Items(b) && Items(z) == []
    ensures fresh({x.buf, y.buf, z.buf}) && x.buf != y.buf && x.buf != z.buf && y.buf != z.buf
  {
    x := Copy(a);
    y := Copy(b);
    z := Empty();
  }

  method CloneEdges(edges: map<string, Query>, ghost below: set<object>, ghost models: map<string, Model>)
    returns (copies: map<string, Query>, ghost objs: set<object>, ghost copied: map<string, Model>)
    requires EdgesValid(edges, below, models)
    ensures fresh(objs) && EdgesValid(copies, objs, copied)
    ensures copied == map e | e in models :: Cloned(models[e])
    decreases below, 0, 1
  {
    copies, objs, copied := map[], {}, map[];
    var rest := edges.Keys;
    while rest != {}
      invariant rest <= edges.Keys && copied.Keys == edges.Keys - rest
      invariant fresh(objs) && EdgesValid(copies, objs, copied) && EdgesValid(edges, below, models)
      invariant forall e :: e in copied ==> copied[e] == Cloned(models[e])
      decreases |rest|
    {
      var e :| e in rest;
      var c, repr := CloneEdge(edges, below, models, e);
      OneMoreEdge(copies, objs, copied, e, c);
      copies, objs, copied := copies[e := c], objs + repr, copied[e := Cloned(models[e])];
      rest := rest - {e};
    }
  }

  method CloneEdge(edges: map<string, Query>, ghost below: set<object>, ghost models: map<string, Model>, e: string)
    returns (c: Query, ghost repr: set<object>)
    requires EdgesValid(edges, below, models) && e in edges
    ensures c.Valid() && repr == c.Repr() && fresh(repr) && c.Value() == Cloned(models[e])
    decreases below, 0, 0
  {
    assert EdgeValid(edges, below, models, e);
    c := edges[e].Clone();
    repr := c.Repr();
  }

  // ----- runs of builder calls -----

  /** One call other than `With`. */
  method Do(q: Query, c: Call)
    requires q.Valid() && !c.With?
    modifies q.Own()
    ensures q.Valid() && fresh(q.Own() - old(q.Own())) && q.below == old(q.below)
    ensures q.Value() == Step(old(q.Value()), c)
  {
    match c
    case Where(ps) => q.Where(ps);
    case Limit(limit) => q.Limit(limit);
    case Offset(offset) => q.Offset(offset);
    case Unique(unique) => q.Unique(unique);
    case Order(os) => q.Order(os);
    case Select(fields) => q.Select(fields);
    case GroupBy(field, fields) => q.GroupBy(field, fields);
    case Lock(modifier) => q.Lock(modifier);
  }

  method Configured(postgres: bool, inters: seq<Code>, opts: seq<Call>) returns (query: Query)
    ensures query.Valid() && fresh(query.Repr()) && query.Value() == Applied(NewModel(postgres, inters), opts)
    decreases opts, 2
  {
    query := NewQuery(postgres, inters);
    Build(query, opts);
  }

  /** `WithGroups(opts...)` and the like: the options configure a new query, which is then attached. */
  method DoWith(q: Query, edge: string, inters: seq<Code>, opts: seq<Call>)
    requires q.Valid()
    modifies q.Own()
    ensures q.Valid() && fresh(q.Own() - old(q.Own())) && fresh(q.below - old(q.below))
    ensures var m := old(q.Value());
            q.Value() == m.(edges := m.edges[edge := Applied(NewModel(m.postgres, inters), opts)])
    decreases opts, 3
  {
    var query := Configured(q.postgres, inters, opts);
    q.Attach(edge, query);
  }

  method DoCall(q: Query, calls: seq<Call>)
    requires q.Valid() && calls != []
    modifies q.Own()
    ensures q.Valid() && fresh(q.Own() - old(q.Own())) && fresh(q.below - old(q.below))
    ensures q.Value() == After(old(q.Value()), calls[0])
    decreases calls, 0
  {
    if calls[0].With? {
      DoWith(q, calls[0].edge, calls[0].inters, calls[0].opts);
    } else {
      Do(q, calls[0]);
    }
  }

  /** Calls change the query as they say, and touch nothing that existed and is not the query's. */
  method Build(q: Query, calls: seq<Call>)
    requires q.Valid()
    modifies q.Own()
    ensures q.Valid() && fresh(q.Own() - old(q.Own())) && fresh(q.below - old(q.below))
    ensures q.Value() == Applied(old(q.Value()), calls)
    decreases calls, 1
  {
    if calls != [] {
      DoCall(q, calls);
      Build(q, calls[1..]);
    }
  }

  // ----- a query and its clone -----

  datatype Act = OnOriginal(call: Call) | OnClone(call: Call)

  /** The calls of a run made on one of the two copies. */
  function CallsOn(run: seq<Act>, clone: bool): seq<Call> {
    if run == [] then []
    else (if run[0].OnClone? == clone then [run[0].call] else []) + CallsOn(run[1..], clone)
  }

  /** The first act of a run concerns one copy only. */
  lemma FirstAct(m: Model, run: seq<Act>, clone: bool)
    requires run != []
    ensures var first := if run[0].OnClone? == clone then Applied(m, [run[0].call]) else m;
            Applied(m, CallsOn(run, clone)) == Applied(first, CallsOn(run[1..], clone))
  {
    var c, rest := run[0].call, CallsOn(run[1..], clone);
    var none: seq<Call> := [];
    assert [c][1..] == none && ([c] + rest)[1..] == rest && none + rest == rest;
  }

  /** A call on one query leaves a query that shares no object with it as it was. */
  method BuildBeside(a: Query, b: Query, c: Call)
    requires a.Valid() && b.Valid() && a.Repr() !! b.Repr()
    modifies a.Own()
    ensures a.Valid() && b.Valid() && a.Repr() !! b.Repr()
    ensures a.Value() == Applied(old(a.Value()), [c]) && b.Value() == old(b.Value())
    ensures fresh(a.Own() - old(a.Own())) && b.Own() == old(b.Own())
  {
    Build(a, [c]);
  }

  method BuildOne(a: Query, b: Query, act: Act)
    requires a.Valid() && b.Valid() && a.Repr() !! b.Repr()
    modifies a.Own(), b.Own()
    ensures a.Valid() && b.Valid() && a.Repr() !! b.Repr()
    ensures a.Value() == if act.OnClone? then old(a.Value()) else Applied(old(a.Value()), [act.call])
    ensures b.Value() == if act.OnClone? then Applied(old(b.Value()), [act.call]) else old(b.Value())
    ensures fresh(a.Own() - old(a.Own())) && fresh(b.Own() - old(b.Own()))
  {
    if act.OnClone? {
      BuildBeside(b, a, act.call);
    } else {
      BuildBeside(a, b, act.call);
    }
  }

  /** Calls on two queries that share no object, in any interleaving. */
  method Interleave(a: Query, b: Query, run: seq<Act>)
    requires a.Valid() && b.Valid() && a.Repr() !! b.Repr()
    modifies a.Own(), b.Own()
    ensures a.Valid() && b.Valid() && a.Repr() !! b.Repr()
    ensures a.Value() == Applied(old(a.Value()), CallsOn(run, false))
    ensures b.Value() == Applied(old(b.Value()), CallsOn(run, true))
  {
    if run != [] {
      FirstAct(a.Value(), run, false);
      FirstAct(b.Value(), run, true);
      BuildOne(a, b, run[0]);
      Interleave(a, b, run[1..]);
    }
  }

  /** Clone independence: whatever is called on the two copies afterwards, in any interleaving, each
      holds what its own calls make of it, at every level of the tree. */
  method CloneThenRun(q: Query, run: seq<Act>) returns (c: Query)
    requires q.Valid()
    modifies q.Own()
    ensures q.Valid() && c.Valid() && q.Repr() !! c.Repr()
    ensures q.Value() == Applied(old(q.Value()), CallsOn(run, false))
    ensures c.Value() == Applied(Cloned(old(q.Value())), CallsOn(run, true))
  {
    c := q.Clone();
    Interleave(q, c, run);
  }

  /** Cloning late gives what cloning early and repeating the calls gives. */
  lemma {:induction false} CloneCommutes(m: Model, calls: seq<Call>)
    ensures Cloned(Applied(m, calls)) == Cloned(Applied(Cloned(m), calls))
    decreases calls
  {
    if calls == [] {
      CloneTwice(m);
    } else {
      var c, rest := calls[0], calls[1..];
      var next, next' := After(m, c), After(Cloned(m), c);
      CloneCommutes(next, rest);
      CloneCommutes(next', rest);
      assert Cloned(next) == Cloned(next') by {
        SameAfter(m, c);
      }
    }
  }

  lemma {:induction false} CloneTwice(m: Model)
    ensures Cloned(Cloned(m)) == Cloned(m)
  {
    ClonedHasNone(m);
    CloneIsExact(Cloned(m));
  }

  lemma SameEdges(m: Model, e: string, x: Model)
    ensures Cloned(m.(edges := m.edges[e := x])).edges == Cloned(Cloned(m).(edges := Cloned(m).edges[e := x])).edges
  {
    var a, b := Cloned(m.(edges := m.edges[e := x])).edges, Cloned(Cloned(m).(edges := Cloned(m).edges[e := x])).edges;
    assert a.Keys == b.Keys == m.edges.Keys + {e};
    forall f | f in a ensures a[f] == b[f] {
      if f != e {
        CloneTwice(m.edges[f]);
      }
    }
  }

  lemma SameAfter(m: Model, c: Call)
    ensures Cloned(After(m, c)) == Cloned(After(Cloned(m), c))
  {
    if c.With? {
      SameEdges(m, c.edge, Applied(NewModel(m.postgres, c.inters), c.opts));
    } else {
      CloneTwice(m);
      assert Cloned(m).edges == Cloned(Cloned(m)).edges;
    }
  }

  /** Calls that take no lock, also not in the options of an edge. */
  predicate LockFree(calls: seq<Call>)
    decreases calls
  {
    forall i :: 0 <= i < |calls| ==> !calls[i].Lock? && (calls[i].With? ==> LockFree(calls[i].opts))
  }

  /** A query built without locks has no modifiers, so its clone is exact. */
  lemma {:induction false} LockFreeClonesExactly(m: Model, calls: seq<Call>)
    requires NoModifiers(m) && LockFree(calls)
    ensures NoModifiers(Applied(m, calls)) && Cloned(Applied(m, calls)) == Applied(m, calls)
    decreases calls
  {
    if calls != [] {
      var c := calls[0];
      if c.With? {
        LockFreeClonesExactly(NewModel(m.postgres, c.inters), c.opts);
      }
      LockFreeClonesExactly(After(m, c), calls[1..]);
    }
    CloneIsExact(Applied(m, calls));
  }

  /** A lock taken last is lost in the clone. */
  lemma LockIsLost(m: Model, modifier: Code)
    ensures Cloned(Applied(m, [Call.Lock(modifier)])) != Applied(m, [Call.Lock(modifier)])
  {
    var none: seq<Call> := [];
    assert [Call.Lock(modifier)][1..] == none;
    CloneIsExact(Step(m, Call.Lock(modifier)));
  }
}
