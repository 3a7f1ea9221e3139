/** Creating an Account: defaults, checks, and the row and entity built side by side
    (backend/ent/account_create.go, backend/ent/mutation.go). */
module AccountCreate {
  import opened Wrappers
  import opened Account

  /** The fields and edges a create mutation carries. */
  datatype Mutation = Mutation(
    createdAt: Option<Time>, updatedAt: Option<Time>, deletedAt: Option<Time>, name: Option<string>,
    notes: Option<string>, platform: Option<string>, typ: Option<string>, credentials: Option<Json>,
    extra: Option<Json>, concurrency: Option<int>, loadFactor: Option<int>, priority: Option<int>,
    rateMultiplier: Option<real>, status: Option<string>, errorMessage: Option<string>,
    lastUsedAt: Option<Time>, expiresAt: Option<Time>, autoPauseOnExpired: Option<bool>,
    schedulable: Option<bool>, rateLimitedAt: Option<Time>, rateLimitResetAt: Option<Time>,
    overloadUntil: Option<Time>, tempUnschedulableUntil: Option<Time>, tempUnschedulableReason: Option<string>,
    sessionWindowStart: Option<Time>, sessionWindowEnd: Option<Time>, sessionWindowStatus: Option<string>,
    groups: set<int>, proxy: Option<int>, usageLogs: set<int>)

  /** Default providers set by the runtime package; None when it was not imported. */
  datatype Runtime = Runtime(
    createdAt: Option<Time>, updatedAt: Option<Time>, credentials: Option<Json>, extra: Option<Json>)

  const DEFAULT_CONCURRENCY := 3
  const DEFAULT_PRIORITY := 50
  const DEFAULT_RATE_MULTIPLIER := 1.0
  const DEFAULT_STATUS := "active"
  const DEFAULT_AUTO_PAUSE_ON_EXPIRED := true
  const DEFAULT_SCHEDULABLE := true

  datatype CreateError = Uninitialized(column: Column) | MissingField(column: Column) | InvalidField(column: Column)

  function OrElse<T>(v: Option<T>, default: Option<T>): Option<T> {
    if v.Some? then v else default
  }

  /** `defaults`: stops at the first provider that is missing, keeping what was set before it. */
  function Defaults(m: Mutation, rt: Runtime): (Mutation, Option<CreateError>) {
    var m1 := m.(createdAt := OrElse(m.createdAt, rt.createdAt));
    if m1.createdAt.None? then (m1, Some(Uninitialized(CreatedAt))) else
    var m2 := m1.(updatedAt := OrElse(m.updatedAt, rt.updatedAt));
    if m2.updatedAt.None? then (m2, Some(Uninitialized(UpdatedAt))) else
    var m3 := m2.(credentials := OrElse(m.credentials, rt.credentials));
    if m3.credentials.None? then (m3, Some(Uninitialized(Credentials))) else
    var m4 := m3.(extra := OrElse(m.extra, rt.extra));
    if m4.extra.None? then (m4, Some(Uninitialized(Extra))) else
    (m4.(concurrency := OrElse(m.concurrency, Some(DEFAULT_CONCURRENCY)),
         priority := OrElse(m.priority, Some(DEFAULT_PRIORITY)),
         rateMultiplier := OrElse(m.rateMultiplier, Some(DEFAULT_RATE_MULTIPLIER)),
         status := OrElse(m.status, Some(DEFAULT_STATUS)),
         autoPauseOnExpired := OrElse(m.autoPauseOnExpired, Some(DEFAULT_AUTO_PAUSE_ON_EXPIRED)),
         schedulable := OrElse(m.schedulable, Some(DEFAULT_SCHEDULABLE))), None)
  }

  /** The schema's validators; their text is outside this model. */
  datatype Validators = Validators(
    name: string -> bool, platform: string -> bool, typ: string -> bool, status: string -> bool,
    sessionWindowStatus: string -> bool)

  /** `check`: the first missing or invalid field. */
  function Check(m: Mutation, v: Validators): Option<CreateError> {
    if m.createdAt.None? then Some(MissingField(CreatedAt))
    else if m.updatedAt.None? then Some(MissingField(UpdatedAt))
    else if m.name.None? then Some(MissingField(Name))
    else if !v.name(m.name.value) then Some(InvalidField(Name))
    else if m.platform.None? then Some(MissingField(Platform))
    else if !v.platform(m.platform.value) then Some(InvalidField(Platform))
    else if m.typ.None? then Some(MissingField(Type))
    else if !v.typ(m.typ.value) then Some(InvalidField(Type))
    else if m.credentials.None? then Some(MissingField(Credentials))
    else if m.extra.None? then Some(MissingField(Extra))
    else if m.concurrency.None? then Some(MissingField(Concurrency))
    else if m.priority.None? then Some(MissingField(Priority))
    else if m.rateMultiplier.None? then Some(MissingField(RateMultiplier))
    else if m.status.None? then Some(MissingField(Status))
    else if !v.status(m.status.value) then Some(InvalidField(Status))
    else if m.autoPauseOnExpired.None? then Some(MissingField(AutoPauseOnExpired))
    else if m.schedulable.None? then Some(MissingField(Schedulable))
    else if m.sessionWindowStatus.Some? && !v.sessionWindowStatus(m.sessionWindowStatus.value)
    then Some(InvalidField(SessionWindowStatus))
    else None
  }

  // ----- the row and the entity -----

  /** The join row's own fields, as a builder of the join table fills them by default. */
  datatype JoinFields = JoinFields(priority: int, createdAt: Time)

  const DEFAULT_JOIN_PRIORITY := 50

  function JoinDefaults(now: Time): JoinFields {
    JoinFields(DEFAULT_JOIN_PRIORITY, now)
  }

  /** An edge to write: for M2O the column is a foreign key in the account's own row. */
  datatype Edge =
    | M2M(table: string, columns: seq<string>, targets: set<int>, fields: JoinFields)
    | M2O(table: string, column: string, target: int)
    | O2M(table: string, column: string, targets: set<int>)

  datatype Spec = Spec(fields: map<Column, Cell>, edges: seq<Edge>)

  function ToDoc(v: Json): Doc {
    if v.None? then DocNull else DocObject(v.value)
  }

  function IntValue(v: Option<int>): Option<Cell> {
    if v.Some? then Some(IntCell(v.value)) else None
  }

  function TimeValue(v: Option<Time>): Option<Cell> {
    if v.Some? then Some(TimeCell(v.value)) else None
  }

  function TextValue(v: Option<string>): Option<Cell> {
    if v.Some? then Some(TextCell(v.value)) else None
  }

  function BoolValue(v: Option<bool>): Option<Cell> {
    if v.Some? then Some(BoolCell(v.value)) else None
  }

  function FloatValue(v: Option<real>): Option<Cell> {
    if v.Some? then Some(FloatCell(v.value)) else None
  }

  function JsonValue(v: Option<Json>): Option<Cell> {
    if v.Some? then Some(JsonCell(ToDoc(v.value))) else None
  }

  /** The cell a mutation gives a column as a field; the foreign key is not written this way. */
  function Written(m: Mutation, c: Column): Option<Cell> {
    match c
    case CreatedAt => TimeValue(m.createdAt)
    case UpdatedAt => TimeValue(m.updatedAt)
    case DeletedAt => TimeValue(m.deletedAt)
    case Name => TextValue(m.name)
    case Notes => TextValue(m.notes)
    case Platform => TextValue(m.platform)
    case Type => TextValue(m.typ)
    case Credentials => JsonValue(m.credentials)
    case Extra => JsonValue(m.extra)
    case Concurrency => IntValue(m.concurrency)
    case LoadFactor => IntValue(m.loadFactor)
    case Priority => IntValue(m.priority)
    case RateMultiplier => FloatValue(m.rateMultiplier)
    case Status => TextValue(m.status)
    case ErrorMessage => TextValue(m.errorMessage)
    case LastUsedAt => TimeValue(m.lastUsedAt)
    case ExpiresAt => TimeValue(m.expiresAt)
    case AutoPauseOnExpired => BoolValue(m.autoPauseOnExpired)
    case Schedulable => BoolValue(m.schedulable)
    case RateLimitedAt => TimeValue(m.rateLimitedAt)
    case RateLimitResetAt => TimeValue(m.rateLimitResetAt)
    case OverloadUntil => TimeValue(m.overloadUntil)
    case TempUnschedulableUntil => TimeValue(m.tempUnschedulableUntil)
    case TempUnschedulableReason => TextValue(m.tempUnschedulableReason)
    case SessionWindowStart => TimeValue(m.sessionWindowStart)
    case SessionWindowEnd => TimeValue(m.sessionWindowEnd)
    case SessionWindowStatus => TextValue(m.sessionWindowStatus)
    case _ => None
  }

  /** The entity a mutation describes, before it has an id. */
  function NodeOf(m: Mutation): Fields {
    ZERO.(
      createdAt := m.createdAt.GetOr(ZERO_TIME), updatedAt := m.updatedAt.GetOr(ZERO_TIME),
      deletedAt := m.deletedAt, name := m.name.GetOr(""), notes := m.notes, platform := m.platform.GetOr(""),
      typ := m.typ.GetOr(""), credentials := m.credentials.GetOr(None), extra := m.extra.GetOr(None),
      proxyID := m.proxy, concurrency := m.concurrency.GetOr(0), loadFactor := m.loadFactor,
      priority := m.priority.GetOr(0), rateMultiplier := m.rateMultiplier.GetOr(0.0),
      status := m.status.GetOr(""), errorMessage := m.errorMessage, lastUsedAt := m.lastUsedAt,
      expiresAt := m.expiresAt, autoPauseOnExpired := m.autoPauseOnExpired.GetOr(false),
      schedulable := m.schedulable.GetOr(false), rateLimitedAt := m.rateLimitedAt,
      rateLimitResetAt := m.rateLimitResetAt, overloadUntil := m.overloadUntil,
      tempUnschedulableUntil := m.tempUnschedulableUntil, tempUnschedulableReason := m.tempUnschedulableReason,
      sessionWindowStart := m.sessionWindowStart, sessionWindowEnd := m.sessionWindowEnd,
      sessionWindowStatus := m.sessionWindowStatus)
  }

  function EdgesOf(m: Mutation, now: Time): seq<Edge> {
    (if m.groups != {} then [M2M("account_groups", ["account_id", "group_id"], m.groups, JoinDefaults(now))] else []) +
    (if m.proxy.Some? then [M2O("accounts", "proxy_id", m.proxy.value)] else []) +
    (if m.usageLogs != {} then [O2M("usage_logs", "account_id", m.usageLogs)] else [])
  }

  /** The INSERT a mutation describes. */
  function SpecOf(m: Mutation, now: Time): Spec {
    Spec(map c | c in COLUMNS && Written(m, c).Some? :: Written(m, c).value, EdgesOf(m, now))
  }

  const WRITE_COUNT: nat := 27

  /** Position of a column in the order `createSpec` writes them. */
  function Rank(c: Column): nat {
    match c
    case CreatedAt => 0
    case UpdatedAt => 1
    case DeletedAt => 2
    case Name => 3
    case Notes => 4
    case Platform => 5
    case Type => 6
    case Credentials => 7
    case Extra => 8
    case Concurrency => 9
    case LoadFactor => 10
    case Priority => 11
    case RateMultiplier => 12
    case Status => 13
    case ErrorMessage => 14
    case LastUsedAt => 15
    case ExpiresAt => 16
    case AutoPauseOnExpired => 17
    case Schedulable => 18
    case RateLimitedAt => 19
    case RateLimitResetAt => 20
    case OverloadUntil => 21
    case TempUnschedulableUntil => 22
    case TempUnschedulableReason => 23
    case SessionWindowStart => 24
    case SessionWindowEnd => 25
    case SessionWindowStatus => 26
    case _ => WRITE_COUNT
  }

  lemma RankInjective(c: Column, d: Column)
    requires Rank(c) == Rank(d) < WRITE_COUNT
    ensures c == d
  {
  }

  /** The row holds what the mutation gives the columns before the k-th. */
  ghost predicate WrittenUpTo(row: map<Column, Cell>, m: Mutation, k: nat) {
    forall c {:trigger c in row} ::
      (c in row <==> Rank(c) < k && Written(m, c).Some?) && (c in row ==> row[c] == Written(m, c).value)
  }

  /** `_spec.SetField` under the test that the mutation has a value. */
  method SetField(ghost m: Mutation, row: map<Column, Cell>, c: Column, v: Option<Cell>)
    returns (row': map<Column, Cell>)
    requires Rank(c) < WRITE_COUNT && WrittenUpTo(row, m, Rank(c)) && v == Written(m, c)
    ensures WrittenUpTo(row', m, Rank(c) + 1)
  {
    row' := if v.Some? then row[c := v.value] else row;
    forall d | Rank(d) == Rank(c) { RankInjective(c, d); }
  }

  method SetProfile(m: Mutation, node: Fields, row: map<Column, Cell>) returns (node': Fields, row': map<Column, Cell>)
    requires WrittenUpTo(row, m, 0)
    ensures WrittenUpTo(row', m, 7)
    ensures node' == node.(
      createdAt := m.createdAt.GetOr(node.createdAt), updatedAt := m.updatedAt.GetOr(node.updatedAt),
      deletedAt := OrElse(m.deletedAt, node.deletedAt), name := m.name.GetOr(node.name),
      notes := OrElse(m.notes, node.notes), platform := m.platform.GetOr(node.platform),
      typ := m.typ.GetOr(node.typ))
  {
    node', row' := node, row;
    row' := SetField(m, row', CreatedAt, TimeValue(m.createdAt));
    node' := node'.(createdAt := m.createdAt.GetOr(node'.createdAt));
    row' := SetField(m, row', UpdatedAt, TimeValue(m.updatedAt));
    node' := node'.(updatedAt := m.updatedAt.GetOr(node'.updatedAt));
    row' := SetField(m, row', DeletedAt, TimeValue(m.deletedAt));
    node' := node'.(deletedAt := OrElse(m.deletedAt, node'.deletedAt));
    row' := SetField(m, row', Name, TextValue(m.name));
    node' := node'.(name := m.name.GetOr(node'.name));
    row' := SetField(m, row', Notes, TextValue(m.notes));
    node' := node'.(notes := OrElse(m.notes, node'.notes));
    row' := SetField(m, row', Platform, TextValue(m.platform));
    node' := node'.(platform := m.platform.GetOr(node'.platform));
    row' := SetField(m, row', Type, TextValue(m.typ));
    node' := node'.(typ := m.typ.GetOr(node'.typ));
  }

  method SetSettings(m: Mutation, node: Fields, row: map<Column, Cell>) returns (node': Fields, row': map<Column, Cell>)
    requires WrittenUpTo(row, m, 7)
    ensures WrittenUpTo(row', m, 14)
    ensures node' == node.(
      credentials := m.credentials.GetOr(node.credentials), extra := m.extra.GetOr(node.extra),
      concurrency := m.concurrency.GetOr(node.concurrency),
      loadFactor := OrElse(m.loadFactor, node.loadFactor), priority := m.priority.GetOr(node.priority),
      rateMultiplier := m.rateMultiplier.GetOr(node.rateMultiplier), status := m.status.GetOr(node.status))
  {
    node', row' := node, row;
    row' := SetField(m, row', Credentials, JsonValue(m.credentials));
    node' := node'.(credentials := m.credentials.GetOr(node'.credentials));
    row' := SetField(m, row', Extra, JsonValue(m.extra));
    node' := node'.(extra := m.extra.GetOr(node'.extra));
    row' := SetField(m, row', Concurrency, IntValue(m.concurrency));
    node' := node'.(concurrency := m.concurrency.GetOr(node'.concurrency));
    row' := SetField(m, row', LoadFactor, IntValue(m.loadFactor));
    node' := node'.(loadFactor := OrElse(m.loadFactor, node'.loadFactor));
    row' := SetField(m, row', Priority, IntValue(m.priority));
    node' := node'.(priority := m.priority.GetOr(node'.priority));
    row' := SetField(m, row', RateMultiplier, FloatValue(m.rateMultiplier));
    node' := node'.(rateMultiplier := m.rateMultiplier.GetOr(node'.rateMultiplier));
    row' := SetField(m, row', Status, TextValue(m.status));
    node' := node'.(status := m.status.GetOr(node'.status));
  }

  method SetActivity(m: Mutation, node: Fields, row: map<Column, Cell>) returns (node': Fields, row': map<Column, Cell>)
    requires WrittenUpTo(row, m, 14)
    ensures WrittenUpTo(row', m, 18)
    ensures node' == node.(
      errorMessage := OrElse(m.errorMessage, node.errorMessage),
      lastUsedAt := OrElse(m.lastUsedAt, node.lastUsedAt),
      expiresAt := OrElse(m.expiresAt, node.expiresAt),
      autoPauseOnExpired := m.autoPauseOnExpired.GetOr(node.autoPauseOnExpired))
  {
    node', row' := node, row;
    row' := SetField(m, row', ErrorMessage, TextValue(m.errorMessage));
    node' := node'.(errorMessage := OrElse(m.errorMessage, node'.errorMessage));
    row' := SetField(m, row', LastUsedAt, TimeValue(m.lastUsedAt));
    node' := node'.(lastUsedAt := OrElse(m.lastUsedAt, node'.lastUsedAt));
    row' := SetField(m, row', ExpiresAt, TimeValue(m.expiresAt));
    node' := node'.(expiresAt := OrElse(m.expiresAt, node'.expiresAt));
    row' := SetField(m, row', AutoPauseOnExpired, BoolValue(m.autoPauseOnExpired));
    node' := node'.(autoPauseOnExpired := m.autoPauseOnExpired.GetOr(node'.autoPauseOnExpired));
  }

  method SetRateLimits(m: Mutation, node: Fields, row: map<Column, Cell>)
    returns (node': Fields, row': map<Column, Cell>)
    requires WrittenUpTo(row, m, 18)
    ensures WrittenUpTo(row', m, 21)
    ensures node' == node.(
      schedulable := m.schedulable.GetOr(node.schedulable),
      rateLimitedAt := OrElse(m.rateLimitedAt, node.rateLimitedAt),
      rateLimitResetAt := OrElse(m.rateLimitResetAt, node.rateLimitResetAt))
  {
    node', row' := node, row;
    row' := SetField(m, row', Schedulable, BoolValue(m.schedulable));
    node' := node'.(schedulable := m.schedulable.GetOr(node'.schedulable));
    row' := SetField(m, row', RateLimitedAt, TimeValue(m.rateLimitedAt));
    node' := node'.(rateLimitedAt := OrElse(m.rateLimitedAt, node'.rateLimitedAt));
    row' := SetField(m, row', RateLimitResetAt, TimeValue(m.rateLimitResetAt));
    node' := node'.(rateLimitResetAt := OrElse(m.rateLimitResetAt, node'.rateLimitResetAt));
  }

  method SetPauses(m: Mutation, node: Fields, row: map<Column, Cell>) returns (node': Fields, row': map<Column, Cell>)
    requires WrittenUpTo(row, m, 21)
    ensures WrittenUpTo(row', m, 24)
    ensures node' == node.(
      overloadUntil := OrElse(m.overloadUntil, node.overloadUntil),
      tempUnschedulableUntil := OrElse(m.tempUnschedulableUntil, node.tempUnschedulableUntil),
      tempUnschedulableReason := OrElse(m.tempUnschedulableReason, node.tempUnschedulableReason))
  {
    node', row' := node, row;
    row' := SetField(m, row', OverloadUntil, TimeValue(m.overloadUntil));
    node' := node'.(overloadUntil := OrElse(m.overloadUntil, node'.overloadUntil));
    row' := SetField(m, row', TempUnschedulableUntil, TimeValue(m.tempUnschedulableUntil));
    node' := node'.(tempUnschedulableUntil := OrElse(m.tempUnschedulableUntil, node'.tempUnschedulableUntil));
    row' := SetField(m, row', TempUnschedulableReason, TextValue(m.tempUnschedulableReason));
    node' := node'.(tempUnschedulableReason := OrElse(m.tempUnschedulableReason, node'.tempUnschedulableReason));
  }

  method SetWindow(m: Mutation, node: Fields, row: map<Column, Cell>) returns (node': Fields, row': map<Column, Cell>)
    requires WrittenUpTo(row, m, 24)
    ensures WrittenUpTo(row', m, 27)
    ensures node' == node.(
      sessionWindowStart := OrElse(m.sessionWindowStart, node.sessionWindowStart),
      sessionWindowEnd := OrElse(m.sessionWindowEnd, node.sessionWindowEnd),
      sessionWindowStatus := OrElse(m.sessionWindowStatus, node.sessionWindowStatus))
  {
    node', row' := node, row;
    row' := SetField(m, row', SessionWindowStart, TimeValue(m.sessionWindowStart));
    node' := node'.(sessionWindowStart := OrElse(m.sessionWindowStart, node'.sessionWindowStart));
    row' := SetField(m, row', SessionWindowEnd, TimeValue(m.sessionWindowEnd));
    node' := node'.(sessionWindowEnd := OrElse(m.sessionWindowEnd, node'.sessionWindowEnd));
    row' := SetField(m, row', SessionWindowStatus, TextValue(m.sessionWindowStatus));
    node' := node'.(sessionWindowStatus := OrElse(m.sessionWindowStatus, node'.sessionWindowStatus));
  }

  lemma AllWritten(row: map<Column, Cell>, m: Mutation)
    requires WrittenUpTo(row, m, WRITE_COUNT)
    ensures forall c :: c in row <==> Written(m, c).Some?
    ensures forall c :: c in row ==> Written(m, c) == Some(row[c])
  {
  }

  lemma WrittenIsNamed(m: Mutation, c: Column)
    requires Written(m, c).Some?
    ensures !c.Other? && c != Id && c != ProxyID
  {
  }

  lemma SpecField(m: Mutation, now: Time, c: Column)
    ensures c in SpecOf(m, now).fields <==> Written(m, c).Some?
    ensures c in SpecOf(m, now).fields ==> Written(m, c) == Some(SpecOf(m, now).fields[c])
  {
    AllColumns(c);
    if Written(m, c).Some? {
      WrittenIsNamed(m, c);
    }
  }

  lemma OnlyColumns(m: Mutation, now: Time, row: map<Column, Cell>)
    requires forall c :: c in row <==> Written(m, c).Some?
    requires forall c :: c in row ==> Written(m, c) == Some(row[c])
    ensures row == SpecOf(m, now).fields
  {
    forall c ensures (c in row <==> c in SpecOf(m, now).fields) && (c in row ==> row[c] == SpecOf(m, now).fields[c]) {
      SpecField(m, now, c);
    }
  }

  /** `createSpec`: each field of the mutation goes into the row and into the entity; `now` is what the
      join table's builder takes for the time. */
  method CreateSpec(m: Mutation, now: Time) returns (node: Fields, spec: Spec)
    ensures node == NodeOf(m) && spec == SpecOf(m, now)
    ensures forall c :: c in spec.fields <==> Written(m, c).Some?
    ensures forall c :: c in spec.fields ==> Written(m, c) == Some(spec.fields[c])
  {
    var row: map<Column, Cell>;
    node, row := SetProfile(m, ZERO, map[]);
    node, row := SetSettings(m, node, row);
    node, row := SetActivity(m, node, row);
    node, row := SetRateLimits(m, node, row);
    node, row := SetPauses(m, node, row);
    node, row := SetWindow(m, node, row);
    AllWritten(row, m);
    OnlyColumns(m, now, row);
    var edges := MakeEdges(m, now);
    if m.proxy.Some? {
      node := node.(proxyID := m.proxy);
    }
    spec := Spec(row, edges);
  }

  method MakeEdges(m: Mutation, now: Time) returns (edges: seq<Edge>)
    ensures edges == EdgesOf(m, now)
  {
    edges := [];
    if m.groups != {} {
      edges := edges + [M2M("account_groups", ["account_id", "group_id"], m.groups, JoinDefaults(now))];
    }
    if m.proxy.Some? {
      edges := edges + [M2O("accounts", "proxy_id", m.proxy.value)];
    }
    if m.usageLogs != {} {
      edges := edges + [O2M("usage_logs", "account_id", m.usageLogs)];
    }
  }

  // ----- storing and reading back -----

  /** Columns the table declares NOT NULL, apart from the id. */
  predicate Required(c: Column) {
    c == CreatedAt || c == UpdatedAt || c == Name || c == Platform || c == Type || c == Credentials || c == Extra ||
    c == Concurrency || c == Priority || c == RateMultiplier || c == Status || c == AutoPauseOnExpired ||
    c == Schedulable
  }

  ghost predicate RequiredPresent(m: Mutation) {
    forall c :: Required(c) ==> Written(m, c).Some?
  }

  predicate ValidatorsAccept(m: Mutation, v: Validators) {
    (m.name.Some? ==> v.name(m.name.value)) &&
    (m.platform.Some? ==> v.platform(m.platform.value)) &&
    (m.typ.Some? ==> v.typ(m.typ.value)) &&
    (m.status.Some? ==> v.status(m.status.value)) &&
    (m.sessionWindowStatus.Some? ==> v.sessionWindowStatus(m.sessionWindowStatus.value))
  }

  predicate HasProfile(m: Mutation) {
    m.createdAt.Some? && m.updatedAt.Some? && m.name.Some? && m.platform.Some? && m.typ.Some? &&
    m.credentials.Some? && m.extra.Some?
  }

  predicate HasSettings(m: Mutation) {
    m.concurrency.Some? && m.priority.Some? && m.rateMultiplier.Some? && m.status.Some? &&
    m.autoPauseOnExpired.Some? && m.schedulable.Some?
  }

  lemma PresentProfile(m: Mutation)
    requires RequiredPresent(m)
    ensures HasProfile(m)
  {
    assert Written(m, CreatedAt).Some? && Written(m, UpdatedAt).Some? && Written(m, Name).Some?;
    assert Written(m, Platform).Some? && Written(m, Type).Some? && Written(m, Credentials).Some?;
    assert Written(m, Extra).Some?;
  }

  lemma PresentSettings(m: Mutation)
    requires RequiredPresent(m)
    ensures HasSettings(m)
  {
    assert Written(m, Concurrency).Some? && Written(m, Priority).Some?;
    assert Written(m, RateMultiplier).Some? && Written(m, Status).Some?;
    assert Written(m, AutoPauseOnExpired).Some? && Written(m, Schedulable).Some?;
  }

  lemma RequiredFields(m: Mutation)
    ensures RequiredPresent(m) <==> HasProfile(m) && HasSettings(m)
  {
    if RequiredPresent(m) {
      PresentProfile(m);
      PresentSettings(m);
    }
  }

  /** `check` passes exactly when every required column is written and the validators accept. */
  lemma CheckMeaning(m: Mutation, v: Validators)
    ensures Check(m, v) == None <==> RequiredPresent(m) && ValidatorsAccept(m, v)
  {
    RequiredFields(m);
  }

  /** Defaults run a second time, with any providers, change nothing. */
  lemma DefaultsTwice(m: Mutation, rt: Runtime, again: Runtime)
    requires Defaults(m, rt).1 == None
    ensures Defaults(Defaults(m, rt).0, again) == (Defaults(m, rt).0, None)
  {
    assert Defaults(Defaults(m, rt).0, again).0 == Defaults(m, rt).0;
  }

  lemma DefaultsKeepPlain(m: Mutation, rt: Runtime, c: Column)
    requires Written(m, c).Some? && (EmptySlot(c).NullTime? || EmptySlot(c).NullString?)
    ensures Written(Defaults(m, rt).0, c) == Written(m, c)
  {
  }

  /** Defaults keep what the caller set. */
  lemma DefaultsKeep(m: Mutation, rt: Runtime, c: Column)
    requires Written(m, c).Some?
    ensures Written(Defaults(m, rt).0, c) == Written(m, c)
  {
    if EmptySlot(c).NullTime? || EmptySlot(c).NullString? {
      DefaultsKeepPlain(m, rt, c);
    }
  }

  /** Of the unset columns, defaults fill the required ones but name, platform and type. */
  lemma DefaultsFill(m: Mutation, rt: Runtime, c: Column)
    requires Defaults(m, rt).1 == None && Required(c) && Written(m, c).None?
    ensures Written(Defaults(m, rt).0, c).Some? <==> c != Name && c != Platform && c != Type
  {
  }

  /** What fills which column. */
  lemma DefaultValues(m: Mutation, rt: Runtime, c: Column)
    requires Defaults(m, rt).1 == None && Required(c) && Written(m, c).None?
    ensures Written(Defaults(m, rt).0, c) ==
            match c
            case CreatedAt => TimeValue(rt.createdAt)
            case UpdatedAt => TimeValue(rt.updatedAt)
            case Credentials => JsonValue(rt.credentials)
            case Extra => JsonValue(rt.extra)
            case Concurrency => Some(IntCell(3))
            case Priority => Some(IntCell(50))
            case RateMultiplier => Some(FloatCell(1.0))
            case Status => Some(TextCell("active"))
            case AutoPauseOnExpired => Some(BoolCell(true))
            case Schedulable => Some(BoolCell(true))
            case _ => None
  {
  }

  /** A column that a missing provider would have had to fill. */
  predicate Lacks(m: Mutation, rt: Runtime, c: Column) {
    Written(m, c).None? &&
    match c
    case CreatedAt => rt.createdAt.None?
    case UpdatedAt => rt.updatedAt.None?
    case Credentials => rt.credentials.None?
    case Extra => rt.extra.None?
    case _ => false
  }

  /** Defaults fail for the first column that lacks its provider, and leave the edges alone. */
  lemma DefaultsFailExactly(m: Mutation, rt: Runtime)
    ensures var providers := [CreatedAt, UpdatedAt, Credentials, Extra];
            (Defaults(m, rt).1 == None <==> forall i :: 0 <= i < 4 ==> !Lacks(m, rt, providers[i])) &&
            forall i :: 0 <= i < 4 && Lacks(m, rt, providers[i]) &&
                        (forall j :: 0 <= j < i ==> !Lacks(m, rt, providers[j])) ==>
              Defaults(m, rt).1 == Some(Uninitialized(providers[i]))
    ensures var m' := Defaults(m, rt).0; m'.groups == m.groups && m'.proxy == m.proxy && m'.usageLogs == m.usageLogs
  {
    var providers := [CreatedAt, UpdatedAt, Credentials, Extra];
    assert providers[0] == CreatedAt && providers[1] == UpdatedAt;
    assert providers[2] == Credentials && providers[3] == Extra;
  }

  /** What is wrong with a column. */
  function Fault(m: Mutation, v: Validators, c: Column): Option<CreateError> {
    if Required(c) && Written(m, c).None? then Some(MissingField(c))
    else if Written(m, c).Some? && Refuses(v, c, Written(m, c).value) then Some(InvalidField(c))
    else None
  }

  predicate Refuses(v: Validators, c: Column, cell: Cell) {
    cell.TextCell? &&
    match c
    case Name => !v.name(cell.text)
    case Platform => !v.platform(cell.text)
    case Type => !v.typ(cell.text)
    case Status => !v.status(cell.text)
    case SessionWindowStatus => !v.sessionWindowStatus(cell.text)
    case _ => false
  }

  predicate ProfilePasses(m: Mutation, v: Validators) {
    m.createdAt.Some? && m.updatedAt.Some? && m.name.Some? && v.name(m.name.value) &&
    m.platform.Some? && v.platform(m.platform.value) && m.typ.Some? && v.typ(m.typ.value)
  }

  predicate SettingsPass(m: Mutation, v: Validators) {
    m.credentials.Some? && m.extra.Some? && m.concurrency.Some? && m.priority.Some? && m.rateMultiplier.Some? &&
    m.status.Some? && v.status(m.status.value)
  }

  ghost predicate NoFault(m: Mutation, v: Validators, from: nat, upTo: nat) {
    forall c :: from <= Rank(c) < upTo ==> Fault(m, v, c) == None
  }

  lemma ProfileFaultless(m: Mutation, v: Validators)
    requires NoFault(m, v, 0, 7)
    ensures ProfilePasses(m, v)
  {
    assert Fault(m, v, CreatedAt) == Fault(m, v, UpdatedAt) == Fault(m, v, Name) == None;
    assert Fault(m, v, Platform) == Fault(m, v, Type) == None;
  }

  lemma SettingsFaultless(m: Mutation, v: Validators)
    requires NoFault(m, v, 7, 14)
    ensures SettingsPass(m, v)
  {
    assert Fault(m, v, Credentials) == Fault(m, v, Extra) == Fault(m, v, Concurrency) == None;
    assert Fault(m, v, Priority) == Fault(m, v, RateMultiplier) == Fault(m, v, Status) == None;
  }

  lemma ProfileReported(m: Mutation, v: Validators, c: Column)
    requires Rank(c) < 7 && Fault(m, v, c).Some? && NoFault(m, v, 0, Rank(c))
    ensures Check(m, v) == Fault(m, v, c)
  {
    assert Rank(c) > 0 ==> Fault(m, v, CreatedAt) == None;
    assert Rank(c) > 1 ==> Fault(m, v, UpdatedAt) == None;
    assert Rank(c) > 3 ==> Fault(m, v, Name) == None;
    assert Rank(c) > 5 ==> Fault(m, v, Platform) == None;
  }

  lemma FaultySettings(m: Mutation, v: Validators, c: Column)
    requires 7 <= Rank(c) < 14 && Fault(m, v, c).Some?
    ensures c == Credentials || c == Extra || c == Concurrency || c == Priority || c == RateMultiplier || c == Status
  {
  }

  lemma DocumentReported(m: Mutation, v: Validators, c: Column)
    requires c == Credentials || c == Extra || c == Concurrency
    requires Fault(m, v, c).Some? && ProfilePasses(m, v) && NoFault(m, v, 7, Rank(c))
    ensures Check(m, v) == Fault(m, v, c)
  {
    assert c != Credentials ==> Fault(m, v, Credentials) == None;
    assert c == Concurrency ==> Fault(m, v, Extra) == None;
  }

  lemma NumberReported(m: Mutation, v: Validators, c: Column)
    requires c == Priority || c == RateMultiplier || c == Status
    requires Fault(m, v, c).Some? && ProfilePasses(m, v) && NoFault(m, v, 7, Rank(c))
    ensures Check(m, v) == Fault(m, v, c)
  {
    assert Fault(m, v, Credentials) == Fault(m, v, Extra) == Fault(m, v, Concurrency) == None;
    assert c != Priority ==> Fault(m, v, Priority) == None;
    assert c == Status ==> Fault(m, v, RateMultiplier) == None;
  }

  lemma SettingReported(m: Mutation, v: Validators, c: Column)
    requires 7 <= Rank(c) < 14 && Fault(m, v, c).Some? && ProfilePasses(m, v) && NoFault(m, v, 7, Rank(c))
    ensures Check(m, v) == Fault(m, v, c)
  {
    FaultySettings(m, v, c);
    if c == Credentials || c == Extra || c == Concurrency {
      DocumentReported(m, v, c);
    } else {
      NumberReported(m, v, c);
    }
  }

  lemma FaultyLimits(m: Mutation, v: Validators, c: Column)
    requires 14 <= Rank(c) && Fault(m, v, c).Some?
    ensures c == AutoPauseOnExpired || c == Schedulable || c == SessionWindowStatus
  {
  }

  lemma LimitReported(m: Mutation, v: Validators, c: Column)
    requires c == AutoPauseOnExpired || c == Schedulable || c == SessionWindowStatus
    requires Fault(m, v, c).Some? && ProfilePasses(m, v) && SettingsPass(m, v)
    requires c != AutoPauseOnExpired ==> Fault(m, v, AutoPauseOnExpired) == None
    requires c == SessionWindowStatus ==> Fault(m, v, Schedulable) == None
    ensures Check(m, v) == Fault(m, v, c)
  {
  }

  lemma LaterReported(m: Mutation, v: Validators, c: Column)
    requires 14 <= Rank(c) && Fault(m, v, c).Some? && ProfilePasses(m, v) && SettingsPass(m, v)
    requires NoFault(m, v, 14, Rank(c))
    ensures Check(m, v) == Fault(m, v, c)
  {
    FaultyLimits(m, v, c);
    assert c != AutoPauseOnExpired ==> Fault(m, v, AutoPauseOnExpired) == None;
    assert c == SessionWindowStatus ==> Fault(m, v, Schedulable) == None;
    LimitReported(m, v, c);
  }

  /** `check` reports what is wrong with the first column, in the order they are written, that has a
      fault. */
  lemma CheckReportsFirst(m: Mutation, v: Validators, c: Column)
    requires Fault(m, v, c).Some? && forall d :: Rank(d) < Rank(c) ==> Fault(m, v, d) == None
    ensures Check(m, v) == Fault(m, v, c)
  {
    if Rank(c) < 7 {
      ProfileReported(m, v, c);
    } else {
      ProfileFaultless(m, v);
      if Rank(c) < 14 {
        SettingReported(m, v, c);
      } else {
        SettingsFaultless(m, v);
        LaterReported(m, v, c);
      }
    }
  }

  lemma DefaultsFillNoOther(m: Mutation, rt: Runtime, c: Column)
    requires !Required(c)
    ensures Written(Defaults(m, rt).0, c) == Written(m, c)
  {
  }

  /** After defaults, only what the caller alone can supply is left to check. */
  lemma DefaultsThenCheck(m: Mutation, rt: Runtime, v: Validators)
    ensures var r := Defaults(m, rt);
            r.1 == None ==>
              (Check(r.0, v) == None <==> m.name.Some? && m.platform.Some? && m.typ.Some? && ValidatorsAccept(r.0, v))
  {
  }

  /** The bulk builder drops the error of `defaults`: `check` catches every such failure. */
  lemma FailedDefaultsFailCheck(m: Mutation, rt: Runtime, v: Validators)
    requires Defaults(m, rt).1.Some?
    ensures Check(Defaults(m, rt).0, v).Some?
  {
  }

  /** The stored value of a column: written, taken from the foreign-key edge, or filled in by
      the table (its own default where the column is required, NULL elsewhere). */
  function Stored(spec: Spec, id: int, filler: Column -> Cell, c: Column): Cell {
    if c == Id then IntCell(id)
    else if c == ProxyID then ForeignKey(spec.edges)
    else if c in spec.fields then spec.fields[c]
    else if Required(c) then filler(c)
    else NullCell
  }

  /** The driver stores the target of the M2O edge in its column. */
  function ForeignKey(edges: seq<Edge>): Cell {
    if edges == [] then NullCell
    else if edges[0].M2O? && edges[0].column == "proxy_id" then IntCell(edges[0].target)
    else ForeignKey(edges[1..])
  }

  /** What a filler may put into a required column: a value of its type. */
  predicate Fits(c: Column, cell: Cell) {
    match EmptySlot(c)
    case NullInt64(_) => cell.IntCell?
    case NullTime(_) => cell.TimeCell?
    case NullString(_) => cell.TextCell?
    case NullBool(_) => cell.BoolCell?
    case NullFloat64(_) => cell.FloatCell?
    case Bytes(_) => cell.JsonCell? && !cell.doc.DocOther?
    case UnknownType(_) => true
  }

  ghost predicate ProperFiller(filler: Column -> Cell) {
    forall c :: Required(c) ==> Fits(c, filler(c))
  }

  lemma ForeignKeyOfEdges(m: Mutation, now: Time)
    ensures ForeignKey(EdgesOf(m, now)) == if m.proxy.Some? then IntCell(m.proxy.value) else NullCell
  {
    var edges := EdgesOf(m, now);
    var tail := if m.groups != {} then edges[1..] else edges;
    assert ForeignKey(edges) == ForeignKey(tail);
    assert m.proxy.None? ==> tail == [] || (tail[0].O2M? && tail[1..] == []);
  }

  /** The row an accepted INSERT leaves in the table. */
  function StoredRow(spec: Spec, id: int, filler: Column -> Cell): Column -> Cell {
    c => Stored(spec, id, filler, c)
  }

  lemma StoredField(m: Mutation, now: Time, id: int, filler: Column -> Cell, c: Column)
    requires c != Id && c != ProxyID
    ensures StoredRow(SpecOf(m, now), id, filler)(c) ==
            if Written(m, c).Some? then Written(m, c).value else if Required(c) then filler(c) else NullCell
  {
    SpecField(m, now, c);
  }

  // ----- one column -----

  lemma CellKept(c: Column, cell: Cell)
    requires !c.Other? && Fits(c, cell)
    ensures CellReadable(c, cell) && CellRead(c, cell) == Held(cell)
  {
  }

  lemma NullUnsetPlain(c: Column)
    requires EmptySlot(c).NullTime? || EmptySlot(c).NullString?
    ensures CellReadable(c, NullCell) && CellRead(c, NullCell) == Get(ZERO, c)
  {
  }

  lemma NullUnset(c: Column)
    requires !c.Other?
    ensures CellReadable(c, NullCell) && CellRead(c, NullCell) == Get(ZERO, c)
  {
    if EmptySlot(c).NullTime? || EmptySlot(c).NullString? {
      NullUnsetPlain(c);
    } else {
      match c
      case Id =>
      case Credentials =>
      case Extra =>
      case _ =>
    }
  }

  lemma WrittenFits(m: Mutation, c: Column)
    requires Written(m, c).Some?
    ensures Fits(c, Written(m, c).value)
  {
  }

  lemma NodeHoldsTime(m: Mutation, id: int, c: Column)
    requires EmptySlot(c).NullTime?
    ensures Get(NodeOf(m).(id := id), c) == if Written(m, c).Some? then Held(Written(m, c).value) else Get(ZERO, c)
  {
  }

  lemma NodeHoldsOther(m: Mutation, id: int, c: Column)
    requires !EmptySlot(c).NullTime? && !c.Other? && c != Id && c != ProxyID
    ensures Get(NodeOf(m).(id := id), c) == if Written(m, c).Some? then Held(Written(m, c).value) else Get(ZERO, c)
  {
  }

  lemma NodeHolds(m: Mutation, id: int, c: Column)
    requires !c.Other? && c != Id && c != ProxyID
    ensures Get(NodeOf(m).(id := id), c) == if Written(m, c).Some? then Held(Written(m, c).value) else Get(ZERO, c)
  {
    if EmptySlot(c).NullTime? {
      NodeHoldsTime(m, id, c);
    } else {
      NodeHoldsOther(m, id, c);
    }
  }

  lemma ProxyStored(m: Mutation, now: Time, id: int, filler: Column -> Cell)
    ensures Readable(ProxyID, StoredRow(SpecOf(m, now), id, filler))
    ensures FieldRead(ProxyID, StoredRow(SpecOf(m, now), id, filler)) == Get(NodeOf(m).(id := id), ProxyID)
  {
    ForeignKeyOfEdges(m, now);
    NullUnset(ProxyID);
    if m.proxy.Some? {
      CellKept(ProxyID, IntCell(m.proxy.value));
    }
  }

  /** A column of the stored row can be read unless the table filled it with something else. */
  lemma ColumnReadable(m: Mutation, now: Time, id: int, filler: Column -> Cell, c: Column)
    requires !c.Other? && (Required(c) && Written(m, c).None? ==> Fits(c, filler(c)))
    ensures Readable(c, StoredRow(SpecOf(m, now), id, filler))
  {
    NullUnset(c);
    if c == Id {
      CellKept(c, IntCell(id));
    } else if c == ProxyID {
      ProxyStored(m, now, id, filler);
    } else {
      StoredField(m, now, id, filler, c);
      if Written(m, c).Some? {
        WrittenFits(m, c);
        CellKept(c, Written(m, c).value);
      } else if Required(c) {
        CellKept(c, filler(c));
      }
    }
  }

  /** A written column decodes to the corresponding field of the entity. */
  lemma ColumnDecodes(m: Mutation, now: Time, id: int, filler: Column -> Cell, c: Column)
    requires !c.Other? && (Required(c) ==> Written(m, c).Some?)
    ensures FieldRead(c, StoredRow(SpecOf(m, now), id, filler)) == Get(NodeOf(m).(id := id), c)
  {
    NullUnset(c);
    if c == Id {
      CellKept(c, IntCell(id));
    } else if c == ProxyID {
      ProxyStored(m, now, id, filler);
    } else {
      StoredField(m, now, id, filler, c);
      NodeHolds(m, id, c);
      if Written(m, c).Some? {
        WrittenFits(m, c);
        CellKept(c, Written(m, c).value);
      }
    }
  }

  /** Create then read: with a store that keeps what was written, whatever the table's own
      defaults are, the row reads back as the entity `createSpec` returned, foreign key included. */
  lemma CreateThenRead(m: Mutation, now: Time, id: int, filler: Column -> Cell)
    requires RequiredPresent(m)
    ensures Read(COLUMNS, StoredRow(SpecOf(m, now), id, filler)) == (NodeOf(m).(id := id), None)
  {
    var row, node := StoredRow(SpecOf(m, now), id, filler), NodeOf(m).(id := id);
    assert node.selected == map[];
    assert forall c: Column :: !c.Other? ==> Readable(c, row) && FieldRead(c, row) == Get(node, c) by {
      forall c: Column | !c.Other? ensures Readable(c, row) && FieldRead(c, row) == Get(node, c) {
        ColumnReadable(m, now, id, filler, c);
        ColumnDecodes(m, now, id, filler, c);
      }
    }
    ReadEquals(row, node);
  }

  /** Table defaults that no unset field of an entity equals. */
  function OddFiller(c: Column): Cell {
    match EmptySlot(c)
    case NullInt64(_) => IntCell(1)
    case NullTime(_) => TimeCell(ZERO_TIME + 1)
    case NullString(_) => TextCell("x")
    case NullBool(_) => BoolCell(true)
    case NullFloat64(_) => FloatCell(1.0)
    case Bytes(_) => JsonCell(DocObject(map[]))
    case UnknownType(_) => NullCell
  }

  lemma OddFillerDiffers(c: Column)
    requires Required(c)
    ensures Fits(c, OddFiller(c)) && Held(OddFiller(c)) != Get(ZERO, c)
  {
  }

  lemma OddFillerShows(m: Mutation, now: Time, id: int, c: Column)
    requires Required(c) && Written(m, c).None?
    ensures FieldRead(c, StoredRow(SpecOf(m, now), id, OddFiller)) != Get(NodeOf(m).(id := id), c)
  {
    StoredField(m, now, id, OddFiller, c);
    OddFillerDiffers(c);
    CellKept(c, OddFiller(c));
    NodeHolds(m, id, c);
  }

  ghost predicate ReadsBack(m: Mutation) {
    forall now: Time, id: int, filler: Column -> Cell :: ProperFiller(filler) ==>
      Read(COLUMNS, StoredRow(SpecOf(m, now), id, filler)) == (NodeOf(m).(id := id), None)
  }

  lemma OddFillerFits(c: Column)
    requires !c.Other?
    ensures Fits(c, OddFiller(c))
  {
  }

  lemma RequiredIsNamed(c: Column)
    requires Required(c)
    ensures !c.Other?
  {
  }

  lemma MissingColumnShows(m: Mutation, now: Time, c: Column)
    requires Required(c) && Written(m, c).None?
    ensures Read(COLUMNS, StoredRow(SpecOf(m, now), 0, OddFiller)) != (NodeOf(m).(id := 0), None)
  {
    var row := StoredRow(SpecOf(m, now), 0, OddFiller);
    assert Get(Read(COLUMNS, row).0, c) == FieldRead(c, row) by {
      forall d: Column | !d.Other? ensures Readable(d, row) {
        OddFillerFits(d);
        ColumnReadable(m, now, 0, OddFiller, d);
      }
      FullRead(row);
      RequiredIsNamed(c);
    }
    OddFillerShows(m, now, 0, c);
  }

  lemma OddFillerIsProper()
    ensures ProperFiller(OddFiller)
  {
  }

  lemma PresentReadsBack(m: Mutation)
    requires RequiredPresent(m)
    ensures ReadsBack(m)
  {
    forall now: Time, id: int, filler: Column -> Cell { CreateThenRead(m, now, id, filler); }
  }

  lemma MissingDoesNotReadBack(m: Mutation, c: Column)
    requires Required(c) && Written(m, c).None?
    ensures !ReadsBack(m)
  {
    OddFillerIsProper();
    MissingColumnShows(m, ZERO_TIME, c);
  }

  /** The required columns are exactly what the round trip needs. */
  lemma ReadsBackExactly(m: Mutation)
    ensures ReadsBack(m) <==> RequiredPresent(m)
  {
    if RequiredPresent(m) {
      PresentReadsBack(m);
    } else {
      var c :| Required(c) && Written(m, c).None?;
      MissingDoesNotReadBack(m, c);
    }
  }

  /** The whole way: create the spec, let the table store it under an id, read the row back. */
  method CreateStoreRead(m: Mutation, now: Time, id: int, filler: Column -> Cell)
    returns (created: Fields, read: Account, err: Option<AssignError>)
    ensures created == NodeOf(m).(id := id) && fresh(read)
    ensures RequiredPresent(m) ==> err == None && read.fields == created
  {
    var spec;
    created, spec := CreateSpec(m, now);
    created := created.(id := id);
    read := new Account();
    var values := ScanRow(COLUMNS, StoredRow(spec, id, filler));
    err := read.AssignValues(COLUMNS, values[..]);
    if RequiredPresent(m) {
      CreateThenRead(m, now, id, filler);
    }
  }
}
