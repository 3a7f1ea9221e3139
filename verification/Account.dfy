/** The Account entity: how a row is scanned into typed slots and decoded into fields, and
    how its eager-loaded edges are read (backend/ent/account.go). */
module Account {
  import opened Wrappers
  import opened Tables

  /** Instants are opaque; only equality matters. */
  type Time = int
  const ZERO_TIME: Time := 0

  /** A Go map of JSON values, or nil. */
  type Json = Option<map<string, string>>

  /** The table's columns, and any other name a query may select. */
  datatype Column =
    | Id | CreatedAt | UpdatedAt | DeletedAt | Name | Notes | Platform | Type | Credentials | Extra
    | ProxyID | Concurrency | LoadFactor | Priority | RateMultiplier | Status | ErrorMessage
    | LastUsedAt | ExpiresAt | AutoPauseOnExpired | Schedulable | RateLimitedAt | RateLimitResetAt
    | OverloadUntil | TempUnschedulableUntil | TempUnschedulableReason | SessionWindowStart
    | SessionWindowEnd | SessionWindowStatus | Other(name: string)

  const IDENTITY: seq<Column> := [
    Id, CreatedAt, UpdatedAt, DeletedAt, Name, Notes, Platform, Type, Credentials, Extra]
  const SETTINGS: seq<Column> := [
    ProxyID, Concurrency, LoadFactor, Priority, RateMultiplier, Status, ErrorMessage, LastUsedAt,
    ExpiresAt, AutoPauseOnExpired]
  const LIMITS: seq<Column> := [
    Schedulable, RateLimitedAt, RateLimitResetAt, OverloadUntil, TempUnschedulableUntil,
    TempUnschedulableReason, SessionWindowStart, SessionWindowEnd, SessionWindowStatus]
  const COLUMNS: seq<Column> := IDENTITY + SETTINGS + LIMITS

  datatype Fields = Fields(
    id: int, createdAt: Time, updatedAt: Time, deletedAt: Option<Time>, name: string, notes: Option<string>,
    platform: string, typ: string, credentials: Json, extra: Json, proxyID: Option<int>, concurrency: int,
    loadFactor: Option<int>, priority: int, rateMultiplier: real, status: string, errorMessage: Option<string>,
    lastUsedAt: Option<Time>, expiresAt: Option<Time>, autoPauseOnExpired: bool, schedulable: bool,
    rateLimitedAt: Option<Time>, rateLimitResetAt: Option<Time>, overloadUntil: Option<Time>,
    tempUnschedulableUntil: Option<Time>, tempUnschedulableReason: Option<string>,
    sessionWindowStart: Option<Time>, sessionWindowEnd: Option<Time>, sessionWindowStatus: Option<string>,
    selected: map<string, Slot>)

  /** A freshly allocated entity. */
  const ZERO := Fields(
    id := 0, createdAt := ZERO_TIME, updatedAt := ZERO_TIME, deletedAt := None, name := "", notes := None,
    platform := "", typ := "", credentials := None, extra := None, proxyID := None, concurrency := 0,
    loadFactor := None, priority := 0, rateMultiplier := 0.0, status := "", errorMessage := None,
    lastUsedAt := None, expiresAt := None, autoPauseOnExpired := false, schedulable := false,
    rateLimitedAt := None, rateLimitResetAt := None, overloadUntil := None, tempUnschedulableUntil := None,
    tempUnschedulableReason := None, sessionWindowStart := None, sessionWindowEnd := None,
    sessionWindowStatus := None, selected := map[])

  /** A JSON document as the decoder sees it: anything but null or an object is an error. */
  datatype Doc = DocNull | DocObject(entries: map<string, string>) | DocOther

  /** A value in a table. */
  datatype Cell =
    | NullCell | IntCell(num: int) | TimeCell(time: Time) | TextCell(text: string)
    | BoolCell(flag: bool) | FloatCell(float: real) | JsonCell(doc: Doc)

  /** A scan destination together with what the driver put into it. */
  datatype Slot =
    | NullInt64(num: Option<int>) | NullTime(time: Option<Time>) | NullString(text: Option<string>)
    | NullBool(flag: Option<bool>) | NullFloat64(float: Option<real>) | Bytes(doc: Option<Doc>)
    | UnknownType(cell: Cell)

  datatype AssignError = LengthMismatch | UnexpectedType(column: Column) | BadJson(column: Column)

  // ----- scanValues -----

  /** The destination `scanValues` allocates for a column. */
  function EmptySlot(c: Column): Slot {
    match c
    case Credentials | Extra => Bytes(None)
    case AutoPauseOnExpired | Schedulable => NullBool(None)
    case RateMultiplier => NullFloat64(None)
    case Id | ProxyID | Concurrency | LoadFactor | Priority => NullInt64(None)
    case Name | Notes | Platform | Type | Status | ErrorMessage | TempUnschedulableReason |
        SessionWindowStatus => NullString(None)
    case CreatedAt | UpdatedAt | DeletedAt | LastUsedAt | ExpiresAt | RateLimitedAt | RateLimitResetAt |
        OverloadUntil | TempUnschedulableUntil | SessionWindowStart | SessionWindowEnd => NullTime(None)
    case Other(_) => UnknownType(NullCell)
  }

  predicate SameKind(a: Slot, b: Slot) {
    match a
    case NullInt64(_) => b.NullInt64?
    case NullTime(_) => b.NullTime?
    case NullString(_) => b.NullString?
    case NullBool(_) => b.NullBool?
    case NullFloat64(_) => b.NullFloat64?
    case Bytes(_) => b.Bytes?
    case UnknownType(_) => b.UnknownType?
  }

  method ScanValues(columns: seq<Column>) returns (values: array<Slot>)
    ensures fresh(values) && values.Length == |columns|
    ensures forall i :: 0 <= i < |columns| ==> values[i] == EmptySlot(columns[i])
  {
    values := new Slot[|columns|](_ => UnknownType(NullCell));
    for i := 0 to |columns|
      invariant forall j :: 0 <= j < i ==> values[j] == EmptySlot(columns[j])
    {
      values[i] := EmptySlot(columns[i]);
    }
  }

  // ----- assignValues -----

  /** `json.Unmarshal` into a field: null clears it, an object is merged into it. */
  function Unmarshal(prior: Json, doc: Doc): Result<Json, ()> {
    match doc
    case DocNull => Success(None)
    case DocObject(m) => Success(Some(prior.GetOr(map[]) + m))
    case DocOther => Failure(())
  }

  /** The switch of `assignValues` for one column: NULL leaves the field as it is, except that the
      id becomes 0. */
  function AssignColumn(f: Fields, c: Column, s: Slot): Result<Fields, AssignError> {
    match c
    case Id =>
      if !s.NullInt64? then Failure(UnexpectedType(c))
      else Success(f.(id := s.num.GetOr(0)))
    case CreatedAt =>
      if !s.NullTime? then Failure(UnexpectedType(c))
      else Success(if s.time.None? then f else f.(createdAt := s.time.value))
    case UpdatedAt =>
      if !s.NullTime? then Failure(UnexpectedType(c))
      else Success(if s.time.None? then f else f.(updatedAt := s.time.value))
    case DeletedAt =>
      if !s.NullTime? then Failure(UnexpectedType(c))
      else Success(if s.time.None? then f else f.(deletedAt := s.time))
    case Name =>
      if !s.NullString? then Failure(UnexpectedType(c))
      else Success(if s.text.None? then f else f.(name := s.text.value))
    case Notes =>
      if !s.NullString? then Failure(UnexpectedType(c))
      else Success(if s.text.None? then f else f.(notes := s.text))
    case Platform =>
      if !s.NullString? then Failure(UnexpectedType(c))
      else Success(if s.text.None? then f else f.(platform := s.text.value))
    case Type =>
      if !s.NullString? then Failure(UnexpectedType(c))
      else Success(if s.text.None? then f else f.(typ := s.text.value))
    case Credentials =>
      if !s.Bytes? then Failure(UnexpectedType(c))
      else if s.doc.None? then Success(f)
      else
        var r := Unmarshal(f.credentials, s.doc.value);
        if r.Failure? then Failure(BadJson(c)) else Success(f.(credentials := r.value))
    case Extra =>
      if !s.Bytes? then Failure(UnexpectedType(c))
      else if s.doc.None? then Success(f)
      else
        var r := Unmarshal(f.extra, s.doc.value);
        if r.Failure? then Failure(BadJson(c)) else Success(f.(extra := r.value))
    case ProxyID =>
      if !s.NullInt64? then Failure(UnexpectedType(c))
      else Success(if s.num.None? then f else f.(proxyID := s.num))
    case Concurrency =>
      if !s.NullInt64? then Failure(UnexpectedType(c))
      else Success(if s.num.None? then f else f.(concurrency := s.num.value))
    case LoadFactor =>
      if !s.NullInt64? then Failure(UnexpectedType(c))
      else Success(if s.num.None? then f else f.(loadFactor := s.num))
    case Priority =>
      if !s.NullInt64? then Failure(UnexpectedType(c))
      else Success(if s.num.None? then f else f.(priority := s.num.value))
    case RateMultiplier =>
      if !s.NullFloat64? then Failure(UnexpectedType(c))
      else Success(if s.float.None? then f else f.(rateMultiplier := s.float.value))
    case Status =>
      if !s.NullString? then Failure(UnexpectedType(c))
      else Success(if s.text.None? then f else f.(status := s.text.value))
    case ErrorMessage =>
      if !s.NullString? then Failure(UnexpectedType(c))
      else Success(if s.text.None? then f else f.(errorMessage := s.text))
    case LastUsedAt =>
      if !s.NullTime? then Failure(UnexpectedType(c))
      else Success(if s.time.None? then f else f.(lastUsedAt := s.time))
    case ExpiresAt =>
      if !s.NullTime? then Failure(UnexpectedType(c))
      else Success(if s.time.None? then f else f.(expiresAt := s.time))
    case AutoPauseOnExpired =>
      if !s.NullBool? then Failure(UnexpectedType(c))
      else Success(if s.flag.None? then f else f.(autoPauseOnExpired := s.flag.value))
    case Schedulable =>
      if !s.NullBool? then Failure(UnexpectedType(c))
      else Success(if s.flag.None? then f else f.(schedulable := s.flag.value))
    case RateLimitedAt =>
      if !s.NullTime? then Failure(UnexpectedType(c))
      else Success(if s.time.None? then f else f.(rateLimitedAt := s.time))
    case RateLimitResetAt =>
      if !s.NullTime? then Failure(UnexpectedType(c))
      else Success(if s.time.None? then f else f.(rateLimitResetAt := s.time))
    case OverloadUntil =>
      if !s.NullTime? then Failure(UnexpectedType(c))
      else Success(if s.time.None? then f else f.(overloadUntil := s.time))
    case TempUnschedulableUntil =>
      if !s.NullTime? then Failure(UnexpectedType(c))
      else Success(if s.time.None? then f else f.(tempUnschedulableUntil := s.time))
    case TempUnschedulableReason =>
      if !s.NullString? then Failure(UnexpectedType(c))
      else Success(if s.text.None? then f else f.(tempUnschedulableReason := s.text))
    case SessionWindowStart =>
      if !s.NullTime? then Failure(UnexpectedType(c))
      else Success(if s.time.None? then f else f.(sessionWindowStart := s.time))
    case SessionWindowEnd =>
      if !s.NullTime? then Failure(UnexpectedType(c))
      else Success(if s.time.None? then f else f.(sessionWindowEnd := s.time))
    case SessionWindowStatus =>
      if !s.NullString? then Failure(UnexpectedType(c))
      else Success(if s.text.None? then f else f.(sessionWindowStatus := s.text))
    case Other(n) => Success(f.(selected := f.selected[n := s]))
  }

  /** Columns from left to right, stopping at the first error with what was assigned so far. */
  function AssignLoop(f: Fields, columns: seq<Column>, values: seq<Slot>): (Fields, Option<AssignError>)
    requires |columns| <= |values|
    decreases |columns|
  {
    if columns == [] then (f, None)
    else
      var r := AssignColumn(f, columns[0], values[0]);
      if r.Failure? then (f, Some(r.error)) else AssignLoop(r.value, columns[1..], values[1..])
  }

  function AssignAll(f: Fields, columns: seq<Column>, values: seq<Slot>): (Fields, Option<AssignError>) {
    if |values| < |columns| then (f, Some(LengthMismatch)) else AssignLoop(f, columns, values)
  }

  datatype LoadedTypes = LoadedTypes(groups: bool, proxy: bool, usageLogs: bool, accountGroups: bool)

  datatype EdgeError = NotLoaded(edge: string) | NotFound(entity: string)

  class Account {
    var fields: Fields
    var groups: seq<Entity>
    var proxy: Option<Entity>
    var usageLogs: seq<Entity>
    var accountGroups: seq<Entity>
    var loadedTypes: LoadedTypes

    constructor ()
      ensures fields == ZERO
      ensures groups == [] && proxy == None && usageLogs == [] && accountGroups == []
      ensures loadedTypes == LoadedTypes(false, false, false, false)
    {
      fields := ZERO;
      groups, proxy, usageLogs, accountGroups := [], None, [], [];
      loadedTypes := LoadedTypes(false, false, false, false);
    }

    method AssignValues(columns: seq<Column>, values: seq<Slot>) returns (err: Option<AssignError>)
      modifies this`fields
      ensures (fields, err) == AssignAll(old(fields), columns, values)
    {
      if |values| < |columns| {
        return Some(LengthMismatch);
      }
      for i := 0 to |columns|
        invariant AssignLoop(old(fields), columns, values) == AssignLoop(fields, columns[i..], values[i..])
      {
        assert columns[i..][1..] == columns[i + 1..] && values[i..][1..] == values[i + 1..];
        var r := AssignColumn(fields, columns[i], values[i]);
        if r.Failure? {
          return Some(r.error);
        }
        fields := r.value;
      }
      return None;
    }

    function GroupsOrErr(): Result<seq<Entity>, EdgeError>
      reads this
    {
      if loadedTypes.groups then Success(groups) else Failure(NotLoaded("groups"))
    }

    function ProxyOrErr(): Result<Entity, EdgeError>
      reads this
    {
      if proxy.Some? then Success(proxy.value)
      else if loadedTypes.proxy then Failure(NotFound("proxy"))
      else Failure(NotLoaded("proxy"))
    }

    function UsageLogsOrErr(): Result<seq<Entity>, EdgeError>
      reads this
    {
      if loadedTypes.usageLogs then Success(usageLogs) else Failure(NotLoaded("usage_logs"))
    }

    function AccountGroupsOrErr(): Result<seq<Entity>, EdgeError>
      reads this
    {
      if loadedTypes.accountGroups then Success(accountGroups) else Failure(NotLoaded("account_groups"))
    }
  }

  // ----- fields one by one -----

  /** What a field holds: a value as it would stand in the table, or a selected slot. */
  datatype Held = Held(cell: Cell) | Selected(slot: Option<Slot>)

  function OfInt(v: Option<int>): Held {
    Held(if v.None? then NullCell else IntCell(v.value))
  }

  function OfTime(v: Option<Time>): Held {
    Held(if v.None? then NullCell else TimeCell(v.value))
  }

  function OfText(v: Option<string>): Held {
    Held(if v.None? then NullCell else TextCell(v.value))
  }

  function OfJson(v: Json): Held {
    Held(JsonCell(if v.None? then DocNull else DocObject(v.value)))
  }

  function Get(f: Fields, c: Column): Held {
    match c
    case Id => Held(IntCell(f.id))
    case CreatedAt => Held(TimeCell(f.createdAt))
    case UpdatedAt => Held(TimeCell(f.updatedAt))
    case DeletedAt => OfTime(f.deletedAt)
    case Name => Held(TextCell(f.name))
    case Notes => OfText(f.notes)
    case Platform => Held(TextCell(f.platform))
    case Type => Held(TextCell(f.typ))
    case Credentials => OfJson(f.credentials)
    case Extra => OfJson(f.extra)
    case ProxyID => OfInt(f.proxyID)
    case Concurrency => Held(IntCell(f.concurrency))
    case LoadFactor => OfInt(f.loadFactor)
    case Priority => Held(IntCell(f.priority))
    case RateMultiplier => Held(FloatCell(f.rateMultiplier))
    case Status => Held(TextCell(f.status))
    case ErrorMessage => OfText(f.errorMessage)
    case LastUsedAt => OfTime(f.lastUsedAt)
    case ExpiresAt => OfTime(f.expiresAt)
    case AutoPauseOnExpired => Held(BoolCell(f.autoPauseOnExpired))
    case Schedulable => Held(BoolCell(f.schedulable))
    case RateLimitedAt => OfTime(f.rateLimitedAt)
    case RateLimitResetAt => OfTime(f.rateLimitResetAt)
    case OverloadUntil => OfTime(f.overloadUntil)
    case TempUnschedulableUntil => OfTime(f.tempUnschedulableUntil)
    case TempUnschedulableReason => OfText(f.tempUnschedulableReason)
    case SessionWindowStart => OfTime(f.sessionWindowStart)
    case SessionWindowEnd => OfTime(f.sessionWindowEnd)
    case SessionWindowStatus => OfText(f.sessionWindowStatus)
    case Other(n) => Selected(if n in f.selected then Some(f.selected[n]) else None)
  }

  lemma SameRequired(f: Fields, g: Fields)
    requires forall c :: Get(f, c) == Get(g, c)
    ensures f.id == g.id && f.createdAt == g.createdAt && f.updatedAt == g.updatedAt && f.name == g.name &&
            f.platform == g.platform && f.typ == g.typ && f.concurrency == g.concurrency &&
            f.priority == g.priority && f.rateMultiplier == g.rateMultiplier && f.status == g.status &&
            f.autoPauseOnExpired == g.autoPauseOnExpired && f.schedulable == g.schedulable
  {
    assert Get(f, Id) == Get(g, Id);
    assert Get(f, CreatedAt) == Get(g, CreatedAt);
    assert Get(f, UpdatedAt) == Get(g, UpdatedAt);
    assert Get(f, Name) == Get(g, Name);
    assert Get(f, Platform) == Get(g, Platform);
    assert Get(f, Type) == Get(g, Type);
    assert Get(f, Concurrency) == Get(g, Concurrency);
    assert Get(f, Priority) == Get(g, Priority);
    assert Get(f, RateMultiplier) == Get(g, RateMultiplier);
    assert Get(f, Status) == Get(g, Status);
    assert Get(f, AutoPauseOnExpired) == Get(g, AutoPauseOnExpired);
    assert Get(f, Schedulable) == Get(g, Schedulable);
  }

  lemma SameTimes(f: Fields, g: Fields)
    requires forall c :: Get(f, c) == Get(g, c)
    ensures f.deletedAt == g.deletedAt && f.lastUsedAt == g.lastUsedAt && f.expiresAt == g.expiresAt &&
            f.rateLimitedAt == g.rateLimitedAt && f.rateLimitResetAt == g.rateLimitResetAt
  {
    assert Get(f, DeletedAt) == Get(g, DeletedAt);
    assert Get(f, LastUsedAt) == Get(g, LastUsedAt);
    assert Get(f, ExpiresAt) == Get(g, ExpiresAt);
    assert Get(f, RateLimitedAt) == Get(g, RateLimitedAt);
    assert Get(f, RateLimitResetAt) == Get(g, RateLimitResetAt);
  }

  lemma SameWindows(f: Fields, g: Fields)
    requires forall c :: Get(f, c) == Get(g, c)
    ensures f.overloadUntil == g.overloadUntil && f.tempUnschedulableUntil == g.tempUnschedulableUntil &&
            f.sessionWindowStart == g.sessionWindowStart && f.sessionWindowEnd == g.sessionWindowEnd
  {
    assert Get(f, OverloadUntil) == Get(g, OverloadUntil);
    assert Get(f, TempUnschedulableUntil) == Get(g, TempUnschedulableUntil);
    assert Get(f, SessionWindowStart) == Get(g, SessionWindowStart);
    assert Get(f, SessionWindowEnd) == Get(g, SessionWindowEnd);
  }

  lemma SameOptional(f: Fields, g: Fields)
    requires forall c :: Get(f, c) == Get(g, c)
    ensures f.notes == g.notes && f.credentials == g.credentials && f.extra == g.extra &&
            f.proxyID == g.proxyID && f.loadFactor == g.loadFactor && f.errorMessage == g.errorMessage &&
            f.tempUnschedulableReason == g.tempUnschedulableReason &&
            f.sessionWindowStatus == g.sessionWindowStatus
  {
    assert Get(f, Notes) == Get(g, Notes);
    assert Get(f, Credentials) == Get(g, Credentials);
    assert Get(f, Extra) == Get(g, Extra);
    assert Get(f, ProxyID) == Get(g, ProxyID);
    assert Get(f, LoadFactor) == Get(g, LoadFactor);
    assert Get(f, ErrorMessage) == Get(g, ErrorMessage);
    assert Get(f, TempUnschedulableReason) == Get(g, TempUnschedulableReason);
    assert Get(f, SessionWindowStatus) == Get(g, SessionWindowStatus);
  }

  /** Two entities with the same fields are equal. */
  lemma Extensional(f: Fields, g: Fields)
    requires forall c :: Get(f, c) == Get(g, c)
    ensures f == g
  {
    assert f.selected == g.selected by {
      forall n ensures n in f.selected <==> n in g.selected
               ensures n in f.selected ==> f.selected[n] == g.selected[n]
      {
        assert Get(f, Other(n)) == Get(g, Other(n));
      }
    }
    SameRequired(f, g);
    SameTimes(f, g);
    SameWindows(f, g);
    SameOptional(f, g);
  }

  // ----- decoding in terms of single fields -----

  /** Whether the switch refuses a slot: this does not depend on the entity. */
  function Refusal(c: Column, s: Slot): Option<AssignError> {
    if !c.Other? && !SameKind(EmptySlot(c), s) then Some(UnexpectedType(c))
    else if !c.Other? && s.Bytes? && s.doc == Some(DocOther) then Some(BadJson(c))
    else None
  }

  /** What a field holds once an accepted slot has been assigned to it. */
  function Decoded(prior: Held, c: Column, s: Slot): Held {
    if c.Other? then Selected(Some(s))
    else
      match s
      case NullInt64(v) => if v.Some? then Held(IntCell(v.value)) else if c == Id then Held(IntCell(0)) else prior
      case NullTime(v) => if v.Some? then Held(TimeCell(v.value)) else prior
      case NullString(v) => if v.Some? then Held(TextCell(v.value)) else prior
      case NullBool(v) => if v.Some? then Held(BoolCell(v.value)) else prior
      case NullFloat64(v) => if v.Some? then Held(FloatCell(v.value)) else prior
      case Bytes(v) =>
        if v.None? then prior
        else if v.value.DocObject? && prior.Held? && prior.cell.JsonCell? && prior.cell.doc.DocObject?
        then Held(JsonCell(DocObject(prior.cell.doc.entries + v.value.entries)))
        else Held(JsonCell(v.value))
      case UnknownType(_) => prior
  }

  lemma AssignRefuses(f: Fields, c: Column, s: Slot)
    ensures match AssignColumn(f, c, s)
            case Success(_) => Refusal(c, s) == None
            case Failure(e) => Refusal(c, s) == Some(e)
  {
  }

  lemma AssignSetsPlain(f: Fields, c: Column, s: Slot)
    requires AssignColumn(f, c, s).Success? && (EmptySlot(c).NullTime? || EmptySlot(c).NullString?)
    ensures Get(AssignColumn(f, c, s).value, c) == Decoded(Get(f, c), c, s)
  {
  }

  lemma AssignSetsOther(f: Fields, c: Column, s: Slot)
    requires AssignColumn(f, c, s).Success? && !EmptySlot(c).NullTime? && !EmptySlot(c).NullString?
    ensures Get(AssignColumn(f, c, s).value, c) == Decoded(Get(f, c), c, s)
  {
    if s.Bytes? && s.doc.Some? && s.doc.value.DocObject? {
      assert map[] + s.doc.value.entries == s.doc.value.entries;
    }
  }

  lemma AssignSets(f: Fields, c: Column, s: Slot)
    requires AssignColumn(f, c, s).Success?
    ensures Get(AssignColumn(f, c, s).value, c) == Decoded(Get(f, c), c, s)
  {
    if EmptySlot(c).NullTime? || EmptySlot(c).NullString? {
      AssignSetsPlain(f, c, s);
    } else {
      AssignSetsOther(f, c, s);
    }
  }

  lemma TimeKeepsTime(f: Fields, c: Column, s: Slot, d: Column)
    requires AssignColumn(f, c, s).Success? && d != c && EmptySlot(c).NullTime?
    requires EmptySlot(d).NullTime?
    ensures Get(AssignColumn(f, c, s).value, d) == Get(f, d)
  {
    match c
    case CreatedAt =>
    case UpdatedAt =>
    case DeletedAt =>
    case LastUsedAt =>
    case ExpiresAt =>
    case RateLimitedAt =>
    case RateLimitResetAt =>
    case OverloadUntil =>
    case TempUnschedulableUntil =>
    case SessionWindowStart =>
    case SessionWindowEnd =>
    case _ =>
  }

  lemma TimeKeepsText(f: Fields, c: Column, s: Slot, d: Column)
    requires AssignColumn(f, c, s).Success? && d != c && EmptySlot(c).NullTime?
    requires EmptySlot(d).NullString?
    ensures Get(AssignColumn(f, c, s).value, d) == Get(f, d)
  {
    match c
    case CreatedAt =>
    case UpdatedAt =>
    case DeletedAt =>
    case LastUsedAt =>
    case ExpiresAt =>
    case RateLimitedAt =>
    case RateLimitResetAt =>
    case OverloadUntil =>
    case TempUnschedulableUntil =>
    case SessionWindowStart =>
    case SessionWindowEnd =>
    case _ =>
  }

  lemma TimeKeepsOther(f: Fields, c: Column, s: Slot, d: Column)
    requires AssignColumn(f, c, s).Success? && d != c && EmptySlot(c).NullTime?
    requires !EmptySlot(d).NullTime? && !EmptySlot(d).NullString?
    ensures Get(AssignColumn(f, c, s).value, d) == Get(f, d)
  {
    match c
    case CreatedAt =>
    case UpdatedAt =>
    case DeletedAt =>
    case LastUsedAt =>
    case ExpiresAt =>
    case RateLimitedAt =>
    case RateLimitResetAt =>
    case OverloadUntil =>
    case TempUnschedulableUntil =>
    case SessionWindowStart =>
    case SessionWindowEnd =>
    case _ =>
  }

  lemma TextKeepsTime(f: Fields, c: Column, s: Slot, d: Column)
    requires AssignColumn(f, c, s).Success? && d != c && EmptySlot(c).NullString?
    requires EmptySlot(d).NullTime?
    ensures Get(AssignColumn(f, c, s).value, d) == Get(f, d)
  {
    match c
    case Name =>
    case Notes =>
    case Platform =>
    case Type =>
    case Status =>
    case ErrorMessage =>
    case TempUnschedulableReason =>
    case SessionWindowStatus =>
    case _ =>
  }

  lemma TextKeepsText(f: Fields, c: Column, s: Slot, d: Column)
    requires AssignColumn(f, c, s).Success? && d != c && EmptySlot(c).NullString?
    requires EmptySlot(d).NullString?
    ensures Get(AssignColumn(f, c, s).value, d) == Get(f, d)
  {
    match c
    case Name =>
    case Notes =>
    case Platform =>
    case Type =>
    case Status =>
    case ErrorMessage =>
    case TempUnschedulableReason =>
    case SessionWindowStatus =>
    case _ =>
  }

  lemma TextKeepsOther(f: Fields, c: Column, s: Slot, d: Column)
    requires AssignColumn(f, c, s).Success? && d != c && EmptySlot(c).NullString?
    requires !EmptySlot(d).NullTime? && !EmptySlot(d).NullString?
    ensures Get(AssignColumn(f, c, s).value, d) == Get(f, d)
  {
    match c
    case Name =>
    case Notes =>
    case Platform =>
    case Type =>
    case Status =>
    case ErrorMessage =>
    case TempUnschedulableReason =>
    case SessionWindowStatus =>
    case _ =>
  }

  lemma OtherKeepsTime(f: Fields, c: Column, s: Slot, d: Column)
    requires AssignColumn(f, c, s).Success? && d != c && !EmptySlot(c).NullTime? && !EmptySlot(c).NullString?
    requires EmptySlot(d).NullTime?
    ensures Get(AssignColumn(f, c, s).value, d) == Get(f, d)
  {
    match c
    case Id =>
    case Credentials =>
    case Extra =>
    case ProxyID =>
    case Concurrency =>
    case LoadFactor =>
    case Priority =>
    case RateMultiplier =>
    case AutoPauseOnExpired =>
    case Schedulable =>
    case _ =>
  }

  lemma OtherKeepsText(f: Fields, c: Column, s: Slot, d: Column)
    requires AssignColumn(f, c, s).Success? && d != c && !EmptySlot(c).NullTime? && !EmptySlot(c).NullString?
    requires EmptySlot(d).NullString?
    ensures Get(AssignColumn(f, c, s).value, d) == Get(f, d)
  {
    match c
    case Id =>
    case Credentials =>
    case Extra =>
    case ProxyID =>
    case Concurrency =>
    case LoadFactor =>
    case Priority =>
    case RateMultiplier =>
    case AutoPauseOnExpired =>
    case Schedulable =>
    case _ =>
  }

  lemma OtherKeepsOther(f: Fields, c: Column, s: Slot, d: Column)
    requires AssignColumn(f, c, s).Success? && d != c && !EmptySlot(c).NullTime? && !EmptySlot(c).NullString?
    requires !EmptySlot(d).NullTime? && !EmptySlot(d).NullString?
    ensures Get(AssignColumn(f, c, s).value, d) == Get(f, d)
  {
    match c
    case Id =>
    case Credentials =>
    case Extra =>
    case ProxyID =>
    case Concurrency =>
    case LoadFactor =>
    case Priority =>
    case RateMultiplier =>
    case AutoPauseOnExpired =>
    case Schedulable =>
    case _ =>
  }

  lemma AssignKeeps(f: Fields, c: Column, s: Slot, d: Column)
    requires AssignColumn(f, c, s).Success? && d != c
    ensures Get(AssignColumn(f, c, s).value, d) == Get(f, d)
  {
    match (EmptySlot(c), EmptySlot(d))
    case (NullTime(_), NullTime(_)) => TimeKeepsTime(f, c, s, d);
    case (NullTime(_), NullString(_)) => TimeKeepsText(f, c, s, d);
    case (NullTime(_), _) => TimeKeepsOther(f, c, s, d);
    case (NullString(_), NullTime(_)) => TextKeepsTime(f, c, s, d);
    case (NullString(_), NullString(_)) => TextKeepsText(f, c, s, d);
    case (NullString(_), _) => TextKeepsOther(f, c, s, d);
    case (_, NullTime(_)) => OtherKeepsTime(f, c, s, d);
    case (_, NullString(_)) => OtherKeepsText(f, c, s, d);
    case (_, _) => OtherKeepsOther(f, c, s, d);
  }

  // ----- whole column lists -----

  /** Slots of the kinds `scanValues` allocated, filled by the driver with anything. */
  predicate Scanned(columns: seq<Column>, values: seq<Slot>) {
    |values| == |columns| && forall i :: 0 <= i < |columns| ==> SameKind(EmptySlot(columns[i]), values[i])
  }

  /** Values that depend only on the column, as those of one row do. */
  predicate FromRow(columns: seq<Column>, values: seq<Slot>, row: map<Column, Slot>) {
    |values| == |columns| && forall i :: 0 <= i < |columns| ==> columns[i] in row && values[i] == row[columns[i]]
  }

  /** Scan and assign agree: whatever the columns, only a bad JSON document can be refused. */
  lemma {:induction false} ScanAssignAgree(f: Fields, columns: seq<Column>, values: seq<Slot>)
    requires Scanned(columns, values)
    ensures var err := AssignAll(f, columns, values).1;
            match err
            case None => true
            case Some(BadJson(c)) =>
              exists i :: 0 <= i < |columns| && columns[i] == c && values[i] == Bytes(Some(DocOther))
            case Some(_) => false
    decreases |columns|
  {
    if columns != [] {
      AssignRefuses(f, columns[0], values[0]);
      var r := AssignColumn(f, columns[0], values[0]);
      if r.Success? {
        ScanAssignAgree(r.value, columns[1..], values[1..]);
      }
    }
  }

  /** With too few values nothing is assigned. */
  lemma TooFewValues(f: Fields, columns: seq<Column>, values: seq<Slot>)
    ensures AssignAll(f, columns, values).1 == Some(LengthMismatch) <==> |values| < |columns|
    ensures |values| < |columns| ==> AssignAll(f, columns, values).0 == f
  {
    if |columns| <= |values| {
      NoMismatch(f, columns, values);
    }
  }

  lemma {:induction false} NoMismatch(f: Fields, columns: seq<Column>, values: seq<Slot>)
    requires |columns| <= |values|
    ensures AssignLoop(f, columns, values).1 != Some(LengthMismatch)
    decreases |columns|
  {
    if columns != [] {
      AssignRefuses(f, columns[0], values[0]);
      var r := AssignColumn(f, columns[0], values[0]);
      if r.Success? {
        NoMismatch(r.value, columns[1..], values[1..]);
      }
    }
  }

  /** Assigning stops at the first slot that is refused, and keeps what was assigned before it. */
  lemma {:induction false} StopsAtRefusal(f: Fields, columns: seq<Column>, values: seq<Slot>, k: nat)
    requires k < |columns| <= |values| && Refusal(columns[k], values[k]).Some?
    requires forall j :: 0 <= j < k ==> Refusal(columns[j], values[j]) == None
    ensures AssignAll(f, columns, values) ==
            (AssignAll(f, columns[..k], values[..k]).0, Refusal(columns[k], values[k]))
    decreases k
  {
    AssignRefuses(f, columns[0], values[0]);
    if k > 0 {
      var f1 := AssignColumn(f, columns[0], values[0]).value;
      StopsAtRefusal(f1, columns[1..], values[1..], k - 1);
      assert columns[..k][1..] == columns[1..][..k - 1] && values[..k][1..] == values[1..][..k - 1];
    }
  }

  lemma DecodedTwice(prior: Held, c: Column, s: Slot)
    ensures Decoded(Decoded(prior, c, s), c, s) == Decoded(prior, c, s)
  {
    if s.Bytes? && s.doc.Some? && s.doc.value.DocObject? {
      var m := s.doc.value.entries;
      assert m + m == m;
      if prior.Held? && prior.cell.JsonCell? && prior.cell.doc.DocObject? {
        assert prior.cell.doc.entries + m + m == prior.cell.doc.entries + m;
      }
    }
  }

  /** Decoding one row succeeds exactly when no selected document is bad, and each field then
      depends on its own column alone: order and repetition of the columns do not matter. */
  lemma {:induction false} AssignFromRow(f: Fields, columns: seq<Column>, values: seq<Slot>, row: map<Column, Slot>)
    requires FromRow(columns, values, row)
    ensures AssignAll(f, columns, values).1 == None <==> forall c :: c in columns ==> Refusal(c, row[c]) == None
    ensures AssignAll(f, columns, values).1 == None ==>
            forall c :: Get(AssignAll(f, columns, values).0, c) ==
                        if c in columns then Decoded(Get(f, c), c, row[c]) else Get(f, c)
    decreases |columns|
  {
    if columns != [] {
      var c0, rest := columns[0], columns[1..];
      AssignRefuses(f, c0, values[0]);
      var r := AssignColumn(f, c0, values[0]);
      assert forall c :: c in columns <==> c == c0 || c in rest;
      if r.Success? {
        AssignFromRow(r.value, rest, values[1..], row);
        AssignSets(f, c0, values[0]);
        DecodedTwice(Get(f, c0), c0, values[0]);
        forall c | c != c0 { AssignKeeps(f, c0, values[0], c); }
      }
    }
  }

  /** Two column lists over the same row that name the same columns decode to the same entity. */
  lemma ColumnOrderIsIrrelevant(f: Fields, row: map<Column, Slot>,
                                a: seq<Column>, va: seq<Slot>, b: seq<Column>, vb: seq<Slot>)
    requires FromRow(a, va, row) && FromRow(b, vb, row)
    requires forall c :: c in a <==> c in b
    ensures AssignAll(f, a, va).1 == None <==> AssignAll(f, b, vb).1 == None
    ensures AssignAll(f, a, va).1 == None ==> AssignAll(f, a, va).0 == AssignAll(f, b, vb).0
  {
    AssignFromRow(f, a, va, row);
    AssignFromRow(f, b, vb, row);
    if AssignAll(f, a, va).1 == None {
      Extensional(AssignAll(f, a, va).0, AssignAll(f, b, vb).0);
    }
  }

  /** Distinct columns make any values those of a row, so the above covers every permutation. */
  lemma DistinctColumnsFormRow(columns: seq<Column>, values: seq<Slot>) returns (row: map<Column, Slot>)
    requires |values| == |columns|
    requires forall i, j :: 0 <= i < j < |columns| ==> columns[i] != columns[j]
    ensures FromRow(columns, values, row)
    decreases |columns|
  {
    if columns == [] {
      row := map[];
    } else {
      row := DistinctColumnsFormRow(columns[1..], values[1..]);
      row := row[columns[0] := values[0]];
      forall i | 0 <= i < |columns| ensures columns[i] in row && values[i] == row[columns[i]] {
        if i > 0 {
          assert columns[i] == columns[1..][i - 1] && values[i] == values[1..][i - 1];
        }
      }
    }
  }

  // ----- reading a row -----

  /** What the driver puts into a slot of the given kind. */
  function Fetch(slot: Slot, cell: Cell): Slot {
    match slot
    case NullInt64(_) => NullInt64(if cell.IntCell? then Some(cell.num) else None)
    case NullTime(_) => NullTime(if cell.TimeCell? then Some(cell.time) else None)
    case NullString(_) => NullString(if cell.TextCell? then Some(cell.text) else None)
    case NullBool(_) => NullBool(if cell.BoolCell? then Some(cell.flag) else None)
    case NullFloat64(_) => NullFloat64(if cell.FloatCell? then Some(cell.float) else None)
    case Bytes(_) => Bytes(if cell.JsonCell? then Some(cell.doc) else None)
    case UnknownType(_) => UnknownType(cell)
  }

  function Fetched(columns: seq<Column>, row: Column -> Cell): (values: seq<Slot>)
    ensures |values| == |columns|
    ensures forall i :: 0 <= i < |columns| ==> values[i] == Fetch(EmptySlot(columns[i]), row(columns[i]))
  {
    seq(|columns|, i requires 0 <= i < |columns| => Fetch(EmptySlot(columns[i]), row(columns[i])))
  }

  /** The driver's scan of one row: `scanValues` allocates the slots, the driver fills them. */
  method ScanRow(columns: seq<Column>, row: Column -> Cell) returns (values: array<Slot>)
    ensures fresh(values) && values[..] == Fetched(columns, row)
  {
    values := ScanValues(columns);
    for i := 0 to |columns|
      invariant forall j :: 0 <= j < i ==> values[j] == Fetch(EmptySlot(columns[j]), row(columns[j]))
      invariant forall j :: i <= j < |columns| ==> values[j] == EmptySlot(columns[j])
    {
      values[i] := Fetch(values[i], row(columns[i]));
    }
  }

  /** The entity a query that selects the given columns makes of a row. */
  function Read(columns: seq<Column>, row: Column -> Cell): (Fields, Option<AssignError>) {
    AssignAll(ZERO, columns, Fetched(columns, row))
  }

  predicate CellReadable(c: Column, cell: Cell) {
    Refusal(c, Fetch(EmptySlot(c), cell)) == None
  }

  predicate Readable(c: Column, row: Column -> Cell) {
    CellReadable(c, row(c))
  }

  /** What a field of a fresh entity holds once a cell has been read into it. */
  function CellRead(c: Column, cell: Cell): Held {
    Decoded(Get(ZERO, c), c, Fetch(EmptySlot(c), cell))
  }

  function FieldRead(c: Column, row: Column -> Cell): Held {
    CellRead(c, row(c))
  }

  /** Each field of a read entity comes from its own column; unselected ones stay zero. */
  lemma ReadFields(columns: seq<Column>, row: Column -> Cell)
    ensures Read(columns, row).1 == None <==> forall c :: c in columns ==> Readable(c, row)
    ensures Read(columns, row).1 == None ==>
            forall c :: Get(Read(columns, row).0, c) == if c in columns then FieldRead(c, row) else Get(ZERO, c)
  {
    var slots := map c | c in columns :: Fetch(EmptySlot(c), row(c));
    AssignFromRow(ZERO, columns, Fetched(columns, row), slots);
  }

  function IntOf(cell: Cell): Option<int> {
    if cell.IntCell? then Some(cell.num) else None
  }

  /** The keys that eager loading uses are those of the row's own two columns. */
  lemma ReadKeys(columns: seq<Column>, row: Column -> Cell)
    requires Read(columns, row).1 == None
    ensures Read(columns, row).0.id == if Id in columns then IntOf(row(Id)).GetOr(0) else 0
    ensures Read(columns, row).0.proxyID == if ProxyID in columns then IntOf(row(ProxyID)) else None
  {
    ReadFields(columns, row);
    assert Get(Read(columns, row).0, Id) == if Id in columns then FieldRead(Id, row) else Get(ZERO, Id);
    assert Get(Read(columns, row).0, ProxyID) ==
           if ProxyID in columns then FieldRead(ProxyID, row) else Get(ZERO, ProxyID);
  }

  lemma IdentityColumns(c: Column)
    ensures c in IDENTITY <==>
            c.Id? || c.CreatedAt? || c.UpdatedAt? || c.DeletedAt? || c.Name? || c.Notes? ||
            c.Platform? || c.Type? || c.Credentials? || c.Extra?
  {
  }

  lemma SettingColumns(c: Column)
    ensures c in SETTINGS <==>
            c.ProxyID? || c.Concurrency? || c.LoadFactor? || c.Priority? || c.RateMultiplier? ||
            c.Status? || c.ErrorMessage? || c.LastUsedAt? || c.ExpiresAt? ||
            c.AutoPauseOnExpired?
  {
  }

  lemma LimitColumns(c: Column)
    ensures c in LIMITS <==>
            c.Schedulable? || c.RateLimitedAt? || c.RateLimitResetAt? || c.OverloadUntil? ||
            c.TempUnschedulableUntil? || c.TempUnschedulableReason? || c.SessionWindowStart? ||
            c.SessionWindowEnd? || c.SessionWindowStatus?
  {
  }

  /** The table has every named column. */
  lemma AllColumns(c: Column)
    ensures c in COLUMNS <==> !c.Other?
  {
    assert c in COLUMNS <==> c in IDENTITY || c in SETTINGS || c in LIMITS;
    IdentityColumns(c);
    SettingColumns(c);
    LimitColumns(c);
  }

  lemma FullRead(row: Column -> Cell)
    requires forall c: Column :: !c.Other? ==> Readable(c, row)
    ensures Read(COLUMNS, row).1 == None
    ensures forall c :: Get(Read(COLUMNS, row).0, c) == if c.Other? then Get(ZERO, c) else FieldRead(c, row)
  {
    forall c { AllColumns(c); }
    ReadFields(COLUMNS, row);
  }

  lemma NothingSelected(f: Fields, c: Column)
    requires c.Other? && f.selected == map[]
    ensures Get(f, c) == Get(ZERO, c)
  {
  }

  lemma ReadEquals(row: Column -> Cell, f: Fields)
    requires f.selected == map[]
    requires forall c: Column :: !c.Other? ==> Readable(c, row) && FieldRead(c, row) == Get(f, c)
    ensures Read(COLUMNS, row) == (f, None)
  {
    var (g, err) := Read(COLUMNS, row);
    assert err == None && forall c :: Get(g, c) == Get(f, c) by {
      FullRead(row);
      forall c: Column | c.Other? { NothingSelected(f, c); }
    }
    assert g == f by {
      Extensional(g, f);
    }
  }
}
