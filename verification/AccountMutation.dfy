/** Setting the fields of an account's mutation by name, and what becomes of them
    (backend/ent/mutation.go, SetField and Field of AccountMutation). */
module AccountMutation {
  import opened Wrappers
  import opened Account
  import opened AccountCreate

  /** The setter for a column: a value of the wrong type, and a column that has no setter, is an error. */
  function SetField(m: Mutation, c: Column, v: Cell): Option<Mutation> {
    match c
    case CreatedAt => if !v.TimeCell? then None else Some(m.(createdAt := Some(v.time)))
    case UpdatedAt => if !v.TimeCell? then None else Some(m.(updatedAt := Some(v.time)))
    case DeletedAt => if !v.TimeCell? then None else Some(m.(deletedAt := Some(v.time)))
    case Name => if !v.TextCell? then None else Some(m.(name := Some(v.text)))
    case Notes => if !v.TextCell? then None else Some(m.(notes := Some(v.text)))
    case Platform => if !v.TextCell? then None else Some(m.(platform := Some(v.text)))
    case Type => if !v.TextCell? then None else Some(m.(typ := Some(v.text)))
    case Credentials => if !IsJson(v) then None else Some(m.(credentials := Some(JsonOf(v))))
    case Extra => if !IsJson(v) then None else Some(m.(extra := Some(JsonOf(v))))
    case ProxyID => if !v.IntCell? then None else Some(m.(proxy := Some(v.num)))
    case Concurrency => if !v.IntCell? then None else Some(m.(concurrency := Some(v.num)))
    case LoadFactor => if !v.IntCell? then None else Some(m.(loadFactor := Some(v.num)))
    case Priority => if !v.IntCell? then None else Some(m.(priority := Some(v.num)))
    case RateMultiplier => if !v.FloatCell? then None else Some(m.(rateMultiplier := Some(v.float)))
    case Status => if !v.TextCell? then None else Some(m.(status := Some(v.text)))
    case ErrorMessage => if !v.TextCell? then None else Some(m.(errorMessage := Some(v.text)))
    case LastUsedAt => if !v.TimeCell? then None else Some(m.(lastUsedAt := Some(v.time)))
    case ExpiresAt => if !v.TimeCell? then None else Some(m.(expiresAt := Some(v.time)))
    case AutoPauseOnExpired => if !v.BoolCell? then None else Some(m.(autoPauseOnExpired := Some(v.flag)))
    case Schedulable => if !v.BoolCell? then None else Some(m.(schedulable := Some(v.flag)))
    case RateLimitedAt => if !v.TimeCell? then None else Some(m.(rateLimitedAt := Some(v.time)))
    case RateLimitResetAt => if !v.TimeCell? then None else Some(m.(rateLimitResetAt := Some(v.time)))
    case OverloadUntil => if !v.TimeCell? then None else Some(m.(overloadUntil := Some(v.time)))
    case TempUnschedulableUntil => if !v.TimeCell? then None else Some(m.(tempUnschedulableUntil := Some(v.time)))
    case TempUnschedulableReason => if !v.TextCell? then None else Some(m.(tempUnschedulableReason := Some(v.text)))
    case SessionWindowStart => if !v.TimeCell? then None else Some(m.(sessionWindowStart := Some(v.time)))
    case SessionWindowEnd => if !v.TimeCell? then None else Some(m.(sessionWindowEnd := Some(v.time)))
    case SessionWindowStatus => if !v.TextCell? then None else Some(m.(sessionWindowStatus := Some(v.text)))
    case _ => None
  }

  predicate IsJson(v: Cell) {
    v.JsonCell? && !v.doc.DocOther?
  }

  function JsonOf(v: Cell): Json
    requires IsJson(v)
  {
    if v.doc.DocNull? then None else Some(v.doc.entries)
  }

  /** The value of a field, if it has been set. */
  function Field(m: Mutation, c: Column): Option<Cell> {
    if c == ProxyID then IntValue(m.proxy) else Written(m, c)
  }

  /** A setter accepts exactly the values of its column's type; the id and unknown columns have none. */
  lemma SetterExactly(m: Mutation, c: Column, v: Cell)
    ensures SetField(m, c, v).Some? <==> c != Id && !c.Other? && Fits(c, v)
  {
  }

  lemma SetTimeGetTime(m: Mutation, c: Column, v: Cell, d: Column)
    requires SetField(m, c, v).Some? && EmptySlot(c).NullTime?
    requires EmptySlot(d).NullTime?
    ensures Field(SetField(m, c, v).value, d) == if d == c then Some(v) else Field(m, d)
  {
    match c
    case CreatedAt =>
    case UpdatedAt =>
    case DeletedAt =>
    case LastUsedAt =>
    case ExpiresAt =>
    case RateLimitedAt =>
    case RateLimitResetAt =>
    case OverloadUntil =>
    case TempUnschedulableUntil =>
    case SessionWindowStart =>
    case SessionWindowEnd =>
    case _ =>
  }

  lemma SetTimeGetOther(m: Mutation, c: Column, v: Cell, d: Column)
    requires SetField(m, c, v).Some? && EmptySlot(c).NullTime?
    requires !EmptySlot(d).NullTime?
    ensures Field(SetField(m, c, v).value, d) == if d == c then Some(v) else Field(m, d)
  {
    match c
    case CreatedAt =>
    case UpdatedAt =>
    case DeletedAt =>
    case LastUsedAt =>
    case ExpiresAt =>
    case RateLimitedAt =>
    case RateLimitResetAt =>
    case OverloadUntil =>
    case TempUnschedulableUntil =>
    case SessionWindowStart =>
    case SessionWindowEnd =>
    case _ =>
  }

  lemma SetTextGetTime(m: Mutation, c: Column, v: Cell, d: Column)
    requires SetField(m, c, v).Some? && EmptySlot(c).NullString?
    requires EmptySlot(d).NullTime?
    ensures Field(SetField(m, c, v).value, d) == if d == c then Some(v) else Field(m, d)
  {
    match c
    case Name =>
    case Notes =>
    case Platform =>
    case Type =>
    case Status =>
    case ErrorMessage =>
    case TempUnschedulableReason =>
    case SessionWindowStatus =>
    case _ =>
  }

  lemma SetTextGetOther(m: Mutation, c: Column, v: Cell, d: Column)
    requires SetField(m, c, v).Some? && EmptySlot(c).NullString?
    requires !EmptySlot(d).NullTime?
    ensures Field(SetField(m, c, v).value, d) == if d == c then Some(v) else Field(m, d)
  {
    match c
    case Name =>
    case Notes =>
    case Platform =>
    case Type =>
    case Status =>
    case ErrorMessage =>
    case TempUnschedulableReason =>
    case SessionWindowStatus =>
    case _ =>
  }

  lemma SetOtherGetTime(m: Mutation, c: Column, v: Cell, d: Column)
    requires SetField(m, c, v).Some? && !EmptySlot(c).NullTime? && !EmptySlot(c).NullString?
    requires EmptySlot(d).NullTime?
    ensures Field(SetField(m, c, v).value, d) == if d == c then Some(v) else Field(m, d)
  {
    match c
    case ProxyID =>
    case Concurrency =>
    case LoadFactor =>
    case Priority =>
    case Credentials =>
    case Extra =>
    case RateMultiplier =>
    case AutoPauseOnExpired =>
    case Schedulable =>
    case _ =>
  }

  lemma SetOtherGetOther(m: Mutation, c: Column, v: Cell, d: Column)
    requires SetField(m, c, v).Some? && !EmptySlot(c).NullTime? && !EmptySlot(c).NullString?
    requires !EmptySlot(d).NullTime?
    ensures Field(SetField(m, c, v).value, d) == if d == c then Some(v) else Field(m, d)
  {
    match c
    case ProxyID =>
    case Concurrency =>
    case LoadFactor =>
    case Priority =>
    case Credentials =>
    case Extra =>
    case RateMultiplier =>
    case AutoPauseOnExpired =>
    case Schedulable =>
    case _ =>
  }

  /** Setting a field gives it the value and leaves every other field and the edges but its own alone. */
  lemma SetThenGet(m: Mutation, c: Column, v: Cell)
    requires SetField(m, c, v).Some?
    ensures var m' := SetField(m, c, v).value;
            (forall d :: Field(m', d) == if d == c then Some(v) else Field(m, d)) &&
            m'.groups == m.groups && m'.usageLogs == m.usageLogs
  {
    forall d ensures Field(SetField(m, c, v).value, d) == if d == c then Some(v) else Field(m, d) {
      match (EmptySlot(c), EmptySlot(d))
      case (NullTime(_), NullTime(_)) => SetTimeGetTime(m, c, v, d);
      case (NullTime(_), _) => SetTimeGetOther(m, c, v, d);
      case (NullString(_), NullTime(_)) => SetTextGetTime(m, c, v, d);
      case (NullString(_), _) => SetTextGetOther(m, c, v, d);
      case (_, NullTime(_)) => SetOtherGetTime(m, c, v, d);
      case (_, _) => SetOtherGetOther(m, c, v, d);
    }
    EdgesKept(m, c, v);
  }

  lemma EdgesKept(m: Mutation, c: Column, v: Cell)
    requires SetField(m, c, v).Some?
    ensures SetField(m, c, v).value.groups == m.groups && SetField(m, c, v).value.usageLogs == m.usageLogs
  {
  }

  lemma EntityShowsField(m: Mutation, id: int, c: Column)
    requires !c.Other? && c != Id
    ensures Get(NodeOf(m).(id := id), c) == if Field(m, c).Some? then Held(Field(m, c).value) else Get(ZERO, c)
  {
    if c != ProxyID {
      NodeHolds(m, id, c);
    }
  }

  /** The whole way for one field: set it, create the row, store it, read it back: the account shows the
      value; and each other field shows what had been set before, or the zero value. */
  lemma SetThenRead(m: Mutation, c: Column, v: Cell, now: Time, id: int, filler: Column -> Cell, d: Column)
    requires SetField(m, c, v).Some? && RequiredPresent(SetField(m, c, v).value) && !d.Other? && d != Id
    ensures var read := Read(COLUMNS, StoredRow(SpecOf(SetField(m, c, v).value, now), id, filler)).0;
            Get(read, d) ==
            if d == c then Held(v) else if Field(m, d).Some? then Held(Field(m, d).value) else Get(ZERO, d)
  {
    var m' := SetField(m, c, v).value;
    SetThenGet(m, c, v);
    CreateThenRead(m', now, id, filler);
    EntityShowsField(m', id, d);
  }
}
