/**
 * app.audit_log under any number of concurrent Record calls. Reading the tail and
 * appending are separate transactions, so a call moves in steps (read tail, link,
 * append) that interleave freely with the steps of every other call; the row lock of
 * the tail read is gone by the time the append runs. An event that is not possible in
 * a state leaves the state alone, so every event list is a run.
 */
module AuditLog {
  import opened Basics
  import opened Json
  import opened AuditChain
  import FieldJoin

  type CallId = nat

  /** What a call asks Record to write. */
  datatype Request = Request(tenant: string, actor: string, action: string, entityType: string,
                             entityId: string, payload: Payload, severity: string)

  /** A stored row; `author` is the call that inserted it (not a column). */
  datatype Row = Row(id: nat, tenant: string, actor: Option<string>, action: string, entityType: string,
                     entityId: Option<string>, payload: Option<Json>, micros: int, seqNo: int,
                     prevHash: string, chainHash: string, severity: string, author: CallId)

  /** The database: how a uuid column spells an id, the key order of jsonb, and how jsonb spells a number. */
  datatype Db = Db(uuid: string -> string, order: KeyOrder, number: Spelling)

  /** No spelling of an id brings in a separator. */
  ghost predicate LawfulDb(db: Db) {
    TotalOrder(db.order) && forall x :: FieldJoin.Plain(x) ==> FieldJoin.Plain(db.uuid(x))
  }

  predicate CanonicalIds(db: Db, e: Entry) {
    db.uuid(e.tenant) == e.tenant && (e.actor != "" ==> db.uuid(e.actor) == e.actor)
  }

  /** Every number of the payload reads the same after the column has kept it. */
  predicate KeepsNumbers(env: Env, db: Db, payload: Payload) {
    payload.Document? ==> Kept(env.number, db.number, Decode(payload.doc))
  }

  predicate Storable(env: Env, db: Db, e: Entry) {
    CanonicalIds(db, e) && KeepsNumbers(env, db, e.payload)
  }

  // -------------------------------------------------------------- rows and entries

  function NullIf(s: string): (r: Option<string>) {
    if s == "" then None else Some(s)
  }

  function Coalesce(o: Option<string>): (s: string) {
    if o.None? then "" else o.value
  }

  /** The INSERT of AuditRepo.Append. */
  function ToRow(db: Db, e: Entry, id: nat, author: CallId): (r: Row)
    requires TotalOrder(db.order) && !e.payload.Malformed?
  {
    Row(id, db.uuid(e.tenant), if e.actor == "" then None else Some(db.uuid(e.actor)), e.action, e.entityType,
        NullIf(e.entityId), if e.payload.Empty? then None else Some(Stored(db.order, db.number, e.payload.doc)),
        e.created / 1000, e.seqNo, e.prevHash, e.chainHash, e.severity, author)
  }

  /** The SELECT of ListByTenant: NULLs read back as "" and JSON null. */
  function FromRow(r: Row): (e: Entry) {
    Entry(r.id, r.tenant, Coalesce(r.actor), r.action, r.entityType, Coalesce(r.entityId),
          Document(if r.payload.None? then Null else r.payload.value), r.micros * 1000, r.seqNo,
          r.prevHash, r.chainHash, r.severity)
  }

  /** What comes back of an entry, field by field: the row's id, the ids as the column spells them, the time to the
      microsecond, the payload as jsonb stores it, and everything else, the severity included, as it was. */
  lemma StoredRowReadsBack(db: Db, e: Entry, id: nat, author: CallId)
    requires TotalOrder(db.order) && !e.payload.Malformed?
    ensures FromRow(ToRow(db, e, id, author))
         == Entry(id, db.uuid(e.tenant), if e.actor == "" then "" else db.uuid(e.actor), e.action, e.entityType,
                  e.entityId, Document(if e.payload.Empty? then Null else Stored(db.order, db.number, e.payload.doc)),
                  e.created - e.created % 1000, e.seqNo, e.prevHash, e.chainHash, e.severity)
  {
  }

  /** Storing and reading back keeps everything the hash covers exactly when the ids are already spelled the
      way the uuid column spells them and every number of the payload is one that jsonb keeps. */
  lemma StoredRowKeepsHashedFields(env: Env, db: Db, e: Entry, id: nat, author: CallId)
    requires TotalOrder(db.order) && !e.payload.Malformed?
    ensures SameHashed(env, FromRow(ToRow(db, e, id, author)), e) <==> Storable(env, db, e)
  {
    if e.payload.Document? {
      var v := Decode(e.payload.doc);
      DecodeEncode(db.order, Respell(db.number, v));
      RespellTwiceIff(env.number, db.number, v);
    }
    assert e.created / 1000 * 1000 == Truncate(e.created);
    hide Kept, Respell;
  }

  /** Negative zero is such a number: Go hashes -0, and a numeric column keeps 0. */
  lemma NegativeZeroIsNotKept(env: Env, db: Db, key: string)
    requires db.number("-0") == "0" && env.number("-0") == "-0" && env.number("0") == "0"
    ensures !KeepsNumbers(env, db, Document(Object([Member(key, Number("-0"))])))
  {
    var members := [Member(key, Number("-0"))];
    assert members[..0] == [];
    assert DecodeMembers(members) == map[key := NumberValue("-0")];
    assert key in DecodeMembers(members) && !Kept(env.number, db.number, NumberValue("-0"));
  }

  // ---------------------------------------------------------------- the table

  /** The rows the policy shows a tenant, in insertion order. */
  function Visible(db: Db, rows: seq<Row>, tenant: string): (shown: seq<Row>) {
    if |rows| == 0 then []
    else
      var last := rows[|rows| - 1];
      Visible(db, rows[..|rows| - 1], tenant) + (if last.tenant == db.uuid(tenant) then [last] else [])
  }

  /** ORDER BY seq DESC LIMIT 1. */
  function Newest(rows: seq<Row>): (newest: Option<Row>)
    ensures newest.None? <==> rows == []
    ensures newest.Some? ==> newest.value in rows && forall r :: r in rows ==> r.seqNo <= newest.value.seqNo
  {
    if |rows| == 0 then None
    else
      var last := rows[|rows| - 1];
      var newest := Newest(rows[..|rows| - 1]);
      if newest.Some? && newest.value.seqNo > last.seqNo then newest else Some(last)
  }

  function InsertBySeq(sorted: seq<Row>, r: Row): (out: seq<Row>) {
    if |sorted| == 0 || sorted[|sorted| - 1].seqNo <= r.seqNo then sorted + [r]
    else InsertBySeq(sorted[..|sorted| - 1], r) + [sorted[|sorted| - 1]]
  }

  /** ORDER BY seq ASC. */
  function OrderBySeq(rows: seq<Row>): (sorted: seq<Row>) {
    if |rows| == 0 then [] else InsertBySeq(OrderBySeq(rows[..|rows| - 1]), rows[|rows| - 1])
  }

  /** UNIQUE (tenant_id, seq). */
  predicate Taken(db: Db, rows: seq<Row>, tenant: string, seqNo: int) {
    exists i :: 0 <= i < |rows| && rows[i].tenant == db.uuid(tenant) && rows[i].seqNo == seqNo
  }

  function Pointers(rows: seq<Row>): (es: seq<Option<Entry>>)
    ensures |es| == |rows| && forall i :: 0 <= i < |rows| ==> es[i] == Some(FromRow(rows[i]))
  {
    seq(|rows|, i requires 0 <= i < |rows| => Some(FromRow(rows[i])))
  }

  function ListByTenant(db: Db, rows: seq<Row>, tenant: string): (es: seq<Option<Entry>>) {
    Pointers(OrderBySeq(Visible(db, rows, tenant)))
  }

  // ---------------------------------------------------------------- the machine

  datatype Tail = Tail(seqNo: int, chainHash: string)

  datatype Outcome = Recorded | TenantRequired | TailFailed | BadPayload | AppendFailed(fault: Fault) | Conflict

  /** Where a call stands; `since` is the number of the tenant's rows when it began. */
  datatype Call =
    | ReadingTail(req: Request, since: nat, attempt: nat)
    | Linking(req: Request, since: nat, attempt: nat, tail: Option<Tail>)
    | Appending(req: Request, since: nat, attempt: nat, entry: Entry)
    | Finished(req: Request, since: nat, outcome: Outcome)

  datatype State = State(rows: seq<Row>, calls: map<CallId, Call>, clock: int)

  const INITIAL := State([], map[], 0)

  datatype Event =
    | Begin(call: CallId, req: Request)
    | ReadTail(call: CallId, healthy: bool)
    | Link(call: CallId, now: int)
    | Append(call: CallId, id: nat, fault: Fault)

  function TailOf(db: Db, rows: seq<Row>, tenant: string): (tail: Option<Tail>) {
    var newest := Newest(Visible(db, rows, tenant));
    if newest.None? then None else Some(Tail(newest.value.seqNo, newest.value.chainHash))
  }

  /** The entry Record builds on a tail, or None when the payload is not JSON. */
  function LinkedEntry(env: Env, req: Request, tail: Option<Tail>, now: int): (entry: Option<Entry>)
    ensures entry.Some? ==> !req.payload.Malformed?
  {
    var seqNo := if tail.None? then 1 else tail.value.seqNo + 1;
    var prev := if tail.None? then Genesis() else tail.value.chainHash;
    var severity := if req.severity == "" then "info" else req.severity;
    var e := Entry(0, req.tenant, req.actor, req.action, req.entityType, req.entityId, req.payload,
                   Truncate(now), seqNo, prev, "", severity);
    var canonical := Canonicalize(env, req.payload);
    if canonical.None? then None
    else Some(e.(chainHash := HashChainEntry(env, prev, seqNo, e, canonical.value)))
  }

  function AfterConflict(req: Request, since: nat, attempt: nat): (call: Call) {
    if attempt == 0 then ReadingTail(req, since, 1) else Finished(req, since, Conflict)
  }

  function Step(env: Env, db: Db, s: State, e: Event): (s': State)
    requires TotalOrder(db.order)
  {
    match e
    case Begin(c, req) =>
      if c in s.calls then s
      else if req.tenant == "" then s.(calls := s.calls[c := Finished(req, 0, TenantRequired)])
      else s.(calls := s.calls[c := ReadingTail(req, |Visible(db, s.rows, req.tenant)|, 0)])
    case ReadTail(c, healthy) =>
      if c !in s.calls || !s.calls[c].ReadingTail? then s
      else
        var k := s.calls[c];
        if !healthy then s.(calls := s.calls[c := Finished(k.req, k.since, TailFailed)])
        else s.(calls := s.calls[c := Linking(k.req, k.since, k.attempt, TailOf(db, s.rows, k.req.tenant))])
    case Link(c, now) =>
      if c !in s.calls || !s.calls[c].Linking? then s
      else
        var k := s.calls[c];
        var entry := LinkedEntry(env, k.req, k.tail, now);
        State(s.rows,
              s.calls[c := if entry.None? then Finished(k.req, k.since, BadPayload)
                           else Appending(k.req, k.since, k.attempt, entry.value)],
              now)
    case Append(c, id, fault) =>
      if c !in s.calls || !s.calls[c].Appending? || s.calls[c].entry.payload.Malformed? then s
      else
        var k := s.calls[c];
        if fault.Lost? then s.(calls := s.calls[c := Finished(k.req, k.since, AppendFailed(Lost))])
        else if Taken(db, s.rows, k.entry.tenant, k.entry.seqNo) then
          s.(calls := s.calls[c := AfterConflict(k.req, k.since, k.attempt)])
        else
          s.(rows := s.rows + [ToRow(db, k.entry, id, c)],
             calls := s.calls[c := Finished(k.req, k.since,
                                            if fault.AckLost? then AppendFailed(AckLost) else Recorded)])
  }

  function Run(env: Env, db: Db, s: State, es: seq<Event>): (s': State)
    requires TotalOrder(db.order)
  {
    if |es| == 0 then s else Step(env, db, Run(env, db, s, es[..|es| - 1]), es[|es| - 1])
  }

  /** The only step that changes the table, and what it makes of the state. */
  lemma AppendShape(env: Env, db: Db, s: State, e: Event)
    requires TotalOrder(db.order) && Step(env, db, s, e).rows != s.rows
    ensures e.Append? && e.call in s.calls && s.calls[e.call].Appending? && !s.calls[e.call].entry.payload.Malformed?
    ensures var k := s.calls[e.call];
      && !Taken(db, s.rows, k.entry.tenant, k.entry.seqNo)
      && Step(env, db, s, e) == State(s.rows + [ToRow(db, k.entry, e.id, e.call)],
           s.calls[e.call := Finished(k.req, k.since, if e.fault.AckLost? then AppendFailed(AckLost) else Recorded)],
           s.clock)
  {
  }

  // ---------------------------------------------------------------- the invariant

  /** A tenant's rows in insertion order: numbered 1..n, each linked to the one before. */
  predicate Numbered(v: seq<Row>) {
    forall i :: 0 <= i < |v| ==>
      v[i].seqNo == i + 1 && v[i].prevHash == (if i == 0 then Genesis() else v[i - 1].chainHash)
  }

  predicate TenantNumbered(db: Db, rows: seq<Row>, tenant: string) {
    Numbered(Visible(db, rows, tenant))
  }

  /** A tail value that was the newest row at some time: row number k of the tenant, or none yet. */
  predicate WasTail(db: Db, rows: seq<Row>, tenant: string, seqNo: int, hash: string) {
    var v := Visible(db, rows, tenant);
    0 <= seqNo <= |v| && hash == (if seqNo == 0 then Genesis() else v[seqNo - 1].chainHash)
  }

  predicate CallOk(db: Db, rows: seq<Row>, k: Call) {
    var n := |Visible(db, rows, k.req.tenant)|;
    match k
    case ReadingTail(_, since, attempt) => attempt <= 1 && since + attempt <= n
    case Linking(req, since, attempt, tail) =>
      && attempt <= 1
      && (tail.Some? ==> tail.value.seqNo >= 1)
      && var t := if tail.None? then 0 else tail.value.seqNo;
         WasTail(db, rows, req.tenant, t, if tail.None? then Genesis() else tail.value.chainHash)
         && since + attempt <= t
    case Appending(req, since, attempt, e) =>
      && attempt <= 1
      && e.tenant == req.tenant && e.created % 1000 == 0
      && WasTail(db, rows, req.tenant, e.seqNo - 1, e.prevHash)
      && since + attempt <= e.seqNo - 1
    case Finished(_, since, outcome) => outcome.Conflict? ==> since + 2 <= n
  }

  ghost predicate Inv(db: Db, s: State) {
    && (forall t :: TenantNumbered(db, s.rows, t))
    && (forall c :: c in s.calls ==> CallOk(db, s.rows, s.calls[c]))
  }

  lemma VisibleAppend(db: Db, rows: seq<Row>, r: Row, tenant: string)
    ensures Visible(db, rows + [r], tenant)
         == Visible(db, rows, tenant) + (if r.tenant == db.uuid(tenant) then [r] else [])
  {
    assert (rows + [r])[..|rows|] == rows;
  }

  lemma {:induction false} VisibleAreRows(db: Db, rows: seq<Row>, tenant: string, r: Row)
    ensures r in Visible(db, rows, tenant) <==> r in rows && r.tenant == db.uuid(tenant)
  {
    if |rows| > 0 {
      VisibleAreRows(db, rows[..|rows| - 1], tenant, r);
      assert rows == rows[..|rows| - 1] + [rows[|rows| - 1]];
    }
  }

  /** Whatever the table holds, the tail is a row of the tenant that no row of the tenant exceeds in number. */
  lemma TailIsNewest(db: Db, rows: seq<Row>, tenant: string)
    ensures var tail := TailOf(db, rows, tenant);
      && (tail.None? ==> forall r :: r in rows ==> r.tenant != db.uuid(tenant))
      && (tail.Some? ==>
            && (exists r :: r in rows && r.tenant == db.uuid(tenant) && tail.value == Tail(r.seqNo, r.chainHash))
            && (forall r :: r in rows && r.tenant == db.uuid(tenant) ==> r.seqNo <= tail.value.seqNo))
  {
    forall r ensures r in Visible(db, rows, tenant) <==> r in rows && r.tenant == db.uuid(tenant) {
      VisibleAreRows(db, rows, tenant, r);
    }
  }

  /** In a numbered log the newest row is the last one inserted, and its number is the count. */
  lemma NewestIsLast(db: Db, rows: seq<Row>, tenant: string)
    requires TenantNumbered(db, rows, tenant)
    ensures var v := Visible(db, rows, tenant);
      TailOf(db, rows, tenant) == if v == [] then None else Some(Tail(|v|, v[|v| - 1].chainHash))
  {
    var v := Visible(db, rows, tenant);
    var newest := Newest(v);
    if v != [] {
      var i :| 0 <= i < |v| && v[i] == newest.value;
      assert v[|v| - 1] in v;
    }
  }

  /** The next number is free exactly for a writer whose tail is still the newest row. */
  lemma TakenIffStale(db: Db, rows: seq<Row>, tenant: string, seqNo: int)
    requires TenantNumbered(db, rows, tenant) && 1 <= seqNo <= |Visible(db, rows, tenant)| + 1
    ensures Taken(db, rows, tenant, seqNo) <==> seqNo <= |Visible(db, rows, tenant)|
  {
    var v := Visible(db, rows, tenant);
    if seqNo <= |v| {
      VisibleAreRows(db, rows, tenant, v[seqNo - 1]);
    }
    if Taken(db, rows, tenant, seqNo) {
      var i :| 0 <= i < |rows| && rows[i].tenant == db.uuid(tenant) && rows[i].seqNo == seqNo;
      VisibleAreRows(db, rows, tenant, rows[i]);
    }
  }

  lemma CallOkAfterAppend(db: Db, rows: seq<Row>, r: Row, k: Call)
    requires CallOk(db, rows, k)
    ensures CallOk(db, rows + [r], k)
  {
    VisibleAppend(db, rows, r, k.req.tenant);
  }

  lemma {:induction false} SameTenantSameRows(db: Db, rows: seq<Row>, t: string, u: string)
    requires db.uuid(t) == db.uuid(u)
    ensures Visible(db, rows, t) == Visible(db, rows, u)
  {
    if |rows| > 0 {
      SameTenantSameRows(db, rows[..|rows| - 1], t, u);
    }
  }

  /** An append whose number is free extends its tenant's chain and no other. */
  lemma AppendKeepsChains(db: Db, rows: seq<Row>, k: Call, id: nat, author: CallId, t: string)
    requires TotalOrder(db.order) && (forall u :: TenantNumbered(db, rows, u))
    requires k.Appending? && CallOk(db, rows, k) && !k.entry.payload.Malformed?
    requires !Taken(db, rows, k.entry.tenant, k.entry.seqNo)
    ensures TenantNumbered(db, rows + [ToRow(db, k.entry, id, author)], t)
  {
    var r := ToRow(db, k.entry, id, author);
    VisibleAppend(db, rows, r, t);
    var v := Visible(db, rows, t);
    assert TenantNumbered(db, rows, t);
    if r.tenant == db.uuid(t) {
      SameTenantSameRows(db, rows, t, k.entry.tenant);
      TakenIffStale(db, rows, t, k.entry.seqNo);
      assert k.entry.seqNo == |v| + 1;
    } else {
      assert v + [] == v;
    }
  }

  lemma LinkMakesGoodCall(env: Env, db: Db, rows: seq<Row>, k: Call, now: int)
    requires CallOk(db, rows, k) && k.Linking?
    ensures var entry := LinkedEntry(env, k.req, k.tail, now);
      entry.Some? ==> CallOk(db, rows, Appending(k.req, k.since, k.attempt, entry.value))
  {
  }

  lemma ReadTailMakesGoodCall(db: Db, rows: seq<Row>, k: Call)
    requires CallOk(db, rows, k) && k.ReadingTail? && TenantNumbered(db, rows, k.req.tenant)
    ensures CallOk(db, rows, Linking(k.req, k.since, k.attempt, TailOf(db, rows, k.req.tenant)))
  {
    NewestIsLast(db, rows, k.req.tenant);
  }

  lemma ConflictMakesGoodCall(db: Db, rows: seq<Row>, k: Call)
    requires CallOk(db, rows, k) && k.Appending? && TenantNumbered(db, rows, k.req.tenant)
    requires Taken(db, rows, k.entry.tenant, k.entry.seqNo)
    ensures CallOk(db, rows, AfterConflict(k.req, k.since, k.attempt))
  {
    TakenIffStale(db, rows, k.req.tenant, k.entry.seqNo);
  }

  /** One step that inserts nothing: the stepping call is in a good place again. */
  lemma StepMakesGoodCall(env: Env, db: Db, s: State, e: Event)
    requires TotalOrder(db.order) && Inv(db, s)
    ensures var s' := Step(env, db, s, e); e.call in s'.calls && s'.rows == s.rows ==>
      CallOk(db, s.rows, s'.calls[e.call])
  {
    if e.call in s.calls {
      var k := s.calls[e.call];
      assert TenantNumbered(db, s.rows, k.req.tenant);
      match e
      case Begin(_, _) =>
      case ReadTail(_, _) =>
        if k.ReadingTail? { ReadTailMakesGoodCall(db, s.rows, k); }
      case Link(_, now) =>
        if k.Linking? { LinkMakesGoodCall(env, db, s.rows, k, now); }
      case Append(_, _, _) =>
        if k.Appending? && Taken(db, s.rows, k.entry.tenant, k.entry.seqNo) { ConflictMakesGoodCall(db, s.rows, k); }
    }
  }

  lemma AppendKeepsInv(env: Env, db: Db, s: State, e: Event)
    requires TotalOrder(db.order) && Inv(db, s)
    requires Step(env, db, s, e).rows != s.rows
    ensures Inv(db, Step(env, db, s, e))
  {
    AppendShape(env, db, s, e);
    hide Step;
    var s' := Step(env, db, s, e);
    var k := s.calls[e.call];
    forall t ensures TenantNumbered(db, s'.rows, t) {
      AppendKeepsChains(db, s.rows, k, e.id, e.call, t);
    }
    forall d | d in s'.calls ensures CallOk(db, s'.rows, s'.calls[d]) {
      if d != e.call {
        CallOkAfterAppend(db, s.rows, ToRow(db, k.entry, e.id, e.call), s.calls[d]);
      }
    }
  }

  /** No other call moves. */
  lemma StepMovesOneCall(env: Env, db: Db, s: State, e: Event, d: CallId)
    requires TotalOrder(db.order) && d != e.call
    ensures var s' := Step(env, db, s, e);
      (d in s'.calls <==> d in s.calls) && (d in s.calls ==> s'.calls[d] == s.calls[d])
  {
  }

  lemma StepKeepsInv(env: Env, db: Db, s: State, e: Event)
    requires TotalOrder(db.order) && Inv(db, s)
    ensures Inv(db, Step(env, db, s, e))
  {
    var s' := Step(env, db, s, e);
    if s'.rows != s.rows {
      AppendKeepsInv(env, db, s, e);
    } else {
      StepMakesGoodCall(env, db, s, e);
      forall d | d in s'.calls ensures CallOk(db, s'.rows, s'.calls[d]) {
        if d != e.call {
          StepMovesOneCall(env, db, s, e, d);
        }
      }
    }
    hide *;
  }

  /** Without any assumption on requests, hashes or ids: every run keeps every tenant's rows numbered and
      linked, and every call in progress holds a tail that once was the newest row. */
  lemma {:induction false} RunKeepsInv(env: Env, db: Db, es: seq<Event>)
    requires TotalOrder(db.order)
    ensures Inv(db, Run(env, db, INITIAL, es))
  {
    if |es| == 0 {
      assert forall t :: Visible(db, [], t) == [];
    } else {
      RunKeepsInv(env, db, es[..|es| - 1]);
      StepKeepsInv(env, db, Run(env, db, INITIAL, es[..|es| - 1]), es[|es| - 1]);
    }
  }
}
