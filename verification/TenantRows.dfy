/**
 * app.campaigns and app.lots under row-level security. Each operation is one transaction
 * bound to a tenant; the policy decides row by row, and the campaign statements name no
 * tenant at all. Ids are unique only together with the tenant, so they may coincide. Every
 * uuid is compared as the column spells it.
 */
module TenantRows {
  import opened Basics

  datatype Row<D> = Row(id: string, tenant: string, data: D)

  datatype CampaignData = CampaignData(name: string, season: string, started: Option<int>, ended: Option<int>,
                                       created: int, updated: int)

  datatype LotData = LotData(name: string, area: Option<int>, crop: string, created: int)

  type Campaign = Row<CampaignData>
  type Lot = Row<LotData>

  /** The policy's USING clause: NULL context shows nothing. */
  predicate Shows<D(!new)>(ctx: Option<string>, r: Row<D>) {
    ctx == Some(r.tenant)
  }

  // ------------------------------------------------------------- statements under the policy

  function Select<D(!new)>(rows: seq<Row<D>>, ctx: Option<string>): (shown: seq<Row<D>>)
  {
    if |rows| == 0 then []
    else
      var last := rows[|rows| - 1];
      Select(rows[..|rows| - 1], ctx) + (if Shows(ctx, last) then [last] else [])
  }

  /** WHERE id = $1, first row. */
  function ById<D(!new)>(rows: seq<Row<D>>, id: string): (found: Option<Row<D>>)
    ensures found.Some? ==> found.value in rows && found.value.id == id
    ensures found.None? ==> forall r :: r in rows ==> r.id != id
  {
    if |rows| == 0 then None
    else if rows[0].id == id then Some(rows[0])
    else ById(rows[1..], id)
  }

  function UpdateById<D(!new)>(rows: seq<Row<D>>, ctx: Option<string>, id: string, f: D -> D): (out: seq<Row<D>>)
    ensures |out| == |rows|
    ensures forall i :: 0 <= i < |rows| ==>
      out[i] == if Shows(ctx, rows[i]) && rows[i].id == id then rows[i].(data := f(rows[i].data)) else rows[i]
  {
    seq(|rows|, i requires 0 <= i < |rows| =>
      if Shows(ctx, rows[i]) && rows[i].id == id then rows[i].(data := f(rows[i].data)) else rows[i])
  }

  function DeleteById<D(!new)>(rows: seq<Row<D>>, ctx: Option<string>, id: string): (out: seq<Row<D>>) {
    if |rows| == 0 then []
    else
      var last := rows[|rows| - 1];
      DeleteById(rows[..|rows| - 1], ctx, id) + (if Shows(ctx, last) && last.id == id then [] else [last])
  }

  function Affected<D(!new)>(rows: seq<Row<D>>, ctx: Option<string>, id: string): (n: nat) {
    if |rows| == 0 then 0
    else
      var last := rows[|rows| - 1];
      Affected(rows[..|rows| - 1], ctx, id) + (if Shows(ctx, last) && last.id == id then 1 else 0)
  }

  /** PRIMARY KEY (id, tenant_id). */
  predicate KeyTaken<D(!new)>(rows: seq<Row<D>>, id: string, tenant: string) {
    exists i :: 0 <= i < |rows| && rows[i].id == id && rows[i].tenant == tenant
  }

  function InsertSorted<D(!new)>(leq: (Row<D>, Row<D>) -> bool, sorted: seq<Row<D>>, r: Row<D>): (out: seq<Row<D>>)
    ensures multiset(out) == multiset(sorted) + multiset{r}
  {
    if |sorted| == 0 || leq(sorted[|sorted| - 1], r) then sorted + [r]
    else
      assert sorted == sorted[..|sorted| - 1] + [sorted[|sorted| - 1]];
      InsertSorted(leq, sorted[..|sorted| - 1], r) + [sorted[|sorted| - 1]]
  }

  /** ORDER BY; ties keep insertion order. */
  function OrderBy<D(!new)>(leq: (Row<D>, Row<D>) -> bool, rows: seq<Row<D>>): (sorted: seq<Row<D>>)
    ensures multiset(sorted) == multiset(rows)
  {
    if |rows| == 0 then []
    else
      assert rows == rows[..|rows| - 1] + [rows[|rows| - 1]];
      InsertSorted(leq, OrderBy(leq, rows[..|rows| - 1]), rows[|rows| - 1])
  }

  /** started_at DESC NULLS LAST. */
  predicate LaterStart(a: Campaign, b: Campaign) {
    b.data.started.None? || (a.data.started.Some? && a.data.started.value >= b.data.started.value)
  }

  // ------------------------------------------------------------- operations

  /** The registry of tenants, the database's text collation, and how a uuid column spells an id. */
  datatype Schema = Schema(tenants: set<string>, collate: (string, string) -> bool, uuid: string -> string)

  /** app.current_tenant_id(): an empty setting is no tenant. */
  function Context(schema: Schema, tenant: string): (ctx: Option<string>) {
    if tenant == "" then None else Some(schema.uuid(tenant))
  }

  datatype Tables = Tables(campaigns: seq<Campaign>, lots: seq<Lot>)

  /** One repository call. `now` is the database clock; a call is Lost when a statement or the commit fails,
      and its acknowledgement is lost when only the answer to the commit is. */
  datatype Op =
    | FindCampaign(tenant: string, id: string, fault: Fault)
    | ListCampaigns(tenant: string, fault: Fault)
    | CreateCampaign(tenant: string, id: string, new_: CampaignData, now: int, fault: Fault)
    | UpdateCampaign(tenant: string, id: string, new_: CampaignData, now: int, fault: Fault)
    | DeleteCampaign(tenant: string, id: string, fault: Fault)
    | FindLot(tenant: string, id: string, fault: Fault)
    | ListLots(tenant: string, fault: Fault)
    | CreateLot(tenant: string, id: string, lot: LotData, now: int, fault: Fault)

  datatype Answer =
    | Done | Failed | NotFound | Conflict
    | OneCampaign(campaign: Campaign) | ManyCampaigns(campaigns: seq<Campaign>)
    | OneLot(lot: Lot) | ManyLots(lots: seq<Lot>)

  function NewCampaign(d: CampaignData, now: int): (e: CampaignData) {
    d.(created := now, updated := now)
  }

  /** A full-row replace of the mutable columns. */
  function Replace(d: CampaignData, now: int): (f: CampaignData -> CampaignData) {
    (was: CampaignData) => CampaignData(d.name, d.season, d.started, d.ended, was.created, now)
  }

  /** Insert: the policy's WITH CHECK, the foreign key to tenants, the primary key. */
  function Insert<D(!new)>(schema: Schema, rows: seq<Row<D>>, tenant: string, id: string, d: D)
    : (r: (seq<Row<D>>, Answer))
  {
    if Context(schema, tenant).None? || schema.uuid(tenant) !in schema.tenants then (rows, Failed)
    else if KeyTaken(rows, schema.uuid(id), schema.uuid(tenant)) then (rows, Conflict)
    else (rows + [Row(schema.uuid(id), schema.uuid(tenant), d)], Done)
  }

  function LotOrder(schema: Schema): (leq: (Lot, Lot) -> bool) {
    (a: Lot, b: Lot) => schema.collate(a.data.name, b.data.name)
  }

  function FindCampaignAnswer(schema: Schema, rows: seq<Campaign>, tenant: string, id: string): (a: Answer) {
    var found := ById(Select(rows, Context(schema, tenant)), schema.uuid(id));
    if found.None? then NotFound else OneCampaign(found.value)
  }

  /** WHERE id = $1 AND tenant_id = $2, on top of the policy. */
  function FindLotAnswer(schema: Schema, rows: seq<Lot>, tenant: string, id: string): (a: Answer) {
    var found := ById(Select(Select(rows, Context(schema, tenant)), Some(schema.uuid(tenant))), schema.uuid(id));
    if found.None? then NotFound else OneLot(found.value)
  }

  /** The answers after which the transaction is rolled back. */
  predicate RollsBack(a: Answer) {
    a.Failed? || a.NotFound? || a.Conflict?
  }

  function Apply(schema: Schema, s: Tables, op: Op): (r: (Tables, Answer)) {
    Settle(op.fault, s, Perform(schema, s, op))
  }

  /** How the transaction around the statements ends. */
  function Settle(fault: Fault, s: Tables, done: (Tables, Answer)): (r: (Tables, Answer)) {
    if fault.Lost? then (s, Failed)
    else if fault.AckLost? && !RollsBack(done.1) then (done.0, Failed)
    else done
  }

  /** The statements of one call. */
  function Perform(schema: Schema, s: Tables, op: Op): (r: (Tables, Answer)) {
    var ctx := Context(schema, op.tenant);
    match op
    case FindCampaign(t, id, _) => (s, FindCampaignAnswer(schema, s.campaigns, t, id))
    case ListCampaigns(t, _) => (s, ManyCampaigns(OrderBy(LaterStart, Select(s.campaigns, ctx))))
    case CreateCampaign(t, id, d, now, _) =>
      var r := Insert(schema, s.campaigns, t, id, NewCampaign(d, now));
      (s.(campaigns := r.0), r.1)
    case UpdateCampaign(t, id, d, now, _) =>
      (s.(campaigns := UpdateById(s.campaigns, ctx, schema.uuid(id), Replace(d, now))),
       if Affected(s.campaigns, ctx, schema.uuid(id)) == 0 then NotFound else Done)
    case DeleteCampaign(t, id, _) =>
      (s.(campaigns := DeleteById(s.campaigns, ctx, schema.uuid(id))),
       if Affected(s.campaigns, ctx, schema.uuid(id)) == 0 then NotFound else Done)
    case FindLot(t, id, _) => (s, FindLotAnswer(schema, s.lots, t, id))
    case ListLots(t, _) => (s, ManyLots(OrderBy(LotOrder(schema), Select(Select(s.lots, ctx), Some(schema.uuid(t))))))
    case CreateLot(t, id, d, now, _) =>
      var r := Insert(schema, s.lots, t, id, d.(created := now));
      (s.(lots := r.0), r.1)
  }

  function Run(schema: Schema, s: Tables, ops: seq<Op>): (s': Tables) {
    if |ops| == 0 then s else Apply(schema, Run(schema, s, ops[..|ops| - 1]), ops[|ops| - 1]).0
  }

  /** Two spellings of one tenant. */
  predicate SameTenant(schema: Schema, t: string, u: string) {
    Context(schema, t) == Context(schema, u)
  }

  /** The answers one tenant got, in order. */
  function Answers(schema: Schema, s: Tables, ops: seq<Op>, tenant: string): (answers: seq<Answer>) {
    if |ops| == 0 then []
    else
      var front, last := ops[..|ops| - 1], ops[|ops| - 1];
      Answers(schema, s, front, tenant)
        + (if SameTenant(schema, last.tenant, tenant) then [Apply(schema, Run(schema, s, front), last).1] else [])
  }

  function Own(schema: Schema, ops: seq<Op>, tenant: string): (mine: seq<Op>) {
    if |ops| == 0 then []
    else
      Own(schema, ops[..|ops| - 1], tenant)
        + (if SameTenant(schema, ops[|ops| - 1].tenant, tenant) then [ops[|ops| - 1]] else [])
  }

  // ------------------------------------------------------------- what a tenant can see

  /** The part of the tables that belongs to a tenant. */
  function View(schema: Schema, s: Tables, tenant: string): (v: Tables) {
    Tables(Select(s.campaigns, Some(schema.uuid(tenant))), Select(s.lots, Some(schema.uuid(tenant))))
  }

  lemma {:induction false} SelectMembers<D(!new)>(rows: seq<Row<D>>, ctx: Option<string>, r: Row<D>)
    ensures r in Select(rows, ctx) <==> r in rows && Shows(ctx, r)
  {
    if |rows| > 0 {
      SelectMembers(rows[..|rows| - 1], ctx, r);
      assert rows == rows[..|rows| - 1] + [rows[|rows| - 1]];
    }
  }

  lemma SelectAppend<D(!new)>(rows: seq<Row<D>>, r: Row<D>, ctx: Option<string>)
    ensures Select(rows + [r], ctx) == Select(rows, ctx) + (if Shows(ctx, r) then [r] else [])
  {
    assert (rows + [r])[..|rows|] == rows;
  }

  lemma {:induction false} SelectTwice<D(!new)>(rows: seq<Row<D>>, ctx: Option<string>)
    ensures Select(Select(rows, ctx), ctx) == Select(rows, ctx)
  {
    if |rows| > 0 {
      var m, last := Select(rows[..|rows| - 1], ctx), rows[|rows| - 1];
      SelectTwice(rows[..|rows| - 1], ctx);
      SelectAppend(m, last, ctx);
      assert m + [] == m;
    }
  }

  lemma {:induction false} SelectUpdate<D(!new)>(rows: seq<Row<D>>, ctx: Option<string>, id: string, f: D -> D,
                                                   t: string)
    ensures Select(UpdateById(rows, ctx, id, f), Some(t))
         == if ctx == Some(t) then UpdateById(Select(rows, Some(t)), ctx, id, f) else Select(rows, Some(t))
  {
    if |rows| > 0 {
      SelectUpdate(rows[..|rows| - 1], ctx, id, f, t);
      var out := UpdateById(rows, ctx, id, f);
      assert out[..|rows| - 1] == UpdateById(rows[..|rows| - 1], ctx, id, f);
      UpdateAppend(Select(rows[..|rows| - 1], Some(t)), rows[|rows| - 1], ctx, id, f);
    }
  }

  lemma UpdateAppend<D(!new)>(rows: seq<Row<D>>, r: Row<D>, ctx: Option<string>, id: string, f: D -> D)
    ensures UpdateById(rows + [r], ctx, id, f) == UpdateById(rows, ctx, id, f) + UpdateById([r], ctx, id, f)
  {
  }

  lemma {:induction false} SelectDelete<D(!new)>(rows: seq<Row<D>>, ctx: Option<string>, id: string, t: string)
    ensures Select(DeleteById(rows, ctx, id), Some(t))
         == if ctx == Some(t) then DeleteById(Select(rows, Some(t)), ctx, id) else Select(rows, Some(t))
  {
    if |rows| > 0 {
      var front, last := rows[..|rows| - 1], rows[|rows| - 1];
      SelectDelete(front, ctx, id, t);
      var kept, m := DeleteById(front, ctx, id), Select(front, Some(t));
      SelectAppend(kept, last, Some(t));
      DeleteAppend(m, last, ctx, id);
      assert kept + [] == kept && m + [] == m;
      assert DeleteById(rows, ctx, id) == kept + (if Shows(ctx, last) && last.id == id then [] else [last]);
      assert Select(rows, Some(t)) == m + (if Shows(Some(t), last) then [last] else []);
      hide Select, DeleteById;
    }
  }

  lemma DeleteAppend<D(!new)>(rows: seq<Row<D>>, r: Row<D>, ctx: Option<string>, id: string)
    ensures DeleteById(rows + [r], ctx, id)
      == DeleteById(rows, ctx, id) + (if Shows(ctx, r) && r.id == id then [] else [r])
  {
    assert (rows + [r])[..|rows|] == rows;
  }

  lemma {:induction false} AffectedSelect<D(!new)>(rows: seq<Row<D>>, t: string, id: string)
    ensures Affected(rows, Some(t), id) == Affected(Select(rows, Some(t)), Some(t), id)
  {
    if |rows| > 0 {
      var front, last := rows[..|rows| - 1], rows[|rows| - 1];
      AffectedSelect(front, t, id);
      var m := Select(front, Some(t));
      assert (m + [last])[..|m|] == m;
      assert m + [] == m;
    }
  }

  lemma KeyTakenSelect<D(!new)>(rows: seq<Row<D>>, id: string, t: string)
    ensures KeyTaken(rows, id, t) <==> KeyTaken(Select(rows, Some(t)), id, t)
  {
    var m := Select(rows, Some(t));
    if KeyTaken(rows, id, t) {
      var i :| 0 <= i < |rows| && rows[i].id == id && rows[i].tenant == t;
      SelectMembers(rows, Some(t), rows[i]);
      var j :| 0 <= j < |m| && m[j] == rows[i];
    }
    if KeyTaken(m, id, t) {
      var i :| 0 <= i < |m| && m[i].id == id && m[i].tenant == t;
      SelectMembers(rows, Some(t), m[i]);
      var j :| 0 <= j < |rows| && rows[j] == m[i];
    }
  }

  lemma InsertByOther<D(!new)>(schema: Schema, rows: seq<Row<D>>, u: string, id: string, d: D, t: string)
    requires schema.uuid(u) != t
    ensures Select(Insert(schema, rows, u, id, d).0, Some(t)) == Select(rows, Some(t))
  {
    SelectAppend(rows, Row(schema.uuid(id), schema.uuid(u), d), Some(t));
    assert Select(rows, Some(t)) + [] == Select(rows, Some(t));
  }

  lemma InsertBySelf<D(!new)>(schema: Schema, rows: seq<Row<D>>, t: string, id: string, d: D)
    ensures var r, v := Insert(schema, rows, t, id, d), Insert(schema, Select(rows, Some(schema.uuid(t))), t, id, d);
      v.1 == r.1 && v.0 == Select(r.0, Some(schema.uuid(t)))
  {
    SelectAppend(rows, Row(schema.uuid(id), schema.uuid(t), d), Some(schema.uuid(t)));
    KeyTakenSelect(rows, schema.uuid(id), schema.uuid(t));
  }

  /** Another tenant's operation leaves a tenant's view alone. */
  lemma OthersAreInvisible(schema: Schema, s: Tables, op: Op, t: string)
    requires t != "" && !SameTenant(schema, op.tenant, t)
    ensures View(schema, Apply(schema, s, op).0, t) == View(schema, s, t)
  {
    if op.tenant == "" {
      NoContextNoEffect(schema, s, op);
    } else {
      OthersPerformInvisibly(schema, s, op, schema.uuid(t));
    }
    hide Perform, Select;
  }

  lemma OthersPerformInvisibly(schema: Schema, s: Tables, op: Op, t: string)
    requires op.tenant != "" && schema.uuid(op.tenant) != t
    ensures var s' := Perform(schema, s, op).0;
      Select(s'.campaigns, Some(t)) == Select(s.campaigns, Some(t))
          && Select(s'.lots, Some(t)) == Select(s.lots, Some(t))
  {
    var ctx := Context(schema, op.tenant);
    match op
    case CreateCampaign(u, id, d, now, _) => InsertByOther(schema, s.campaigns, u, id, NewCampaign(d, now), t);
    case UpdateCampaign(u, id, d, now, _) => SelectUpdate(s.campaigns, ctx, schema.uuid(id), Replace(d, now), t);
    case DeleteCampaign(u, id, _) => SelectDelete(s.campaigns, ctx, schema.uuid(id), t);
    case CreateLot(u, id, d, now, _) => InsertByOther(schema, s.lots, u, id, d.(created := now), t);
    case _ =>
  }

  /** A tenant's own operation, under any spelling of the tenant, answers and acts as if its view were the
      whole database. */
  lemma OwnRunsOnView(schema: Schema, s: Tables, op: Op, t: string)
    requires t != "" && SameTenant(schema, op.tenant, t)
    ensures var r, v := Apply(schema, s, op), Apply(schema, View(schema, s, t), op);
      v.1 == r.1 && v.0 == View(schema, r.0, t)
  {
    hide Perform, View, SameTenant, RollsBack, Context;
    var d := Perform(schema, s, op);
    SameView(schema, s, op.tenant, t);
    SameView(schema, d.0, op.tenant, t);
    OwnPerformsOnView(schema, s, op);
    assert Perform(schema, View(schema, s, t), op) == (View(schema, d.0, t), d.1);
  }

  lemma SameView(schema: Schema, s: Tables, t: string, u: string)
    requires u != "" && SameTenant(schema, t, u)
    ensures t != "" && View(schema, s, t) == View(schema, s, u)
  {
    hide Select;
  }

  lemma OwnPerformsOnView(schema: Schema, s: Tables, op: Op)
    requires op.tenant != ""
    ensures var r, v := Perform(schema, s, op), Perform(schema, View(schema, s, op.tenant), op);
      v.1 == r.1 && v.0 == View(schema, r.0, op.tenant)
  {
    var t := schema.uuid(op.tenant);
    SelectTwice(s.campaigns, Some(t));
    SelectTwice(s.lots, Some(t));
    match op
    case CreateCampaign(u, id, d, now, _) => InsertBySelf(schema, s.campaigns, u, id, NewCampaign(d, now));
    case UpdateCampaign(_, id, d, now, _) =>
      SelectUpdate(s.campaigns, Some(t), schema.uuid(id), Replace(d, now), t);
      AffectedSelect(s.campaigns, t, schema.uuid(id));
    case DeleteCampaign(_, id, _) =>
      SelectDelete(s.campaigns, Some(t), schema.uuid(id), t);
      AffectedSelect(s.campaigns, t, schema.uuid(id));
    case CreateLot(u, id, d, now, _) => InsertBySelf(schema, s.lots, u, id, d.(created := now));
    case _ =>
  }

  /** Any run, seen by one tenant, is the run of that tenant's operations alone on its own rows. */
  lemma {:induction false} RunRestrictsToOwn(schema: Schema, s: Tables, ops: seq<Op>, t: string)
    requires t != ""
    ensures View(schema, Run(schema, s, ops), t) == Run(schema, View(schema, s, t), Own(schema, ops, t))
    ensures Answers(schema, s, ops, t) == Answers(schema, View(schema, s, t), Own(schema, ops, t), t)
  {
    if |ops| > 0 {
      var front, last := ops[..|ops| - 1], ops[|ops| - 1];
      RunRestrictsToOwn(schema, s, front, t);
      var mine := Own(schema, front, t);
      if SameTenant(schema, last.tenant, t) {
        OwnRunsOnView(schema, Run(schema, s, front), last, t);
        assert (mine + [last])[..|mine|] == mine;
      } else {
        OthersAreInvisible(schema, Run(schema, s, front), last, t);
        assert mine + [] == mine;
      }
      hide Apply, View, SameTenant;
    }
  }

  /** Noninterference: two histories with the same rows and the same operations of one tenant give that
      tenant the same answers, whatever every other tenant stores, does, or names its ids. */
  lemma Noninterference(schema: Schema, s1: Tables, s2: Tables, ops1: seq<Op>, ops2: seq<Op>, t: string)
    requires t != "" && View(schema, s1, t) == View(schema, s2, t) && Own(schema, ops1, t) == Own(schema, ops2, t)
    ensures Answers(schema, s1, ops1, t) == Answers(schema, s2, ops2, t)
    ensures View(schema, Run(schema, s1, ops1), t) == View(schema, Run(schema, s2, ops2), t)
  {
    RunRestrictsToOwn(schema, s1, ops1, t);
    RunRestrictsToOwn(schema, s2, ops2, t);
    hide *;
  }

  /** Without a tenant nothing is readable, writable or changeable. */
  lemma NoContextNoEffect(schema: Schema, s: Tables, op: Op)
    requires op.tenant == ""
    ensures Apply(schema, s, op).0 == s
    ensures var a := Apply(schema, s, op).1; a in {Failed, NotFound, ManyCampaigns([]), ManyLots([])}
  {
    NoContextPerform(schema, s, op);
    hide Perform;
  }

  lemma NoContextPerform(schema: Schema, s: Tables, op: Op)
    requires op.tenant == ""
    ensures Perform(schema, s, op).0 == s
    ensures var a := Perform(schema, s, op).1; a in {Failed, NotFound, ManyCampaigns([]), ManyLots([])}
  {
    NothingShown(s.campaigns);
    NothingShown(s.lots);
    if op.UpdateCampaign? {
      assert UpdateById(s.campaigns, None, schema.uuid(op.id), Replace(op.new_, op.now)) == s.campaigns;
      NothingAffected(s.campaigns, schema.uuid(op.id));
    }
    if op.DeleteCampaign? {
      NothingDeleted(s.campaigns, schema.uuid(op.id));
      NothingAffected(s.campaigns, schema.uuid(op.id));
    }
  }

  lemma {:induction false} NothingShown<D(!new)>(rows: seq<Row<D>>)
    ensures Select(rows, None) == []
  {
    if |rows| > 0 {
      NothingShown(rows[..|rows| - 1]);
    }
  }

  lemma {:induction false} NothingDeleted<D(!new)>(rows: seq<Row<D>>, id: string)
    ensures DeleteById(rows, None, id) == rows
  {
    if |rows| > 0 {
      NothingDeleted(rows[..|rows| - 1], id);
      assert rows == rows[..|rows| - 1] + [rows[|rows| - 1]];
    }
  }

  lemma {:induction false} NothingAffected<D(!new)>(rows: seq<Row<D>>, id: string)
    ensures Affected(rows, None, id) == 0
  {
    if |rows| > 0 {
      NothingAffected(rows[..|rows| - 1], id);
    }
  }

  // ------------------------------------------------------------- keys and reads

  ghost predicate UniqueKeys<D(!new)>(rows: seq<Row<D>>) {
    forall i, j :: 0 <= i < j < |rows| ==> !(rows[i].id == rows[j].id && rows[i].tenant == rows[j].tenant)
  }

  lemma {:induction false} DeletedAreRows<D(!new)>(rows: seq<Row<D>>, ctx: Option<string>, id: string)
    requires UniqueKeys(rows)
    ensures UniqueKeys(DeleteById(rows, ctx, id))
    ensures forall r :: r in DeleteById(rows, ctx, id) ==> r in rows
  {
    if |rows| > 0 {
      var front := rows[..|rows| - 1];
      DeletedAreRows(front, ctx, id);
      var kept := DeleteById(front, ctx, id);
      forall i | 0 <= i < |kept|
        ensures !(kept[i].id == rows[|rows| - 1].id && kept[i].tenant == rows[|rows| - 1].tenant)
      {
        assert kept[i] in front;
      }
    }
  }

  /** Every operation keeps the pair of id and tenant unique. */
  lemma ApplyKeepsKeys(schema: Schema, s: Tables, op: Op)
    requires UniqueKeys(s.campaigns) && UniqueKeys(s.lots)
    ensures var s' := Apply(schema, s, op).0; UniqueKeys(s'.campaigns) && UniqueKeys(s'.lots)
  {
    if op.DeleteCampaign? {
      DeletedAreRows(s.campaigns, Context(schema, op.tenant), schema.uuid(op.id));
    }
  }

  lemma {:induction false} RunKeepsKeys(schema: Schema, s: Tables, ops: seq<Op>)
    requires UniqueKeys(s.campaigns) && UniqueKeys(s.lots)
    ensures var s' := Run(schema, s, ops); UniqueKeys(s'.campaigns) && UniqueKeys(s'.lots)
  {
    if |ops| > 0 {
      RunKeepsKeys(schema, s, ops[..|ops| - 1]);
      ApplyKeepsKeys(schema, Run(schema, s, ops[..|ops| - 1]), ops[|ops| - 1]);
    }
  }

  /** Under the policy an id names at most one row, so the campaign statements need no tenant. */
  lemma {:induction false} ByIdFinds<D(!new)>(rows: seq<Row<D>>, r: Row<D>)
    requires r in rows && forall u :: u in rows && u.id == r.id ==> u == r
    ensures ById(rows, r.id) == Some(r)
  {
    if rows[0].id != r.id {
      ByIdFinds(rows[1..], r);
    }
  }

  lemma SelectedById<D(!new)>(rows: seq<Row<D>>, r: Row<D>)
    requires UniqueKeys(rows) && r in rows
    ensures ById(Select(rows, Some(r.tenant)), r.id) == Some(r)
  {
    var shown := Select(rows, Some(r.tenant));
    SelectMembers(rows, Some(r.tenant), r);
    forall u | u in shown && u.id == r.id ensures u == r {
      SelectMembers(rows, Some(r.tenant), u);
      var i :| 0 <= i < |rows| && rows[i] == u;
      var j :| 0 <= j < |rows| && rows[j] == r;
    }
    ByIdFinds(shown, r);
  }

  // ------------------------------------------------------------- what each operation means

  /** The row that an id of a tenant, under whatever spelling, names. */
  predicate Named<D(!new)>(schema: Schema, r: Row<D>, tenant: string, id: string) {
    tenant != "" && r.tenant == schema.uuid(tenant) && r.id == schema.uuid(id)
  }

  lemma ByIdIff<D(!new)>(rows: seq<Row<D>>, ctx: Option<string>, id: string, r: Row<D>)
    requires UniqueKeys(rows)
    ensures ById(Select(rows, ctx), id) == Some(r) <==> r in rows && Shows(ctx, r) && r.id == id
    ensures ById(Select(rows, ctx), id) == None ==> !(r in rows && Shows(ctx, r) && r.id == id)
  {
    var shown := Select(rows, ctx);
    SelectMembers(rows, ctx, r);
    if r in shown && r.id == id {
      SelectedById(rows, r);
    }
  }

  /** A find answers exactly the row that is named, and not found exactly if there is none. */
  lemma FindCampaignIff(schema: Schema, s: Tables, find: Op, r: Campaign)
    requires UniqueKeys(s.campaigns) && find.FindCampaign? && find.fault.Healthy?
    ensures Apply(schema, s, find).0 == s
    ensures Apply(schema, s, find).1 == OneCampaign(r) <==> r in s.campaigns && Named(schema, r, find.tenant, find.id)
    ensures Apply(schema, s, find).1 == NotFound ==> !(r in s.campaigns && Named(schema, r, find.tenant, find.id))
    ensures Apply(schema, s, find).1.OneCampaign? || Apply(schema, s, find).1 == NotFound
  {
    ByIdIff(s.campaigns, Context(schema, find.tenant), schema.uuid(find.id), r);
    hide ById, Select, UniqueKeys;
  }

  lemma FindLotIff(schema: Schema, s: Tables, find: Op, r: Lot)
    requires UniqueKeys(s.lots) && find.FindLot? && find.fault.Healthy?
    ensures Apply(schema, s, find).0 == s
    ensures Apply(schema, s, find).1 == OneLot(r) <==> r in s.lots && Named(schema, r, find.tenant, find.id)
    ensures Apply(schema, s, find).1 == NotFound ==> !(r in s.lots && Named(schema, r, find.tenant, find.id))
    ensures Apply(schema, s, find).1.OneLot? || Apply(schema, s, find).1 == NotFound
  {
    SelectedTwice(schema, s.lots, find.tenant);
    ByIdIff(s.lots, Context(schema, find.tenant), schema.uuid(find.id), r);
    hide ById, Select, UniqueKeys;
  }

  /** The explicit tenant of the lot statements changes nothing under the policy. */
  lemma SelectedTwice<D(!new)>(schema: Schema, rows: seq<Row<D>>, tenant: string)
    ensures Select(Select(rows, Context(schema, tenant)), Some(schema.uuid(tenant)))
         == Select(rows, Context(schema, tenant))
  {
    if tenant == "" {
      NothingShown(rows);
    } else {
      SelectTwice(rows, Some(schema.uuid(tenant)));
    }
  }

  /** How often each row is listed. */
  lemma {:induction false} SelectCounts<D(!new)>(rows: seq<Row<D>>, ctx: Option<string>, r: Row<D>)
    ensures multiset(Select(rows, ctx))[r] == if Shows(ctx, r) then multiset(rows)[r] else 0
  {
    if |rows| > 0 {
      SelectCounts(rows[..|rows| - 1], ctx, r);
      assert rows == rows[..|rows| - 1] + [rows[|rows| - 1]];
    }
  }

  /** A list is complete: it has every row of the tenant, as often as the table, and no other; latest start first, and
      those without a start last. */
  lemma ListCampaignsIsComplete(schema: Schema, s: Tables, tenant: string, r: Campaign)
    ensures var a := Apply(schema, s, ListCampaigns(tenant, Healthy));
      && a.0 == s && a.1.ManyCampaigns?
      && multiset(a.1.campaigns)[r]
         == (if tenant != "" && r.tenant == schema.uuid(tenant) then multiset(s.campaigns)[r] else 0)
      && forall i, j :: 0 <= i < j < |a.1.campaigns| ==>
           var x, y := a.1.campaigns[i].data.started, a.1.campaigns[j].data.started;
           y.None? || (x.Some? && x.value >= y.value)
  {
    CampaignListSorted(schema, s, tenant);
    SelectCounts(s.campaigns, Context(schema, tenant), r);
    hide OrderBy, Select;
  }

  lemma ListLotsIsComplete(schema: Schema, s: Tables, tenant: string, r: Lot)
    requires TotalPreorder(LotOrder(schema))
    ensures var a := Apply(schema, s, ListLots(tenant, Healthy));
      && a.0 == s && a.1.ManyLots?
      && multiset(a.1.lots)[r] == (if tenant != "" && r.tenant == schema.uuid(tenant) then multiset(s.lots)[r] else 0)
      && forall i, j :: 0 <= i < j < |a.1.lots| ==> schema.collate(a.1.lots[i].data.name, a.1.lots[j].data.name)
  {
    LotListSorted(schema, s, tenant);
    SelectedTwice(schema, s.lots, tenant);
    SelectCounts(s.lots, Context(schema, tenant), r);
    hide OrderBy, Select;
  }

  lemma {:induction false} AffectedIff<D(!new)>(rows: seq<Row<D>>, ctx: Option<string>, id: string)
    ensures Affected(rows, ctx, id) == 0 <==> forall r :: r in rows ==> !(Shows(ctx, r) && r.id == id)
  {
    if |rows| > 0 {
      AffectedIff(rows[..|rows| - 1], ctx, id);
      assert rows == rows[..|rows| - 1] + [rows[|rows| - 1]];
    }
  }

  lemma {:induction false} DeletedIff<D(!new)>(rows: seq<Row<D>>, ctx: Option<string>, id: string, r: Row<D>)
    ensures multiset(DeleteById(rows, ctx, id))[r] == if Shows(ctx, r) && r.id == id then 0 else multiset(rows)[r]
  {
    if |rows| > 0 {
      var front, last := rows[..|rows| - 1], rows[|rows| - 1];
      DeletedIff(front, ctx, id, r);
      assert rows == front + [last];
      var kept := DeleteById(front, ctx, id);
      assert DeleteById(rows, ctx, id) == kept + (if Shows(ctx, last) && last.id == id then [] else [last]);
      hide DeleteById;
      assert multiset(kept + [last])[r] == multiset(kept)[r] + (if last == r then 1 else 0);
      assert multiset(rows)[r] == multiset(front)[r] + (if last == r then 1 else 0);
    }
  }

  lemma {:induction false} NoneDeleted<D(!new)>(rows: seq<Row<D>>, ctx: Option<string>, id: string)
    requires Affected(rows, ctx, id) == 0
    ensures DeleteById(rows, ctx, id) == rows
  {
    if |rows| > 0 {
      NoneDeleted(rows[..|rows| - 1], ctx, id);
      assert rows == rows[..|rows| - 1] + [rows[|rows| - 1]];
    }
  }

  /** A delete removes the named row and no other. It answers done exactly if there was one, and not found otherwise,
      and then changes nothing; only a lost acknowledgement hides that it took effect. */
  lemma DeleteIff(schema: Schema, s: Tables, e: Op, r: Campaign)
    requires e.DeleteCampaign?
    ensures var (s', a) := Apply(schema, s, e);
      var there := exists u :: u in s.campaigns && Named(schema, u, e.tenant, e.id);
      && s'.lots == s.lots
      && multiset(s'.campaigns)[r]
         == (if TookEffect(e.fault) && Named(schema, r, e.tenant, e.id) then 0 else multiset(s.campaigns)[r])
      && (a == Done <==> e.fault.Healthy? && there)
      && (a == NotFound <==> TookEffect(e.fault) && !there)
      && (a == Failed <==> e.fault.Lost? || (e.fault.AckLost? && there))
      && (!there || e.fault.Lost? ==> s' == s)
  {
    var ctx := Context(schema, e.tenant);
    AffectedIff(s.campaigns, ctx, schema.uuid(e.id));
    DeletedIff(s.campaigns, ctx, schema.uuid(e.id), r);
    if Affected(s.campaigns, ctx, schema.uuid(e.id)) == 0 {
      NoneDeleted(s.campaigns, ctx, schema.uuid(e.id));
    }
    hide Affected, DeleteById;
    assert forall u: Campaign :: Named(schema, u, e.tenant, e.id) <==> Shows(ctx, u) && u.id == schema.uuid(e.id);
  }

  /** An update replaces name, season, start and end of the named row, keeps its creation time, stamps it, and touches
      no other row; its answer is that of a delete. */
  lemma UpdateIff(schema: Schema, s: Tables, e: Op, i: nat)
    requires e.UpdateCampaign? && i < |s.campaigns|
    ensures var (s', a) := Apply(schema, s, e);
      var there := exists u :: u in s.campaigns && Named(schema, u, e.tenant, e.id);
      var was, d := s.campaigns[i], e.new_;
      && s'.lots == s.lots && |s'.campaigns| == |s.campaigns|
      && s'.campaigns[i]
         == (if TookEffect(e.fault) && Named(schema, was, e.tenant, e.id)
             then Row(was.id, was.tenant, CampaignData(d.name, d.season, d.started, d.ended, was.data.created, e.now))
             else was)
      && (a == Done <==> e.fault.Healthy? && there)
      && (a == NotFound <==> TookEffect(e.fault) && !there)
      && (a == Failed <==> e.fault.Lost? || (e.fault.AckLost? && there))
  {
    var ctx := Context(schema, e.tenant);
    AffectedIff(s.campaigns, ctx, schema.uuid(e.id));
    hide Affected;
    assert forall u: Campaign :: Named(schema, u, e.tenant, e.id) <==> Shows(ctx, u) && u.id == schema.uuid(e.id);
  }

  /** A create adds the named row with both times set to now, or nothing: not without a registered tenant, and not
      over a row that has the name. */
  lemma CreateIff(schema: Schema, s: Tables, e: Op)
    requires e.CreateCampaign?
    ensures var (s', a) := Apply(schema, s, e);
      var known := e.tenant != "" && schema.uuid(e.tenant) in schema.tenants;
      var there := exists u :: u in s.campaigns && Named(schema, u, e.tenant, e.id);
      var d := e.new_;
      && s'.lots == s.lots
      && s'.campaigns == (if TookEffect(e.fault) && known && !there
           then s.campaigns + [Row(schema.uuid(e.id), schema.uuid(e.tenant),
                                   CampaignData(d.name, d.season, d.started, d.ended, e.now, e.now))]
           else s.campaigns)
      && (a == Done <==> e.fault.Healthy? && known && !there)
      && (a == Conflict <==> TookEffect(e.fault) && known && there)
      && (a == Failed <==> e.fault.Lost? || !known || (e.fault.AckLost? && !there))
  {
    KeyTakenIff(schema, s.campaigns, e.tenant, e.id);
  }

  lemma KeyTakenIff<D(!new)>(schema: Schema, rows: seq<Row<D>>, tenant: string, id: string)
    ensures tenant != "" ==>
      (KeyTaken(rows, schema.uuid(id), schema.uuid(tenant)) <==> exists u :: u in rows && Named(schema, u, tenant, id))
  {
    if i :| 0 <= i < |rows| && rows[i].id == schema.uuid(id) && rows[i].tenant == schema.uuid(tenant) {
      assert rows[i] in rows && (tenant != "" ==> Named(schema, rows[i], tenant, id));
    }
  }

  lemma CreateLotIff(schema: Schema, s: Tables, e: Op)
    requires e.CreateLot?
    ensures var (s', a) := Apply(schema, s, e);
      var known := e.tenant != "" && schema.uuid(e.tenant) in schema.tenants;
      var there := exists u :: u in s.lots && Named(schema, u, e.tenant, e.id);
      && s'.campaigns == s.campaigns
      && s'.lots == (if TookEffect(e.fault) && known && !there
           then s.lots + [Row(schema.uuid(e.id), schema.uuid(e.tenant),
                              LotData(e.lot.name, e.lot.area, e.lot.crop, e.now))]
           else s.lots)
      && (a == Done <==> e.fault.Healthy? && known && !there)
      && (a == Conflict <==> TookEffect(e.fault) && known && there)
      && (a == Failed <==> e.fault.Lost? || !known || (e.fault.AckLost? && !there))
  {
    KeyTakenIff(schema, s.lots, e.tenant, e.id);
  }

  // ------------------------------------------------------------- what a tenant finds later

  /** Others between, a find answers what it would have answered before, under any spelling of tenant and id. */
  lemma FindLater(schema: Schema, s: Tables, between: seq<Op>, find: Op, t: string)
    requires t != "" && Own(schema, between, t) == [] && SameTenant(schema, find.tenant, t)
    requires find.FindCampaign? || find.FindLot?
    ensures Apply(schema, Run(schema, s, between), find).1 == Apply(schema, s, find).1
  {
    RunRestrictsToOwn(schema, s, between, t);
    OwnRunsOnView(schema, s, find, t);
    OwnRunsOnView(schema, Run(schema, s, between), find, t);
    assert Run(schema, View(schema, s, t), []) == View(schema, s, t);
    hide Run, Own, Apply, View, SameTenant;
  }

  /** A created campaign is what its tenant finds under that id, under any spelling of both, whatever the
      others did since, even if they use the same id. */
  lemma CreatedIsFound(schema: Schema, s: Tables, create: Op, between: seq<Op>, find: Op)
    requires UniqueKeys(s.campaigns) && UniqueKeys(s.lots)
    requires create.CreateCampaign? && Apply(schema, s, create).1 == Done
    requires Own(schema, between, create.tenant) == []
    requires find.FindCampaign? && find.fault.Healthy?
    requires SameTenant(schema, find.tenant, create.tenant) && schema.uuid(find.id) == schema.uuid(create.id)
    ensures Apply(schema, Run(schema, Apply(schema, s, create).0, between), find).1
         == OneCampaign(Row(schema.uuid(create.id), schema.uuid(create.tenant), NewCampaign(create.new_, create.now)))
  {
    var t := create.tenant;
    var r := Row(schema.uuid(create.id), schema.uuid(t), NewCampaign(create.new_, create.now));
    var s1 := Apply(schema, s, create).0;
    CreateIff(schema, s, create);
    ApplyKeepsKeys(schema, s, create);
    assert s1.campaigns[|s.campaigns|] == r;
    FindLater(schema, s1, between, find, t);
    FindCampaignIff(schema, s1, find, r);
    hide Run, Own, Apply, UniqueKeys;
  }

  /** The same for a lot. */
  lemma CreatedLotIsFound(schema: Schema, s: Tables, create: Op, between: seq<Op>, find: Op)
    requires UniqueKeys(s.campaigns) && UniqueKeys(s.lots)
    requires create.CreateLot? && Apply(schema, s, create).1 == Done
    requires Own(schema, between, create.tenant) == []
    requires find.FindLot? && find.fault.Healthy?
    requires SameTenant(schema, find.tenant, create.tenant) && schema.uuid(find.id) == schema.uuid(create.id)
    ensures Apply(schema, Run(schema, Apply(schema, s, create).0, between), find).1
         == OneLot(Row(schema.uuid(create.id), schema.uuid(create.tenant), create.lot.(created := create.now)))
  {
    var t := create.tenant;
    var r := Row(schema.uuid(create.id), schema.uuid(t), create.lot.(created := create.now));
    var s1 := Apply(schema, s, create).0;
    CreateLotIff(schema, s, create);
    ApplyKeepsKeys(schema, s, create);
    assert s1.lots[|s.lots|] == r;
    FindLater(schema, s1, between, find, t);
    FindLotIff(schema, s1, find, r);
    hide Run, Own, Apply, UniqueKeys;
  }

  /** An updated campaign is found with what the update said, and with the creation time it had. */
  lemma UpdatedIsFound(schema: Schema, s: Tables, update: Op, i: nat, between: seq<Op>, find: Op)
    requires UniqueKeys(s.campaigns) && UniqueKeys(s.lots)
    requires update.UpdateCampaign? && TookEffect(update.fault)
    requires i < |s.campaigns| && Named(schema, s.campaigns[i], update.tenant, update.id)
    requires Own(schema, between, update.tenant) == []
    requires find.FindCampaign? && find.fault.Healthy?
    requires SameTenant(schema, find.tenant, update.tenant) && schema.uuid(find.id) == schema.uuid(update.id)
    ensures var d, was := update.new_, s.campaigns[i];
      Apply(schema, Run(schema, Apply(schema, s, update).0, between), find).1
      == OneCampaign(Row(was.id, was.tenant,
                         CampaignData(d.name, d.season, d.started, d.ended, was.data.created, update.now)))
  {
    var d, was := update.new_, s.campaigns[i];
    var r := Row(was.id, was.tenant, CampaignData(d.name, d.season, d.started, d.ended, was.data.created, update.now));
    var s1 := Apply(schema, s, update).0;
    UpdateIff(schema, s, update, i);
    ApplyKeepsKeys(schema, s, update);
    assert s1.campaigns[i] == r;
    FindLater(schema, s1, between, find, update.tenant);
    FindCampaignIff(schema, s1, find, r);
    hide Run, Own, Apply, UniqueKeys;
  }

  /** A deleted campaign is not found any more, under any spelling, whatever the others did since. */
  lemma DeletedIsGone(schema: Schema, s: Tables, delete: Op, between: seq<Op>, find: Op)
    requires UniqueKeys(s.campaigns) && UniqueKeys(s.lots)
    requires delete.DeleteCampaign? && Apply(schema, s, delete).1 == Done
    requires Own(schema, between, delete.tenant) == []
    requires find.FindCampaign? && find.fault.Healthy?
    requires SameTenant(schema, find.tenant, delete.tenant) && schema.uuid(find.id) == schema.uuid(delete.id)
    ensures Apply(schema, Run(schema, Apply(schema, s, delete).0, between), find).1 == NotFound
  {
    var s1 := Apply(schema, s, delete).0;
    ApplyKeepsKeys(schema, s, delete);
    forall r: Campaign ensures multiset(s1.campaigns)[r] == if Named(schema, r, delete.tenant, delete.id) then 0
                                                            else multiset(s.campaigns)[r]
                       ensures delete.tenant != ""
                       ensures Apply(schema, s1, find).1 == OneCampaign(r) <==>
                                 r in s1.campaigns && Named(schema, r, find.tenant, find.id)
    {
      DeleteIff(schema, s, delete, r);
      FindCampaignIff(schema, s1, find, r);
      hide Apply, UniqueKeys;
    }
    FindLater(schema, s1, between, find, delete.tenant);
    FindCampaignIff(schema, s1, find, Row("", "", CampaignData("", "", None, None, 0, 0)));
    hide Run, Own, Apply, UniqueKeys;
    assert forall r :: r in s1.campaigns <==> r in multiset(s1.campaigns);
  }

  ghost predicate TotalPreorder<D(!new)>(leq: (Row<D>, Row<D>) -> bool) {
    && (forall a, b :: leq(a, b) || leq(b, a))
    && (forall a, b, c :: leq(a, b) && leq(b, c) ==> leq(a, c))
  }

  ghost predicate SortedBy<D(!new)>(leq: (Row<D>, Row<D>) -> bool, rows: seq<Row<D>>) {
    forall i, j :: 0 <= i < j < |rows| ==> leq(rows[i], rows[j])
  }

  /** ORDER BY really orders, when the comparison is a total preorder. */
  lemma {:induction false} OrderBySorts<D(!new)>(leq: (Row<D>, Row<D>) -> bool, rows: seq<Row<D>>)
    requires TotalPreorder(leq)
    ensures SortedBy(leq, OrderBy(leq, rows))
  {
    if |rows| > 0 {
      OrderBySorts(leq, rows[..|rows| - 1]);
      InsertKeepsSorted(leq, OrderBy(leq, rows[..|rows| - 1]), rows[|rows| - 1]);
    }
  }

  lemma InsertedFrom<D(!new)>(leq: (Row<D>, Row<D>) -> bool, sorted: seq<Row<D>>, r: Row<D>, u: Row<D>)
    requires u in InsertSorted(leq, sorted, r)
    ensures u in sorted || u == r
  {
    assert u in multiset(InsertSorted(leq, sorted, r));
    hide InsertSorted;
  }

  lemma {:induction false} InsertKeepsSorted<D(!new)>(leq: (Row<D>, Row<D>) -> bool, sorted: seq<Row<D>>, r: Row<D>)
    requires TotalPreorder(leq) && SortedBy(leq, sorted)
    ensures SortedBy(leq, InsertSorted(leq, sorted, r))
  {
    var n := |sorted|;
    if n == 0 {
    } else if leq(sorted[n - 1], r) {
      assert forall i :: 0 <= i < n ==> i == n - 1 || leq(sorted[i], sorted[n - 1]);
      SortedSnoc(leq, sorted, r);
    } else {
      var front := InsertSorted(leq, sorted[..n - 1], r);
      InsertKeepsSorted(leq, sorted[..n - 1], r);
      forall i | 0 <= i < |front| ensures leq(front[i], sorted[n - 1]) {
        InsertedFrom(leq, sorted[..n - 1], r, front[i]);
      }
      SortedSnoc(leq, front, sorted[n - 1]);
    }
  }

  lemma SortedSnoc<D(!new)>(leq: (Row<D>, Row<D>) -> bool, front: seq<Row<D>>, last: Row<D>)
    requires SortedBy(leq, front) && forall i :: 0 <= i < |front| ==> leq(front[i], last)
    ensures SortedBy(leq, front + [last])
  {
  }

  /** Campaigns come latest start first, those without a start last. */
  lemma CampaignListSorted(schema: Schema, s: Tables, tenant: string)
    ensures Apply(schema, s, ListCampaigns(tenant, Healthy)).1.ManyCampaigns?
    ensures SortedBy(LaterStart, Apply(schema, s, ListCampaigns(tenant, Healthy)).1.campaigns)
  {
    OrderBySorts(LaterStart, Select(s.campaigns, Context(schema, tenant)));
  }

  /** Lots come by name in the database's collation. */
  lemma LotListSorted(schema: Schema, s: Tables, tenant: string)
    requires TotalPreorder(LotOrder(schema))
    ensures Apply(schema, s, ListLots(tenant, Healthy)).1.ManyLots?
    ensures SortedBy(LotOrder(schema), Apply(schema, s, ListLots(tenant, Healthy)).1.lots)
  {
    OrderBySorts(LotOrder(schema), Select(Select(s.lots, Context(schema, tenant)), Some(schema.uuid(tenant))));
  }
}
