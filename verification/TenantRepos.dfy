/** The campaign and lot repositories as objects over their tables. */
module TenantRepos {
  import opened Basics
  import opened TenantRows

  /** The loop over a result set. */
  method Scan<D(!new)>(cursor: seq<Row<D>>) returns (rows: seq<Row<D>>)
    ensures rows == cursor
  {
    rows := [];
    for i := 0 to |cursor|
      invariant rows == cursor[..i]
    {
      rows := rows + [cursor[i]];
    }
  }

  class CampaignRepo {
    const schema: Schema
    var rows: seq<Campaign>

    constructor (schema: Schema)
      ensures this.schema == schema && rows == []
    {
      this.schema, rows := schema, [];
    }

    /** The tables with these campaigns. */
    ghost function Db(): (s: Tables)
      reads this
    {
      Tables(rows, [])
    }

    method FindByID(tenant: string, id: string, fault: Fault) returns (a: Answer)
      ensures a == Apply(schema, Db(), FindCampaign(tenant, id, fault)).1
    {
      if fault.Lost? {
        return Failed;
      }
      var found := ById(Select(rows, Context(schema, tenant)), schema.uuid(id));
      if found.None? {
        return NotFound;
      }
      return if fault.AckLost? then Failed else OneCampaign(found.value);
    }

    method List(tenant: string, fault: Fault) returns (a: Answer)
      ensures a == Apply(schema, Db(), ListCampaigns(tenant, fault)).1
    {
      if fault.Lost? {
        return Failed;
      }
      var cursor := OrderBy(LaterStart, Select(rows, Context(schema, tenant)));
      var campaigns := Scan(cursor);
      return if fault.AckLost? then Failed else ManyCampaigns(campaigns);
    }

    method Create(tenant: string, id: string, d: CampaignData, now: int, fault: Fault) returns (a: Answer)
      modifies this
      ensures (Db(), a) == Apply(schema, old(Db()), CreateCampaign(tenant, id, d, now, fault))
    {
      if fault.Lost? || Context(schema, tenant).None? || schema.uuid(tenant) !in schema.tenants {
        return Failed;
      }
      if KeyTaken(rows, schema.uuid(id), schema.uuid(tenant)) {
        return Conflict;
      }
      rows := rows + [Row(schema.uuid(id), schema.uuid(tenant), NewCampaign(d, now))];
      return if fault.AckLost? then Failed else Done;
    }

    /** RowsAffected() == 0 is the only sign that the row is missing or another tenant's. */
    method Update(tenant: string, id: string, d: CampaignData, now: int, fault: Fault) returns (a: Answer)
      modifies this
      ensures (Db(), a) == Apply(schema, old(Db()), UpdateCampaign(tenant, id, d, now, fault))
    {
      if fault.Lost? {
        return Failed;
      }
      var affected := Affected(rows, Context(schema, tenant), schema.uuid(id));
      rows := UpdateById(rows, Context(schema, tenant), schema.uuid(id), Replace(d, now));
      if affected == 0 {
        return NotFound;
      }
      return if fault.AckLost? then Failed else Done;
    }

    method Delete(tenant: string, id: string, fault: Fault) returns (a: Answer)
      modifies this
      ensures (Db(), a) == Apply(schema, old(Db()), DeleteCampaign(tenant, id, fault))
    {
      if fault.Lost? {
        return Failed;
      }
      var affected := Affected(rows, Context(schema, tenant), schema.uuid(id));
      rows := DeleteById(rows, Context(schema, tenant), schema.uuid(id));
      if affected == 0 {
        return NotFound;
      }
      return if fault.AckLost? then Failed else Done;
    }
  }

  class LotRepo {
    const schema: Schema
    var rows: seq<Lot>

    constructor (schema: Schema)
      ensures this.schema == schema && rows == []
    {
      this.schema, rows := schema, [];
    }

    ghost function Db(): (s: Tables)
      reads this
    {
      Tables([], rows)
    }

    method FindByID(tenant: string, id: string, fault: Fault) returns (a: Answer)
      ensures a == Apply(schema, Db(), FindLot(tenant, id, fault)).1
    {
      if fault.Lost? {
        return Failed;
      }
      var found := ById(Select(Select(rows, Context(schema, tenant)), Some(schema.uuid(tenant))), schema.uuid(id));
      if found.None? {
        return NotFound;
      }
      return if fault.AckLost? then Failed else OneLot(found.value);
    }

    method List(tenant: string, fault: Fault) returns (a: Answer)
      ensures a == Apply(schema, Db(), ListLots(tenant, fault)).1
    {
      if fault.Lost? {
        return Failed;
      }
      var cursor := OrderBy(LotOrder(schema), Select(Select(rows, Context(schema, tenant)), Some(schema.uuid(tenant))));
      var lots := Scan(cursor);
      return if fault.AckLost? then Failed else ManyLots(lots);
    }

    method Create(tenant: string, id: string, d: LotData, now: int, fault: Fault) returns (a: Answer)
      modifies this
      ensures (Db(), a) == Apply(schema, old(Db()), CreateLot(tenant, id, d, now, fault))
    {
      if fault.Lost? || Context(schema, tenant).None? || schema.uuid(tenant) !in schema.tenants {
        return Failed;
      }
      if KeyTaken(rows, schema.uuid(id), schema.uuid(tenant)) {
        return Conflict;
      }
      rows := rows + [Row(schema.uuid(id), schema.uuid(tenant), d.(created := now))];
      return if fault.AckLost? then Failed else Done;
    }
  }
}
