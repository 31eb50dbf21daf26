/** Which runs the verifier accepts: those whose requests the database can store as they were hashed. */
module AuditVerdict {
  import opened Basics
  import opened Json
  import opened AuditChain
  import opened AuditLog
  import opened AuditRuns
  import FieldJoin

  lemma SameHashedSameVerdict(env: Env, a: Entry, b: Entry)
    requires Lawful(env) && SameHashed(env, a, b)
    ensures SelfHashed(env, a) <==> SelfHashed(env, b)
  {
    CanonicalBytesDetermineMeaning(env, a.payload, b.payload);
  }

  /** A uuid column takes no separator. */
  predicate PlainIds(e: Entry) {
    FieldJoin.Plain(e.tenant) && FieldJoin.Plain(e.actor)
  }

  /** The two differ in ids, payload and time at most. */
  predicate SameText(a: Entry, b: Entry) {
    && a.action == b.action && a.entityType == b.entityType && a.entityId == b.entityId
    && a.seqNo == b.seqNo && a.prevHash == b.prevHash && a.chainHash == b.chainHash
  }

  /** The shared fields cancel from the join, whatever they hold. */
  lemma SharedFieldsCancel(env: Env, a: Entry, b: Entry)
    requires Lawful(env) && PlainIds(a) && PlainIds(b) && SameText(a, b)
    requires !a.payload.Malformed? && !b.payload.Malformed? && InputOf(env, a) == InputOf(env, b)
    ensures SameHashed(env, a, b)
  {
    FieldJoin.JoinInjective(FieldsOf(env, a), FieldsOf(env, b), 7);
    SameFieldsSameHashed(env, a, b);
  }

  /** Two such entries with one stored hash, the hash of the first, agree on the hashed fields or collide. */
  lemma SameHashOrCollision(env: Env, a: Entry, b: Entry)
    requires Lawful(env) && PlainIds(a) && PlainIds(b) && SameText(a, b)
    requires SelfHashed(env, a) && !a.payload.Malformed? && !b.payload.Malformed?
    ensures SelfHashed(env, b) <==> SameHashed(env, a, b) || Collide(env, a, b)
  {
    if SameHashed(env, a, b) {
      SameHashedSameVerdict(env, a, b);
    } else if InputOf(env, a) == InputOf(env, b) {
      SharedFieldsCancel(env, a, b);
    }
    hide SameHashed, PlainIds, SameText, Lawful;
  }

  /** The row of a self-hashed entry reads back as self-hashed exactly when the database can store the entry
      as it was hashed, or the two collide. */
  lemma RowAcceptedIff(env: Env, db: Db, e: Entry, id: nat, author: CallId)
    requires Lawful(env) && LawfulDb(db) && PlainIds(e)
    requires SelfHashed(env, e) && !e.payload.Malformed?
    ensures var back := FromRow(ToRow(db, e, id, author));
      SelfHashed(env, back) <==> Storable(env, db, e) || Collide(env, e, back)
  {
    var back := FromRow(ToRow(db, e, id, author));
    StoredRowKeepsHashedFields(env, db, e, id, author);
    assert SameHashed(env, back, e) <==> SameHashed(env, e, back);
    assert PlainIds(back) && SameText(e, back) && !back.payload.Malformed?;
    hide *;
    SameHashOrCollision(env, e, back);
  }

  lemma GoodIffSelfHashed(env: Env, es: seq<Option<Entry>>, i: nat)
    requires i < |es| && es[i].Some? && (i > 0 ==> es[i - 1].Some?) && Contiguous(es, i) && Linked(es, i)
    ensures GoodAt(env, es, i) <==> SelfHashed(env, es[i].value)
  {
    hide SelfHashed, Contiguous, Linked;
  }

  /** A numbered list is a chain exactly when every row carries the hash of itself. */
  lemma NumberedChainIff(env: Env, v: seq<Row>)
    requires Numbered(v)
    ensures Chain(env, Pointers(v)) <==> forall i :: 0 <= i < |v| ==> SelfHashed(env, FromRow(v[i]))
  {
    hide GoodAt, SelfHashed, FromRow, Numbered, Contiguous, Linked;
    NumberedLinks(v);
    forall i: nat | i < |v| ensures GoodAt(env, Pointers(v), i) <==> SelfHashed(env, FromRow(v[i])) {
      GoodIffSelfHashed(env, Pointers(v), i);
    }
  }

  /** No committed request of the tenant holds a separator in its ids; a uuid column would refuse it. */
  predicate PlainIdsLog(db: Db, s: State, tenant: string) {
    forall r :: r in Visible(db, s.rows, tenant) && r.author in s.calls ==> PlainIds(Hashed(s, r))
  }

  /** The entry hashed for a row of the state. */
  function Hashed(s: State, r: Row): (e: Entry)
    requires r.author in s.calls
  {
    EntryOf(s.calls[r.author].req, r)
  }

  /** What the verifier reads is what was hashed, or at least has its hash. */
  ghost predicate Survives(env: Env, db: Db, s: State, r: Row)
    requires r.author in s.calls
  {
    Storable(env, db, Hashed(s, r)) || Collide(env, Hashed(s, r), FromRow(r))
  }

  lemma VisibleRecords(env: Env, db: Db, es: seq<Event>, tenant: string, i: nat)
    requires TotalOrder(db.order) && i < |Visible(db, Run(env, db, INITIAL, es).rows, tenant)|
    ensures var s := Run(env, db, INITIAL, es); var r := Visible(db, s.rows, tenant)[i];
      r.author in s.calls && Records(env, db, r, s.calls[r.author].req)
  {
    RunKeepsAuthorship(env, db, es);
    var s := Run(env, db, INITIAL, es);
    VisibleAreRows(db, s.rows, tenant, Visible(db, s.rows, tenant)[i]);
    hide Records;
  }

  lemma RowSurvivesIff(env: Env, db: Db, es: seq<Event>, tenant: string, i: nat)
    requires Lawful(env) && LawfulDb(db) && PlainIdsLog(db, Run(env, db, INITIAL, es), tenant)
    requires i < |Visible(db, Run(env, db, INITIAL, es).rows, tenant)|
    ensures var s := Run(env, db, INITIAL, es); var r := Visible(db, s.rows, tenant)[i];
      r.author in s.calls && (SelfHashed(env, FromRow(r)) <==> Survives(env, db, s, r))
  {
    var s := Run(env, db, INITIAL, es);
    var v := Visible(db, s.rows, tenant);
    VisibleRecords(env, db, es, tenant, i);
    assert v[i] in v && PlainIds(Hashed(s, v[i]));
    hide Run, Visible, PlainIdsLog, SelfHashed, Storable, Collide, Lawful, LawfulDb, PlainIds, ToRow, FromRow;
    RowAcceptedIff(env, db, Hashed(s, v[i]), v[i].id, v[i].author);
  }

  /** Any number of writers, any interleaving and any faults: the verifier accepts what ListByTenant returns
      if and only if every committed row of the tenant comes from a request whose ids are spelled as the uuid
      column spells them and whose numbers jsonb keeps, or has a collision to thank. */
  lemma AcceptedIffRequestsSurvive(env: Env, db: Db, es: seq<Event>, tenant: string)
    requires Lawful(env) && LawfulDb(db) && PlainIdsLog(db, Run(env, db, INITIAL, es), tenant)
    ensures var s := Run(env, db, INITIAL, es); var v := Visible(db, s.rows, tenant);
      && (forall i :: 0 <= i < |v| ==> v[i].author in s.calls)
      && (Chain(env, ListByTenant(db, s.rows, tenant)) <==> forall i :: 0 <= i < |v| ==> Survives(env, db, s, v[i]))
  {
    var s := Run(env, db, INITIAL, es);
    var v := Visible(db, s.rows, tenant);
    RunKeepsInv(env, db, es);
    assert TenantNumbered(db, s.rows, tenant);
    hide Run, Visible, PlainIdsLog, SelfHashed, Lawful, LawfulDb, Survives;
    ListedInOrder(db, s.rows, tenant);
    NumberedChainIff(env, v);
    forall i: nat | i < |v|
      ensures v[i].author in s.calls && (SelfHashed(env, FromRow(v[i])) <==> Survives(env, db, s, v[i]))
    {
      RowSurvivesIff(env, db, es, tenant, i);
    }
  }

  /** Whatever else their fields hold: if the database can store every request of a tenant as it was hashed,
      the tenant's log is accepted. */
  lemma EveryRunVerifies(env: Env, db: Db, es: seq<Event>, tenant: string)
    requires Lawful(env) && TotalOrder(db.order)
    requires var s := Run(env, db, INITIAL, es);
      forall r :: r in Visible(db, s.rows, tenant) && r.author in s.calls ==> Storable(env, db, Hashed(s, r))
    ensures Chain(env, ListByTenant(db, Run(env, db, INITIAL, es).rows, tenant))
  {
    var s := Run(env, db, INITIAL, es);
    var v := Visible(db, s.rows, tenant);
    RunKeepsInv(env, db, es);
    assert TenantNumbered(db, s.rows, tenant);
    hide Run, Visible, SelfHashed, Lawful, Storable;
    ListedInOrder(db, s.rows, tenant);
    NumberedChainIff(env, v);
    forall i: nat | i < |v| ensures SelfHashed(env, FromRow(v[i])) {
      VisibleRecords(env, db, es, tenant, i);
      var e := Hashed(s, v[i]);
      assert v[i] in v;
      StoredRowKeepsHashedFields(env, db, e, v[i].id, v[i].author);
      SameHashedSameVerdict(env, FromRow(v[i]), e);
    }
  }

  // ------------------------------------------------------------------- the verifier reports an honest writer

  /** One call alone: it reads the tail, links, and appends. */
  function Alone(c: CallId, req: Request, now: int, id: nat): (es: seq<Event>) {
    [Begin(c, req), ReadTail(c, true), Link(c, now), Append(c, id, Healthy)]
  }

  lemma RunFour(env: Env, db: Db, a: Event, b: Event, d: Event, e: Event)
    requires TotalOrder(db.order)
    ensures Run(env, db, INITIAL, [a, b, d, e])
         == Step(env, db, Step(env, db, Step(env, db, Step(env, db, INITIAL, a), b), d), e)
  {
    hide Step;
    assert [a, b, d, e][..3] == [a, b, d] && [a, b, d][..2] == [a, b] && [a, b][..1] == [a] && [a][..0] == [];
    assert Run(env, db, INITIAL, [a]) == Step(env, db, INITIAL, a);
    assert Run(env, db, INITIAL, [a, b]) == Step(env, db, Step(env, db, INITIAL, a), b);
  }

  lemma LinkedFirst(env: Env, db: Db, c: CallId, req: Request, now: int) returns (s: State)
    requires TotalOrder(db.order) && req.tenant != "" && !req.payload.Malformed?
    ensures s == Step(env, db, Step(env, db, Step(env, db, INITIAL, Begin(c, req)), ReadTail(c, true)), Link(c, now))
    ensures s.rows == [] && c in s.calls && s.calls[c].Appending? && s.calls[c].req == req && s.calls[c].since == 0
    ensures var e := s.calls[c].entry; e.payload == req.payload && e.tenant == req.tenant
  {
    var s1 := Step(env, db, INITIAL, Begin(c, req));
    assert s1.rows == [] && s1.calls == map[c := ReadingTail(req, 0, 0)];
    var s2 := Step(env, db, s1, ReadTail(c, true));
    assert s2.rows == [] && s2.calls[c] == Linking(req, 0, 0, None);
    var entry := LinkedEntry(env, req, None, now);
    assert entry.Some? && entry.value.payload == req.payload && entry.value.tenant == req.tenant;
    hide LinkedEntry;
    s := Step(env, db, s2, Link(c, now));
  }

  /** Such a call succeeds and its row is its tenant's log. */
  lemma AloneSucceeds(env: Env, db: Db, c: CallId, req: Request, now: int, id: nat)
    requires TotalOrder(db.order) && req.tenant != "" && !req.payload.Malformed?
    ensures var s := Run(env, db, INITIAL, Alone(c, req, now, id));
      && c in s.calls && s.calls[c] == Finished(req, 0, Recorded)
      && |s.rows| == 1 && s.rows[0].author == c && Visible(db, s.rows, req.tenant) == s.rows
  {
    var m := LinkedFirst(env, db, c, req, now);
    RunFour(env, db, Begin(c, req), ReadTail(c, true), Link(c, now), Append(c, id, Healthy));
    var r := ToRow(db, m.calls[c].entry, id, c);
    assert !Taken(db, m.rows, m.calls[c].entry.tenant, m.calls[c].entry.seqNo);
    var s := Step(env, db, m, Append(c, id, Healthy));
    assert s.rows == [r] && r.tenant == db.uuid(req.tenant) && r.author == c;
    assert [r][..0] == [];
  }

  /** A single successful call whose request the database cannot store as it was hashed: the verifier reports
      the writer's own row, unless the two spellings collide. */
  lemma HonestWriterIsReported(env: Env, db: Db, c: CallId, req: Request, now: int, id: nat)
    requires Lawful(env) && LawfulDb(db) && FieldJoin.Plain(req.tenant) && FieldJoin.Plain(req.actor)
      && req.tenant != "" && !req.payload.Malformed?
    requires db.uuid(req.tenant) != req.tenant || (req.actor != "" && db.uuid(req.actor) != req.actor)
             || !KeepsNumbers(env, db, req.payload)
    ensures var s := Run(env, db, INITIAL, Alone(c, req, now, id));
      && c in s.calls && s.calls[c] == Finished(req, 0, Recorded) && |s.rows| == 1 && s.rows[0].author == c
      && (Chain(env, ListByTenant(db, s.rows, req.tenant)) <==> Collide(env, Hashed(s, s.rows[0]), FromRow(s.rows[0])))
  {
    var es := Alone(c, req, now, id);
    AloneSucceeds(env, db, c, req, now, id);
    AcceptedIffRequestsSurvive(env, db, es, req.tenant);
    var s := Run(env, db, INITIAL, es);
    var v := Visible(db, s.rows, req.tenant);
    assert v == s.rows && v[0] == s.rows[0];
    assert !Storable(env, db, Hashed(s, v[0]));
    hide Run, Visible, Collide, ListByTenant, Chain, Storable;
    assert Survives(env, db, s, v[0]) <==> Collide(env, Hashed(s, v[0]), FromRow(v[0]));
  }

  /** An id that the column spells differently is one such input, a payload with a negative zero another. */
  lemma NegativeZeroIsReported(env: Env, db: Db, c: CallId, req: Request, key: string, now: int, id: nat)
    requires Lawful(env) && LawfulDb(db) && FieldJoin.Plain(req.tenant) && FieldJoin.Plain(req.actor)
      && req.tenant != ""
    requires db.number("-0") == "0" && env.number("-0") == "-0" && env.number("0") == "0"
    requires req.payload == Document(Object([Member(key, Number("-0"))]))
    ensures var s := Run(env, db, INITIAL, Alone(c, req, now, id));
      && c in s.calls && s.calls[c] == Finished(req, 0, Recorded) && |s.rows| == 1 && s.rows[0].author == c
      && (Chain(env, ListByTenant(db, s.rows, req.tenant)) <==> Collide(env, Hashed(s, s.rows[0]), FromRow(s.rows[0])))
  {
    NegativeZeroIsNotKept(env, db, key);
    hide *;
    HonestWriterIsReported(env, db, c, req, now, id);
  }
}
