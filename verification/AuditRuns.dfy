/** What holds after every run of concurrent Record calls. */
module AuditRuns {
  import opened Basics
  import opened Json
  import opened AuditChain
  import opened AuditLog

  // ------------------------------------------------------ the log is always numbered and linked

  lemma {:induction false} OrderedStaysPut(rows: seq<Row>)
    requires forall i, j :: 0 <= i < j < |rows| ==> rows[i].seqNo < rows[j].seqNo
    ensures OrderBySeq(rows) == rows
  {
    if |rows| > 0 {
      OrderedStaysPut(rows[..|rows| - 1]);
      assert rows == rows[..|rows| - 1] + [rows[|rows| - 1]];
    }
  }

  lemma ListedInOrder(db: Db, rows: seq<Row>, tenant: string)
    requires TenantNumbered(db, rows, tenant)
    ensures ListByTenant(db, rows, tenant) == Pointers(Visible(db, rows, tenant))
  {
    OrderedStaysPut(Visible(db, rows, tenant));
  }

  /** Any number of writers and tenants, any requests, interleaving and faults: what ListByTenant returns is
      numbered 1..n without gaps and linked from genesis. */
  lemma EveryRunIsNumbered(env: Env, db: Db, es: seq<Event>, tenant: string)
    requires TotalOrder(db.order)
    ensures var listed := ListByTenant(db, Run(env, db, INITIAL, es).rows, tenant);
      forall i :: 0 <= i < |listed| ==> listed[i].Some? && Contiguous(listed, i) && Linked(listed, i)
  {
    RunKeepsInv(env, db, es);
    var rows := Run(env, db, INITIAL, es).rows;
    assert TenantNumbered(db, rows, tenant);
    ListedInOrder(db, rows, tenant);
    NumberedLinks(Visible(db, rows, tenant));
    hide *;
  }

  lemma NumberedLinks(v: seq<Row>)
    requires Numbered(v)
    ensures forall i :: 0 <= i < |v| ==> Pointers(v)[i].Some? && Contiguous(Pointers(v), i) && Linked(Pointers(v), i)
  {
    var es := Pointers(v);
    forall i | 0 <= i < |v| ensures es[i].Some? && Contiguous(es, i) && Linked(es, i) {
      assert es[i] == Some(FromRow(v[i]));
      if i > 0 {
        assert es[i - 1] == Some(FromRow(v[i - 1]));
      }
    }
  }

  /** Rows are only ever appended. */
  lemma {:induction false} RowsOnlyGrow(env: Env, db: Db, s: State, es: seq<Event>)
    requires TotalOrder(db.order)
    ensures s.rows <= Run(env, db, s, es).rows
  {
    if |es| > 0 {
      RowsOnlyGrow(env, db, s, es[..|es| - 1]);
    }
  }

  // ----------------------------------------------------- one row for each success

  /** The entry a call hashed for a row: its request, with what the row says of time and chain. */
  function EntryOf(req: Request, r: Row): (e: Entry) {
    Entry(0, req.tenant, req.actor, req.action, req.entityType, req.entityId, req.payload, r.micros * 1000, r.seqNo,
          r.prevHash, r.chainHash, if req.severity == "" then "info" else req.severity)
  }

  /** The row is the insert of an entry made from the request, with the hash of that entry. */
  predicate Records(env: Env, db: Db, r: Row, req: Request)
    requires TotalOrder(db.order)
  {
    && !req.payload.Malformed?
    && r == ToRow(db, EntryOf(req, r), r.id, r.author)
    && SelfHashed(env, EntryOf(req, r))
  }

  predicate Wrote(k: Call) {
    k.Finished? && (k.outcome.Recorded? || k.outcome == AppendFailed(AckLost))
  }

  predicate WroteRow(rows: seq<Row>, c: CallId) {
    exists i :: 0 <= i < |rows| && rows[i].author == c
  }

  ghost predicate Authorship(env: Env, db: Db, s: State)
    requires TotalOrder(db.order)
  {
    && (forall i :: 0 <= i < |s.rows| ==>
          var r := s.rows[i];
          r.author in s.calls && Wrote(s.calls[r.author]) && Records(env, db, r, s.calls[r.author].req))
    && (forall i, j :: 0 <= i < j < |s.rows| ==> s.rows[i].author != s.rows[j].author)
    && (forall c :: c in s.calls && Wrote(s.calls[c]) ==> WroteRow(s.rows, c))
    && (forall c :: c in s.calls && s.calls[c].Appending? ==> EntryCarries(env, s.calls[c].entry, s.calls[c].req))
  }

  predicate EntryCarries(env: Env, e: Entry, req: Request) {
    && e.tenant == req.tenant && e.actor == req.actor && e.action == req.action && e.entityType == req.entityType
    && e.entityId == req.entityId && e.payload == req.payload && e.id == 0 && e.created % 1000 == 0
    && e.severity == (if req.severity == "" then "info" else req.severity)
    && SelfHashed(env, e)
  }

  lemma EntryRowRecords(env: Env, db: Db, e: Entry, req: Request, id: nat, author: CallId)
    requires TotalOrder(db.order) && EntryCarries(env, e, req) && !e.payload.Malformed?
    ensures Records(env, db, ToRow(db, e, id, author), req)
  {
    assert EntryOf(req, ToRow(db, e, id, author)) == e;
    hide SelfHashed;
  }

  lemma QuietStepWritesNothing(env: Env, db: Db, s: State, e: Event, c: CallId)
    requires TotalOrder(db.order) && Step(env, db, s, e).rows == s.rows
    ensures var s' := Step(env, db, s, e);
      && (c in s.calls && Wrote(s.calls[c]) ==> c in s'.calls && s'.calls[c] == s.calls[c])
      && (c in s'.calls && Wrote(s'.calls[c]) ==> c in s.calls && s'.calls[c] == s.calls[c])
  {
    assert |Step(env, db, s, e).rows| == |s.rows|;
  }

  lemma LinkedCarries(env: Env, req: Request, tail: Option<Tail>, now: int)
    ensures var entry := LinkedEntry(env, req, tail, now); entry.Some? ==> EntryCarries(env, entry.value, req)
  {
  }

  lemma StepLinksWhatWasAsked(env: Env, db: Db, s: State, e: Event, c: CallId)
    requires TotalOrder(db.order)
    requires c in Step(env, db, s, e).calls && Step(env, db, s, e).calls[c].Appending?
    requires c in s.calls && s.calls[c].Appending? ==> EntryCarries(env, s.calls[c].entry, s.calls[c].req)
    ensures var k := Step(env, db, s, e).calls[c]; EntryCarries(env, k.entry, k.req)
  {
    if e.Link? && c == e.call && c in s.calls && s.calls[c].Linking? {
      LinkedCarries(env, s.calls[c].req, s.calls[c].tail, e.now);
    }
    hide EntryCarries, LinkedEntry;
  }

  lemma QuietStepKeepsAuthorship(env: Env, db: Db, s: State, e: Event)
    requires TotalOrder(db.order) && Authorship(env, db, s) && Step(env, db, s, e).rows == s.rows
    ensures Authorship(env, db, Step(env, db, s, e))
  {
    var s' := Step(env, db, s, e);
    forall c ensures c in s.calls && Wrote(s.calls[c]) ==> c in s'.calls && s'.calls[c] == s.calls[c]
             ensures c in s'.calls && Wrote(s'.calls[c]) ==> c in s.calls && s'.calls[c] == s.calls[c]
    {
      QuietStepWritesNothing(env, db, s, e, c);
    }
    forall c | c in s'.calls && s'.calls[c].Appending? ensures EntryCarries(env, s'.calls[c].entry, s'.calls[c].req) {
      StepLinksWhatWasAsked(env, db, s, e, c);
    }
    hide Step, EntryCarries, Records, Wrote;
  }

  /** One more row, by a call that is finished with it. */
  lemma AppendKeepsAuthorship(env: Env, db: Db, s: State, e: Event)
    requires TotalOrder(db.order) && Authorship(env, db, s) && Step(env, db, s, e).rows != s.rows
    ensures Authorship(env, db, Step(env, db, s, e))
  {
    AppendShape(env, db, s, e);
    var k := s.calls[e.call];
    var r := ToRow(db, k.entry, e.id, e.call);
    EntryRowRecords(env, db, k.entry, k.req, e.id, e.call);
    GrownAuthorship(env, db, s, r, Step(env, db, s, e).calls[e.call]);
    hide *;
  }

  lemma GrownAuthorship(env: Env, db: Db, s: State, r: Row, k: Call)
    requires TotalOrder(db.order) && Authorship(env, db, s) && Records(env, db, r, k.req)
    requires r.author in s.calls && !Wrote(s.calls[r.author]) && Wrote(k)
    ensures Authorship(env, db, State(s.rows + [r], s.calls[r.author := k], s.clock))
  {
    hide Records, EntryCarries;
    var s' := State(s.rows + [r], s.calls[r.author := k], s.clock);
    assert s'.rows[|s.rows|].author == r.author;
    forall c | c in s'.calls && Wrote(s'.calls[c]) ensures WroteRow(s'.rows, c) {
      if c != r.author {
        var i :| 0 <= i < |s.rows| && s.rows[i].author == c;
        assert s'.rows[i].author == c;
      }
    }
  }

  lemma {:induction false} RunKeepsAuthorship(env: Env, db: Db, es: seq<Event>)
    requires TotalOrder(db.order)
    ensures Authorship(env, db, Run(env, db, INITIAL, es))
  {
    if |es| > 0 {
      RunKeepsAuthorship(env, db, es[..|es| - 1]);
      var s, e := Run(env, db, INITIAL, es[..|es| - 1]), es[|es| - 1];
      if Step(env, db, s, e).rows == s.rows {
        QuietStepKeepsAuthorship(env, db, s, e);
      } else {
        AppendKeepsAuthorship(env, db, s, e);
      }
    }
  }

  /** The columns that come from the request: the ids as the uuid column spells them, NULL for empty, "info" for no
      severity, the payload as jsonb stores it. */
  predicate Columns(db: Db, r: Row, req: Request)
    requires TotalOrder(db.order)
  {
    && r.tenant == db.uuid(req.tenant)
    && r.actor == (if req.actor == "" then None else Some(db.uuid(req.actor)))
    && r.action == req.action && r.entityType == req.entityType
    && r.entityId == (if req.entityId == "" then None else Some(req.entityId))
    && r.severity == (if req.severity == "" then "info" else req.severity)
    && match req.payload
       case Empty => r.payload == None
       case Document(doc) => r.payload == Some(Stored(db.order, db.number, doc))
       case Malformed => false
  }

  lemma RecordedColumns(env: Env, db: Db, r: Row, req: Request)
    requires TotalOrder(db.order) && Records(env, db, r, req)
    ensures Columns(db, r, req)
  {
    hide SelfHashed, TotalOrder;
  }

  /** A call that returned success has exactly one row, made from its request; a call that failed or is
      still running has none, except when only the commit acknowledgement was lost. */
  lemma OneRowPerSuccess(env: Env, db: Db, es: seq<Event>, c: CallId)
    requires TotalOrder(db.order) && c in Run(env, db, INITIAL, es).calls
    ensures var s := Run(env, db, INITIAL, es);
      && (WroteRow(s.rows, c) <==> Wrote(s.calls[c]))
      && (forall i, j :: 0 <= i < |s.rows| && 0 <= j < |s.rows| && s.rows[i].author == c == s.rows[j].author ==> i == j)
      && (forall i :: 0 <= i < |s.rows| && s.rows[i].author == c ==>
            Columns(db, s.rows[i], s.calls[c].req) && Records(env, db, s.rows[i], s.calls[c].req))
  {
    RunKeepsAuthorship(env, db, es);
    var s := Run(env, db, INITIAL, es);
    forall i | 0 <= i < |s.rows| && s.rows[i].author == c
      ensures Columns(db, s.rows[i], s.calls[c].req) && Records(env, db, s.rows[i], s.calls[c].req)
    {
      RecordedColumns(env, db, s.rows[i], s.calls[c].req);
    }
    hide Columns, Records, Run;
  }

  /** What a successful call recorded is in its tenant's list, with its action, entity and severity. */
  lemma SuccessIsListed(env: Env, db: Db, es: seq<Event>, c: CallId)
    requires TotalOrder(db.order)
    requires var s := Run(env, db, INITIAL, es);
      c in s.calls && s.calls[c].Finished? && s.calls[c].outcome.Recorded?
    ensures var s := Run(env, db, INITIAL, es); var req := s.calls[c].req;
      exists e :: Some(e) in ListByTenant(db, s.rows, req.tenant)
        && e.tenant == db.uuid(req.tenant) && e.actor == (if req.actor == "" then "" else db.uuid(req.actor))
        && e.action == req.action && e.entityType == req.entityType && e.entityId == req.entityId
        && e.severity == (if req.severity == "" then "info" else req.severity)
  {
    RunKeepsInv(env, db, es);
    OneRowPerSuccess(env, db, es, c);
    var s := Run(env, db, INITIAL, es);
    var req := s.calls[c].req;
    assert WroteRow(s.rows, c) && TenantNumbered(db, s.rows, req.tenant);
    hide Run, Records, Columns, TenantNumbered, Inv, TotalOrder;
    var i :| 0 <= i < |s.rows| && s.rows[i].author == c;
    ListedRow(db, s.rows, req, i);
  }

  lemma ListedRow(db: Db, rows: seq<Row>, req: Request, i: nat)
    requires TotalOrder(db.order) && TenantNumbered(db, rows, req.tenant) && i < |rows| && Columns(db, rows[i], req)
    ensures var e := FromRow(rows[i]);
      && Some(e) in ListByTenant(db, rows, req.tenant)
      && e.tenant == db.uuid(req.tenant) && e.actor == (if req.actor == "" then "" else db.uuid(req.actor))
      && e.action == req.action && e.entityType == req.entityType && e.entityId == req.entityId
      && e.severity == (if req.severity == "" then "info" else req.severity)
  {
    ListedInOrder(db, rows, req.tenant);
    VisibleAreRows(db, rows, req.tenant, rows[i]);
    var v := Visible(db, rows, req.tenant);
    hide Visible, ListByTenant, TenantNumbered, TotalOrder;
    var k :| 0 <= k < |v| && v[k] == rows[i];
    assert Pointers(v)[k] == Some(FromRow(v[k]));
  }

  // ----------------------------------------------------- how a row and an outcome came about

  /** The event that ends a call with this outcome. */
  predicate Explains(e: Event, req: Request, outcome: Outcome) {
    match outcome
    case Recorded => e.Append? && e.fault.Healthy?
    case TenantRequired => e.Begin? && e.req == req && req.tenant == ""
    case TailFailed => e.ReadTail? && !e.healthy
    case BadPayload => e.Link? && req.payload.Malformed?
    case AppendFailed(fault) => e.Append? && e.fault == fault && !fault.Healthy?
    case Conflict => e.Append? && !e.fault.Lost?
  }

  lemma StepExplains(env: Env, db: Db, s: State, e: Event, c: CallId)
    requires TotalOrder(db.order) && c in Step(env, db, s, e).calls && Step(env, db, s, e).calls[c].Finished?
    requires c !in s.calls || !s.calls[c].Finished?
    ensures e.call == c && Explains(e, Step(env, db, s, e).calls[c].req, Step(env, db, s, e).calls[c].outcome)
  {
  }

  /** Every outcome has its reason: a success is an acknowledged append, a failed append is the one that failed, and a
      payload is called bad only if it is. */
  lemma {:induction false} FinishedForAReason(env: Env, db: Db, s: State, es: seq<Event>, c: CallId)
    requires TotalOrder(db.order) && c !in s.calls
    requires c in Run(env, db, s, es).calls && Run(env, db, s, es).calls[c].Finished?
    ensures var k := Run(env, db, s, es).calls[c];
      exists i :: 0 <= i < |es| && es[i].call == c && Explains(es[i], k.req, k.outcome)
  {
    var n := |es| - 1;
    var before := Run(env, db, s, es[..n]);
    if c in before.calls && before.calls[c].Finished? {
      FinishedForAReason(env, db, s, es[..n], c);
      FinishedStays(env, db, before, es[n], c);
    } else {
      StepExplains(env, db, before, es[n], c);
    }
    hide Step, Explains;
  }

  lemma FinishedStays(env: Env, db: Db, s: State, e: Event, c: CallId)
    requires TotalOrder(db.order) && c in s.calls && s.calls[c].Finished?
    ensures c in Step(env, db, s, e).calls && Step(env, db, s, e).calls[c] == s.calls[c]
  {
  }

  /** Event i of the run is the clock reading of the row's call, event k the append that wrote the row. */
  predicate WrittenBy(es: seq<Event>, r: Row, i: int, k: int) {
    && 0 <= i < k < |es| && es[i].Link? && es[i].call == r.author && r.micros == es[i].now / 1000
    && es[k].Append? && es[k].call == r.author && es[k].id == r.id && TookEffect(es[k].fault)
  }

  /** The entry of a call that is about to append has the time its call read. */
  predicate ReadAt(es: seq<Event>, c: CallId, e: Entry, i: int) {
    0 <= i < |es| && es[i].Link? && es[i].call == c && e.created == Truncate(es[i].now)
  }

  lemma {:induction false} AppendingReadTheClock(env: Env, db: Db, es: seq<Event>, c: CallId)
    requires TotalOrder(db.order)
    requires c in Run(env, db, INITIAL, es).calls && Run(env, db, INITIAL, es).calls[c].Appending?
    ensures exists i :: ReadAt(es, c, Run(env, db, INITIAL, es).calls[c].entry, i)
  {
    var n := |es| - 1;
    var before := Run(env, db, INITIAL, es[..n]);
    var after := Step(env, db, before, es[n]);
    if c in before.calls && before.calls[c] == after.calls[c] {
      AppendingReadTheClock(env, db, es[..n], c);
      var i :| ReadAt(es[..n], c, before.calls[c].entry, i);
      assert ReadAt(es, c, after.calls[c].entry, i);
    } else {
      LinkedNow(env, db, before, es[n], c);
      assert ReadAt(es, c, after.calls[c].entry, n);
    }
  }

  lemma LinkedNow(env: Env, db: Db, s: State, e: Event, c: CallId)
    requires TotalOrder(db.order) && c in Step(env, db, s, e).calls && Step(env, db, s, e).calls[c].Appending?
    requires c !in s.calls || s.calls[c] != Step(env, db, s, e).calls[c]
    ensures e.Link? && e.call == c && Step(env, db, s, e).calls[c].entry.created == Truncate(e.now)
  {
  }

  /** Every row was written by an append of its own call, under the id drawn there, and carries the time that call
      had read before, to the microsecond. */
  lemma {:induction false} RowsAreWritten(env: Env, db: Db, es: seq<Event>, j: nat)
    requires TotalOrder(db.order) && j < |Run(env, db, INITIAL, es).rows|
    ensures exists i, k :: WrittenBy(es, Run(env, db, INITIAL, es).rows[j], i, k)
  {
    if |es| > 0 {
      var n := |es| - 1;
      var s := Run(env, db, INITIAL, es[..n]);
      var rows := Step(env, db, s, es[n]).rows;
      if j < |s.rows| {
        RowsAreWritten(env, db, es[..n], j);
        var i, k :| WrittenBy(es[..n], s.rows[j], i, k);
        assert rows[j] == s.rows[j];
        assert WrittenBy(es, rows[j], i, k);
      } else {
        AppendShape(env, db, s, es[n]);
        AppendingReadTheClock(env, db, es[..n], es[n].call);
        var e := s.calls[es[n].call].entry;
        var i :| ReadAt(es[..n], es[n].call, e, i);
        TruncateMicros(es[i].now);
        assert rows[j] == ToRow(db, e, es[n].id, es[n].call);
        AppendedTookEffect(env, db, s, es[n]);
        hide Step, Run;
        assert WrittenBy(es, rows[j], i, n);
      }
    }
  }

  lemma AppendedTookEffect(env: Env, db: Db, s: State, e: Event)
    requires TotalOrder(db.order) && Step(env, db, s, e).rows != s.rows
    ensures e.Append? && TookEffect(e.fault)
  {
  }

  lemma TruncateMicros(t: int)
    ensures Truncate(t) / 1000 == t / 1000
  {
  }

  // --------------------------------------------------- a conflict means progress

  lemma {:induction false} VisibleAuthorsDistinct(db: Db, rows: seq<Row>, tenant: string)
    requires forall i, j :: 0 <= i < j < |rows| ==> rows[i].author != rows[j].author
    ensures var v := Visible(db, rows, tenant);
      forall i, j :: 0 <= i < j < |v| ==> v[i].author != v[j].author
  {
    if |rows| > 0 {
      var front := rows[..|rows| - 1];
      VisibleAuthorsDistinct(db, front, tenant);
      var v := Visible(db, front, tenant);
      forall i | 0 <= i < |v| ensures v[i].author != rows[|rows| - 1].author {
        VisibleAreRows(db, front, tenant, v[i]);
      }
    }
  }

  /** A Record that gives up with the conflict error began when the tenant had `since` rows; by the time
      it ends, two rows beyond those exist, written by two different other calls. */
  lemma ConflictMeansTwoOthersCommitted(env: Env, db: Db, es: seq<Event>, c: CallId)
    requires TotalOrder(db.order)
    requires var s := Run(env, db, INITIAL, es); c in s.calls && s.calls[c].Finished? && s.calls[c].outcome.Conflict?
    ensures var s := Run(env, db, INITIAL, es);
      var v := Visible(db, s.rows, s.calls[c].req.tenant);
      var since := s.calls[c].since;
      && since + 2 <= |v|
      && v[since].author != v[since + 1].author && v[since].author != c && v[since + 1].author != c
  {
    RunKeepsInv(env, db, es);
    RunKeepsAuthorship(env, db, es);
    var s := Run(env, db, INITIAL, es);
    assert CallOk(db, s.rows, s.calls[c]);
    var tenant := s.calls[c].req.tenant;
    var v := Visible(db, s.rows, tenant);
    VisibleAuthorsDistinct(db, s.rows, tenant);
    var since := s.calls[c].since;
    VisibleAreRows(db, s.rows, tenant, v[since]);
    VisibleAreRows(db, s.rows, tenant, v[since + 1]);
  }

  /** The calls of a tenant that are over. */
  function Finishers(db: Db, s: State, tenant: string): (calls: set<CallId>) {
    set c | c in s.calls && s.calls[c].Finished? && db.uuid(s.calls[c].req.tenant) == db.uuid(tenant)
  }

  /** Some writer makes progress: if all calls of a tenant that are over belong to a set and one of them gave up
      with the conflict error, two others of the set have written a row. */
  lemma ConflictMeansProgress(env: Env, db: Db, es: seq<Event>, c: CallId, calls: set<CallId>)
    requires TotalOrder(db.order)
    requires var s := Run(env, db, INITIAL, es);
      && c in s.calls && s.calls[c].Finished? && s.calls[c].outcome.Conflict?
      && Finishers(db, s, s.calls[c].req.tenant) <= calls
    ensures var s := Run(env, db, INITIAL, es);
      exists d, e :: d in calls && e in calls && d in s.calls && e in s.calls && d != e && d != c && e != c
        && Wrote(s.calls[d]) && Wrote(s.calls[e])
  {
    RunKeepsAuthorship(env, db, es);
    ConflictMeansTwoOthersCommitted(env, db, es, c);
    var s := Run(env, db, INITIAL, es);
    var v := Visible(db, s.rows, s.calls[c].req.tenant);
    var since := s.calls[c].since;
    VisibleAreRows(db, s.rows, s.calls[c].req.tenant, v[since]);
    VisibleAreRows(db, s.rows, s.calls[c].req.tenant, v[since + 1]);
    hide Run, Visible;
    var d, e := v[since].author, v[since + 1].author;
    assert Wrote(s.calls[d]) && Wrote(s.calls[e]);
    assert d in Finishers(db, s, s.calls[c].req.tenant) && e in Finishers(db, s, s.calls[c].req.tenant);
  }

  /** Event b began call c, and k.since is the number of rows its tenant had then. */
  ghost predicate BeganAt(env: Env, db: Db, es: seq<Event>, c: CallId, k: Call, b: int)
    requires TotalOrder(db.order)
  {
    && 0 <= b < |es| && es[b] == Begin(c, k.req)
    && c !in Run(env, db, INITIAL, es[..b]).calls
    && (k.req.tenant != "" ==> k.since == |Visible(db, Run(env, db, INITIAL, es[..b]).rows, k.req.tenant)|)
  }

  lemma StepKeepsSince(env: Env, db: Db, s: State, e: Event, c: CallId)
    requires TotalOrder(db.order) && c in s.calls
    ensures var s' := Step(env, db, s, e);
      c in s'.calls && s'.calls[c].since == s.calls[c].since && s'.calls[c].req == s.calls[c].req
  {
  }

  /** `since` really is the tenant's row count at the event that began the call. */
  lemma {:induction false} SinceIsTheCountAtBegin(env: Env, db: Db, es: seq<Event>, c: CallId)
    requires TotalOrder(db.order) && c in Run(env, db, INITIAL, es).calls
    ensures exists b :: BeganAt(env, db, es, c, Run(env, db, INITIAL, es).calls[c], b)
  {
    var n := |es| - 1;
    var before := Run(env, db, INITIAL, es[..n]);
    if c in before.calls {
      SinceIsTheCountAtBegin(env, db, es[..n], c);
      StepKeepsSince(env, db, before, es[n], c);
      var b :| BeganAt(env, db, es[..n], c, before.calls[c], b);
      assert es[..n][..b] == es[..b];
      assert BeganAt(env, db, es, c, Run(env, db, INITIAL, es).calls[c], b);
    } else {
      assert BeganAt(env, db, es, c, Run(env, db, INITIAL, es).calls[c], n);
    }
  }

  // ------------------------------------------------ time order under a monotone clock

  /** Every clock reading is at least the one before it. */
  ghost predicate MonotoneClock(env: Env, db: Db, es: seq<Event>)
    requires TotalOrder(db.order)
  {
    forall i :: 0 <= i < |es| && es[i].Link? ==> Run(env, db, INITIAL, es[..i]).clock <= es[i].now
  }

  ghost predicate RowsBefore(rows: seq<Row>, time: int) {
    forall i :: 0 <= i < |rows| ==> rows[i].micros * 1000 <= time
  }

  ghost predicate TimeOrdered(rows: seq<Row>) {
    forall i, j :: 0 <= i < j < |rows| ==> rows[i].micros <= rows[j].micros
  }

  ghost predicate TimeOk(db: Db, s: State, k: Call) {
    k.Appending? ==>
      var v := Visible(db, s.rows, k.req.tenant);
      && 1 <= k.entry.seqNo <= |v| + 1
      && RowsBefore(v[..k.entry.seqNo - 1], k.entry.created)
      && k.entry.created <= s.clock
  }

  ghost predicate TimeInv(db: Db, s: State) {
    && RowsBefore(s.rows, s.clock)
    && (forall t :: TimeOrdered(Visible(db, s.rows, t)))
    && (forall c :: c in s.calls ==> TimeOk(db, s, s.calls[c]))
  }

  lemma VisibleBefore(db: Db, rows: seq<Row>, tenant: string, time: int)
    requires RowsBefore(rows, time)
    ensures RowsBefore(Visible(db, rows, tenant), time)
  {
    var v := Visible(db, rows, tenant);
    forall i | 0 <= i < |v| ensures v[i].micros * 1000 <= time {
      VisibleAreRows(db, rows, tenant, v[i]);
    }
  }

  /** Rows stamped on the microsecond grid lie before the truncation of any later time. */
  lemma BeforeTruncate(rows: seq<Row>, time: int)
    requires RowsBefore(rows, time)
    ensures RowsBefore(rows, Truncate(time))
  {
    forall i | 0 <= i < |rows| ensures rows[i].micros * 1000 <= Truncate(time) {
      assert Truncate(time) == time / 1000 * 1000;
    }
  }

  lemma LinkKeepsTime(env: Env, db: Db, s: State, e: Event)
    requires TotalOrder(db.order) && Inv(db, s) && TimeInv(db, s)
    requires e.Link? && s.clock <= e.now
    ensures TimeInv(db, Step(env, db, s, e))
  {
    var s' := Step(env, db, s, e);
    if s' != s {
      var k := s.calls[e.call];
      assert CallOk(db, s.rows, k);
      VisibleBefore(db, s.rows, k.req.tenant, e.now);
      BeforeTruncate(Visible(db, s.rows, k.req.tenant), e.now);
      assert TimeOk(db, s', s'.calls[e.call]);
      forall c | c in s'.calls ensures TimeOk(db, s', s'.calls[c]) {
        assert c != e.call ==> TimeOk(db, s, s.calls[c]);
      }
    }
  }

  /** The appended row is stamped no earlier than every row its tenant already has. */
  lemma AppendKeepsTimeOrder(env: Env, db: Db, s: State, k: Call, id: nat, author: CallId, t: string)
    requires TotalOrder(db.order) && TimeOrdered(Visible(db, s.rows, t)) && TimeOk(db, s, k)
    requires k.Appending? && !k.entry.payload.Malformed? && CallOk(db, s.rows, k)
      && TenantNumbered(db, s.rows, k.req.tenant)
    requires !Taken(db, s.rows, k.entry.tenant, k.entry.seqNo)
    ensures TimeOrdered(Visible(db, s.rows + [ToRow(db, k.entry, id, author)], t))
  {
    var r := ToRow(db, k.entry, id, author);
    var v := Visible(db, s.rows, t);
    VisibleAppend(db, s.rows, r, t);
    if r.tenant == db.uuid(t) {
      SameTenantSameRows(db, s.rows, t, k.req.tenant);
      TakenIffStale(db, s.rows, k.req.tenant, k.entry.seqNo);
      assert v[..k.entry.seqNo - 1] == v;
      assert r.micros * 1000 == k.entry.created;
    } else {
      assert v + [] == v;
    }
  }

  lemma TimeOkAfterAppend(db: Db, s: State, s': State, r: Row, k: Call)
    requires TimeOk(db, s, k) && s'.rows == s.rows + [r] && s'.clock == s.clock
    ensures TimeOk(db, s', k)
  {
    if k.Appending? {
      VisibleAppend(db, s.rows, r, k.req.tenant);
      var v, v' := Visible(db, s.rows, k.req.tenant), Visible(db, s'.rows, k.req.tenant);
      assert v'[..k.entry.seqNo - 1] == v[..k.entry.seqNo - 1];
    }
  }

  lemma AppendKeepsTime(env: Env, db: Db, s: State, e: Event)
    requires TotalOrder(db.order) && Inv(db, s) && TimeInv(db, s)
    requires Step(env, db, s, e).rows != s.rows
    ensures TimeInv(db, Step(env, db, s, e))
  {
    AppendShape(env, db, s, e);
    hide Step;
    var s' := Step(env, db, s, e);
    var k := s.calls[e.call];
    var r := ToRow(db, k.entry, e.id, e.call);
    assert s'.rows == s.rows + [r] && !Taken(db, s.rows, k.entry.tenant, k.entry.seqNo);
    assert CallOk(db, s.rows, k) && TimeOk(db, s, k);
    assert RowsBefore(s'.rows, s'.clock);
    forall t ensures TimeOrdered(Visible(db, s'.rows, t)) {
      assert TenantNumbered(db, s.rows, k.req.tenant);
      AppendKeepsTimeOrder(env, db, s, k, e.id, e.call, t);
    }
    forall c | c in s'.calls && s'.calls[c].Appending? ensures TimeOk(db, s', s'.calls[c]) {
      assert s'.calls[c] == s.calls[c];
      TimeOkAfterAppend(db, s, s', r, s.calls[c]);
    }
  }

  lemma OnlyLinkMakesAppending(env: Env, db: Db, s: State, e: Event, c: CallId)
    requires TotalOrder(db.order) && !e.Link?
    requires c in Step(env, db, s, e).calls && Step(env, db, s, e).calls[c].Appending?
    ensures c in s.calls && s.calls[c] == Step(env, db, s, e).calls[c]
  {
  }

  lemma StepKeepsTime(env: Env, db: Db, s: State, e: Event)
    requires TotalOrder(db.order) && Inv(db, s) && TimeInv(db, s)
    requires e.Link? ==> s.clock <= e.now
    ensures TimeInv(db, Step(env, db, s, e))
  {
    var s' := Step(env, db, s, e);
    if s'.rows != s.rows {
      AppendKeepsTime(env, db, s, e);
    } else if e.Link? {
      LinkKeepsTime(env, db, s, e);
    } else {
      forall c | c in s'.calls && s'.calls[c].Appending? ensures TimeOk(db, s', s'.calls[c]) {
        OnlyLinkMakesAppending(env, db, s, e, c);
        assert TimeOk(db, s, s.calls[c]);
      }
    }
  }

  lemma {:induction false} RunKeepsTime(env: Env, db: Db, es: seq<Event>)
    requires TotalOrder(db.order) && MonotoneClock(env, db, es)
    ensures TimeInv(db, Run(env, db, INITIAL, es))
  {
    if |es| == 0 {
      assert forall t :: Visible(db, [], t) == [];
    } else {
      var n := |es| - 1;
      forall i | 0 <= i < n && es[..n][i].Link? ensures Run(env, db, INITIAL, es[..n][..i]).clock <= es[..n][i].now {
        assert es[..n][..i] == es[..i];
      }
      hide Step, TimeInv, Inv, TotalOrder;
      RunKeepsTime(env, db, es[..n]);
      RunKeepsInv(env, db, es[..n]);
      StepKeepsTime(env, db, Run(env, db, INITIAL, es[..n]), es[n]);
    }
  }

  /** Under a monotone clock created_at never decreases along a tenant's chain: the clock is read
      after the tail, and a writer whose tail went stale loses on the unique number. */
  lemma CreatedFollowsSeq(env: Env, db: Db, es: seq<Event>, tenant: string)
    requires TotalOrder(db.order) && MonotoneClock(env, db, es)
    ensures var listed := ListByTenant(db, Run(env, db, INITIAL, es).rows, tenant);
      forall i, j :: 0 <= i < j < |listed| ==>
        listed[i].Some? && listed[j].Some? && listed[i].value.created <= listed[j].value.created
  {
    RunKeepsTime(env, db, es);
    RunKeepsInv(env, db, es);
    var rows := Run(env, db, INITIAL, es).rows;
    assert TenantNumbered(db, rows, tenant);
    ListedInOrder(db, rows, tenant);
    assert TimeOrdered(Visible(db, rows, tenant));
  }
}
