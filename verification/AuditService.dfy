/**
 * The repository and the service as objects. Other goroutines and processes move between
 * any two statements of Record: a turn says which of their events happen there, how the
 * database answers and what the clock shows. Record is proved to be a run of the machine.
 */
module AuditService {
  import opened Basics
  import opened Json
  import opened AuditChain
  import opened AuditLog
  import opened AuditRuns

  datatype AppendResult = Appended | AppendConflict | AppendError(fault: Fault)

  /** app.audit_log, with the progress of every Record call that shares it. */
  class AuditRepo {
    const env: Env
    const db: Db
    var rows: seq<Row>
    var calls: map<CallId, Call>
    var clock: int

    constructor (env: Env, db: Db)
      ensures this.env == env && this.db == db && World() == INITIAL
    {
      this.env, this.db := env, db;
      rows, calls, clock := [], map[], 0;
    }

    function World(): (s: State)
      reads this
    {
      State(rows, calls, clock)
    }

    /** Everybody else: any events of other calls. */
    method Others(es: seq<Event>)
      requires TotalOrder(db.order)
      modifies this
      ensures World() == Run(env, db, old(World()), es)
    {
      for i := 0 to |es|
        invariant World() == Run(env, db, old(World()), es[..i])
      {
        var s := Step(env, db, World(), es[i]);
        rows, calls, clock := s.rows, s.calls, s.clock;
        assert es[..i + 1][..i] == es[..i];
      }
      assert es[..|es|] == es;
    }

    /** The row of the tenant with the largest seq, or no row of the tenant; `TailOf` is the machine's name for it. */
    method Tail(tenant: string, healthy: bool) returns (ok: bool, tail: Option<Tail>)
      ensures ok <==> healthy
      ensures ok && tail.None? ==> forall r :: r in rows ==> r.tenant != db.uuid(tenant)
      ensures ok && tail.Some? ==>
        && (exists r :: r in rows && r.tenant == db.uuid(tenant) && tail.value == AuditLog.Tail(r.seqNo, r.chainHash))
        && (forall r :: r in rows && r.tenant == db.uuid(tenant) ==> r.seqNo <= tail.value.seqNo)
      ensures ok ==> tail == TailOf(db, rows, tenant)
    {
      ok, tail := healthy, None;
      if healthy {
        TailIsNewest(db, rows, tenant);
        tail := TailOf(db, rows, tenant);
      }
    }

    method Append(entry: Entry, id: nat, author: CallId, fault: Fault) returns (r: AppendResult)
      requires TotalOrder(db.order) && !entry.payload.Malformed?
      modifies this`rows
      ensures fault.Lost? ==> r == AppendError(Lost) && rows == old(rows)
      ensures !fault.Lost? && Taken(db, old(rows), entry.tenant, entry.seqNo) ==>
        r == AppendConflict && rows == old(rows)
      ensures !fault.Lost? && !Taken(db, old(rows), entry.tenant, entry.seqNo) ==>
        r == (if fault.AckLost? then AppendError(AckLost) else Appended) &&
        rows == old(rows) + [ToRow(db, entry, id, author)]
      ensures rows != old(rows) ==>
        var r := rows[|rows| - 1];
        && r.id == id && r.author == author && r.tenant == db.uuid(entry.tenant) && r.action == entry.action
        && r.actor == (if entry.actor == "" then None else Some(db.uuid(entry.actor)))
        && r.entityType == entry.entityType
        && r.entityId == (if entry.entityId == "" then None else Some(entry.entityId))
        && r.micros == entry.created / 1000 && r.seqNo == entry.seqNo && r.severity == entry.severity
        && r.prevHash == entry.prevHash && r.chainHash == entry.chainHash
        && r.payload == if entry.payload.Empty? then None else Some(Stored(db.order, db.number, entry.payload.doc))
    {
      if fault.Lost? {
        return AppendError(Lost);
      }
      if Taken(db, rows, entry.tenant, entry.seqNo) {
        return AppendConflict;
      }
      rows := rows + [ToRow(db, entry, id, author)];
      return if fault.AckLost? then AppendError(AckLost) else Appended;
    }

    /** `failsAt` is the row before which the query, a scan or the commit fails, if one does. */
    method ListByTenant(tenant: string, failsAt: Option<nat>) returns (ok: bool, entries: seq<Option<Entry>>)
      ensures ok <==> failsAt.None?
      ensures entries == if ok then AuditLog.ListByTenant(db, rows, tenant) else []
    {
      var result := OrderBySeq(Visible(db, rows, tenant));
      entries := [];
      for i := 0 to |result|
        invariant entries == Pointers(result[..i])
      {
        if failsAt == Some(i) {
          return false, [];
        }
        entries := entries + [Some(FromRow(result[i]))];
      }
      assert result[..|result|] == result;
      ok := failsAt.None?;
      if !ok {
        entries := [];
      }
    }
  }

  datatype Verdict = TenantMissing | ListFailed | Checked(broken: int, err: Option<VerifyError>)

  /** What happens around one attempt of Record. */
  datatype Turn = Turn(beforeTail: seq<Event>, tailHealthy: bool, beforeLink: seq<Event>, now: int,
                       beforeAppend: seq<Event>, id: nat, fault: Fault)

  predicate Foreign(es: seq<Event>, c: CallId) {
    forall i :: 0 <= i < |es| ==> es[i].call != c
  }

  predicate ForeignTurn(t: Turn, c: CallId) {
    Foreign(t.beforeTail, c) && Foreign(t.beforeLink, c) && Foreign(t.beforeAppend, c)
  }

  /** What happens in one attempt, from its start to its append. */
  function Story(c: CallId, t: Turn): (es: seq<Event>) {
    t.beforeTail + [ReadTail(c, t.tailHealthy)] + t.beforeLink + [Link(c, t.now)]
    + t.beforeAppend + [Append(c, t.id, t.fault)]
  }

  lemma StoryParts(c: CallId, t: Turn)
    ensures var p1 := t.beforeTail + [ReadTail(c, t.tailHealthy)];
      var p3 := p1 + t.beforeLink + [Link(c, t.now)];
      p1 <= Story(c, t) && p3 <= Story(c, t) && p3 + t.beforeAppend + [Append(c, t.id, t.fault)] == Story(c, t)
  {
  }

  lemma Regroup(a: seq<Event>, b: seq<Event>, d: seq<Event>)
    ensures a + b + d == a + (b + d) && (a + (b + d))[|a|..] == b + d
  {
  }

  lemma {:induction false} RunConcat(env: Env, db: Db, s: State, a: seq<Event>, b: seq<Event>)
    requires TotalOrder(db.order)
    ensures Run(env, db, s, a + b) == Run(env, db, Run(env, db, s, a), b)
  {
    if |b| == 0 {
      assert a + b == a;
    } else {
      RunConcat(env, db, s, a, b[..|b| - 1]);
      assert (a + b)[..|a + b| - 1] == a + b[..|b| - 1];
    }
  }

  lemma RunSnoc(env: Env, db: Db, s: State, a: seq<Event>, e: Event)
    requires TotalOrder(db.order)
    ensures Run(env, db, s, a + [e]) == Step(env, db, Run(env, db, s, a), e)
  {
    assert (a + [e])[..|a|] == a;
  }

  /** Other calls cannot move this one. */
  lemma {:induction false} ForeignEventsKeepCall(env: Env, db: Db, s: State, es: seq<Event>, c: CallId)
    requires TotalOrder(db.order) && Foreign(es, c) && c in s.calls
    ensures var s' := Run(env, db, s, es); c in s'.calls && s'.calls[c] == s.calls[c]
  {
    if |es| > 0 {
      ForeignEventsKeepCall(env, db, s, es[..|es| - 1], c);
    }
  }

  class AuditService {
    const repo: AuditRepo

    constructor (repo: AuditRepo)
      ensures this.repo == repo
    {
      this.repo := repo;
    }

    /** Record: two attempts, re-reading the tail after a conflict. The whole call, with
        everything others do meanwhile, is one run of the machine: it follows the two stories and stops
        where the call is finished, by an event of its own that explains the outcome. */
    method Record(c: CallId, req: Request, first: Turn, second: Turn)
        returns (outcome: Outcome, ghost trace: seq<Event>)
      requires TotalOrder(repo.db.order) && c !in repo.calls
      requires ForeignTurn(first, c) && ForeignTurn(second, c)
      modifies repo
      ensures repo.World() == Run(repo.env, repo.db, old(repo.World()), [Begin(c, req)] + trace)
      ensures trace <= Story(c, first) + Story(c, second)
      ensures c in repo.calls && repo.calls[c].Finished? && repo.calls[c].outcome == outcome && repo.calls[c].req == req
      ensures var es := [Begin(c, req)] + trace;
        exists i :: 0 <= i < |es| && es[i].call == c && Explains(es[i], req, outcome)
    {
      ghost var start := Step(repo.env, repo.db, repo.World(), Begin(c, req));
      RunSnoc(repo.env, repo.db, repo.World(), [], Begin(c, req));
      assert [] + [Begin(c, req)] == [Begin(c, req)];
      trace := [];
      if req.tenant == "" {
        outcome := TenantRequired;
        repo.calls := repo.calls[c := Finished(req, 0, TenantRequired)];
      } else {
        var since := |Visible(repo.db, repo.rows, req.tenant)|;
        repo.calls := repo.calls[c := ReadingTail(req, since, 0)];
        outcome, trace := Attempts(c, req, since, first, second, start);
      }
      RunConcat(repo.env, repo.db, old(repo.World()), [Begin(c, req)], trace);
      FinishedForAReason(repo.env, repo.db, old(repo.World()), [Begin(c, req)] + trace, c);
    }

    method Attempts(c: CallId, req: Request, since: nat, first: Turn, second: Turn, ghost start: State)
      returns (outcome: Outcome, ghost trace: seq<Event>)
      requires TotalOrder(repo.db.order) && ForeignTurn(first, c) && ForeignTurn(second, c)
      requires repo.World() == start && c in repo.calls && repo.calls[c] == ReadingTail(req, since, 0)
      modifies repo
      ensures repo.World() == Run(repo.env, repo.db, start, trace)
      ensures trace <= Story(c, first) + Story(c, second)
      ensures c in repo.calls && repo.calls[c] == Finished(req, since, outcome)
    {
      trace := [];
      for attempt := 0 to 2
        invariant repo.World() == Run(repo.env, repo.db, start, trace)
        invariant c in repo.calls && attempt <= 2
        invariant trace == if attempt == 0 then [] else if attempt == 1 then Story(c, first)
                           else Story(c, first) + Story(c, second)
        invariant repo.calls[c] == if attempt < 2 then ReadingTail(req, since, attempt)
                                   else Finished(req, since, Conflict)
      {
        var retry;
        ghost var told := trace;
        retry, outcome, trace := Attempt(c, req, since, attempt, if attempt == 0 then first else second, start, trace);
        hide Story;
        assert trace == told + trace[|told|..];
        if !retry {
          return;
        }
      }
      return Conflict, trace;
    }

    /** The body of the retry loop; `retry` is its `continue`. */
    method Attempt(c: CallId, req: Request, since: nat, attempt: nat, turn: Turn, ghost start: State,
                   ghost trace: seq<Event>)
      returns (retry: bool, outcome: Outcome, ghost longer: seq<Event>)
      requires TotalOrder(repo.db.order) && ForeignTurn(turn, c) && attempt < 2
      requires c in repo.calls && repo.calls[c] == ReadingTail(req, since, attempt)
      requires repo.World() == Run(repo.env, repo.db, start, trace)
      modifies repo
      ensures repo.World() == Run(repo.env, repo.db, start, longer) && c in repo.calls
      ensures trace <= longer && longer[|trace|..] <= Story(c, turn) && (retry ==> longer[|trace|..] == Story(c, turn))
      ensures repo.calls[c] == if retry then AfterConflict(req, since, attempt) else Finished(req, since, outcome)
    {
      ghost var p1 := turn.beforeTail + [ReadTail(c, turn.tailHealthy)];
      ghost var p3 := p1 + turn.beforeLink + [Link(c, turn.now)];
      StoryParts(c, turn);
      hide Story, Run, Step, TotalOrder, TailOf, Foreign;
      var ok;
      longer := MoveOthers(c, turn.beforeTail, start, trace);
      ok, longer := ReadTheTail(c, turn.tailHealthy, start, longer);
      Regroup(trace, turn.beforeTail, [ReadTail(c, turn.tailHealthy)]);
      if !ok {
        return false, TailFailed, longer;
      }
      longer := MoveOthers(c, turn.beforeLink, start, longer);
      ok, longer := LinkTheEntry(c, turn.now, start, longer);
      Regroup(trace, p1, turn.beforeLink);
      Regroup(trace, p1 + turn.beforeLink, [Link(c, turn.now)]);
      if !ok {
        return false, BadPayload, longer;
      }
      longer := MoveOthers(c, turn.beforeAppend, start, longer);
      retry, outcome, longer := AppendLinked(c, turn.id, turn.fault, start, longer);
      Regroup(trace, p3, turn.beforeAppend);
      Regroup(trace, p3 + turn.beforeAppend, [Append(c, turn.id, turn.fault)]);
    }

    method ReadTheTail(c: CallId, healthy: bool, ghost start: State, ghost trace: seq<Event>)
      returns (ok: bool, ghost longer: seq<Event>)
      requires TotalOrder(repo.db.order)
      requires c in repo.calls && repo.calls[c].ReadingTail?
      requires repo.World() == Run(repo.env, repo.db, start, trace)
      modifies repo
      ensures longer == trace + [ReadTail(c, healthy)] && repo.World() == Run(repo.env, repo.db, start, longer)
      ensures c in repo.calls
      ensures var k := old(repo.calls[c]);
        repo.calls[c] == if ok then Linking(k.req, k.since, k.attempt, TailOf(repo.db, repo.rows, k.req.tenant))
                         else Finished(k.req, k.since, TailFailed)
    {
      var k := repo.calls[c];
      RunSnoc(repo.env, repo.db, start, trace, ReadTail(c, healthy));
      var tail;
      ok, tail := repo.Tail(k.req.tenant, healthy);
      repo.calls := repo.calls[c := if ok then Linking(k.req, k.since, k.attempt, tail)
                                     else Finished(k.req, k.since, TailFailed)];
      longer := trace + [ReadTail(c, healthy)];
    }

    method LinkTheEntry(c: CallId, now: int, ghost start: State, ghost trace: seq<Event>)
      returns (ok: bool, ghost longer: seq<Event>)
      requires TotalOrder(repo.db.order)
      requires c in repo.calls && repo.calls[c].Linking?
      requires repo.World() == Run(repo.env, repo.db, start, trace)
      modifies repo
      ensures longer == trace + [Link(c, now)] && repo.World() == Run(repo.env, repo.db, start, longer)
      ensures c in repo.calls
      ensures var k := old(repo.calls[c]);
        if ok then repo.calls[c].Appending? && repo.calls[c].req == k.req && repo.calls[c].since == k.since
                   && repo.calls[c].attempt == k.attempt && !repo.calls[c].entry.payload.Malformed?
        else repo.calls[c] == Finished(k.req, k.since, BadPayload)
    {
      var k := repo.calls[c];
      RunSnoc(repo.env, repo.db, start, trace, Link(c, now));
      var entry := LinkedEntry(repo.env, k.req, k.tail, now);
      ok := entry.Some?;
      repo.calls := repo.calls[c := if ok then Appending(k.req, k.since, k.attempt, entry.value)
                                     else Finished(k.req, k.since, BadPayload)];
      repo.clock := now;
      longer := trace + [Link(c, now)];
    }

    /** Append the linked entry and branch on the answer. */
    method AppendLinked(c: CallId, id: nat, fault: Fault, ghost start: State, ghost trace: seq<Event>)
      returns (retry: bool, outcome: Outcome, ghost longer: seq<Event>)
      requires TotalOrder(repo.db.order)
      requires c in repo.calls && repo.calls[c].Appending? && !repo.calls[c].entry.payload.Malformed?
      requires repo.World() == Run(repo.env, repo.db, start, trace)
      modifies repo
      ensures longer == trace + [Append(c, id, fault)] && repo.World() == Run(repo.env, repo.db, start, longer)
      ensures c in repo.calls
      ensures var k := old(repo.calls[c]);
        repo.calls[c] == if retry then AfterConflict(k.req, k.since, k.attempt) else Finished(k.req, k.since, outcome)
    {
      var k := repo.calls[c];
      RunSnoc(repo.env, repo.db, start, trace, Append(c, id, fault));
      var result := repo.Append(k.entry, id, c, fault);
      retry, outcome := result.AppendConflict?, Recorded;
      if result.AppendError? {
        outcome := AppendFailed(result.fault);
      }
      repo.calls := repo.calls[c := if retry then AfterConflict(k.req, k.since, k.attempt)
                                     else Finished(k.req, k.since, outcome)];
      longer := trace + [Append(c, id, fault)];
    }

    /** Let others move, keeping the account of the run. */
    method MoveOthers(c: CallId, es: seq<Event>, ghost start: State, ghost trace: seq<Event>)
        returns (ghost longer: seq<Event>)
      requires TotalOrder(repo.db.order) && Foreign(es, c) && c in repo.calls
      requires repo.World() == Run(repo.env, repo.db, start, trace)
      modifies repo
      ensures longer == trace + es && repo.World() == Run(repo.env, repo.db, start, longer)
      ensures c in repo.calls && repo.calls[c] == old(repo.calls[c])
    {
      ForeignEventsKeepCall(repo.env, repo.db, repo.World(), es, c);
      RunConcat(repo.env, repo.db, start, trace, es);
      repo.Others(es);
      longer := trace + es;
    }

    /** VerifyChain over the stored rows: the number it returns is the stored seq of the first broken row. */
    method VerifyChain(tenant: string, failsAt: Option<nat>) returns (v: Verdict)
      ensures v.TenantMissing? <==> tenant == ""
      ensures v.ListFailed? <==> tenant != "" && failsAt.Some?
      ensures v.Checked? ==>
        var listed := AuditLog.ListByTenant(repo.db, repo.rows, tenant);
        && (v.err.None? <==> Chain(repo.env, listed))
        && (v.err.None? ==> v.broken == 0)
        && (v.err.Some? ==> var p := v.err.value.position;
              FirstBroken(repo.env, listed, p) && listed[p].Some? && v.broken == listed[p].value.seqNo)
    {
      if tenant == "" {
        return TenantMissing;
      }
      var ok, entries := repo.ListByTenant(tenant, failsAt);
      if !ok {
        return ListFailed;
      }
      var broken, err := VerifyChainEntries(repo.env, entries);
      return Checked(broken, err);
    }
  }
}
