/** WithTenant as it runs, statement by statement, while other callers use the pool. */
module WithTenant {
  import opened Basics
  import opened TenantPool

  /** What one call meets: the answer of each round trip, and what others do before it. */
  datatype Plan = Plan(begins: bool, binds: bool, beforeBind: seq<Event>, body: seq<Query>, beforeEnd: seq<Event>,
                       commits: bool, end: End)

  /** One query of fn. */
  datatype Query = Query(before: seq<Event>, ok: bool)

  datatype Result = Committed | BeginError | BindError | BodyError | CommitError

  predicate About(e: Event, x: TxId) {
    (e.Begin? || e.Bind? || e.Statement? || e.Commit? || e.Rollback?) && e.tx == x
  }

  predicate Foreign(es: seq<Event>, x: TxId) {
    forall i :: 0 <= i < |es| ==> !About(es[i], x)
  }

  predicate ForeignPlan(p: Plan, x: TxId) {
    && Foreign(p.beforeBind, x) && Foreign(p.beforeEnd, x)
    && forall i :: 0 <= i < |p.body| ==> Foreign(p.body[i].before, x)
  }

  /** The events of one transaction within a run. */
  function Mine(es: seq<Event>, x: TxId): (mine: seq<Event>) {
    if |es| == 0 then []
    else Mine(es[..|es| - 1], x) + (if About(es[|es| - 1], x) then [es[|es| - 1]] else [])
  }

  /** The queries fn gets to run: up to the first that fails. */
  function Queries(x: TxId, body: seq<Query>): (es: seq<Event>) {
    if |body| == 0 then []
    else if BodyOk(body[..|body| - 1]) then Queries(x, body[..|body| - 1]) + [Statement(x, body[|body| - 1].ok)]
    else Queries(x, body[..|body| - 1])
  }

  predicate BodyOk(body: seq<Query>) {
    forall i :: 0 <= i < |body| ==> body[i].ok
  }

  /** What WithTenant promises to send: begin, bind, the body, and one end. */
  function Script(x: TxId, c: ConnId, tenant: string, p: Plan): (es: seq<Event>) {
    if !p.begins then [Begin(x, c, tenant, false)]
    else if !p.binds then [Begin(x, c, tenant, true), Bind(x, false), Rollback(x, p.end)]
    else [Begin(x, c, tenant, true), Bind(x, true)] + Queries(x, p.body)
         + [if BodyOk(p.body) then Commit(x, p.end) else Rollback(x, p.end)]
  }

  /** The queries up to the first that fails, each with its own answer. */
  lemma {:induction false} QueriesAre(x: TxId, body: seq<Query>)
    ensures |Queries(x, body)| <= |body|
    ensures forall i :: 0 <= i < |Queries(x, body)| ==> Queries(x, body)[i] == Statement(x, body[i].ok)
    ensures forall i :: 0 <= i < |Queries(x, body)| - 1 ==> body[i].ok
    ensures |Queries(x, body)| < |body| ==> Queries(x, body) != [] && !body[|Queries(x, body)| - 1].ok
  {
    if |body| > 0 {
      var front := body[..|body| - 1];
      QueriesAre(x, front);
      if !BodyOk(front) && |Queries(x, front)| == |front| {
        var i :| 0 <= i < |front| && !front[i].ok;
        assert i == |front| - 1;
      }
      assert BodyOk(front) ==> |Queries(x, front)| == |front|;
    }
  }

  /** Exactly one end, the last thing sent: a commit if and only if begin, bind and every query went well. */
  lemma OneEnd(x: TxId, c: ConnId, tenant: string, p: Plan)
    ensures var es := Script(x, c, tenant, p);
      && es[0] == Begin(x, c, tenant, p.begins)
      && (p.begins ==> |es| >= 3 && es[1] == Bind(x, p.binds))
      && (es[|es| - 1].Commit? <==> p.begins && p.binds && forall i :: 0 <= i < |p.body| ==> p.body[i].ok)
      && (es[|es| - 1].Rollback? <==> p.begins && !es[|es| - 1].Commit?)
      && forall i :: 0 <= i < |es| - 1 ==> !es[i].Commit? && !es[i].Rollback?
  {
    QueriesAre(x, p.body);
    hide Queries;
  }

  lemma {:induction false} MineConcat(a: seq<Event>, b: seq<Event>, x: TxId)
    ensures Mine(a + b, x) == Mine(a, x) + Mine(b, x)
  {
    if |b| == 0 {
      assert a + b == a;
    } else {
      MineConcat(a, b[..|b| - 1], x);
      assert (a + b)[..|a + b| - 1] == a + b[..|b| - 1];
    }
  }

  lemma {:induction false} ForeignIsNotMine(es: seq<Event>, x: TxId)
    requires Foreign(es, x)
    ensures Mine(es, x) == []
  {
    if |es| > 0 {
      ForeignIsNotMine(es[..|es| - 1], x);
    }
  }

  lemma {:induction false} RunConcat(p: Pool, a: seq<Event>, b: seq<Event>)
    ensures Run(p, a + b) == Run(Run(p, a), b)
  {
    if |b| == 0 {
      assert a + b == a;
    } else {
      RunConcat(p, a, b[..|b| - 1]);
      assert (a + b)[..|a + b| - 1] == a + b[..|b| - 1];
    }
  }

  lemma RunSnoc(p: Pool, a: seq<Event>, e: Event)
    ensures Run(p, a + [e]) == Step(Run(p, a), e)
  {
    assert (a + [e])[..|a|] == a;
  }

  /** Other callers cannot touch an open transaction or its connection. */
  lemma {:induction false} ForeignKeepsTx(p: Pool, es: seq<Event>, x: TxId)
    requires Inv(p) && Foreign(es, x) && x in p.txs
    ensures var p' := Run(p, es); Inv(p') && x in p'.txs && p'.txs[x] == p.txs[x]
  {
    if |es| > 0 {
      var m := Run(p, es[..|es| - 1]);
      ForeignKeepsTx(p, es[..|es| - 1], x);
      StepKeepsInv(m, es[|es| - 1]);
      hide Inv;
    }
  }

  lemma {:induction false} ForeignKeepsAbsence(p: Pool, es: seq<Event>, x: TxId)
    requires Foreign(es, x) && x !in p.txs
    ensures x !in Run(p, es).txs
  {
    if |es| > 0 {
      ForeignKeepsAbsence(p, es[..|es| - 1], x);
    }
  }

  class ConnPool {
    var conns: map<ConnId, Conn>
    var txs: map<TxId, Tx>
    var log: seq<Ran>

    constructor ()
      ensures World() == EMPTY
    {
      conns, txs, log := map[], map[], [];
    }

    function World(): (p: Pool)
      reads this
    {
      Pool(conns, txs, log)
    }

    /** One round trip of this call; the ghost trace grows by it. */
    method Send(e: Event, ghost start: Pool, ghost trace: seq<Event>) returns (ghost longer: seq<Event>)
      requires Inv(World()) && World() == Run(start, trace)
      modifies this
      ensures longer == trace + [e] && World() == Run(start, longer) && World() == Step(old(World()), e) && Inv(World())
    {
      StepKeepsInv(World(), e);
      RunSnoc(start, trace, e);
      hide Inv;
      var p := Step(World(), e);
      conns, txs, log := p.conns, p.txs, p.log;
      longer := trace + [e];
    }

    /** Everybody else, while transaction x is open. */
    method Others(es: seq<Event>, x: TxId, ghost start: Pool, ghost trace: seq<Event>)
        returns (ghost longer: seq<Event>)
      requires Inv(World()) && World() == Run(start, trace) && Foreign(es, x) && x in txs
      modifies this
      ensures longer == trace + es && World() == Run(start, longer) && Inv(World())
      ensures x in txs && txs[x] == old(txs[x]) && Mine(longer, x) == Mine(trace, x)
    {
      ghost var before := World();
      ForeignKeepsTx(World(), es, x);
      RunConcat(start, trace, es);
      MineConcat(trace, es, x);
      ForeignIsNotMine(es, x);
      assert Mine(trace, x) + [] == Mine(trace, x);
      hide Inv;
      for i := 0 to |es|
        invariant World() == Run(before, es[..i])
      {
        RunSnoc(before, es[..i], es[i]);
        var p := Step(World(), es[i]);
        conns, txs, log := p.conns, p.txs, p.log;
        assert es[..i + 1] == es[..i] + [es[i]];
      }
      assert es[..|es|] == es;
      longer := trace + es;
    }

    /** fn: queries in order, stopping at the first error. */
    method Body(x: TxId, body: seq<Query>, ghost start: Pool, ghost trace: seq<Event>)
      returns (ok: bool, ghost longer: seq<Event>)
      requires Inv(World()) && World() == Run(start, trace)
      requires x in txs && txs[x].stage.Bound? && forall i :: 0 <= i < |body| ==> Foreign(body[i].before, x)
      modifies this
      ensures Inv(World()) && World() == Run(start, longer)
      ensures x in txs && (ok ==> txs[x].stage.Bound?) && txs[x].conn == old(txs[x].conn)
      ensures ok <==> BodyOk(body)
      ensures Mine(longer, x) == Mine(trace, x) + Queries(x, body)
    {
      ok, longer := true, trace;
      assert Mine(trace, x) + [] == Mine(trace, x);
      for i := 0 to |body|
        invariant Inv(World()) && World() == Run(start, longer)
        invariant x in txs && (ok ==> txs[x].stage.Bound?) && txs[x].conn == old(txs[x].conn)
        invariant ok <==> BodyOk(body[..i])
        invariant Mine(longer, x) == Mine(trace, x) + Queries(x, body[..i])
      {
        assert body[..i + 1][..i] == body[..i];
        if ok {
          ok, longer := OneQuery(x, body[i], start, longer);
        }
      }
      assert body[..|body|] == body;
    }

    method OneQuery(x: TxId, q: Query, ghost start: Pool, ghost trace: seq<Event>)
        returns (ok: bool, ghost longer: seq<Event>)
      requires Inv(World()) && World() == Run(start, trace)
      requires x in txs && txs[x].stage.Bound? && Foreign(q.before, x)
      modifies this
      ensures Inv(World()) && World() == Run(start, longer)
      ensures x in txs && (ok ==> txs[x].stage.Bound?) && txs[x].conn == old(txs[x].conn)
      ensures ok == q.ok && Mine(longer, x) == Mine(trace, x) + [Statement(x, q.ok)]
    {
      longer := Others(q.before, x, start, trace);
      ghost var others := longer;
      longer := Send(Statement(x, q.ok), start, others);
      hide Inv;
      MineSnoc(others, Statement(x, q.ok), x);
      ok := q.ok;
    }

    /** WithTenant: begin, bind, run the body, commit or roll back. Its own part of the run is exactly the
        script, whatever others do in between, and afterwards it holds no connection. */
    method WithTenant(x: TxId, c: ConnId, tenant: string, p: Plan) returns (r: Result, ghost trace: seq<Event>)
      requires Inv(World()) && x !in txs && Idle(World(), c) && ForeignPlan(p, x)
      modifies this
      ensures Inv(World()) && World() == Run(old(World()), trace) && x !in txs
      ensures Mine(trace, x) == Script(x, c, tenant, p)
      ensures r == if !p.begins then BeginError else if !p.binds then BindError else if !BodyOk(p.body) then BodyError
                   else if p.commits then Committed else CommitError
    {
      hide Inv, Run, Step, Mine, Queries, BodyOk, Foreign;
      ghost var start := World();
      trace := Open(x, c, tenant, p.begins, start);
      if !p.begins {
        return BeginError, trace;
      }
      var ok;
      ok, trace := BindTenant(x, p, start, trace);
      if !ok {
        trace := Finish(x, Rollback(x, p.end), start, trace);
        return BindError, trace;
      }
      ok, trace := Body(x, p.body, start, trace);
      trace := Others(p.beforeEnd, x, start, trace);
      trace := Finish(x, if ok then Commit(x, p.end) else Rollback(x, p.end), start, trace);
      r := if !ok then BodyError else if p.commits then Committed else CommitError;
    }

    method Open(x: TxId, c: ConnId, tenant: string, begins: bool, ghost start: Pool) returns (ghost trace: seq<Event>)
      requires Inv(World()) && World() == start && x !in txs && Idle(World(), c)
      modifies this
      ensures Inv(World()) && World() == Run(start, trace) && Mine(trace, x) == [Begin(x, c, tenant, begins)]
      ensures if begins then x in txs && txs[x].stage.Opened? else x !in txs
    {
      trace := Send(Begin(x, c, tenant, begins), start, []);
      hide Inv;
      MineSnoc([], Begin(x, c, tenant, begins), x);
    }

    method BindTenant(x: TxId, p: Plan, ghost start: Pool, ghost trace: seq<Event>)
        returns (ok: bool, ghost longer: seq<Event>)
      requires Inv(World()) && World() == Run(start, trace) && x in txs && txs[x].stage.Opened?
        && Foreign(p.beforeBind, x)
      modifies this
      ensures Inv(World()) && World() == Run(start, longer) && Mine(longer, x) == Mine(trace, x) + [Bind(x, p.binds)]
      ensures ok == p.binds && x in txs && (ok ==> txs[x].stage.Bound?)
    {
      longer := Others(p.beforeBind, x, start, trace);
      HoldsConn(World(), x);
      ghost var unbound := longer;
      longer := Send(Bind(x, p.binds), start, unbound);
      hide Inv;
      MineSnoc(unbound, Bind(x, p.binds), x);
      ok := p.binds;
    }

    /** The one end of a transaction. */
    method Finish(x: TxId, e: Event, ghost start: Pool, ghost trace: seq<Event>) returns (ghost longer: seq<Event>)
      requires Inv(World()) && World() == Run(start, trace) && x in txs
      requires (e.Rollback? || (e.Commit? && txs[x].stage.Bound?)) && e.tx == x
      modifies this
      ensures Inv(World()) && World() == Run(start, longer) && x !in txs && Mine(longer, x) == Mine(trace, x) + [e]
    {
      HoldsConn(World(), x);
      longer := Send(e, start, trace);
      hide Inv;
      MineSnoc(trace, e, x);
    }
  }

  lemma HoldsConn(p: Pool, x: TxId)
    requires Inv(p) && x in p.txs
    ensures p.txs[x].conn in p.conns
  {
    assert TxOk(p, x);
  }

  lemma MineSnoc(trace: seq<Event>, e: Event, x: TxId)
    ensures Mine(trace + [e], x) == Mine(trace, x) + (if About(e, x) then [e] else [])
  {
    assert (trace + [e])[..|trace|] == trace;
  }
}
