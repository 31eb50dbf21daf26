/**
 * WithTenant over a pool of connections. The setting app.tenant_id is bound LOCAL to one
 * transaction; when that ends, Postgres falls back to the session's value, which after a
 * first use is the empty string. Transactions of many callers interleave on different
 * connections, and any statement, commit or rollback may fail.
 */
module TenantPool {
  import opened Basics

  type ConnId = nat
  type TxId = nat

  /** `session` is the value outside transactions (None: never set), `local` the one SET LOCAL put over it. */
  datatype Conn = Conn(session: Option<string>, local: Option<string>, inTx: bool)

  /** app.current_tenant_id(): NULLIF(current_setting(...), ''). */
  function CurrentTenant(c: Conn): (t: Option<string>) {
    var setting := if c.local.Some? then c.local else c.session;
    if setting == Some("") then None else setting
  }

  /** What a tenant argument stands for: the empty string is no tenant. */
  function Meant(tenant: string): (t: Option<string>) {
    if tenant == "" then None else Some(tenant)
  }

  /** Opened: begun, not bound. Bound: fn may run. Doomed: something failed; only the rollback is left. */
  datatype Stage = Opened | Bound | Doomed

  datatype Tx = Tx(conn: ConnId, tenant: string, stage: Stage)

  /** One statement as it ran: the tenant passed to WithTenant (None for a query on the bare pool) and
      the tenant the policies resolved. */
  datatype Ran = Ran(passed: Option<string>, resolved: Option<string>)

  datatype Pool = Pool(conns: map<ConnId, Conn>, txs: map<TxId, Tx>, log: seq<Ran>)

  const EMPTY := Pool(map[], map[], [])

  /** How the end of a transaction went: over, or the connection still in it (or dead), so the pool drops it. */
  datatype End = Ended | Broken

  datatype Event =
    | Dial(conn: ConnId)
    | Begin(tx: TxId, conn: ConnId, tenant: string, ok: bool)
    | Bind(tx: TxId, ok: bool)
    | Statement(tx: TxId, ok: bool)
    | Commit(tx: TxId, end: End)
    | Rollback(tx: TxId, end: End)
    | Bare(conn: ConnId)

  predicate Held(p: Pool, c: ConnId) {
    exists x :: x in p.txs && p.txs[x].conn == c
  }

  predicate Idle(p: Pool, c: ConnId) {
    c in p.conns && !Held(p, c)
  }

  /** COMMIT or ROLLBACK: the local value is gone, the setting itself now exists and is empty. */
  function AfterTx(c: Conn): (c': Conn) {
    Conn(if c.local.Some? && c.session.None? then Some("") else c.session, None, false)
  }

  function Release(p: Pool, x: TxId, end: End): (p': Pool)
    requires x in p.txs && p.txs[x].conn in p.conns
  {
    var c := p.txs[x].conn;
    p.(txs := p.txs - {x}, conns := if end.Ended? then p.conns[c := AfterTx(p.conns[c])] else p.conns - {c})
  }

  function Step(p: Pool, e: Event): (p': Pool) {
    match e
    case Dial(c) => if c in p.conns then p else p.(conns := p.conns[c := Conn(None, None, false)])
    case Begin(x, c, tenant, ok) =>
      if x in p.txs || !Idle(p, c) then p
      else if !ok then p.(conns := p.conns - {c})
      else p.(conns := p.conns[c := p.conns[c].(inTx := true)], txs := p.txs[x := Tx(c, tenant, Opened)])
    case Bind(x, ok) =>
      if x !in p.txs || !p.txs[x].stage.Opened? || p.txs[x].conn !in p.conns then p
      else if !ok then p.(txs := p.txs[x := p.txs[x].(stage := Doomed)])
      else
        var c := p.txs[x].conn;
        p.(conns := p.conns[c := p.conns[c].(local := Some(p.txs[x].tenant))],
           txs := p.txs[x := p.txs[x].(stage := Bound)])
    case Statement(x, ok) =>
      if x !in p.txs || !p.txs[x].stage.Bound? || p.txs[x].conn !in p.conns then p
      else
        p.(log := p.log + [Ran(Some(p.txs[x].tenant), CurrentTenant(p.conns[p.txs[x].conn]))],
           txs := if ok then p.txs else p.txs[x := p.txs[x].(stage := Doomed)])
    case Commit(x, end) =>
      if x !in p.txs || !p.txs[x].stage.Bound? || p.txs[x].conn !in p.conns then p else Release(p, x, end)
    case Rollback(x, end) =>
      if x !in p.txs || p.txs[x].conn !in p.conns then p else Release(p, x, end)
    case Bare(c) =>
      if !Idle(p, c) then p else p.(log := p.log + [Ran(None, CurrentTenant(p.conns[c]))])
  }

  function Run(p: Pool, es: seq<Event>): (p': Pool) {
    if |es| == 0 then p else Step(Run(p, es[..|es| - 1]), es[|es| - 1])
  }

  // ------------------------------------------------------------- invariant

  predicate Neutral(c: Conn) {
    c.session.None? || c.session == Some("")
  }

  ghost predicate ConnOk(p: Pool, c: ConnId) {
    c in p.conns ==>
      && Neutral(p.conns[c])
      && (!Held(p, c) ==> p.conns[c].local.None? && !p.conns[c].inTx)
  }

  ghost predicate TxOk(p: Pool, x: TxId) {
    x in p.txs ==>
      && p.txs[x].conn in p.conns && p.conns[p.txs[x].conn].inTx
      && (p.txs[x].stage.Opened? ==> p.conns[p.txs[x].conn].local.None?)
      && (p.txs[x].stage.Bound? ==> p.conns[p.txs[x].conn].local == Some(p.txs[x].tenant))
  }

  predicate RanRight(r: Ran) {
    r.resolved == if r.passed.None? then None else Meant(r.passed.value)
  }

  ghost predicate Inv(p: Pool) {
    && (forall c :: ConnOk(p, c))
    && (forall x :: TxOk(p, x))
    && (forall x, y :: x in p.txs && y in p.txs && x != y ==> p.txs[x].conn != p.txs[y].conn)
    && (forall i :: 0 <= i < |p.log| ==> RanRight(p.log[i]))
  }

  lemma ReleaseKeepsInv(p: Pool, x: TxId, end: End)
    requires Inv(p) && x in p.txs
    ensures TxOk(p, x) && Inv(Release(p, x, end))
  {
    assert TxOk(p, x);
    var p' := Release(p, x, end);
    var mine := p.txs[x].conn;
    forall c ensures ConnOk(p', c) {
      assert ConnOk(p, c) && ConnOk(p, mine);
      if c != mine && Held(p, c) {
        var y :| y in p.txs && p.txs[y].conn == c;
        assert y in p'.txs;
      }
    }
    forall y ensures TxOk(p', y) {
      assert TxOk(p, y);
    }
  }

  lemma BeginKeepsInv(p: Pool, x: TxId, c: ConnId, tenant: string, ok: bool)
    requires Inv(p) && x !in p.txs && Idle(p, c)
    ensures Inv(Step(p, Begin(x, c, tenant, ok)))
  {
    var p' := Step(p, Begin(x, c, tenant, ok));
    forall d ensures ConnOk(p', d) {
      assert ConnOk(p, d) && ConnOk(p, c);
      if ok && d != c && Held(p, d) {
        var y :| y in p.txs && p.txs[y].conn == d;
        assert y in p'.txs && p'.txs[y].conn == d;
      }
      if ok && d == c {
        assert x in p'.txs && p'.txs[x].conn == c;
      }
    }
    forall y ensures TxOk(p', y) {
      assert TxOk(p, y) && ConnOk(p, c);
    }
  }

  /** Steps inside a transaction keep who holds what. */
  lemma InnerStepKeepsInv(p: Pool, e: Event)
    requires Inv(p) && (e.Bind? || e.Statement?)
    ensures Inv(Step(p, e))
  {
    var p' := Step(p, e);
    if p' != p {
      assert TxOk(p, e.tx);
      forall d ensures ConnOk(p', d) {
        assert ConnOk(p, d);
        if Held(p, d) {
          var y :| y in p.txs && p.txs[y].conn == d;
          assert y in p'.txs && p'.txs[y].conn == d;
        }
      }
      forall y ensures TxOk(p', y) {
        assert TxOk(p, y);
      }
    }
  }

  lemma OuterStepKeepsInv(p: Pool, e: Event)
    requires Inv(p) && (e.Dial? || e.Bare?)
    ensures Inv(Step(p, e))
  {
    var p' := Step(p, e);
    forall d ensures ConnOk(p', d) {
      assert ConnOk(p, d);
      if e.Dial? && d == e.conn && Held(p, d) {
        var y :| y in p.txs && p.txs[y].conn == d;
        assert TxOk(p, y);
      }
    }
    forall y ensures TxOk(p', y) {
      assert TxOk(p, y);
    }
    if e.Bare? {
      assert ConnOk(p, e.conn);
    }
  }

  lemma StepKeepsInv(p: Pool, e: Event)
    requires Inv(p)
    ensures Inv(Step(p, e))
  {
    match e
    case Begin(x, c, tenant, ok) => if x !in p.txs && Idle(p, c) { BeginKeepsInv(p, x, c, tenant, ok); }
    case Commit(x, end) => if x in p.txs { ReleaseKeepsInv(p, x, end); }
    case Rollback(x, end) => if x in p.txs { ReleaseKeepsInv(p, x, end); }
    case Bind(_, _) => InnerStepKeepsInv(p, e);
    case Statement(_, _) => InnerStepKeepsInv(p, e);
    case _ => OuterStepKeepsInv(p, e);
  }

  lemma {:induction false} RunKeepsInv(es: seq<Event>)
    ensures Inv(Run(EMPTY, es))
  {
    if |es| > 0 {
      RunKeepsInv(es[..|es| - 1]);
      StepKeepsInv(Run(EMPTY, es[..|es| - 1]), es[|es| - 1]);
    }
  }

  // ------------------------------------------------------------- theorems

  /** In every run no idle connection resolves to a tenant or is left inside a transaction. */
  lemma IdleMeansNoTenant(es: seq<Event>, c: ConnId)
    requires Idle(Run(EMPTY, es), c)
    ensures var conn := Run(EMPTY, es).conns[c]; CurrentTenant(conn) == None && !conn.inTx
  {
    RunKeepsInv(es);
    assert ConnOk(Run(EMPTY, es), c);
  }

  /** In every run every statement inside WithTenant ran under exactly the tenant passed in, and every
      statement on the bare pool under none. */
  lemma StatementsRunUnderTheirTenant(es: seq<Event>, i: nat)
    requires i < |Run(EMPTY, es).log|
    ensures var r := Run(EMPTY, es).log[i]; r.resolved == if r.passed.None? then None else Meant(r.passed.value)
  {
    RunKeepsInv(es);
    assert RanRight(Run(EMPTY, es).log[i]);
  }
}
