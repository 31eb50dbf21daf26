/**
 * One browser client and the server's token table, with any number of requests, refreshes and logins
 * under way and any activity of other parties in between.
 */
module BrowserSession {
  import opened Basics
  import opened BrowserClient
  import R = RefreshTokens

  /** `mine` are the families born of this client's logins; `session` is the family of the login the
      user is in: the last one delivered, until a logout, or a 401 to a refresh of that family, ends it;
      `strays` are the tokens of refresh requests that the client gave up on and that may still reach the server. */
  datatype World = World(server: R.State, client: Client, mine: set<R.Id>, session: Option<R.Id>,
                         strays: multiset<R.Hash>)

  datatype Event =
    | DoCall
    | DoAnswer(i: nat, unauthorized: bool)
    | DoResume(i: nat)
    | DoRefresh
    | DoRead(readable: bool)
    /** The server handles the refresh; a draw that repeats an earlier value does not happen. */
    | Receive(now: int, next: R.NewToken, faults: R.RefreshFaults)
    /** The server handles a refresh request that nobody waits for any more. */
    | ReceiveStray(token: R.Hash, now: int, next: R.NewToken, faults: R.RefreshFaults)
    /** A reply that is not from Refresh: too many requests, bad gateway. */
    | Throttle
    | Lose
    | DoDeliver(written: bool)
    | DoFree
    | DoSubmit(user: string, tenant: string, valid: bool)
    | ReceiveLogin(i: nat, next: R.NewToken, loginFaults: R.LoginFaults)
    | DoDeliverLogin(i: nat, written: bool)
    | DoLogout(written: bool)
    | DoReload
    /** Another party's login, or its refresh with a token of a family that is not this client's. */
    | Others(e: R.Event)

  predicate Foreign(w: World, e: R.Event) {
    e.Refresh? && e.presented.Some? && R.Find(w.server.rows, e.presented.value).Some?
    ==> R.Find(w.server.rows, e.presented.value).value.family !in w.mine
  }

  function RefreshEvent(token: R.Hash, e: Event): (r: R.Event)
    requires e.Receive? || e.ReceiveStray?
  {
    R.Refresh(Some(token), e.now, e.next, e.faults)
  }

  function LoginEvent(call: LoginCall, e: Event): (r: R.Event)
    requires e.ReceiveLogin? && call.Submitted?
  {
    R.Login(call.user, call.tenant, call.valid, e.next, e.loginFaults)
  }

  function InTransit(c: Client): (tokens: multiset<R.Hash>) {
    if c.flight.Sent? then multiset{c.flight.token} else multiset{}
  }

  function Step(w: World, e: Event): (w': World) {
    var c := w.client;
    match e
    case DoCall => w.(client := Call(c))
    case DoAnswer(i, unauthorized) => w.(client := Answer(c, i, unauthorized))
    case DoResume(i) => w.(client := Resume(c, i))
    case DoRefresh => w.(client := Join(c))
    case DoRead(readable) => w.(client := ReadToken(c, readable))
    case Receive(now, next, f) => StepReceive(w, e)
    case ReceiveStray(token, now, next, f) =>
      if token in w.strays && R.Fresh(w.server, next) then
        w.(server := R.Step(w.server, RefreshEvent(token, e)), strays := w.strays - multiset{token})
      else w
    case Throttle => if c.flight.Sent? then w.(client := c.(flight := Answered(c.flight.token, R.Failed))) else w
    case Lose => w.(client := BreakOff(c), strays := w.strays + InTransit(c))
    case DoDeliver(written) =>
      w.(client := Deliver(c, written),
         session := if c.flight.Answered? && c.flight.outcome.Unauthorized?
                       && FamilyOf(w.server.rows, c.flight.token) == w.session
                    then None else w.session)
    case DoFree => w.(client := FreeSlot(c))
    case DoSubmit(user, tenant, valid) => w.(client := SubmitLogin(c, user, tenant, valid))
    case ReceiveLogin(i, next, f) => StepLogin(w, e)
    case DoDeliverLogin(i, written) =>
      w.(client := DeliverLogin(c, i, written),
         session := if i < |c.logins| && c.logins[i].Reply? && c.logins[i].outcome.Session?
                    then FamilyOf(w.server.rows, c.logins[i].outcome.hash) else w.session)
    case DoLogout(written) => w.(client := Logout(c, written), session := None)
    case DoReload => w.(client := Reload(c), strays := w.strays + InTransit(c))
    case Others(e) => if Foreign(w, e) then w.(server := R.Step(w.server, e)) else w
  }

  function StepReceive(w: World, e: Event): (w': World)
    requires e.Receive?
  {
    var c := w.client;
    if c.flight.Sent? && R.Fresh(w.server, e.next) then
      var r := RefreshEvent(c.flight.token, e);
      w.(server := R.Step(w.server, r), client := c.(flight := Answered(c.flight.token, R.Result(w.server, r).1)))
    else w
  }

  function StepLogin(w: World, e: Event): (w': World)
    requires e.ReceiveLogin?
  {
    var c := w.client;
    if e.i < |c.logins| && c.logins[e.i].Submitted? && R.Fresh(w.server, e.next) then
      var r := LoginEvent(c.logins[e.i], e);
      World(R.Step(w.server, r), c.(logins := c.logins[e.i := Reply(R.Result(w.server, r).1)]),
            w.mine + {e.next.family}, w.session, w.strays)
    else w
  }

  function Run(w: World, es: seq<Event>): (w': World) {
    if |es| == 0 then w else Step(Run(w, es[..|es| - 1]), es[|es| - 1])
  }

  function FamilyOf(rows: seq<R.Token>, h: R.Hash): (family: Option<R.Id>) {
    var t := R.Find(rows, h);
    if t.Some? then Some(t.value.family) else None
  }

  // ------------------------------------------------------------------- the invariant

  predicate Owned(w: World, h: R.Hash) {
    var t := R.Find(w.server.rows, h);
    t.Some? && t.value.family in w.mine
  }

  predicate Live(w: World, h: R.Hash) {
    Owned(w, h) && !R.Find(w.server.rows, h).value.revoked
  }

  /** Rotated away: presenting it again looks like theft. */
  predicate Gone(w: World, h: R.Hash) {
    Owned(w, h) && R.Rotated(R.Find(w.server.rows, h).value)
  }

  /** A login reply that has arrived at the browser but not at the code. */
  predicate Pending(c: Client, i: nat) {
    i < |c.logins| && c.logins[i].Reply? && c.logins[i].outcome.Session?
  }

  /** The tokens the client could present now or after the next reply. */
  predicate Known(c: Client, h: R.Hash) {
    || c.stored == Some(h)
    || (Open(c.flight) && c.flight.token == h)
    || (c.flight.Answered? && c.flight.outcome == R.Session(h))
  }

  /** The stored token is unrevoked, unless the reply on its way is going to replace or remove it. */
  predicate StoredOk(w: World) {
    var c := w.client;
    c.stored.Some? ==>
      Live(w, c.stored.value) || (Gone(w, c.stored.value) && c.flight.Answered? && c.flight.outcome != R.Failed)
  }

  predicate FlightOk(w: World) {
    match w.client.flight
    case Sent(token) => Live(w, token)
    case Answered(token, outcome) => Owned(w, token) && (outcome.Session? ==> Live(w, outcome.hash) && Gone(w, token))
    case _ => true
  }

  predicate LoginsOk(w: World) {
    var c := w.client;
    && (forall i :: 0 <= i < |c.logins| && Pending(c, i) ==>
          Live(w, c.logins[i].outcome.hash) && !Known(c, c.logins[i].outcome.hash))
    && (forall i, j :: 0 <= i < j < |c.logins| && Pending(c, i) && Pending(c, j) ==>
          c.logins[i].outcome.hash != c.logins[j].outcome.hash)
  }

  /** A stray token is the client's own, and not one it has yet to learn. */
  predicate StraysOk(w: World) {
    var c := w.client;
    forall h :: h in w.strays ==>
      && Owned(w, h)
      && (c.flight.Answered? ==> c.flight.outcome != R.Session(h))
      && forall i :: 0 <= i < |c.logins| ==> c.logins[i] != Reply(R.Session(h))
  }

  /** No family of this client was ever revoked as a whole: whatever is revoked has a successor. */
  predicate Unharmed(rows: seq<R.Token>, mine: set<R.Id>) {
    forall i :: 0 <= i < |rows| && rows[i].family in mine && rows[i].revoked ==> rows[i].replacedBy.Some?
  }

  /** Whoever waits for a refresh waits for one that is under way. */
  predicate NoOrphans(c: Client) {
    c.flight.Idle? ==> forall i :: 0 <= i < |c.requests| ==> !c.requests[i].Refreshing?
  }

  ghost predicate Inv(w: World) {
    && R.Inv(w.server)
    && w.mine <= w.server.families
    && StoredOk(w)
    && FlightOk(w)
    && LoginsOk(w)
    && StraysOk(w)
    && Unharmed(w.server.rows, w.mine)
    && NoOrphans(w.client)
  }

  /** Refresh gets as far as revoking the presented token. */
  predicate Burns(f: R.RefreshFaults) {
    !f.find && !f.role && !f.generate && TookEffect(f.revoke)
  }

  /** It does, and then fails. */
  predicate Spends(f: R.RefreshFaults) {
    Burns(f) && (f.revoke.AckLost? || !f.store.Healthy? || f.issue)
  }

  /** The server revokes the stored token and no successor reaches the client, or it is not written. */
  predicate LosesSuccessor(w: World, e: Event) {
    var c := w.client;
    && c.stored.Some?
    && match e
       case Receive(now, next, f) =>
         && c.flight.Sent? && c.stored.value == c.flight.token && R.Fresh(w.server, next) && Spends(f)
         && R.Find(w.server.rows, c.flight.token).Some? && now < R.Find(w.server.rows, c.flight.token).value.expires
       case Lose => c.flight.Answered? && c.flight.outcome != R.Failed && Gone(w, c.stored.value)
       case DoReload => c.flight.Answered? && c.flight.outcome != R.Failed && Gone(w, c.stored.value)
       case DoDeliver(written) =>
         c.flight.Answered? && c.flight.outcome != R.Failed && Gone(w, c.stored.value) && !written
       case _ => false
  }

  /** A request that was given up on rotates a token that the client will present again, or arrives after
      its token was rotated and finds the family alive. */
  predicate StrayHits(w: World, e: Event) {
    var c := w.client;
    && e.ReceiveStray? && e.token in w.strays && R.Fresh(w.server, e.next)
    && R.Find(w.server.rows, e.token).Some?
    && var t := R.Find(w.server.rows, e.token).value;
       if t.revoked then !e.faults.find && TookEffect(e.faults.family) && !R.Dead(w.server.rows, t.family)
       else Burns(e.faults) && e.now < t.expires
            && (|| c.flight == Sent(e.token)
                || (c.stored == Some(e.token) && !(c.flight.Answered? && c.flight.outcome != R.Failed)))
  }

  /** The steps after which the server may take the client for a thief. */
  predicate Breaks(w: World, e: Event) {
    LosesSuccessor(w, e) || StrayHits(w, e)
  }

  // ------------------------------------------------------------- what a server step does to a row

  /** The step neither rotates the row nor revokes its family. */
  predicate Spares(s: R.State, e: R.Event, u: R.Token) {
    e.Refresh? && e.presented.Some? && R.Find(s.rows, e.presented.value).Some? ==>
      var t := R.Find(s.rows, e.presented.value).value;
      if t.revoked then t.family != u.family else t.hash != u.hash
  }

  lemma SparedRowStays(s: R.State, e: R.Event, u: R.Token)
    requires R.Inv(s) && u in s.rows && Spares(s, e, u)
    ensures u in R.Step(s, e).rows
  {
    var i :| 0 <= i < |s.rows| && s.rows[i] == u;
    var s' := R.Step(s, e);
    if s'.rows != s.rows && e.Refresh? {
      var t := R.Find(s.rows, e.presented.value).value;
      assert t.id == u.id ==> t == u by { if t.id == u.id { R.UniqueId(s, t, u); } }
    }
    assert s'.rows[i] == u;
  }

  lemma SparedIsFound(s: R.State, e: R.Event, h: R.Hash)
    requires R.Inv(s) && R.Find(s.rows, h).Some? && Spares(s, e, R.Find(s.rows, h).value)
    ensures R.Find(R.Step(s, e).rows, h) == R.Find(s.rows, h)
  {
    var u := R.Find(s.rows, h).value;
    SparedRowStays(s, e, u);
    R.StepKeepsInv(s, e);
    R.FindUnique(R.Step(s, e), u);
  }

  /** A session's token is a new unrevoked row. */
  lemma SessionIsStored(s: R.State, e: R.Event)
    requires R.Inv(s) && R.Fresh(s, e.next) && R.Result(s, e).1.Session?
    ensures R.Result(s, e).1.hash == e.next.hash
    ensures var t := R.Find(R.Step(s, e).rows, e.next.hash);
      && t.Some? && !t.value.revoked
      && (e.Login? ==> t.value.family == e.next.family)
      && (e.Refresh? ==> e.presented.Some? && R.Find(s.rows, e.presented.value).Some?
                         && t.value.family == R.Find(s.rows, e.presented.value).value.family)
  {
    R.SessionRow(s, e);
    hide R.Find, R.Step, R.Inv, R.Result;
  }

  /** What Refresh makes of an unrevoked token. */
  function AfterRefresh(s: R.State, e: R.Event, t: R.Token): (t': R.Token)
    requires e.Refresh?
  {
    if R.Result(s, e).1.Session? || (e.now < t.expires && Spends(e.faults))
    then t.(revoked := true, replacedBy := Some(e.next.id))
    else t
  }

  lemma PresentedAt(s: R.State, e: R.Event, t: R.Token, i: nat)
    requires e.Refresh? && e.presented.Some? && R.Fresh(s, e.next)
    requires R.Find(s.rows, e.presented.value) == Some(t) && !t.revoked
    requires i < |s.rows| && s.rows[i] == t
    ensures i < |R.Step(s, e).rows| && R.Step(s, e).rows[i] == AfterRefresh(s, e, t)
  {
    hide R.Find;
  }

  lemma PresentedRow(s: R.State, e: R.Event, t: R.Token)
    requires R.Inv(s) && e.Refresh? && e.presented.Some? && R.Fresh(s, e.next)
    requires R.Find(s.rows, e.presented.value) == Some(t) && !t.revoked
    ensures R.Find(R.Step(s, e).rows, t.hash) == Some(AfterRefresh(s, e, t))
  {
    var i :| 0 <= i < |s.rows| && s.rows[i] == t;
    PresentedAt(s, e, t, i);
    R.StepKeepsInv(s, e);
    R.FindUnique(R.Step(s, e), R.Step(s, e).rows[i]);
    assert AfterRefresh(s, e, t).hash == t.hash;
    hide *;
  }
}
