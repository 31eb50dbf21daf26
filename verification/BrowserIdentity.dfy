/**
 * Whose session the client is in: its tokens belong to the last login delivered, as long as no login or
 * logout falls into a refresh whose reply can still bring a token or a wipe.
 */
module BrowserIdentity {
  import opened Basics
  import opened BrowserClient
  import opened BrowserSession
  import BrowserRuns
  import R = RefreshTokens

  predicate Belongs(w: World, h: R.Hash) {
    Owned(w, h) && FamilyOf(w.server.rows, h) == w.session
  }

  /** What the property asks for when no refresh is open: a stored token exactly in a session, and both tokens
      of that session's family. */
  predicate Right(w: World) {
    var c := w.client;
    !Open(c.flight) ==>
      && (c.stored.Some? <==> w.session.Some?)
      && (c.stored.Some? ==> Belongs(w, c.stored.value))
      && (c.access.Some? ==> Belongs(w, c.access.value))
  }

  /** The reply on its way can do no harm: it is for the session, or it can bring nothing and wipe nothing. */
  predicate FlightHarmless(w: World) {
    match w.client.flight
    case Sent(token) => Owned(w, token) && if w.session.None? then !Live(w, token) else Belongs(w, token)
    case Answered(token, Session(h)) => w.session.Some? && Belongs(w, token) && Belongs(w, h)
    case Answered(token, Unauthorized) => Owned(w, token) && (w.session.None? || Belongs(w, token))
    case _ => true
  }

  /** Logins on their way open families of their own. */
  predicate LoginsApart(w: World) {
    var c := w.client;
    && (forall i :: 0 <= i < |c.logins| && Pending(c, i) ==>
          && Owned(w, c.logins[i].outcome.hash)
          && FamilyOf(w.server.rows, c.logins[i].outcome.hash) != w.session
          && (Open(c.flight) ==>
                FamilyOf(w.server.rows, c.logins[i].outcome.hash) != FamilyOf(w.server.rows, c.flight.token)))
    && (forall i, j :: 0 <= i < j < |c.logins| && Pending(c, i) && Pending(c, j) ==>
          FamilyOf(w.server.rows, c.logins[i].outcome.hash) != FamilyOf(w.server.rows, c.logins[j].outcome.hash))
  }

  /** Both tokens are of the session's family, there is a stored token exactly when there is a session, and
      nothing on its way changes that. */
  predicate InSession(w: World) {
    var c := w.client;
    && (c.stored.None? <==> w.session.None?)
    && (c.stored.Some? ==> Belongs(w, c.stored.value))
    && (c.access.Some? ==> Belongs(w, c.access.value))
    && (w.session.Some? ==> w.session.value in w.mine)
    && (Open(c.flight) ==> Owned(w, c.flight.token))
    && FlightHarmless(w)
    && LoginsApart(w)
  }

  ghost predicate Inv(w: World) {
    R.Inv(w.server) && w.mine <= w.server.families && InSession(w)
  }

  /** A reply that can still bring a token: the presented one is live, or its successor is on the way. */
  predicate CanRenew(w: World) {
    var f := w.client.flight;
    (f.Sent? && Live(w, f.token)) || (f.Answered? && f.outcome.Session?)
  }

  /** A reply that can still change the stored token: bring one, or wipe it. */
  predicate CanTouch(c: Client) {
    c.flight.Sent? || (c.flight.Answered? && c.flight.outcome != R.Failed)
  }

  /** A logout while the refresh can still bring a token, a login while it can still bring one or wipe, or a
      write of either, or of a wipe, that storage rejects. */
  predicate Unsettles(w: World, e: Event) {
    var c := w.client;
    match e
    case DoLogout(written) => CanRenew(w) || (!written && c.stored.Some?)
    case DoDeliverLogin(i, written) => Pending(c, i) && (CanTouch(c) || !written)
    case DoDeliver(written) => c.flight.Answered? && c.flight.outcome == R.Unauthorized && !written && c.stored.Some?
    case _ => false
  }

  // ------------------------------------------------------------------- client steps

  predicate Quiet(e: Event) {
    || e.DoCall? || e.DoAnswer? || e.DoResume? || e.DoRefresh? || e.DoFree? || e.DoRead? || e.Throttle? || e.Lose?
    || e.DoSubmit? || e.DoReload?
  }

  /** Quiet steps bring in no token. */
  lemma QuietStep(w: World, e: Event)
    requires Quiet(e)
    ensures var c, c' := w.client, Step(w, e).client;
      && c'.stored == c.stored && (c'.access == c.access || c'.access.None?)
      && (Open(c'.flight) ==>
            (Open(c.flight) && c'.flight.token == c.flight.token) || c.stored == Some(c'.flight.token))
      && (CanTouch(c') ==> c'.flight == c.flight || (c.stored.Some? && c'.flight == Sent(c.stored.value)))
      && (forall i: nat :: Pending(c', i) ==> Pending(c, i) && c'.logins[i] == c.logins[i])
    ensures var w' := Step(w, e); w'.server == w.server && w'.mine == w.mine && w'.session == w.session
  {
  }

  lemma QuietKeeps(w: World, e: Event)
    requires Inv(w) && Quiet(e)
    ensures InSession(Step(w, e))
  {
    QuietStep(w, e);
    NothingNew(w, Step(w, e));
  }

  lemma NothingNew(w: World, w': World)
    requires InSession(w) && w'.server == w.server && w'.mine == w.mine && w'.session == w.session
    requires var c, c' := w.client, w'.client;
      && c'.stored == c.stored && (c'.access == c.access || c'.access.None?)
      && (Open(c'.flight) ==>
            (Open(c.flight) && c'.flight.token == c.flight.token) || c.stored == Some(c'.flight.token))
      && (CanTouch(c') ==> c'.flight == c.flight || (c.stored.Some? && c'.flight == Sent(c.stored.value)))
      && (forall i: nat :: Pending(c', i) ==> Pending(c, i) && c'.logins[i] == c.logins[i])
    ensures InSession(w')
  {
    hide R.Find, FamilyOf;
  }

  lemma DeliverIff(w: World, e: Event)
    requires Inv(w) && e.DoDeliver?
    ensures InSession(Step(w, e)) <==> !Unsettles(w, e)
  {
    var c, c' := w.client, Step(w, e).client;
    assert c'.logins == c.logins;
    hide R.Inv, R.Find;
    if c.stored.Some? {
      assert FamilyOf(w.server.rows, c.stored.value).Some?;
    }
  }

  lemma LogoutIff(w: World, e: Event)
    requires Inv(w) && e.DoLogout?
    ensures InSession(Step(w, e)) <==> !Unsettles(w, e)
  {
    hide R.Inv, R.Find;
  }

  lemma DeliverLoginIff(w: World, e: Event)
    requires Inv(w) && e.DoDeliverLogin?
    ensures InSession(Step(w, e)) <==> !Unsettles(w, e)
  {
    var c, c' := w.client, Step(w, e).client;
    assert forall i: nat :: Pending(c', i) ==> Pending(c, i) && i != e.i && c'.logins[i] == c.logins[i];
    hide R.Inv, R.Find;
  }

  // ------------------------------------------------------------------- server steps

  /** A row keeps its family whatever happens to it. */
  lemma FamilyStays(s: R.State, e: R.Event, h: R.Hash)
    requires R.Inv(s) && R.Find(s.rows, h).Some?
    ensures FamilyOf(R.Step(s, e).rows, h) == FamilyOf(s.rows, h)
  {
    var t := R.Find(s.rows, h).value;
    var i :| 0 <= i < |s.rows| && s.rows[i] == t;
    R.StepPersists(s, e, i);
    R.StepKeepsInv(s, e);
    R.FindUnique(R.Step(s, e), R.Step(s, e).rows[i]);
  }

  /** What the client holds keeps its family, and a revoked token stays revoked. */
  predicate Kept(w: World, w': World, h: R.Hash) {
    Owned(w, h) ==>
      && Owned(w', h) && FamilyOf(w'.server.rows, h) == FamilyOf(w.server.rows, h)
      && (!Live(w, h) ==> !Live(w', h))
  }

  lemma RevokedStays(s: R.State, e: R.Event, h: R.Hash)
    requires R.Inv(s) && R.Find(s.rows, h).Some? && R.Find(s.rows, h).value.revoked
    ensures R.Find(R.Step(s, e).rows, h).Some? && R.Find(R.Step(s, e).rows, h).value.revoked
  {
    var t := R.Find(s.rows, h).value;
    var i :| 0 <= i < |s.rows| && s.rows[i] == t;
    R.StepPersists(s, e, i);
    R.StepKeepsInv(s, e);
    R.FindUnique(R.Step(s, e), R.Step(s, e).rows[i]);
    hide R.Step, R.Inv;
  }

  lemma ServerKeepsToken(w: World, e: R.Event, w': World, h: R.Hash)
    requires R.Inv(w.server) && w'.server == R.Step(w.server, e) && w.mine <= w'.mine
    ensures Kept(w, w', h)
  {
    if Owned(w, h) {
      FamilyStays(w.server, e, h);
      if !Live(w, h) {
        RevokedStays(w.server, e, h);
      }
    }
    hide R.Step, R.Inv, R.Find;
  }

  /** The server moves and the client does not. */
  lemma ServerKeeps(w: World, w': World)
    requires Inv(w) && w'.client == w.client && w'.session == w.session && w.mine <= w'.mine
    requires forall h :: Kept(w, w', h)
    ensures InSession(w')
  {
    hide R.Inv, R.Find, FamilyOf, Owned, Live;
    var c := w.client;
    assert c.stored.Some? ==> Kept(w, w', c.stored.value);
    assert c.access.Some? ==> Kept(w, w', c.access.value);
    assert Open(c.flight) ==> Kept(w, w', c.flight.token);
    assert c.flight.Answered? && c.flight.outcome.Session? ==> Kept(w, w', c.flight.outcome.hash);
    forall i: nat | Pending(c, i)
      ensures Owned(w', c.logins[i].outcome.hash)
      ensures FamilyOf(w'.server.rows, c.logins[i].outcome.hash) == FamilyOf(w.server.rows, c.logins[i].outcome.hash)
    {
      assert Kept(w, w', c.logins[i].outcome.hash);
    }
  }

  lemma StrangersKeep(w: World, e: Event)
    requires Inv(w) && (e.Others? || e.ReceiveStray?)
    ensures Inv(Step(w, e))
  {
    var w' := Step(w, e);
    if w'.server != w.server {
      var r := if e.Others? then e.e else RefreshEvent(e.token, e);
      R.StepKeepsInv(w.server, r);
      forall h ensures Kept(w, w', h) {
        ServerKeepsToken(w, r, w', h);
      }
      hide Kept, R.Step;
      ServerKeeps(w, w');
    } else {
      forall h ensures Kept(w, w', h) {
      }
      ServerKeeps(w, w');
    }
  }

  /** A token that brings a session was live. */
  lemma SessionMeansLive(s: R.State, e: R.Event)
    requires e.Refresh? && e.presented.Some? && R.Result(s, e).1.Session?
    ensures R.Find(s.rows, e.presented.value).Some? && !R.Find(s.rows, e.presented.value).value.revoked
  {
  }

  lemma ReceiveKeeps(w: World, e: Event)
    requires Inv(w) && e.Receive?
    ensures Inv(Step(w, e))
  {
    var w' := Step(w, e);
    if w' != w {
      var token := w.client.flight.token;
      var r := RefreshEvent(token, e);
      var outcome := R.Result(w.server, r).1;
      var moved := w'.(client := w.client);
      R.StepKeepsInv(w.server, r);
      forall h ensures Kept(w, moved, h) {
        ServerKeepsToken(w, r, moved, h);
      }
      if outcome.Session? {
        SessionIsStored(w.server, r);
        SessionMeansLive(w.server, r);
      }
      assert outcome.Session? ==> w.session.Some? && Belongs(moved, outcome.hash);
      hide Kept, R.Step, R.Result, R.Find, R.Inv;
      ServerKeeps(w, moved);
      ReplyKeeps(moved, w', token, outcome);
    }
  }

  lemma ReplyKeeps(w: World, w': World, token: R.Hash, outcome: R.Outcome)
    requires InSession(w) && w.client.flight == Sent(token)
    requires w' == w.(client := w.client.(flight := Answered(token, outcome)))
    requires outcome.Session? ==> w.session.Some? && Belongs(w, outcome.hash)
    ensures InSession(w')
  {
    hide R.Find, FamilyOf;
    assert forall i: nat :: Pending(w'.client, i) <==> Pending(w.client, i);
  }

  lemma FreshFamilyIsNobodys(w: World, next: R.NewToken, h: R.Hash)
    requires R.Inv(w.server) && R.Fresh(w.server, next) && Owned(w, h)
    ensures FamilyOf(w.server.rows, h) != Some(next.family)
  {
  }

  lemma LoginKeeps(w: World, e: Event)
    requires Inv(w) && e.ReceiveLogin?
    ensures Inv(Step(w, e))
  {
    var w' := Step(w, e);
    if w' != w {
      var r := LoginEvent(w.client.logins[e.i], e);
      var outcome := R.Result(w.server, r).1;
      var moved := w'.(client := w.client);
      R.StepKeepsInv(w.server, r);
      forall h ensures Kept(w, moved, h) {
        ServerKeepsToken(w, r, moved, h);
      }
      forall h | Owned(w, h) ensures FamilyOf(moved.server.rows, h) != Some(e.next.family) {
        FreshFamilyIsNobodys(w, e.next, h);
        assert Kept(w, moved, h);
      }
      if outcome.Session? {
        SessionIsStored(w.server, r);
      }
      assert w.session != Some(e.next.family);
      assert outcome.Session? ==>
        Owned(w', outcome.hash) && FamilyOf(w'.server.rows, outcome.hash) == Some(e.next.family);
      hide Kept, R.Step, R.Result, R.Find, R.Inv;
      ServerKeeps(w, moved);
      LoginReplyKeeps(w, moved, w', e.i, outcome, e.next.family);
    }
  }

  /** The new login's family is nobody's. */
  lemma LoginReplyKeeps(w: World, moved: World, w': World, i: nat, outcome: R.Outcome, family: R.Id)
    requires InSession(w) && InSession(moved) && moved.client == w.client && i < |w.client.logins|
      && w.client.logins[i].Submitted?
    requires w' == moved.(client := w.client.(logins := w.client.logins[i := Reply(outcome)]))
    requires moved.session != Some(family)
    requires forall h :: Owned(w, h) ==> FamilyOf(moved.server.rows, h) != Some(family)
    requires outcome.Session? ==>
      Owned(moved, outcome.hash) && FamilyOf(moved.server.rows, outcome.hash) == Some(family)
    ensures InSession(w')
  {
    hide R.Find, FamilyOf;
    var c, c' := w.client, w'.client;
    assert forall j: nat :: Pending(c', j) ==>
        (j == i && outcome.Session?) || (Pending(c, j) && j != i && c'.logins[j] == c.logins[j]);
    forall h ensures Owned(w', h) <==> Owned(moved, h) {
    }
    forall j: nat | Pending(c, j) ensures FamilyOf(moved.server.rows, c.logins[j].outcome.hash) != Some(family) {
    }
  }

  // ------------------------------------------------------------------- the exact condition

  lemma StepStaysIff(w: World, e: Event)
    requires Inv(w)
    ensures Inv(Step(w, e)) <==> !Unsettles(w, e)
  {
    ServerStaysGood(w, e);
    hide R.Inv, R.Find, InSession, Step;
    match e {
      case Receive(_, _, _) => ReceiveKeeps(w, e);
      case ReceiveStray(_, _, _, _) => StrangersKeep(w, e);
      case Others(_) => StrangersKeep(w, e);
      case ReceiveLogin(_, _, _) => LoginKeeps(w, e);
      case DoDeliver(_) => DeliverIff(w, e);
      case DoLogout(_) => LogoutIff(w, e);
      case DoDeliverLogin(_, _) => DeliverLoginIff(w, e);
      case _ => QuietKeeps(w, e);
    }
  }

  lemma ServerStaysGood(w: World, e: Event)
    requires R.Inv(w.server) && w.mine <= w.server.families
    ensures R.Inv(Step(w, e).server) && Step(w, e).mine <= Step(w, e).server.families
  {
    match e
    case Receive(_, _, _) =>
      if w.client.flight.Sent? { R.StepKeepsInv(w.server, RefreshEvent(w.client.flight.token, e)); }
    case ReceiveStray(token, _, _, _) => R.StepKeepsInv(w.server, RefreshEvent(token, e));
    case ReceiveLogin(i, _, _) =>
      if i < |w.client.logins| && w.client.logins[i].Submitted? {
        R.StepKeepsInv(w.server, LoginEvent(w.client.logins[i], e));
      }
    case Others(o) => R.StepKeepsInv(w.server, o);
    case _ =>
  }

  // ------------------------------------------------------------------- whole runs

  ghost predicate Calm(w: World, es: seq<Event>) {
    forall i :: 0 <= i < |es| ==> !Unsettles(Run(w, es[..i]), es[i])
  }

  lemma {:induction false} RunStays(w: World, es: seq<Event>)
    requires Inv(w) && Calm(w, es)
    ensures Inv(Run(w, es))
  {
    if |es| > 0 {
      var front := es[..|es| - 1];
      forall i | 0 <= i < |front| ensures !Unsettles(Run(w, front[..i]), front[i]) {
        assert front[..i] == es[..i] && front[i] == es[i];
      }
      RunStays(w, front);
      StepStaysIff(Run(w, front), es[|es| - 1]);
    }
  }

  /** A page load: what storage holds, the session of its family, and nothing under way. */
  function PageLoad(server: R.State, mine: set<R.Id>, stored: Option<R.Hash>): (w: World) {
    World(server, Client(None, stored, Idle, [], []), mine,
          if stored.Some? then FamilyOf(server.rows, stored.value) else None, multiset{})
  }

  /** A page that starts with nothing, or with an unrevoked token of its own, starts well. */
  lemma PageLoadIsGood(server: R.State, mine: set<R.Id>, stored: Option<R.Hash>)
    requires R.Inv(server) && mine <= server.families && Unharmed(server.rows, mine)
    requires var w := PageLoad(server, mine, stored); stored.Some? ==> Live(w, stored.value)
    ensures BrowserSession.Inv(PageLoad(server, mine, stored)) && Inv(PageLoad(server, mine, stored))
  {
    hide R.Inv, R.Find;
  }

  /** With no refresh open, the client has a stored token exactly when it is in a session, and that token is
      the newest of the session's family and unrevoked. */
  lemma StoredIsNewestOfTheLogin(w: World, es: seq<Event>)
    requires BrowserSession.Inv(w) && Inv(w) && BrowserRuns.Careful(w, es) && Calm(w, es)
    requires !Open(Run(w, es).client.flight)
    ensures var w' := Run(w, es);
      && (w'.client.stored.Some? <==> w'.session.Some?)
      && (w'.session.Some? ==>
            var m := R.Family(w'.server.rows, w'.session.value);
            |m| > 0 && m[|m| - 1].hash == w'.client.stored.value && !m[|m| - 1].revoked)
  {
    RunStays(w, es);
    BrowserRuns.StoredIsNewest(w, es);
    SessionOf(Run(w, es));
    hide *;
  }

  lemma SessionOf(w: World)
    requires Inv(w)
    ensures w.client.stored.Some? <==> w.session.Some?
    ensures w.client.stored.Some? ==>
      var t := R.Find(w.server.rows, w.client.stored.value);
      t.Some? && Some(t.value.family) == w.session && t.value.hash == w.client.stored.value
  {
  }

  lemma FaultlessOutcome(s: R.State, token: R.Hash, now: int, next: R.NewToken)
    requires R.Find(s.rows, token).Some? && !R.Find(s.rows, token).value.revoked
    requires now < R.Find(s.rows, token).value.expires
    ensures R.Result(s, R.Refresh(Some(token), now, next, BrowserRuns.NO_FAULTS)).1 == R.Session(next.hash)
  {
    R.SessionIff(s.rows, Some(token), now, next, BrowserRuns.NO_FAULTS);
  }

  lemma SuccessorReplies(w: World, now: int, next: R.NewToken)
    requires R.Inv(w.server) && w.client.flight.Sent? && R.Fresh(w.server, next) && Live(w, w.client.flight.token)
    requires now < R.Find(w.server.rows, w.client.flight.token).value.expires
    ensures var w', token := Step(w, Receive(now, next, BrowserRuns.NO_FAULTS)), w.client.flight.token;
      && w'.session == w.session && w'.client == w.client.(flight := Answered(token, R.Session(next.hash)))
      && FamilyOf(w'.server.rows, next.hash) == FamilyOf(w.server.rows, token)
  {
    var token := w.client.flight.token;
    var r := R.Refresh(Some(token), now, next, BrowserRuns.NO_FAULTS);
    FaultlessOutcome(w.server, token, now, next);
    SessionIsStored(w.server, r);
    hide R.Inv, R.Find, R.Step, R.Result;
  }

  lemma Delivered(w: World, h: R.Hash)
    requires w.client.flight.Answered? && w.client.flight.outcome == R.Session(h)
    ensures var w' := Step(w, DoDeliver(true));
      && w'.session == w.session && w'.client.stored == Some(h) && w'.client.access == Some(h) && w'.server == w.server
      && !Open(w'.client.flight)
  {
  }

  /** A refresh that is under way, meets no fault and is not expired brings in the successor. */
  lemma RefreshCompletes(w: World, now: int, next: R.NewToken)
    requires R.Inv(w.server) && w.client.flight.Sent? && R.Fresh(w.server, next) && Live(w, w.client.flight.token)
    requires now < R.Find(w.server.rows, w.client.flight.token).value.expires
    ensures var w' := Step(Step(w, Receive(now, next, BrowserRuns.NO_FAULTS)), DoDeliver(true));
      && w'.session == w.session && w'.client.stored == Some(next.hash) && w'.client.access == Some(next.hash)
      && FamilyOf(w'.server.rows, next.hash) == FamilyOf(w.server.rows, w.client.flight.token)
      && !Open(w'.client.flight)
  {
    SuccessorReplies(w, now, next);
    Delivered(Step(w, Receive(now, next, BrowserRuns.NO_FAULTS)), next.hash);
    hide *;
  }

  /** A token that is revoked brings a 401, and the 401 wipes what is stored without ending another session. */
  lemma WipeCompletes(w: World, now: int, next: R.NewToken)
    requires R.Inv(w.server) && w.client.flight.Sent? && R.Fresh(w.server, next)
    requires Owned(w, w.client.flight.token) && !Live(w, w.client.flight.token)
    requires FamilyOf(w.server.rows, w.client.flight.token) != w.session
    ensures var w' := Step(Step(w, Receive(now, next, BrowserRuns.NO_FAULTS)), DoDeliver(true));
      w'.session == w.session && w'.client.stored.None? && !Open(w'.client.flight)
  {
    var token := w.client.flight.token;
    var r := R.Refresh(Some(token), now, next, BrowserRuns.NO_FAULTS);
    assert R.Result(w.server, r).1 == R.Unauthorized;
    FamilyStays(w.server, r, token);
    hide R.Inv, R.Find, R.Step, R.Result, FamilyOf;
    var m := Step(w, Receive(now, next, BrowserRuns.NO_FAULTS));
    assert m.client == w.client.(flight := Answered(token, R.Unauthorized)) && m.session == w.session;
    Wiped(m);
  }

  lemma Wiped(w: World)
    requires w.client.flight.Answered? && w.client.flight.outcome == R.Unauthorized
    requires FamilyOf(w.server.rows, w.client.flight.token) != w.session
    ensures var w' := Step(w, DoDeliver(true));
      w'.session == w.session && w'.client.stored.None? && !Open(w'.client.flight)
  {
  }

  /** How things go on after such a step: a rejected write is left as it is when the connection breaks; otherwise
      the refresh is served, if it has yet to be, and its reply is delivered. */
  function Afterwards(e: Event, now: int, next: R.NewToken): (es: seq<Event>) {
    match e
    case DoLogout(written) => if written then [Receive(now, next, BrowserRuns.NO_FAULTS), DoDeliver(true)] else [Lose]
    case DoDeliverLogin(_, written) =>
      if written then [Receive(now, next, BrowserRuns.NO_FAULTS), DoDeliver(true)] else [Lose]
    case _ => [Lose]
  }

  lemma RunTwo(w: World, a: Event, b: Event)
    ensures Run(w, [a, b]) == Step(Step(w, a), b)
  {
    hide Step;
    assert [a, b][..1] == [a] && [a][..0] == [];
    assert Run(w, [a]) == Step(w, a);
  }

  /** A rejected write: stored token and session disagree, and stay so when the connection breaks. */
  lemma RejectedWriteGoesAstray(w: World, e: Event)
    requires Inv(w) && Unsettles(w, e)
    requires match e case DoLogout(written) => !written case DoDeliverLogin(_, written) => !written case _ => true
    ensures !Right(Step(Step(w, e), Lose))
  {
    if e.DoDeliverLogin? {
      OwnedHasFamily(w, w.client.logins[e.i].outcome.hash);
    }
    if w.client.stored.Some? {
      OwnedHasFamily(w, w.client.stored.value);
    }
    hide R.Inv, R.Find, FamilyOf;
  }

  lemma OwnedHasFamily(w: World, h: R.Hash)
    requires Owned(w, h)
    ensures FamilyOf(w.server.rows, h).Some?
  {
  }

  lemma LogoutGoesAstray(w: World, now: int, next: R.NewToken)
    requires Inv(w) && CanRenew(w) && R.Fresh(w.server, next)
    requires w.client.flight.Sent? ==> now < R.Find(w.server.rows, w.client.flight.token).value.expires
    ensures !Right(Step(Step(Step(w, DoLogout(true)), Receive(now, next, BrowserRuns.NO_FAULTS)), DoDeliver(true)))
  {
    var out := Step(w, DoLogout(true));
    assert out.server == w.server && out.mine == w.mine && out.client.flight == w.client.flight && out.session.None?;
    if w.client.flight.Sent? {
      RefreshCompletes(out, now, next);
    } else {
      assert Step(out, Receive(now, next, BrowserRuns.NO_FAULTS)) == out;
      Delivered(out, w.client.flight.outcome.hash);
    }
    hide Step, R.Inv, R.Find, FamilyOf, InSession;
  }

  lemma LoginGoesAstray(w: World, i: nat, now: int, next: R.NewToken)
    requires Inv(w) && Pending(w.client, i) && CanTouch(w.client) && R.Fresh(w.server, next)
    requires w.client.flight.Sent? ==> now < R.Find(w.server.rows, w.client.flight.token).value.expires
    ensures !Right(Step(Step(Step(w, DoDeliverLogin(i, true)), Receive(now, next, BrowserRuns.NO_FAULTS)),
                        DoDeliver(true)))
  {
    var moved := Step(w, DoDeliverLogin(i, true));
    var token := w.client.flight.token;
    assert moved.server == w.server && moved.mine == w.mine && moved.client.flight == w.client.flight;
    assert moved.session == FamilyOf(w.server.rows, w.client.logins[i].outcome.hash);
    assert moved.session.Some? && moved.session != FamilyOf(w.server.rows, token);
    if w.client.flight.Sent? {
      if Live(w, token) {
        RefreshCompletes(moved, now, next);
      } else {
        WipeCompletes(moved, now, next);
      }
    } else {
      assert Step(moved, Receive(now, next, BrowserRuns.NO_FAULTS)) == moved;
      if w.client.flight.outcome.Session? {
        assert FamilyOf(w.server.rows, w.client.flight.outcome.hash) != moved.session;
        Delivered(moved, w.client.flight.outcome.hash);
      } else {
        Wiped(moved);
      }
    }
    hide Step, R.Inv, R.Find, FamilyOf, InSession;
  }

  /** Every step that Unsettles names can be continued, with no fault on the server, to a state with no refresh
      open in which the property fails. */
  lemma UnsettledGoesAstray(w: World, e: Event, now: int, next: R.NewToken)
    requires Inv(w) && Unsettles(w, e) && R.Fresh(w.server, next)
    requires w.client.flight.Sent? ==> now < R.Find(w.server.rows, w.client.flight.token).value.expires
    ensures !Right(Run(Step(w, e), Afterwards(e, now, next)))
  {
    var after := Step(w, e);
    if (e.DoLogout? && e.written) || (e.DoDeliverLogin? && e.written) {
      RunTwo(after, Receive(now, next, BrowserRuns.NO_FAULTS), DoDeliver(true));
      if e.DoLogout? {
        LogoutGoesAstray(w, now, next);
      } else {
        LoginGoesAstray(w, e.i, now, next);
      }
    } else {
      RejectedWriteGoesAstray(w, e);
      BrowserRuns.RunOne(after, Lose);
    }
    hide Step, Run, Inv, Right, R.Fresh;
  }

  /** In particular a logout while a live token is on its way is undone: the client is logged out and holds a
      token of the session it left. */
  lemma LogoutIsUndone(w: World, now: int, next: R.NewToken)
    requires R.Inv(w.server) && w.client.flight.Sent? && Live(w, w.client.flight.token) && R.Fresh(w.server, next)
    requires now < R.Find(w.server.rows, w.client.flight.token).value.expires
    ensures var w' := Step(Step(Step(w, DoLogout(true)), Receive(now, next, BrowserRuns.NO_FAULTS)), DoDeliver(true));
      w'.session.None? && w'.client.stored == Some(next.hash) && w'.client.access == Some(next.hash)
  {
    var out := Step(w, DoLogout(true));
    assert out.server == w.server && out.mine == w.mine && out.client.flight == w.client.flight && out.session.None?;
    hide Step, R.Inv, R.Find, FamilyOf;
    RefreshCompletes(out, now, next);
  }

  /** And a login is overwritten: the client holds tokens of the earlier session. */
  lemma LoginIsOverwritten(w: World, i: nat, now: int, next: R.NewToken)
    requires Inv(w) && w.client.flight.Sent? && Live(w, w.client.flight.token) && R.Fresh(w.server, next)
      && Pending(w.client, i)
    requires now < R.Find(w.server.rows, w.client.flight.token).value.expires
    ensures var w' := Step(Step(Step(w, DoDeliverLogin(i, true)), Receive(now, next, BrowserRuns.NO_FAULTS)),
                           DoDeliver(true));
      && w'.session == FamilyOf(w.server.rows, w.client.logins[i].outcome.hash)
      && w'.client.stored == Some(next.hash)
      && FamilyOf(w'.server.rows, next.hash) == w.session != w'.session
  {
    var moved := Step(w, DoDeliverLogin(i, true));
    assert moved.server == w.server && moved.mine == w.mine && moved.client.flight == w.client.flight;
    assert moved.session == FamilyOf(w.server.rows, w.client.logins[i].outcome.hash) != w.session;
    assert FamilyOf(w.server.rows, w.client.flight.token) == w.session;
    hide Step, R.Inv, R.Find, FamilyOf, InSession;
    RefreshCompletes(moved, now, next);
  }

  /** From a page load, through any run without the steps named in Breaks and Unsettles: with no refresh open,
      the client has a stored token exactly when it is in a session, and that token is the newest of the
      session's family and unrevoked. */
  lemma FromPageLoad(server: R.State, mine: set<R.Id>, stored: Option<R.Hash>, es: seq<Event>)
    requires R.Inv(server) && mine <= server.families && Unharmed(server.rows, mine)
    requires var w := PageLoad(server, mine, stored);
      && (stored.Some? ==> Live(w, stored.value)) && BrowserRuns.Careful(w, es) && Calm(w, es)
      && !Open(Run(w, es).client.flight)
    ensures var w' := Run(PageLoad(server, mine, stored), es);
      && (w'.client.stored.Some? <==> w'.session.Some?)
      && (w'.session.Some? ==>
            var m := R.Family(w'.server.rows, w'.session.value);
            |m| > 0 && m[|m| - 1].hash == w'.client.stored.value && !m[|m| - 1].revoked)
  {
    PageLoadIsGood(server, mine, stored);
    StoredIsNewestOfTheLogin(PageLoad(server, mine, stored), es);
  }
}
