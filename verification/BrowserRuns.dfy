/** Every step but those named in Breaks keeps the client's tokens usable; what that means for whole runs. */
module BrowserRuns {
  import opened Basics
  import opened BrowserClient
  import opened BrowserSession
  import R = RefreshTokens

  // ------------------------------------------------------------------- the server side

  lemma RowsStayUnharmed(s: R.State, e: R.Event, mine: set<R.Id>)
    requires Unharmed(s.rows, mine)
    requires e.Refresh? && e.presented.Some? && R.Find(s.rows, e.presented.value).Some?
             && R.Find(s.rows, e.presented.value).value.revoked
             ==> R.Find(s.rows, e.presented.value).value.family !in mine
    ensures Unharmed(R.Step(s, e).rows, mine)
  {
  }

  lemma NewFamilyUnharmed(s: R.State, e: R.Event, mine: set<R.Id>)
    requires R.Inv(s) && e.Login? && R.Fresh(s, e.next) && Unharmed(s.rows, mine)
    ensures Unharmed(R.Step(s, e).rows, mine + {e.next.family})
  {
    RowsStayUnharmed(s, e, mine);
    assert forall i :: 0 <= i < |s.rows| ==> s.rows[i] in s.rows && s.rows[i].family != e.next.family;
    hide R.Inv;
  }

  /** A server step keeps what the client holds when it spares every row the client owns. */
  lemma OwnedStays(w: World, e: R.Event, w': World, h: R.Hash)
    requires R.Inv(w.server) && w'.server == R.Step(w.server, e) && w.mine <= w'.mine
    requires R.Find(w.server.rows, h).Some? ==> Spares(w.server, e, R.Find(w.server.rows, h).value)
    ensures Owned(w, h) ==> Owned(w', h)
    ensures Live(w, h) ==> Live(w', h)
    ensures Gone(w, h) ==> Gone(w', h)
  {
    if R.Find(w.server.rows, h).Some? {
      SparedIsFound(w.server, e, h);
    }
  }

  // ------------------------------------------------------------------- client steps

  /** Steps that touch neither tokens nor logins, and the flight only while it holds no token. */
  lemma QuietKeepsInv(w: World, c: Client)
    requires Inv(w)
    requires c.stored == w.client.stored && c.logins == w.client.logins
    requires c.flight == w.client.flight || (!Open(c.flight) && !Open(w.client.flight))
    requires NoOrphans(c)
    ensures Inv(w.(client := c))
  {
    var w' := w.(client := c);
    hide R.Inv, R.Find, Unharmed, NoOrphans;
    assert forall h :: Known(c, h) ==> Known(w.client, h);
  }

  lemma RequestKeepsInv(w: World, e: Event)
    requires Inv(w) && (e.DoCall? || e.DoAnswer? || e.DoResume? || e.DoRefresh? || e.DoFree?)
    ensures Inv(Step(w, e))
  {
    hide R.Inv, R.Find, Unharmed, StoredOk, FlightOk, LoginsOk, StraysOk;
    QuietKeepsInv(w, Step(w, e).client);
  }

  /** Steps of the client alone, whatever they do to its tokens. */
  lemma ClientStepKeepsInv(w: World, w': World)
    requires Inv(w) && w'.server == w.server && w'.mine == w.mine
    requires StoredOk(w') && FlightOk(w') && LoginsOk(w') && StraysOk(w') && NoOrphans(w'.client)
    ensures Inv(w')
  {
  }

  lemma ReadKeepsInv(w: World, e: Event)
    requires Inv(w) && e.DoRead?
    ensures Inv(Step(w, e))
  {
    hide R.Inv, R.Find, Unharmed;
    assert forall h :: Known(Step(w, e).client, h) ==> Known(w.client, h);
    ClientStepKeepsInv(w, Step(w, e));
  }

  lemma ThrottleKeepsInv(w: World, e: Event)
    requires Inv(w) && e.Throttle?
    ensures Inv(Step(w, e))
  {
    hide R.Inv, R.Find, Unharmed;
    assert forall h :: Known(Step(w, e).client, h) ==> Known(w.client, h);
    ClientStepKeepsInv(w, Step(w, e));
  }

  lemma SubmitKeepsInv(w: World, e: Event)
    requires Inv(w) && e.DoSubmit?
    ensures Inv(Step(w, e))
  {
    hide R.Inv, R.Find, Unharmed;
    assert forall i :: Pending(Step(w, e).client, i) ==> Pending(w.client, i);
    assert forall h :: Known(Step(w, e).client, h) ==> Known(w.client, h);
    ClientStepKeepsInv(w, Step(w, e));
  }

  lemma DeliverKeepsInv(w: World, e: Event)
    requires Inv(w) && e.DoDeliver? && !LosesSuccessor(w, e)
    ensures Inv(Step(w, e))
  {
    hide R.Inv, R.Find, Unharmed;
    assert forall h :: Known(Step(w, e).client, h) ==> Known(w.client, h);
    ClientStepKeepsInv(w, Step(w, e));
  }

  lemma LoseKeepsInv(w: World, e: Event)
    requires Inv(w) && (e.Lose? || e.DoReload?) && !LosesSuccessor(w, e)
    ensures Inv(Step(w, e))
  {
    hide R.Inv, R.Find, Unharmed;
    var w' := Step(w, e);
    assert forall h :: Known(w'.client, h) ==> Known(w.client, h);
    forall h | h in w'.strays ensures h in w.strays || (w.client.flight.Sent? && h == w.client.flight.token) {
    }
    forall i | 0 <= i < |w.client.logins| && w.client.logins[i].Reply? && w.client.logins[i].outcome.Session?
      ensures Pending(w.client, i)
    {
    }
    ClientStepKeepsInv(w, w');
  }

  lemma LogoutKeepsInv(w: World, e: Event)
    requires Inv(w) && e.DoLogout?
    ensures Inv(Step(w, e))
  {
    hide R.Inv, R.Find, Unharmed;
    assert forall h :: Known(Step(w, e).client, h) ==> Known(w.client, h);
    ClientStepKeepsInv(w, Step(w, e));
  }

  lemma DeliverLoginKeepsInv(w: World, e: Event)
    requires Inv(w) && e.DoDeliverLogin?
    ensures Inv(Step(w, e))
  {
    hide R.Inv, R.Find, Unharmed;
    var c := Step(w, e).client;
    assert forall i: nat :: Pending(c, i) ==> Pending(w.client, i) && i != e.i && c.logins[i] == w.client.logins[i];
    assert forall h :: Known(c, h) ==>
        Known(w.client, h) || (Pending(w.client, e.i) && h == w.client.logins[e.i].outcome.hash);
    ClientStepKeepsInv(w, Step(w, e));
  }

  // ------------------------------------------------------------------- server steps

  lemma OthersKeepInv(w: World, e: Event)
    requires Inv(w) && e.Others?
    ensures Inv(Step(w, e))
  {
    var w' := Step(w, e);
    if Foreign(w, e.e) {
      R.StepKeepsInv(w.server, e.e);
      forall h | Owned(w, h) ensures Spares(w.server, e.e, R.Find(w.server.rows, h).value) {
      }
      forall h ensures (Owned(w, h) ==> Owned(w', h)) && (Live(w, h) ==> Live(w', h)) && (Gone(w, h) ==> Gone(w', h)) {
        if Owned(w, h) {
          OwnedStays(w, e.e, w', h);
        }
      }
      RowsStayUnharmed(w.server, e.e, w.mine);
      ServerStepKeepsInv(w, w');
    }
  }

  /** The client stays as it is, and the server keeps what it owns. */
  lemma ServerStepKeepsInv(w: World, w': World)
    requires Inv(w) && w'.client == w.client && w'.mine == w.mine && w'.strays <= w.strays
    requires R.Inv(w'.server) && w.server.families <= w'.server.families && Unharmed(w'.server.rows, w'.mine)
    requires forall h :: (Owned(w, h) ==> Owned(w', h)) && (Live(w, h) ==> Live(w', h)) && (Gone(w, h) ==> Gone(w', h))
    ensures Inv(w')
  {
    hide R.Inv, R.Find, Unharmed, Owned, Live, Gone, NoOrphans;
  }

  /** A login is answered: a new family, known to nobody until the reply is delivered. */
  lemma LoginKeepsInv(w: World, e: Event)
    requires Inv(w) && e.ReceiveLogin?
    ensures Inv(Step(w, e))
  {
    var w' := Step(w, e);
    if w' != w {
      var r := LoginEvent(w.client.logins[e.i], e);
      R.StepKeepsInv(w.server, r);
      forall h ensures (Owned(w, h) ==> Owned(w', h)) && (Live(w, h) ==> Live(w', h)) && (Gone(w, h) ==> Gone(w', h)) {
        OwnedStays(w, r, w', h);
      }
      NewFamilyUnharmed(w.server, r, w.mine);
      forall h | Owned(w, h) ensures h != e.next.hash {
        assert R.Find(w.server.rows, h).value in w.server.rows;
      }
      var outcome := R.Result(w.server, r).1;
      if outcome.Session? {
        SessionIsStored(w.server, r);
        assert Live(w', outcome.hash);
      }
      LoginReplyKeepsInv(w, w', e.i, outcome);
    }
  }

  lemma LoginReplyKeepsInv(w: World, w': World, i: nat, outcome: R.Outcome)
    requires Inv(w) && i < |w.client.logins| && w.client.logins[i].Submitted?
    requires w'.strays == w.strays && w'.client == w.client.(logins := w.client.logins[i := Reply(outcome)])
    requires R.Inv(w'.server) && w'.mine <= w'.server.families && Unharmed(w'.server.rows, w'.mine)
    requires forall h :: (Owned(w, h) ==> Owned(w', h)) && (Live(w, h) ==> Live(w', h)) && (Gone(w, h) ==> Gone(w', h))
    requires outcome.Session? ==> Live(w', outcome.hash) && !Owned(w, outcome.hash)
    ensures Inv(w')
  {
    KnownIsOwned(w);
    ReplyLogins(w, w', i, outcome);
    ReplyStrays(w, w', i, outcome);
    hide R.Inv, R.Find, Unharmed, Owned, Live, Gone, LoginsOk, StraysOk;
  }

  lemma ReplyLogins(w: World, w': World, i: nat, outcome: R.Outcome)
    requires LoginsOk(w) && i < |w.client.logins| && w.client.logins[i].Submitted?
    requires w'.client == w.client.(logins := w.client.logins[i := Reply(outcome)])
    requires forall h :: Live(w, h) ==> Live(w', h)
    requires outcome.Session? ==> Live(w', outcome.hash) && !Owned(w, outcome.hash)
    requires forall h :: Known(w.client, h) ==> Owned(w, h)
    requires forall j: nat :: Pending(w.client, j) ==> Owned(w, w.client.logins[j].outcome.hash)
    ensures LoginsOk(w')
  {
    hide Owned, Live, Open;
    var c, c' := w.client, w'.client;
    forall h ensures Known(c', h) <==> Known(c, h) {
    }
    hide Known;
    forall j: nat | Pending(c', j)
      ensures (j == i && outcome.Session?) || (Pending(c, j) && j != i && c'.logins[j] == c.logins[j])
    {
    }
  }

  lemma ReplyStrays(w: World, w': World, i: nat, outcome: R.Outcome)
    requires StraysOk(w) && i < |w.client.logins|
    requires w'.strays == w.strays && w'.client == w.client.(logins := w.client.logins[i := Reply(outcome)])
    requires forall h :: Owned(w, h) ==> Owned(w', h)
    requires outcome.Session? ==> !Owned(w, outcome.hash)
    ensures StraysOk(w')
  {
    hide Owned;
  }

  /** Every token the client knows, or will, belongs to one of its families. */
  lemma KnownIsOwned(w: World)
    requires Inv(w)
    ensures forall h :: Known(w.client, h) || h in w.strays ==> Owned(w, h)
    ensures forall i: nat :: Pending(w.client, i) ==> Owned(w, w.client.logins[i].outcome.hash)
  {
    hide R.Inv, R.Find, Unharmed, NoOrphans;
  }

  /** The refresh is answered: its token may be spent, every other token of the client is spared. */
  lemma ReplyKeepsInv(w: World, w': World, outcome: R.Outcome)
    requires Inv(w) && w.client.flight.Sent?
    requires w'.strays == w.strays && w'.client == w.client.(flight := Answered(w.client.flight.token, outcome))
    requires R.Inv(w'.server) && w'.mine == w.mine && w.mine <= w'.server.families && Unharmed(w'.server.rows, w'.mine)
    requires forall h :: Owned(w, h) ==> Owned(w', h)
    requires forall h :: Live(w, h) && h != w.client.flight.token ==> Live(w', h)
    requires w.client.stored == Some(w.client.flight.token) && !outcome.Session? ==> Live(w', w.client.flight.token)
    requires outcome.Session? ==> Live(w', outcome.hash) && !Owned(w, outcome.hash) && Gone(w', w.client.flight.token)
    ensures Inv(w')
  {
    KnownIsOwned(w);
    AnswerLogins(w, w', outcome);
    AnswerStrays(w, w', outcome);
    AnswerTokens(w, w', outcome);
    hide R.Inv, R.Find, Unharmed, Owned, Live, Gone, LoginsOk, StraysOk, StoredOk, FlightOk;
  }

  lemma AnswerLogins(w: World, w': World, outcome: R.Outcome)
    requires LoginsOk(w) && w.client.flight.Sent?
    requires w'.client == w.client.(flight := Answered(w.client.flight.token, outcome))
    requires forall h :: Live(w, h) && h != w.client.flight.token ==> Live(w', h)
    requires outcome.Session? ==> !Owned(w, outcome.hash)
    requires forall j: nat :: Pending(w.client, j) ==> Owned(w, w.client.logins[j].outcome.hash)
    ensures LoginsOk(w')
  {
    hide Owned, Live;
    var c, c' := w.client, w'.client;
    assert Known(c, c.flight.token);
    forall h ensures Known(c', h) <==> Known(c, h) || (outcome.Session? && h == outcome.hash) {
    }
    hide Known;
    forall j: nat ensures Pending(c', j) <==> Pending(c, j) {
    }
  }

  lemma AnswerStrays(w: World, w': World, outcome: R.Outcome)
    requires StraysOk(w) && w.client.flight.Sent?
    requires w'.strays == w.strays && w'.client == w.client.(flight := Answered(w.client.flight.token, outcome))
    requires forall h :: Owned(w, h) ==> Owned(w', h)
    requires outcome.Session? ==> !Owned(w, outcome.hash)
    ensures StraysOk(w')
  {
    hide Owned;
  }

  lemma AnswerTokens(w: World, w': World, outcome: R.Outcome)
    requires StoredOk(w) && FlightOk(w) && w.client.flight.Sent?
    requires w'.client == w.client.(flight := Answered(w.client.flight.token, outcome))
    requires forall h :: Owned(w, h) ==> Owned(w', h)
    requires forall h :: Live(w, h) && h != w.client.flight.token ==> Live(w', h)
    requires w.client.stored == Some(w.client.flight.token) && !outcome.Session? ==> Live(w', w.client.flight.token)
    requires outcome.Session? ==> Live(w', outcome.hash) && Gone(w', w.client.flight.token)
    ensures StoredOk(w') && FlightOk(w')
  {
    assert Live(w, w.client.flight.token) ==> Owned(w, w.client.flight.token);
    hide Owned, Live, Gone;
  }

  /** What the server's step does to the tokens of the client, and to the one presented. */
  lemma ReceiveEffect(w: World, e: Event, h: R.Hash)
    requires Inv(w) && e.Receive? && w.client.flight.Sent? && R.Fresh(w.server, e.next)
    ensures var w' := Step(w, e);
      && (Owned(w, h) ==> Owned(w', h))
      && (Live(w, h) && h != w.client.flight.token ==> Live(w', h))
  {
    var token := w.client.flight.token;
    var r := RefreshEvent(token, e);
    if h == token {
      PresentedRow(w.server, r, R.Find(w.server.rows, token).value);
    } else {
      OwnedStays(w, r, Step(w, e), h);
    }
  }

  lemma OwnedIsDrawn(w: World, h: R.Hash)
    requires R.Inv(w.server) && Owned(w, h)
    ensures h in w.server.hashes
  {
    assert R.Find(w.server.rows, h).value in w.server.rows;
  }

  lemma ReceiveKeepsInv(w: World, e: Event)
    requires Inv(w) && e.Receive? && !LosesSuccessor(w, e)
    ensures Inv(Step(w, e))
  {
    var w' := Step(w, e);
    if w.client.flight.Sent? && R.Fresh(w.server, e.next) {
      var token := w.client.flight.token;
      var t := R.Find(w.server.rows, token).value;
      var r := RefreshEvent(token, e);
      var outcome := R.Result(w.server, r).1;
      R.StepKeepsInv(w.server, r);
      RowsStayUnharmed(w.server, r, w.mine);
      forall h ensures (Owned(w, h) ==> Owned(w', h)) && (Live(w, h) && h != token ==> Live(w', h)) {
        ReceiveEffect(w, e, h);
      }
      PresentedRow(w.server, r, t);
      if outcome.Session? {
        SessionIsStored(w.server, r);
        if Owned(w, e.next.hash) {
          OwnedIsDrawn(w, e.next.hash);
        }
      }
      ReplyKeepsInv(w, w', outcome);
    }
  }

  /** A spent stray of a dead family, or one that the server fails to look up, changes no row. */
  lemma RejectedStray(w: World, e: Event)
    requires Inv(w) && e.ReceiveStray? && !StrayHits(w, e) && e.token in w.strays && R.Fresh(w.server, e.next)
    requires R.Find(w.server.rows, e.token).value.revoked
    ensures Step(w, e).server.rows == w.server.rows
  {
    var t := R.Find(w.server.rows, e.token).value;
    var rows := R.Update(w.server.rows, R.FamilyRevoked(t.family));
    var i :| 0 <= i < |w.server.rows| && w.server.rows[i] == t;
    assert t.replacedBy.Some?;
    if R.Dead(w.server.rows, t.family) {
      assert rows == w.server.rows;
    }
  }

  lemma SameRowsKeepInv(w: World, w': World)
    requires Inv(w) && w'.client == w.client && w'.mine == w.mine && w'.strays <= w.strays
    requires R.Inv(w'.server) && w.server.families <= w'.server.families && w'.server.rows == w.server.rows
    ensures Inv(w')
  {
    hide R.Inv, R.Find, NoOrphans;
    ServerStepKeepsInv(w, w');
  }

  lemma RejectedStrayKeepsInv(w: World, e: Event)
    requires Inv(w) && e.ReceiveStray? && !StrayHits(w, e) && e.token in w.strays && R.Fresh(w.server, e.next)
    requires R.Find(w.server.rows, e.token).value.revoked
    ensures Inv(Step(w, e))
  {
    var r := RefreshEvent(e.token, e);
    RejectedStray(w, e);
    R.StepKeepsInv(w.server, r);
    assert w.server.families <= R.Step(w.server, r).families;
    hide R.Step, R.Inv, R.Find, NoOrphans, Unharmed, StoredOk, FlightOk, LoginsOk, StraysOk, StrayHits;
    SameRowsKeepInv(w, Step(w, e));
  }

  lemma AcceptedStrayRows(w: World, e: Event)
    requires Inv(w) && e.ReceiveStray? && e.token in w.strays && R.Fresh(w.server, e.next)
    requires !R.Find(w.server.rows, e.token).value.revoked
    ensures var w' := Step(w, e);
      R.Inv(w'.server) && w.server.families <= w'.server.families && Unharmed(w'.server.rows, w'.mine)
  {
    var r := RefreshEvent(e.token, e);
    R.StepKeepsInv(w.server, r);
    RowsStayUnharmed(w.server, r, w.mine);
  }

  /** A stray that rotates a token which the client no longer needs. */
  lemma AcceptedStray(w: World, e: Event)
    requires Inv(w) && e.ReceiveStray? && !StrayHits(w, e) && e.token in w.strays && R.Fresh(w.server, e.next)
    requires !R.Find(w.server.rows, e.token).value.revoked
    ensures Inv(Step(w, e))
  {
    var w' := Step(w, e);
    var t := R.Find(w.server.rows, e.token).value;
    AcceptedStrayRows(w, e);
    forall h
      ensures Owned(w, h) ==> Owned(w', h)
      ensures Live(w, h) && h != e.token ==> Live(w', h)
      ensures Gone(w, h) ==> Gone(w', h)
    {
      StrayEffect(w, e, h);
    }
    StrayRotates(w, e);
    assert w'.client == w.client && w'.strays <= w.strays;
    hide *;
    AcceptedStrayKeepsInv(w, w', e.token);
  }

  lemma StrayRotates(w: World, e: Event)
    requires Inv(w) && e.ReceiveStray? && e.token in w.strays && R.Fresh(w.server, e.next)
    requires !R.Find(w.server.rows, e.token).value.revoked
    ensures Live(Step(w, e), e.token) || Gone(Step(w, e), e.token)
    ensures !StrayHits(w, e) ==> Harmless(w.client, e.token) || Live(Step(w, e), e.token)
  {
    PresentedRow(w.server, RefreshEvent(e.token, e), R.Find(w.server.rows, e.token).value);
  }

  /** The client will not present the token again. */
  predicate Harmless(c: Client, token: R.Hash) {
    c.flight != Sent(token) && (c.stored == Some(token) ==> c.flight.Answered? && c.flight.outcome != R.Failed)
  }

  lemma StrayKeepsInv(w: World, e: Event)
    requires Inv(w) && e.ReceiveStray? && !StrayHits(w, e)
    ensures Inv(Step(w, e))
  {
    if e.token in w.strays && R.Fresh(w.server, e.next) {
      if R.Find(w.server.rows, e.token).value.revoked {
        RejectedStrayKeepsInv(w, e);
      } else {
        AcceptedStray(w, e);
      }
    }
  }

  lemma StrayEffect(w: World, e: Event, h: R.Hash)
    requires Inv(w) && e.ReceiveStray? && e.token in w.strays && R.Fresh(w.server, e.next)
    requires !R.Find(w.server.rows, e.token).value.revoked
    ensures var w' := Step(w, e);
      (Owned(w, h) ==> Owned(w', h)) && (Live(w, h) && h != e.token ==> Live(w', h)) && (Gone(w, h) ==> Gone(w', h))
  {
    var r := RefreshEvent(e.token, e);
    if h == e.token {
      PresentedRow(w.server, r, R.Find(w.server.rows, h).value);
    } else {
      OwnedStays(w, r, Step(w, e), h);
    }
  }

  lemma AcceptedStrayKeepsInv(w: World, w': World, token: R.Hash)
    requires Inv(w) && token in w.strays && w'.client == w.client && w'.mine == w.mine && w'.strays <= w.strays
    requires R.Inv(w'.server) && w.server.families <= w'.server.families && Unharmed(w'.server.rows, w'.mine)
    requires forall h ::
      (Owned(w, h) ==> Owned(w', h)) && (Live(w, h) && h != token ==> Live(w', h)) && (Gone(w, h) ==> Gone(w', h))
    requires Live(w', token) || (Gone(w', token) && Harmless(w.client, token))
    ensures Inv(w')
  {
    hide R.Inv, R.Find, Unharmed, Owned, Live, Gone, NoOrphans;
    forall i | 0 <= i < |w.client.logins| && Pending(w.client, i) ensures w.client.logins[i].outcome.hash != token {
    }
  }

  // ------------------------------------------------------------------- the exact condition

  /** A step from a good state leads to a good state exactly when it is not one of those in Breaks. */
  lemma StepIsSafeIff(w: World, e: Event)
    requires Inv(w)
    ensures Inv(Step(w, e)) <==> !Breaks(w, e)
  {
    if !Breaks(w, e) {
      StepKeepsInv(w, e);
    } else if LosesSuccessor(w, e) {
      LossLeavesSpentToken(w, e);
      SpentTokenIsBad(Step(w, e), w.client.stored.value);
    } else if R.Find(w.server.rows, e.token).value.revoked {
      LateStrayHarms(w, e);
    } else {
      EarlyStrayHarms(w, e);
      SpentTokenIsBad(Step(w, e), e.token);
    }
    hide *;
  }

  lemma StepKeepsInv(w: World, e: Event)
    requires Inv(w) && !Breaks(w, e)
    ensures Inv(Step(w, e))
  {
    assert !LosesSuccessor(w, e) && !StrayHits(w, e);
    hide *;
    match e
    case DoCall => RequestKeepsInv(w, e);
    case DoAnswer(_, _) => RequestKeepsInv(w, e);
    case DoResume(_) => RequestKeepsInv(w, e);
    case DoRefresh => RequestKeepsInv(w, e);
    case DoRead(_) => ReadKeepsInv(w, e);
    case Receive(_, _, _) => ReceiveKeepsInv(w, e);
    case ReceiveStray(_, _, _, _) => StrayKeepsInv(w, e);
    case Throttle => ThrottleKeepsInv(w, e);
    case Lose => LoseKeepsInv(w, e);
    case DoDeliver(_) => DeliverKeepsInv(w, e);
    case DoFree => RequestKeepsInv(w, e);
    case DoSubmit(_, _, _) => SubmitKeepsInv(w, e);
    case ReceiveLogin(_, _, _) => LoginKeepsInv(w, e);
    case DoDeliverLogin(_, _) => DeliverLoginKeepsInv(w, e);
    case DoLogout(_) => LogoutKeepsInv(w, e);
    case DoReload => LoseKeepsInv(w, e);
    case Others(_) => OthersKeepInv(w, e);
  }

  /** A lost successor: the stored token is one the server has rotated away, and nothing will replace it. */
  lemma LossLeavesSpentToken(w: World, e: Event)
    requires Inv(w) && LosesSuccessor(w, e)
    ensures var c' := Step(w, e).client;
      && c'.stored == w.client.stored && Gone(Step(w, e), w.client.stored.value)
      && !c'.flight.Sent? && !(c'.flight.Answered? && c'.flight.outcome != R.Failed)
  {
    if e.Receive? {
      var token := w.client.flight.token;
      var t := R.Find(w.server.rows, token).value;
      PresentedRow(w.server, RefreshEvent(token, e), t);
    }
  }

  lemma GoneIsNotLive(w: World, h: R.Hash)
    requires Gone(w, h)
    ensures !Live(w, h)
  {
  }

  /** A stray with a rotated token revokes a live family. */
  lemma LateStrayHarms(w: World, e: Event)
    requires Inv(w) && StrayHits(w, e) && R.Find(w.server.rows, e.token).value.revoked
    ensures R.Dead(Step(w, e).server.rows, R.Find(w.server.rows, e.token).value.family)
    ensures !Unharmed(Step(w, e).server.rows, w.mine)
  {
    var family := R.Find(w.server.rows, e.token).value.family;
    LateStray(w, e);
    LiveFamilyHit(w, e);
    KillingHarms(w.server, w.mine, family);
    hide *;
  }

  lemma LiveFamilyHit(w: World, e: Event)
    requires StrayHits(w, e) && R.Find(w.server.rows, e.token).value.revoked
    ensures !R.Dead(w.server.rows, R.Find(w.server.rows, e.token).value.family)
  {
    hide R.Find, R.Dead;
  }

  /** Revoking a family that has a live member leaves a revoked row without a successor. */
  lemma KillingHarms(s: R.State, mine: set<R.Id>, family: R.Id)
    requires R.Inv(s) && family in mine && !R.Dead(s.rows, family)
    ensures var rows := R.Update(s.rows, R.FamilyRevoked(family)); R.Dead(rows, family) && !Unharmed(rows, mine)
  {
    var i :| 0 <= i < |s.rows| && s.rows[i].family == family && !s.rows[i].revoked;
    UnrevokedHasNoSuccessor(s, s.rows[i]);
    hide R.Inv;
    assert R.Update(s.rows, R.FamilyRevoked(family))[i] == s.rows[i].(revoked := true);
  }

  lemma LateStray(w: World, e: Event)
    requires Inv(w) && StrayHits(w, e) && R.Find(w.server.rows, e.token).value.revoked
    ensures var t := R.Find(w.server.rows, e.token).value;
      t.family in w.mine && Step(w, e).server.rows == R.Update(w.server.rows, R.FamilyRevoked(t.family))
  {
    var t := R.Find(w.server.rows, e.token).value;
    var j :| 0 <= j < |w.server.rows| && w.server.rows[j] == t;
  }

  lemma UnrevokedHasNoSuccessor(s: R.State, t: R.Token)
    requires R.Inv(s) && t in s.rows && !t.revoked
    ensures t.replacedBy.None?
  {
    R.UnrevokedIsLast(s, t);
    assert R.Linear(s.rows, R.Family(s.rows, t.family));
  }

  /** A stray that rotates a token the client is going to present. */
  lemma EarlyStrayHarms(w: World, e: Event)
    requires Inv(w) && StrayHits(w, e) && !R.Find(w.server.rows, e.token).value.revoked
    ensures Gone(Step(w, e), e.token) && Step(w, e).client == w.client && !Harmless(w.client, e.token)
  {
    var r := RefreshEvent(e.token, e);
    var t := R.Find(w.server.rows, e.token).value;
    PresentedRow(w.server, r, t);
    assert Owned(w, e.token) && Step(w, e).server == R.Step(w.server, r);
    assert AfterRefresh(w.server, r, t) == t.(revoked := true, replacedBy := Some(e.next.id));
    hide R.Inv, R.Step, R.Result, R.Find, AfterRefresh;
  }

  lemma SpentTokenIsBad(w: World, token: R.Hash)
    requires Gone(w, token) && !Harmless(w.client, token)
    ensures !(StoredOk(w) && FlightOk(w))
  {
    GoneIsNotLive(w, token);
  }

  // ------------------------------------------------------------------- whole runs

  ghost predicate Careful(w: World, es: seq<Event>) {
    forall i :: 0 <= i < |es| ==> !Breaks(Run(w, es[..i]), es[i])
  }

  lemma {:induction false} CarefulFront(w: World, es: seq<Event>)
    requires |es| > 0 && Careful(w, es)
    ensures Careful(w, es[..|es| - 1]) && !Breaks(Run(w, es[..|es| - 1]), es[|es| - 1])
  {
    var front := es[..|es| - 1];
    forall i | 0 <= i < |front| ensures !Breaks(Run(w, front[..i]), front[i]) {
      assert front[..i] == es[..i] && front[i] == es[i];
    }
  }

  lemma {:induction false} RunKeepsInv(w: World, es: seq<Event>)
    requires Inv(w) && Careful(w, es)
    ensures Inv(Run(w, es))
  {
    if |es| > 0 {
      CarefulFront(w, es);
      RunKeepsInv(w, es[..|es| - 1]);
      StepKeepsInv(Run(w, es[..|es| - 1]), es[|es| - 1]);
    }
  }

  /** An abandoned request arrives with a revoked token. */
  predicate SpentStray(w: World, e: Event) {
    e.ReceiveStray? && R.Find(w.server.rows, e.token).Some? && R.Find(w.server.rows, e.token).value.revoked
  }

  /** Whatever the interleaving, the server never takes the client for a thief: no family of the client is ever
      revoked as a whole, each token an open refresh presents is unrevoked, and an abandoned request that still
      arrives with a revoked token changes no row. */
  lemma NeverMistakenForTheft(w: World, es: seq<Event>, now: int, e: Event)
    requires Inv(w) && Careful(w, es)
    ensures var w' := Run(w, es);
      && Unharmed(w'.server.rows, w'.mine)
      && (w'.client.flight.Sent? ==>
            var t := R.Find(w'.server.rows, w'.client.flight.token);
            && t.Some? && !t.value.revoked
            && R.DecideRotation(t.value.revoked, t.value.replacedBy, t.value.expires, now)
               == if t.value.expires <= now then R.RejectExpired else R.Allow)
      && (SpentStray(w', e) && !Breaks(w', e) ==> Step(w', e).server.rows == w'.server.rows)
  {
    RunKeepsInv(w, es);
    var w' := Run(w, es);
    if SpentStray(w', e) && !Breaks(w', e) && e.token in w'.strays && R.Fresh(w'.server, e.next) {
      RejectedStray(w', e);
    }
    hide Run, R.Step, R.Find, R.Inv;
  }

  /** Whenever no refresh is open, the stored token is unrevoked and the newest of its family. */
  lemma StoredIsNewest(w: World, es: seq<Event>)
    requires Inv(w) && Careful(w, es)
    ensures var w' := Run(w, es);
      w'.client.stored.Some? && !Open(w'.client.flight) ==>
        var t := R.Find(w'.server.rows, w'.client.stored.value);
        && t.Some? && !t.value.revoked && t.value.family in w'.mine
        && var m := R.Family(w'.server.rows, t.value.family); |m| > 0 && m[|m| - 1] == t.value
  {
    RunKeepsInv(w, es);
    var w' := Run(w, es);
    hide Run, Careful, Inv;
    if w'.client.stored.Some? && !Open(w'.client.flight) {
      NewestNow(w');
    }
  }

  lemma NewestNow(w: World)
    requires Inv(w) && w.client.stored.Some? && !Open(w.client.flight)
    ensures var t := R.Find(w.server.rows, w.client.stored.value);
      && t.Some? && !t.value.revoked && t.value.family in w.mine
      && var m := R.Family(w.server.rows, t.value.family); |m| > 0 && m[|m| - 1] == t.value
  {
    assert Live(w, w.client.stored.value);
    var t := R.Find(w.server.rows, w.client.stored.value).value;
    R.UnrevokedIsLast(w.server, t);
    hide R.Inv, R.Family, Inv;
  }

  lemma StepKeepsWaiting(w: World, e: Event)
    requires NoOrphans(w.client)
    ensures NoOrphans(Step(w, e).client)
  {
  }

  /** No request waits for a refresh that is not under way, in any run, whatever is lost and whatever breaks. */
  lemma {:induction false} NobodyWaitsInVain(w: World, es: seq<Event>)
    requires NoOrphans(w.client)
    ensures NoOrphans(Run(w, es).client)
  {
    if |es| > 0 {
      NobodyWaitsInVain(w, es[..|es| - 1]);
      StepKeepsWaiting(Run(w, es[..|es| - 1]), es[|es| - 1]);
    }
  }

  // ------------------------------------------------------------------- one refresh for all who wait

  /** How many refresh requests the client sends in a run. */
  function Sends(w: World, es: seq<Event>): (n: nat) {
    if |es| == 0 then 0
    else
      var before := Run(w, es[..|es| - 1]);
      Sends(w, es[..|es| - 1])
      + (if before.client.flight.Queued? && Step(before, es[|es| - 1]).client.flight.Sent? then 1 else 0)
  }

  /** How often the slot is freed in a run. */
  function Frees(w: World, es: seq<Event>): (n: nat) {
    if |es| == 0 then 0
    else
      var before := Run(w, es[..|es| - 1]);
      Frees(w, es[..|es| - 1])
      + (if !before.client.flight.Idle? && Step(before, es[|es| - 1]).client.flight.Idle? then 1 else 0)
  }

  function Budget(f: Flight): (n: nat) {
    if f.Idle? || f.Queued? then 1 else 0
  }

  lemma StepBudget(w: World, e: Event)
    ensures var f, f' := w.client.flight, Step(w, e).client.flight;
      (if f.Queued? && f'.Sent? then 1 else 0) + Budget(f') <= Budget(f) + (if !f.Idle? && f'.Idle? then 1 else 0)
  {
  }

  lemma {:induction false} RunBudget(w: World, es: seq<Event>)
    ensures Sends(w, es) + Budget(Run(w, es).client.flight) <= Budget(w.client.flight) + Frees(w, es)
  {
    if |es| > 0 {
      RunBudget(w, es[..|es| - 1]);
      StepBudget(Run(w, es[..|es| - 1]), es[|es| - 1]);
    }
  }

  predicate Waits(c: Client, i: nat) {
    i < |c.requests| && c.requests[i].Refreshing?
  }

  predicate Renewed(c: Client, i: nat) {
    i < |c.requests| && (c.requests[i] == Woken(true) || c.requests[i].Retried?)
  }

  predicate TurnedDown(c: Client, i: nat) {
    i < |c.requests| && c.requests[i] == Woken(false)
  }

  /** The two wait together, or neither waits and the refresh did not renew one and turn down the other. */
  predicate Together(c: Client, i: nat, j: nat) {
    (Waits(c, i) <==> Waits(c, j)) && !(Renewed(c, i) && TurnedDown(c, j)) && !(TurnedDown(c, i) && Renewed(c, j))
  }

  /** A request that has been sent off. */
  predicate Underway(c: Client, i: nat) {
    i < |c.requests| && !c.requests[i].First?
  }

  lemma StepKeepsTogether(w: World, e: Event, i: nat, j: nat)
    requires !e.DoReload? && Underway(w.client, i) && Underway(w.client, j) && Together(w.client, i, j)
    ensures var c := Step(w, e).client; Underway(c, i) && Underway(c, j) && Together(c, i, j)
    ensures Waits(Step(w, e).client, i) ==> Waits(w.client, i)
    ensures Waits(Step(w, e).client, i) && Step(w, e).client.flight.Idle? ==> w.client.flight.Idle?
  {
  }

  /** However many requests wait, as long as one of them waits at most one refresh request goes out, and none if
      it is out already; and whoever waits with it waits exactly as long and gets the same outcome. */
  lemma {:induction false} OneRefreshServesAll(w: World, es: seq<Event>, i: nat, j: nat)
    requires NoOrphans(w.client) && Waits(w.client, i) && Waits(w.client, j)
    requires forall k :: 0 <= k < |es| ==> !es[k].DoReload?
    ensures var c := Run(w, es).client; Underway(c, i) && Underway(c, j) && Together(c, i, j)
    ensures Waits(Run(w, es).client, i) ==> Frees(w, es) == 0 && Sends(w, es) <= 1
    ensures Waits(Run(w, es).client, i) && Open(w.client.flight) ==> Sends(w, es) == 0
  {
    if |es| > 0 {
      var front := es[..|es| - 1];
      OneRefreshServesAll(w, front, i, j);
      NobodyWaitsInVain(w, es);
      StepKeepsTogether(Run(w, front), es[|es| - 1], i, j);
    }
    RunBudget(w, es);
  }

  // ------------------------------------------------------------------- one retry per request

  /** Whether the step makes request i fetch again. */
  predicate Retries(w: World, e: Event, i: nat) {
    var before, after := w.client.requests, Step(w, e).client.requests;
    i < |before| && i < |after| && !before[i].Retried? && after[i].Retried?
  }

  function RetryCount(w: World, es: seq<Event>, i: nat): (n: nat) {
    if |es| == 0 then 0
    else
      RetryCount(w, es[..|es| - 1], i) + (if Retries(Run(w, es[..|es| - 1]), es[|es| - 1], i) then 1 else 0)
  }

  /** What request i may still do; a request not made yet has its whole allowance. */
  function Allowance(c: Client, i: nat): (n: nat) {
    if i >= |c.requests| then 1
    else
      match c.requests[i]
      case First(bearer) => if bearer.Some? then 1 else 0
      case Refreshing => 1
      case Woken(ok) => if ok then 1 else 0
      case _ => 0
  }

  lemma StepAllowance(w: World, e: Event, i: nat)
    requires !e.DoReload?
    ensures (if Retries(w, e, i) then 1 else 0) + Allowance(Step(w, e).client, i) <= Allowance(w.client, i)
  {
  }

  lemma {:induction false} RunAllowance(w: World, es: seq<Event>, i: nat)
    requires forall k :: 0 <= k < |es| ==> !es[k].DoReload?
    ensures RetryCount(w, es, i) + Allowance(Run(w, es).client, i) <= Allowance(w.client, i)
  {
    if |es| > 0 {
      RunAllowance(w, es[..|es| - 1], i);
      StepAllowance(Run(w, es[..|es| - 1]), es[|es| - 1], i);
    }
  }

  /** As long as the page stays, a request is retried at most once, and never after a refresh that failed,
      without an access token, or after it is over. */
  lemma OneRetryPerRequest(w: World, es: seq<Event>, i: nat)
    requires forall k :: 0 <= k < |es| ==> !es[k].DoReload?
    ensures RetryCount(w, es, i) <= 1
    ensures i < |w.client.requests| && w.client.requests[i] in {First(None), Woken(false), Over(true), Over(false)}
            ==> RetryCount(w, es, i) == 0
  {
    RunAllowance(w, es, i);
  }

  /** How many sessions the refresh brought in during a run. */
  function Renewals(w: World, es: seq<Event>): (n: nat) {
    if |es| == 0 then 0
    else
      var f := Run(w, es[..|es| - 1]).client.flight;
      Renewals(w, es[..|es| - 1])
      + (if es[|es| - 1].DoDeliver? && f.Answered? && f.outcome.Session? then 1 else 0)
  }

  /** No refresh has succeeded whose outcome some request has yet to see. */
  predicate NothingRenewed(c: Client) {
    c.flight != Settled(true) && forall i :: 0 <= i < |c.requests| ==> c.requests[i] != Woken(true)
  }

  lemma StepRenewsNothing(w: World, e: Event, i: nat)
    requires NothingRenewed(w.client)
    requires e.DoDeliver? && w.client.flight.Answered? ==> !w.client.flight.outcome.Session?
    ensures NothingRenewed(Step(w, e).client) && !Retries(w, e, i)
  {
  }

  /** Without a renewed session nothing is retried. */
  lemma {:induction false} NoRetryWithoutRenewal(w: World, es: seq<Event>, i: nat)
    requires NothingRenewed(w.client) && Renewals(w, es) == 0
    ensures RetryCount(w, es, i) == 0 && NothingRenewed(Run(w, es).client)
  {
    if |es| > 0 {
      NoRetryWithoutRenewal(w, es[..|es| - 1], i);
      StepRenewsNothing(Run(w, es[..|es| - 1]), es[|es| - 1], i);
    }
  }

  /** The client has no access token, and none is on its way in. */
  predicate SignedOut(c: Client) {
    c.access.None? && forall i :: 0 <= i < |c.requests| ==> c.requests[i] in {First(None), Over(true), Over(false)}
  }

  lemma StepStaysSignedOut(w: World, e: Event)
    requires SignedOut(w.client)
    requires e.DoDeliver? && w.client.flight.Answered? ==> !w.client.flight.outcome.Session?
    requires e.DoDeliverLogin? ==> !Pending(w.client, e.i)
    ensures SignedOut(Step(w, e).client)
  {
  }

  /** A page load forgets the access token: until a refresh or a login brings in a session, every request goes out
      without one, and none of them starts a refresh. */
  lemma {:induction false} PageLoadForgets(w: World, es: seq<Event>)
    requires forall k :: 0 <= k < |es| ==>
      var c := Run(Step(w, DoReload), es[..k]).client;
      && (es[k].DoDeliver? && c.flight.Answered? ==> !c.flight.outcome.Session?)
      && (es[k].DoDeliverLogin? ==> !Pending(c, es[k].i))
    ensures Step(w, DoReload).client.stored == w.client.stored
    ensures SignedOut(Run(Step(w, DoReload), es).client)
  {
    if |es| > 0 {
      var n := |es| - 1;
      forall k | 0 <= k < n ensures es[..n][..k] == es[..k] && es[..n][k] == es[k] {
      }
      PageLoadForgets(w, es[..n]);
      StepStaysSignedOut(Run(Step(w, DoReload), es[..n]), es[n]);
    }
  }

  // ------------------------------------------------------------------- what a request hands its caller

  /** The request has a fetch on its way. */
  predicate Hears(c: Client, i: nat) {
    i < |c.requests| && (c.requests[i].First? || c.requests[i].Retried?)
  }

  /** The replies that request i got in a run, in order: was it a 401? */
  function Replies(w: World, es: seq<Event>, i: nat): (replies: seq<bool>) {
    if |es| == 0 then []
    else
      var e := es[|es| - 1];
      Replies(w, es[..|es| - 1], i)
      + (if e.DoAnswer? && e.i == i && Hears(Run(w, es[..|es| - 1]).client, i) then [e.unauthorized] else [])
  }

  /** The access token at the moment request i was made. */
  function FirstBearer(w: World, es: seq<Event>, i: nat): (bearer: Option<R.Hash>) {
    if |es| == 0 then None
    else
      var c := Run(w, es[..|es| - 1]).client;
      if es[|es| - 1].DoCall? && |c.requests| == i then c.access else FirstBearer(w, es[..|es| - 1], i)
  }

  /** Request i came back from a refresh that had failed. */
  predicate SawRefreshFail(w: World, es: seq<Event>, i: nat) {
    |es| > 0 &&
    (|| SawRefreshFail(w, es[..|es| - 1], i)
     || (es[|es| - 1] == DoResume(i) && TurnedDown(Run(w, es[..|es| - 1]).client, i)))
  }

  /** How far a request has come, by what it was sent with and what it was told. */
  predicate Account(r: Request, bearer: Option<R.Hash>, replies: seq<bool>, failed: bool) {
    match r
    case First(b) => replies == [] && b == bearer && !failed
    case Refreshing => replies == [true] && bearer.Some? && !failed
    case Woken(_) => replies == [true] && bearer.Some? && !failed
    case Retried(_) => replies == [true] && bearer.Some? && !failed
    case Over(authorized) =>
      if authorized then replies == [false] || replies == [true, false]
      else replies == [true, true] || (replies == [true] && (bearer.None? || failed))
  }

  lemma StepAccounts(w: World, e: Event, i: nat, bearer: Option<R.Hash>, replies: seq<bool>, failed: bool)
    requires !e.DoReload? && i < |Step(w, e).client.requests|
    requires i < |w.client.requests| ==> Account(w.client.requests[i], bearer, replies, failed)
    requires i >= |w.client.requests| ==> replies == [] && !failed
    ensures Account(Step(w, e).client.requests[i],
                    if e.DoCall? && |w.client.requests| == i then w.client.access else bearer,
                    replies + (if e.DoAnswer? && e.i == i && Hears(w.client, i) then [e.unauthorized] else []),
                    failed || (e == DoResume(i) && TurnedDown(w.client, i)))
  {
    assert replies + [] == replies;
  }

  lemma {:induction false} NotMadeYet(w: World, es: seq<Event>, i: nat)
    requires i >= |Run(w, es).client.requests| && (forall k :: 0 <= k < |es| ==> !es[k].DoReload?)
    ensures Replies(w, es, i) == [] && !SawRefreshFail(w, es, i)
  {
    if |es| > 0 {
      RequestsStay(Run(w, es[..|es| - 1]), es[|es| - 1]);
      NotMadeYet(w, es[..|es| - 1], i);
    }
  }

  lemma RequestsStay(w: World, e: Event)
    requires !e.DoReload?
    ensures |w.client.requests| <= |Step(w, e).client.requests|
  {
  }

  lemma {:induction false} RunAccounts(w: World, es: seq<Event>, i: nat)
    requires |w.client.requests| <= i < |Run(w, es).client.requests|
    requires forall k :: 0 <= k < |es| ==> !es[k].DoReload?
    ensures Account(Run(w, es).client.requests[i], FirstBearer(w, es, i), Replies(w, es, i), SawRefreshFail(w, es, i))
  {
    var front := es[..|es| - 1];
    if i < |Run(w, front).client.requests| {
      RunAccounts(w, front, i);
    } else {
      NotMadeYet(w, front, i);
    }
    hide Step, Account;
    StepAccounts(Run(w, front), es[|es| - 1], i, FirstBearer(w, front, i), Replies(w, front, i),
                 SawRefreshFail(w, front, i));
  }

  /** As long as the page stays, a request made in it succeeds exactly when its last reply was not a 401, and is turned
      down exactly when its last reply was a 401 and it had no access token, had been retried, or its refresh failed. */
  lemma RequestVerdict(w: World, es: seq<Event>, i: nat)
    requires |w.client.requests| <= i < |Run(w, es).client.requests|
    requires forall k :: 0 <= k < |es| ==> !es[k].DoReload?
    ensures var r, replies := Run(w, es).client.requests[i], Replies(w, es, i);
      && |replies| <= 2
      && (r == Over(true) <==> replies != [] && !replies[|replies| - 1])
      && (r == Over(false) <==>
            replies != [] && replies[|replies| - 1]
            && (FirstBearer(w, es, i).None? || |replies| == 2 || SawRefreshFail(w, es, i)))
  {
    RunAccounts(w, es, i);
    hide Run, Replies, FirstBearer, SawRefreshFail;
  }

  lemma StepKeepsVerdict(w: World, e: Event, i: nat)
    requires !e.DoReload? && i < |w.client.requests| && w.client.requests[i].Over?
    ensures i < |Step(w, e).client.requests| && Step(w, e).client.requests[i] == w.client.requests[i]
  {
  }

  /** And it keeps its verdict. */
  lemma {:induction false} VerdictStays(w: World, es: seq<Event>, i: nat)
    requires i < |w.client.requests| && w.client.requests[i].Over?
    requires forall k :: 0 <= k < |es| ==> !es[k].DoReload?
    ensures i < |Run(w, es).client.requests| && Run(w, es).client.requests[i] == w.client.requests[i]
  {
    if |es| > 0 {
      VerdictStays(w, es[..|es| - 1], i);
      StepKeepsVerdict(Run(w, es[..|es| - 1]), es[|es| - 1], i);
    }
  }

  /** The refresh that a request waits for has come as far as its deliveries say. */
  predicate Delivering(c: Client, renewals: nat) {
    !c.flight.Idle? && if c.flight.Settled? then c.flight.ok <==> renewals > 0 else renewals == 0
  }

  lemma StepDelivers(w: World, e: Event, i: nat, renewals: nat)
    requires !e.DoReload? && Waits(w.client, i) && Delivering(w.client, renewals) && Waits(Step(w, e).client, i)
    ensures Delivering(Step(w, e).client,
                       renewals + (if e.DoDeliver? && w.client.flight.Answered? && w.client.flight.outcome.Session?
                                   then 1 else 0))
  {
  }

  lemma {:induction false} RunDelivers(w: World, es: seq<Event>, i: nat)
    requires Waits(w.client, i) && !w.client.flight.Idle? && !w.client.flight.Settled?
    requires Waits(Run(w, es).client, i) && forall k :: 0 <= k < |es| ==> !es[k].DoReload?
    ensures Delivering(Run(w, es).client, Renewals(w, es))
  {
    if |es| > 0 {
      var front, e := es[..|es| - 1], es[|es| - 1];
      OneRefreshServesAll(w, front, i, i);
      StepKeepsTogether(Run(w, front), e, i, i);
      hide Step;
      RunDelivers(w, front, i);
      StepDelivers(Run(w, front), e, i, Renewals(w, front));
    }
  }

  /** Whoever waits is retried, with the access token of that moment, exactly when the refresh it waited for brought in
      a session; otherwise it gets its first 401. */
  lemma WaiterGetsTheOutcome(w: World, es: seq<Event>, i: nat)
    requires Waits(w.client, i) && !w.client.flight.Idle? && !w.client.flight.Settled?
    requires Waits(Run(w, es).client, i) && Run(w, es).client.flight.Settled?
    requires forall k :: 0 <= k < |es| ==> !es[k].DoReload?
    ensures var c := Step(Step(Run(w, es), DoFree), DoResume(i)).client;
      && c.flight.Idle? && |c.requests| == |Run(w, es).client.requests|
      && c.requests[i] == if Renewals(w, es) > 0 then Retried(Run(w, es).client.access) else Over(false)
  {
    RunDelivers(w, es, i);
    hide Run, Renewals;
  }

  // -------------------------------------------------------------- why the condition is needed

  const NO_FAULTS := R.RefreshFaults(false, false, false, Healthy, Healthy, false, Healthy)

  /** The client goes on: if its spent token is on the way it arrives; otherwise whatever is open ends, the
      client refreshes again, and that request arrives. */
  function NextRefresh(w: World, token: R.Hash, now: int, next: R.NewToken): (es: seq<Event>) {
    if w.client.flight == Sent(token) then [Receive(now, next, NO_FAULTS)]
    else [Throttle, DoDeliver(true), DoFree, DoRefresh, DoRead(true), Receive(now, next, NO_FAULTS)]
  }

  lemma RunOne(w: World, a: Event)
    ensures Run(w, [a]) == Step(w, a)
  {
    hide Step;
    assert [a][..0] == [];
  }

  lemma RunSix(w: World, a: Event, b: Event, c: Event, d: Event, e: Event, f: Event)
    ensures Run(w, [a, b, c, d, e, f]) == Step(Step(Step(Step(Step(Step(w, a), b), c), d), e), f)
  {
    hide Step;
    assert [a, b, c, d, e, f][..5] == [a, b, c, d, e];
    assert [a, b, c, d, e][..4] == [a, b, c, d] && [a, b, c, d][..3] == [a, b, c];
    assert [a, b, c][..2] == [a, b] && [a, b][..1] == [a] && [a][..0] == [];
    assert Run(w, [a]) == Step(w, a);
    assert Run(w, [a, b]) == Step(Step(w, a), b);
    assert Run(w, [a, b, c]) == Step(Step(Step(w, a), b), c);
    assert Run(w, [a, b, c, d]) == Step(Step(Step(Step(w, a), b), c), d);
  }

  lemma WorldStepKeepsDead(w: World, e: Event, family: R.Id)
    requires R.Dead(w.server.rows, family) && family in w.server.families
    ensures R.Dead(Step(w, e).server.rows, family) && family in Step(w, e).server.families
  {
    var s := Step(w, e).server;
    if s != w.server {
      var r: R.Event;
      match e {
        case Receive(_, _, _) => r := RefreshEvent(w.client.flight.token, e);
        case ReceiveStray(token, _, _, _) => r := RefreshEvent(token, e);
        case ReceiveLogin(i, _, _) => r := LoginEvent(w.client.logins[i], e);
        case Others(o) => r := o;
      }
      assert s == R.Step(w.server, r);
      R.StepKeepsDead(w.server, r, family);
    }
  }

  lemma {:induction false} WorldKeepsDead(w: World, es: seq<Event>, family: R.Id)
    requires R.Dead(w.server.rows, family) && family in w.server.families
    ensures R.Dead(Run(w, es).server.rows, family)
    ensures family in Run(w, es).server.families
  {
    if |es| > 0 {
      WorldKeepsDead(w, es[..|es| - 1], family);
      WorldStepKeepsDead(Run(w, es[..|es| - 1]), es[|es| - 1], family);
    }
  }

  /** The token that a breaking step spends. */
  function Victim(w: World, e: Event): (h: R.Hash)
    requires Breaks(w, e)
  {
    if e.ReceiveStray? then e.token else w.client.stored.value
  }

  /** After a breaking step there is a way on, with no further fault on the server, in which the client's
      family is revoked as stolen; and that is for good. */
  lemma BreakRevokesTheFamily(w: World, e: Event, now: int, next: R.NewToken, later: seq<Event>)
    requires Inv(w) && Breaks(w, e) && R.Fresh(Step(w, e).server, next)
    ensures var w' := Run(Step(w, e), NextRefresh(Step(w, e), Victim(w, e), now, next));
      var t := R.Find(w.server.rows, Victim(w, e));
      t.Some? && t.value.family in w.mine && R.Dead(Run(w', later).server.rows, t.value.family)
  {
    var broken, victim := Step(w, e), Victim(w, e);
    var t := R.Find(w.server.rows, victim).value;
    var es := NextRefresh(broken, victim, now, next);
    BrokenServer(w, e);
    if e.ReceiveStray? && t.revoked {
      LateStrayHarms(w, e);
      WorldKeepsDead(broken, es, t.family);
    } else {
      if e.ReceiveStray? {
        EarlyStrayHarms(w, e);
      } else {
        LossLeavesSpentToken(w, e);
      }
      PresentedAgain(broken, victim, now, next);
    }
    WorldKeepsDead(Run(broken, es), later, t.family);
  }

  /** A client that is going to present a spent token has its family revoked. */
  lemma PresentedAgain(w: World, token: R.Hash, now: int, next: R.NewToken)
    requires R.Inv(w.server) && Gone(w, token) && !Harmless(w.client, token) && R.Fresh(w.server, next)
    ensures var w' := Run(w, NextRefresh(w, token, now, next));
      var family := R.Find(w.server.rows, token).value.family;
      R.Dead(w'.server.rows, family) && family in w'.server.families
  {
    var r := R.Refresh(Some(token), now, next, NO_FAULTS);
    var t := R.Find(w.server.rows, token).value;
    var last := Receive(now, next, NO_FAULTS);
    var sent := w;
    if w.client.flight == Sent(token) {
      RunOne(w, last);
    } else {
      sent := SentAgain(w, token);
      RunSix(w, Throttle, DoDeliver(true), DoFree, DoRefresh, DoRead(true), last);
    }
    assert Step(sent, last).server == R.Step(w.server, r);
    R.ReplayKillsForGood(w.server, r, t, []);
    assert R.Run(R.Step(w.server, r), []) == R.Step(w.server, r);
  }

  lemma BrokenServer(w: World, e: Event)
    requires Inv(w) && Breaks(w, e)
    ensures R.Inv(Step(w, e).server)
    ensures var t, t' := R.Find(w.server.rows, Victim(w, e)), R.Find(Step(w, e).server.rows, Victim(w, e));
      t.Some? && t.value.family in w.mine && t.value.family in Step(w, e).server.families
      && (!(e.ReceiveStray? && t.value.revoked) ==> t'.Some? && t'.value.family == t.value.family)
  {
    if e.Receive? || e.ReceiveStray? {
      var token := Victim(w, e);
      var r := RefreshEvent(token, e);
      var t := R.Find(w.server.rows, token).value;
      R.StepKeepsInv(w.server, r);
      if !t.revoked {
        PresentedRow(w.server, r, t);
      }
    }
  }

  lemma SentAgain(w: World, token: R.Hash) returns (w': World)
    requires w.client.flight != Sent(token) && !Harmless(w.client, token)
    ensures w' == Step(Step(Step(Step(Step(w, Throttle), DoDeliver(true)), DoFree), DoRefresh), DoRead(true))
    ensures w'.client.flight == Sent(token) && w'.server == w.server && w'.mine == w.mine
  {
    w' := Step(Step(Step(Step(Step(w, Throttle), DoDeliver(true)), DoFree), DoRefresh), DoRead(true));
  }
}
