/**
 * Refresh as it really runs under concurrency: the read, the revocation and the insert are
 * separate statements, and any number of calls interleave between them. A call may stop
 * anywhere. `origin`, `seen`, `firstRevoke` and `time` record history; the code never reads them.
 */
module RefreshRace {
  import opened Basics
  import opened RefreshTokens

  type CallId = nat

  datatype Origin = LoggedIn | RotatedFrom(parent: Id, author: CallId)

  datatype Row = Row(token: Token, origin: Origin)

  datatype Phase =
    | Presenting(hash: Hash)
    | Rotating(token: Token)
    | Storing(token: Token, next: NewToken)
    | Killing(family: Id)
    | Ended

  /** A read that allowed rotation: of which token, and when. */
  datatype Seen = Seen(token: Id, at: nat)

  datatype Race = Race(rows: seq<Row>, phases: map<CallId, Phase>, seen: map<CallId, Seen>,
                       firstRevoke: map<Id, nat>, time: nat, ids: set<Id>, hashes: set<Hash>, families: set<Id>)

  const START := Race([], map[], map[], map[], 0, {}, {}, {})

  datatype Move =
    | Login(user: string, tenant: string, next: NewToken, fault: Fault)
    | Present(call: CallId, hash: Hash)
    | Read(call: CallId, now: int, healthy: bool)
    | Revoke(call: CallId, next: NewToken, ready: bool, fault: Fault)
    | Store(call: CallId, fault: Fault)
    | Kill(call: CallId, fault: Fault)

  function Tokens(rows: seq<Row>): (tokens: seq<Token>)
    ensures |tokens| == |rows| && forall i :: 0 <= i < |rows| ==> tokens[i] == rows[i].token
  {
    seq(|rows|, i requires 0 <= i < |rows| => rows[i].token)
  }

  function UpdateTokens(rows: seq<Row>, f: Token -> Token): (out: seq<Row>)
    ensures |out| == |rows| && forall i :: 0 <= i < |rows| ==> out[i] == rows[i].(token := f(rows[i].token))
  {
    seq(|rows|, i requires 0 <= i < |rows| => rows[i].(token := f(rows[i].token)))
  }

  predicate Unseen(s: Race, next: NewToken) {
    next.id !in s.ids && next.hash !in s.hashes && next.family !in s.families
  }

  function Draw(s: Race, next: NewToken): (s': Race) {
    s.(ids := s.ids + {next.id}, hashes := s.hashes + {next.hash}, families := s.families + {next.family})
  }

  function AfterRead(s: Race, c: CallId, now: int): (s': Race)
    requires c in s.phases && s.phases[c].Presenting?
  {
    var found := Find(Tokens(s.rows), s.phases[c].hash);
    if found.None? then s.(phases := s.phases[c := Ended])
    else
      var t := found.value;
      match DecideRotation(t.revoked, t.replacedBy, t.expires, now)
      case RejectInvalid => s.(phases := s.phases[c := Ended])
      case RejectExpired => s.(phases := s.phases[c := Ended])
      case RejectRevoked => s.(phases := s.phases[c := Killing(t.family)])
      case Allow => s.(phases := s.phases[c := Rotating(t)], seen := s.seen[c := Seen(t.id, s.time)])
  }

  function AfterRevoke(s: Race, c: CallId, next: NewToken, fault: Fault): (s': Race)
    requires c in s.phases && s.phases[c].Rotating?
  {
    var t := s.phases[c].token;
    if fault.Lost? then s.(phases := s.phases[c := Ended])
    else
      Draw(s, next).(rows := UpdateTokens(s.rows, Revoked(t.id, next.id)),
                     firstRevoke := if t.id in s.firstRevoke then s.firstRevoke else s.firstRevoke[t.id := s.time],
                     phases := s.phases[c := if fault.AckLost? then Ended else Storing(t, next)])
  }

  function Effect(s: Race, m: Move): (s': Race) {
    match m
    case Login(user, tenant, next, fault) =>
      if !Unseen(s, next) || fault.Lost? then s
      else
        var t := Token(next.id, user, tenant, next.family, next.hash, next.expires, false, None);
        Draw(s, next).(rows := s.rows + [Row(t, LoggedIn)])
    case Present(c, hash) =>
      if c in s.phases then s else s.(phases := s.phases[c := Presenting(hash)])
    case Read(c, now, healthy) =>
      if c !in s.phases || !s.phases[c].Presenting? then s
      else if !healthy then s.(phases := s.phases[c := Ended])
      else AfterRead(s, c, now)
    case Revoke(c, next, ready, fault) =>
      if c !in s.phases || !s.phases[c].Rotating? || !Unseen(s, next) then s
      else if !ready then s.(phases := s.phases[c := Ended])
      else AfterRevoke(s, c, next, fault)
    case Store(c, fault) =>
      if c !in s.phases || !s.phases[c].Storing? then s
      else
        var k := s.phases[c];
        s.(phases := s.phases[c := Ended],
           rows := if fault.Lost? then s.rows
                   else s.rows + [Row(Successor(k.token, k.next), RotatedFrom(k.token.id, c))])
    case Kill(c, fault) =>
      if c !in s.phases || !s.phases[c].Killing? then s
      else
        s.(phases := s.phases[c := Ended],
           rows := if fault.Lost? then s.rows else UpdateTokens(s.rows, FamilyRevoked(s.phases[c].family)))
  }

  function Next(s: Race, m: Move): (s': Race) {
    var e := Effect(s, m);
    e.(time := s.time + 1)
  }

  function Races(s: Race, ms: seq<Move>): (s': Race) {
    if |ms| == 0 then s else Next(Races(s, ms[..|ms| - 1]), ms[|ms| - 1])
  }

  // ------------------------------------------------------------------- invariant

  /** Some row holds this token, at least as revoked. */
  predicate Held(rows: seq<Row>, t: Token) {
    exists j :: 0 <= j < |rows| && Same(rows[j].token, t)
  }

  predicate Same(u: Token, t: Token) {
    u.id == t.id && u.user == t.user && u.tenant == t.tenant && u.family == t.family
  }

  predicate IsRevoked(rows: seq<Row>, id: Id) {
    exists j :: 0 <= j < |rows| && rows[j].token.id == id && rows[j].token.revoked
  }

  ghost predicate RowsOk(s: Race) {
    && (forall i, j :: 0 <= i < j < |s.rows| ==> s.rows[i].token.id != s.rows[j].token.id)
    && (forall i :: 0 <= i < |s.rows| ==> s.rows[i].token.id in s.ids && s.rows[i].token.family in s.families)
    && (forall i, j :: 0 <= i < j < |s.rows| && s.rows[i].origin.RotatedFrom? && s.rows[j].origin.RotatedFrom?
          ==> s.rows[i].origin.author != s.rows[j].origin.author)
  }

  /** A stored successor: its author read the parent and is done; user, tenant and family are the parent's. */
  ghost predicate OriginOk(s: Race, r: Row) {
    r.origin.RotatedFrom? ==>
      && r.origin.author in s.phases && s.phases[r.origin.author].Ended?
      && r.origin.author in s.seen && s.seen[r.origin.author].token == r.origin.parent
      && r.origin.parent in s.firstRevoke
      && Held(s.rows, r.token.(id := r.origin.parent))
  }

  ghost predicate PhaseOk(s: Race, c: CallId) {
    c in s.phases ==>
      match s.phases[c]
      case Presenting(_) => c !in s.seen
      case Rotating(t) => c in s.seen && s.seen[c].token == t.id && Held(s.rows, t)
      case Storing(t, next) =>
        && c in s.seen && s.seen[c].token == t.id && Held(s.rows, t) && t.id in s.firstRevoke
        && next.id in s.ids && (forall i :: 0 <= i < |s.rows| ==> s.rows[i].token.id != next.id)
      case Killing(family) => family in s.families
      case Ended => true
  }

  ghost predicate HistoryOk(s: Race) {
    && (forall c :: c in s.seen ==> c in s.phases && s.seen[c].at < s.time)
    && (forall c :: c in s.seen && s.seen[c].token in s.firstRevoke ==> s.seen[c].at < s.firstRevoke[s.seen[c].token])
    && (forall x :: x in s.firstRevoke ==> IsRevoked(s.rows, x))
    && (forall c, d :: c in s.phases && d in s.phases && c != d && s.phases[c].Storing? && s.phases[d].Storing?
          ==> s.phases[c].next.id != s.phases[d].next.id)
  }

  ghost predicate RaceInv(s: Race) {
    && RowsOk(s) && HistoryOk(s)
    && (forall i {:trigger OriginOk(s, s.rows[i])} :: 0 <= i < |s.rows| ==> OriginOk(s, s.rows[i]))
    && (forall c :: PhaseOk(s, c))
  }

  // ------------------------------------------------------------------- preservation

  /** An update of the kind the store makes: identity stays, revocation is never undone. */
  ghost predicate Gentle(f: Token -> Token) {
    forall t :: Same(f(t), t) && f(t).hash == t.hash && (t.revoked ==> f(t).revoked)
  }

  lemma UpdateKeepsHeld(rows: seq<Row>, f: Token -> Token)
    requires Gentle(f)
    ensures forall t :: Held(rows, t) ==> Held(UpdateTokens(rows, f), t)
    ensures forall x :: IsRevoked(rows, x) ==> IsRevoked(UpdateTokens(rows, f), x)
  {
    var out := UpdateTokens(rows, f);
    forall t | Held(rows, t) ensures Held(out, t) {
      var j :| 0 <= j < |rows| && Same(rows[j].token, t);
      assert Same(out[j].token, t);
    }
    forall x | IsRevoked(rows, x) ensures IsRevoked(out, x) {
      var j :| 0 <= j < |rows| && rows[j].token.id == x && rows[j].token.revoked;
      assert out[j].token.id == x && out[j].token.revoked;
    }
  }

  lemma AppendKeepsHeld(rows: seq<Row>, r: Row)
    ensures forall t :: Held(rows, t) ==> Held(rows + [r], t)
    ensures forall x :: IsRevoked(rows, x) ==> IsRevoked(rows + [r], x)
  {
    var out := rows + [r];
    forall t | Held(rows, t) ensures Held(out, t) {
      var j :| 0 <= j < |rows| && Same(rows[j].token, t);
      assert Same(out[j].token, t);
    }
    forall x | IsRevoked(rows, x) ensures IsRevoked(out, x) {
      var j :| 0 <= j < |rows| && rows[j].token.id == x && rows[j].token.revoked;
      assert out[j].token.id == x && out[j].token.revoked;
    }
  }

  lemma SameHeld(rows: seq<Row>, t: Token, u: Token)
    requires Held(rows, t) && Same(u, t)
    ensures Held(rows, u)
  {
    var j :| 0 <= j < |rows| && Same(rows[j].token, t);
    assert Same(rows[j].token, u);
  }

  /** A token-table update that moves no phase. */
  lemma UpdateKeepsInv(s: Race, f: Token -> Token)
    requires RaceInv(s) && Gentle(f)
    ensures RaceInv(s.(rows := UpdateTokens(s.rows, f)))
  {
    var s' := s.(rows := UpdateTokens(s.rows, f));
    UpdateKeepsHeld(s.rows, f);
    forall i | 0 <= i < |s'.rows| ensures OriginOk(s', s'.rows[i]) {
      assert OriginOk(s, s.rows[i]);
      assert Same(s'.rows[i].token, s.rows[i].token);
      if s.rows[i].origin.RotatedFrom? {
        SameHeld(s'.rows, s.rows[i].token.(id := s.rows[i].origin.parent),
            s'.rows[i].token.(id := s'.rows[i].origin.parent));
      }
    }
    hide Held, IsRevoked;
    forall c ensures PhaseOk(s', c) {
      assert PhaseOk(s, c);
    }
  }

  /** A call that stops. */
  lemma EndKeepsInv(s: Race, c: CallId)
    requires RaceInv(s) && c in s.phases
    ensures RaceInv(s.(phases := s.phases[c := Ended]))
  {
    var s' := s.(phases := s.phases[c := Ended]);
    forall d ensures PhaseOk(s', d) {
      assert PhaseOk(s, d);
    }
    forall i | 0 <= i < |s'.rows| ensures OriginOk(s', s'.rows[i]) {
      assert OriginOk(s, s.rows[i]);
    }
  }

  lemma TickKeepsInv(s: Race)
    requires RaceInv(s)
    ensures RaceInv(s.(time := s.time + 1))
  {
    var s' := s.(time := s.time + 1);
    forall c ensures PhaseOk(s', c) {
      assert PhaseOk(s, c);
    }
    forall i | 0 <= i < |s'.rows| ensures OriginOk(s', s'.rows[i]) {
      assert OriginOk(s, s.rows[i]);
    }
  }

  lemma LoginKeepsInv(s: Race, t: Token, next: NewToken)
    requires RaceInv(s) && Unseen(s, next) && t.id == next.id && t.family == next.family
    ensures RaceInv(Draw(s, next).(rows := s.rows + [Row(t, LoggedIn)]))
  {
    var r := Row(t, LoggedIn);
    var s' := Draw(s, next).(rows := s.rows + [r]);
    AppendKeepsHeld(s.rows, r);
    hide Held, IsRevoked;
    forall i | 0 <= i < |s'.rows| ensures OriginOk(s', s'.rows[i]) {
      if i < |s.rows| {
        assert OriginOk(s, s.rows[i]);
      }
    }
    forall c ensures PhaseOk(s', c) {
      assert PhaseOk(s, c);
    }
  }

  lemma PresentKeepsInv(s: Race, c: CallId, hash: Hash)
    requires RaceInv(s) && c !in s.phases
    ensures RaceInv(s.(phases := s.phases[c := Presenting(hash)]))
  {
    var s' := s.(phases := s.phases[c := Presenting(hash)]);
    forall d ensures PhaseOk(s', d) {
      assert PhaseOk(s, d);
    }
    forall i | 0 <= i < |s'.rows| ensures OriginOk(s', s'.rows[i]) {
      assert OriginOk(s, s.rows[i]);
    }
  }

  function Allowed(s: Race, c: CallId, t: Token): (s': Race) {
    s.(phases := s.phases[c := Rotating(t)], seen := s.seen[c := Seen(t.id, s.time)], time := s.time + 1)
  }

  lemma AllowKeepsHistory(s: Race, c: CallId, t: Token, j: nat)
    requires RaceInv(s) && c in s.phases && s.phases[c].Presenting?
    requires j < |s.rows| && s.rows[j].token == t && !t.revoked
    ensures HistoryOk(Allowed(s, c, t))
  {
    assert t.id !in s.firstRevoke;
    hide Held, IsRevoked, RowsOk, OriginOk, PhaseOk;
  }

  lemma AllowKeepsPhase(s: Race, c: CallId, t: Token, j: nat, d: CallId)
    requires RaceInv(s) && c in s.phases && s.phases[c].Presenting?
    requires j < |s.rows| && s.rows[j].token == t
    ensures PhaseOk(Allowed(s, c, t), d)
  {
    assert PhaseOk(s, d);
    assert Held(s.rows, t) by { assert Same(s.rows[j].token, t); }
    hide Held, IsRevoked, RowsOk, OriginOk, HistoryOk;
  }

  lemma AllowKeepsOrigin(s: Race, c: CallId, t: Token, i: nat)
    requires RaceInv(s) && c in s.phases && s.phases[c].Presenting? && i < |s.rows|
    ensures OriginOk(Allowed(s, c, t), s.rows[i])
  {
    assert OriginOk(s, s.rows[i]) && PhaseOk(s, c);
    hide Held, IsRevoked, RowsOk, HistoryOk;
  }

  /** An allowing read: the token it saw was unrevoked, so no revocation of it had committed. */
  lemma AllowKeepsInv(s: Race, c: CallId, t: Token, j: nat)
    requires RaceInv(s) && c in s.phases && s.phases[c].Presenting?
    requires j < |s.rows| && s.rows[j].token == t && !t.revoked
    ensures RaceInv(Allowed(s, c, t))
  {
    var s' := Allowed(s, c, t);
    assert RowsOk(s') && s'.rows == s.rows;
    AllowKeepsHistory(s, c, t, j);
    hide RowsOk, HistoryOk, OriginOk, PhaseOk, Allowed;
    forall d ensures PhaseOk(s', d) {
      AllowKeepsPhase(s, c, t, j, d);
    }
    forall i: nat | i < |s'.rows| ensures OriginOk(s', s'.rows[i]) {
      AllowKeepsOrigin(s, c, t, i);
    }
  }

  lemma KillingKeepsInv(s: Race, c: CallId, family: Id)
    requires RaceInv(s) && c in s.phases && s.phases[c].Presenting? && family in s.families
    ensures RaceInv(s.(phases := s.phases[c := Killing(family)]))
  {
    var s' := s.(phases := s.phases[c := Killing(family)]);
    forall d ensures PhaseOk(s', d) {
      assert PhaseOk(s, d);
    }
    forall i | 0 <= i < |s'.rows| ensures OriginOk(s', s'.rows[i]) {
      assert OriginOk(s, s.rows[i]);
    }
  }

  /** A read either stops the call, sends it to kill the family, or sees an unrevoked row. */
  lemma ReadCases(s: Race, c: CallId, now: int)
    requires c in s.phases && s.phases[c].Presenting?
    ensures var s' := AfterRead(s, c, now);
      || s' == s.(phases := s.phases[c := Ended])
      || (exists j :: 0 <= j < |s.rows| && s' == s.(phases := s.phases[c := Killing(s.rows[j].token.family)]))
      || (exists j :: 0 <= j < |s.rows| && !s.rows[j].token.revoked
            && s' == s.(phases := s.phases[c := Rotating(s.rows[j].token)],
                        seen := s.seen[c := Seen(s.rows[j].token.id, s.time)]))
  {
    var found := Find(Tokens(s.rows), s.phases[c].hash);
    if found.Some? {
      var j :| 0 <= j < |s.rows| && Tokens(s.rows)[j] == found.value;
      assert s.rows[j].token == found.value;
    }
  }

  lemma RowIsKnown(s: Race, j: nat)
    requires RaceInv(s) && j < |s.rows|
    ensures s.rows[j].token.id in s.ids && s.rows[j].token.family in s.families
  {
  }

  lemma ReadKeepsInv(s: Race, c: CallId, now: int)
    requires RaceInv(s) && c in s.phases && s.phases[c].Presenting?
    ensures RaceInv(AfterRead(s, c, now).(time := s.time + 1))
  {
    hide RaceInv;
    var s' := AfterRead(s, c, now);
    ReadCases(s, c, now);
    if s' == s.(phases := s.phases[c := Ended]) {
      EndKeepsInv(s, c);
      TickKeepsInv(s');
    } else if j :| 0 <= j < |s.rows| && s' == s.(phases := s.phases[c := Killing(s.rows[j].token.family)]) {
      RowIsKnown(s, j);
      KillingKeepsInv(s, c, s.rows[j].token.family);
      TickKeepsInv(s');
    } else {
      var j :| 0 <= j < |s.rows| && !s.rows[j].token.revoked
            && s' == s.(phases := s.phases[c := Rotating(s.rows[j].token)],
                        seen := s.seen[c := Seen(s.rows[j].token.id, s.time)]);
      AllowKeepsInv(s, c, s.rows[j].token, j);
    }
  }

  lemma RevokedIsGentle(id: Id, next: Id, family: Id)
    ensures Gentle(Revoked(id, next)) && Gentle(FamilyRevoked(family))
  {
  }

  lemma RevokeMarksRow(rows: seq<Row>, t: Token, next: Id)
    requires Held(rows, t)
    ensures IsRevoked(UpdateTokens(rows, Revoked(t.id, next)), t.id)
  {
    var j :| 0 <= j < |rows| && Same(rows[j].token, t);
    var out := UpdateTokens(rows, Revoked(t.id, next));
    assert out[j].token.id == t.id && out[j].token.revoked;
  }

  lemma RotatingRowHeld(s: Race, c: CallId)
    requires RaceInv(s) && c in s.phases && s.phases[c].Rotating?
    ensures Held(s.rows, s.phases[c].token)
  {
    assert PhaseOk(s, c);
  }

  lemma RevokeKeepsInv(s: Race, c: CallId, next: NewToken, fault: Fault)
    requires RaceInv(s) && c in s.phases && s.phases[c].Rotating? && Unseen(s, next) && !fault.Lost?
    ensures RaceInv(AfterRevoke(s, c, next, fault).(time := s.time + 1))
  {
    hide RaceInv;
    var t := s.phases[c].token;
    RotatingRowHeld(s, c);
    RevokedIsGentle(t.id, next.id, 0);
    UpdateKeepsInv(s, Revoked(t.id, next.id));
    RevokeMarksRow(s.rows, t, next.id);
    MarkKeepsInv(s.(rows := UpdateTokens(s.rows, Revoked(t.id, next.id))), c, t, next, fault);
  }

  /** Drawing the successor's id and noting the first revocation. */
  function Marked(m: Race, c: CallId, t: Token, next: NewToken, fault: Fault): (s: Race) {
    Draw(m, next).(firstRevoke := if t.id in m.firstRevoke then m.firstRevoke else m.firstRevoke[t.id := m.time],
                   phases := m.phases[c := if fault.AckLost? then Ended else Storing(t, next)], time := m.time + 1)
  }

  lemma MarkKeepsPhase(m: Race, c: CallId, t: Token, next: NewToken, fault: Fault, d: CallId)
    requires RaceInv(m) && c in m.phases && m.phases[c] == Rotating(t) && Unseen(m, next)
    ensures PhaseOk(Marked(m, c, t, next, fault), d)
  {
    assert PhaseOk(m, d) && PhaseOk(m, c);
    hide Held, IsRevoked, HistoryOk;
  }

  lemma MarkKeepsHistory(m: Race, c: CallId, t: Token, next: NewToken, fault: Fault)
    requires RaceInv(m) && c in m.phases && m.phases[c] == Rotating(t) && Unseen(m, next) && IsRevoked(m.rows, t.id)
    ensures HistoryOk(Marked(m, c, t, next, fault))
  {
    var s' := Marked(m, c, t, next, fault);
    hide Held, IsRevoked, RowsOk;
    forall a, b | a in s'.phases && b in s'.phases && a != b && s'.phases[a].Storing? && s'.phases[b].Storing?
      ensures s'.phases[a].next.id != s'.phases[b].next.id
    {
      assert PhaseOk(m, a) && PhaseOk(m, b);
    }
  }

  lemma MarkKeepsOrigin(m: Race, c: CallId, t: Token, next: NewToken, fault: Fault, i: nat)
    requires RaceInv(m) && c in m.phases && m.phases[c] == Rotating(t) && i < |m.rows|
    ensures OriginOk(Marked(m, c, t, next, fault), m.rows[i])
  {
    assert OriginOk(m, m.rows[i]);
    hide Held, IsRevoked, RowsOk, HistoryOk, PhaseOk;
  }

  lemma MarkKeepsInv(m: Race, c: CallId, t: Token, next: NewToken, fault: Fault)
    requires RaceInv(m) && c in m.phases && m.phases[c] == Rotating(t) && Unseen(m, next) && IsRevoked(m.rows, t.id)
    ensures RaceInv(Marked(m, c, t, next, fault))
  {
    var s' := Marked(m, c, t, next, fault);
    assert RowsOk(s');
    MarkKeepsHistory(m, c, t, next, fault);
    assert s'.rows == m.rows;
    hide RowsOk, HistoryOk, OriginOk, PhaseOk, Marked;
    forall d ensures PhaseOk(s', d) {
      MarkKeepsPhase(m, c, t, next, fault, d);
    }
    forall i: nat | i < |s'.rows| ensures OriginOk(s', s'.rows[i]) {
      MarkKeepsOrigin(m, c, t, next, fault, i);
    }
  }

  function StoredRow(s: Race, c: CallId): (r: Row)
    requires c in s.phases && s.phases[c].Storing?
  {
    Row(Successor(s.phases[c].token, s.phases[c].next), RotatedFrom(s.phases[c].token.id, c))
  }

  lemma ParentHeld(rows: seq<Row>, t: Token, next: NewToken)
    requires Held(rows, t)
    ensures Held(rows, Successor(t, next).(id := t.id))
  {
    var j :| 0 <= j < |rows| && Same(rows[j].token, t);
    assert Same(rows[j].token, Successor(t, next).(id := t.id));
  }

  lemma StoredRowIsNew(s: Race, c: CallId)
    requires RaceInv(s) && c in s.phases && s.phases[c].Storing?
    ensures var r := StoredRow(s, c); var s' := s.(phases := s.phases[c := Ended], rows := s.rows + [r]);
      RowsOk(s') && OriginOk(s', r)
  {
    var r := StoredRow(s, c);
    var s' := s.(phases := s.phases[c := Ended], rows := s.rows + [r]);
    assert PhaseOk(s, c);
    AppendKeepsHeld(s.rows, r);
    ParentHeld(s.rows, s.phases[c].token, s.phases[c].next);
    hide Held, IsRevoked;
    forall i | 0 <= i < |s.rows| && s.rows[i].origin.RotatedFrom? ensures s.rows[i].origin.author != c {
      assert OriginOk(s, s.rows[i]);
    }
  }

  function Inserted(s: Race, c: CallId): (s': Race)
    requires c in s.phases && s.phases[c].Storing?
  {
    s.(phases := s.phases[c := Ended], rows := s.rows + [StoredRow(s, c)])
  }

  lemma StoreKeepsPhase(s: Race, c: CallId, d: CallId)
    requires RaceInv(s) && c in s.phases && s.phases[c].Storing?
    ensures PhaseOk(Inserted(s, c), d)
  {
    AppendKeepsHeld(s.rows, StoredRow(s, c));
    assert PhaseOk(s, d) && PhaseOk(s, c);
    hide Held, IsRevoked, RowsOk, OriginOk;
  }

  lemma StoreKeepsOrigin(s: Race, c: CallId, i: nat)
    requires RaceInv(s) && c in s.phases && s.phases[c].Storing? && i < |s.rows|
    ensures OriginOk(Inserted(s, c), s.rows[i])
  {
    AppendKeepsHeld(s.rows, StoredRow(s, c));
    assert OriginOk(s, s.rows[i]);
    hide Held, IsRevoked, RowsOk, HistoryOk, PhaseOk;
  }

  lemma StoreKeepsHistory(s: Race, c: CallId)
    requires RaceInv(s) && c in s.phases && s.phases[c].Storing?
    ensures HistoryOk(Inserted(s, c))
  {
    AppendKeepsHeld(s.rows, StoredRow(s, c));
    hide Held, IsRevoked, RowsOk, OriginOk, PhaseOk;
  }

  lemma StoreKeepsInv(s: Race, c: CallId)
    requires RaceInv(s) && c in s.phases && s.phases[c].Storing?
    ensures RaceInv(Inserted(s, c))
  {
    var s' := Inserted(s, c);
    StoredRowIsNew(s, c);
    StoreKeepsHistory(s, c);
    assert s'.rows == s.rows + [StoredRow(s, c)];
    assert s' == s.(phases := s.phases[c := Ended], rows := s.rows + [StoredRow(s, c)]);
    hide RowsOk, HistoryOk, OriginOk, PhaseOk, Inserted;
    forall d ensures PhaseOk(s', d) {
      StoreKeepsPhase(s, c, d);
    }
    forall i: nat | i < |s'.rows| ensures OriginOk(s', s'.rows[i]) {
      if i < |s.rows| {
        StoreKeepsOrigin(s, c, i);
      }
    }
  }

  /** Every move either does nothing, only ends its call, or is one of the cases above. */
  lemma EffectKeepsInv(s: Race, m: Move)
    requires RaceInv(s) && (m.Login? || m.Present? || m.Store?)
    ensures RaceInv(Effect(s, m))
  {
    match m
    case Login(user, tenant, next, fault) =>
      if Unseen(s, next) && !fault.Lost? {
        LoginKeepsInv(s, Token(next.id, user, tenant, next.family, next.hash, next.expires, false, None), next);
      }
    case Present(c, hash) =>
      if c !in s.phases {
        PresentKeepsInv(s, c, hash);
      }
    case Store(c, fault) =>
      if c in s.phases && s.phases[c].Storing? {
        if fault.Lost? {
          EndKeepsInv(s, c);
        } else {
          StoreKeepsInv(s, c);
        }
      }
  }

  lemma KillKeepsInv(s: Race, c: CallId, fault: Fault)
    requires RaceInv(s)
    ensures RaceInv(Effect(s, Kill(c, fault)))
  {
    if c in s.phases && s.phases[c].Killing? {
      var f := FamilyRevoked(s.phases[c].family);
      if fault.Lost? {
        EndKeepsInv(s, c);
      } else {
        RevokedIsGentle(0, 0, s.phases[c].family);
        UpdateKeepsInv(s, f);
        EndKeepsInv(s.(rows := UpdateTokens(s.rows, f)), c);
      }
    }
  }

  lemma ReadMoveKeepsInv(s: Race, c: CallId, now: int, healthy: bool)
    requires RaceInv(s)
    ensures RaceInv(Next(s, Read(c, now, healthy)))
  {
    hide RaceInv;
    if c in s.phases && s.phases[c].Presenting? && healthy {
      ReadKeepsInv(s, c, now);
    } else {
      if c in s.phases { EndKeepsInv(s, c); }
      TickKeepsInv(Effect(s, Read(c, now, healthy)));
    }
  }

  lemma RevokeMoveKeepsInv(s: Race, c: CallId, next: NewToken, ready: bool, fault: Fault)
    requires RaceInv(s)
    ensures RaceInv(Next(s, Revoke(c, next, ready, fault)))
  {
    hide RaceInv;
    if c in s.phases && s.phases[c].Rotating? && Unseen(s, next) && ready && !fault.Lost? {
      RevokeKeepsInv(s, c, next, fault);
    } else {
      if c in s.phases { EndKeepsInv(s, c); }
      TickKeepsInv(Effect(s, Revoke(c, next, ready, fault)));
    }
  }

  lemma NextKeepsInv(s: Race, m: Move)
    requires RaceInv(s)
    ensures RaceInv(Next(s, m))
  {
    hide RaceInv;
    match m
    case Read(c, now, healthy) => ReadMoveKeepsInv(s, c, now, healthy);
    case Revoke(c, next, ready, fault) => RevokeMoveKeepsInv(s, c, next, ready, fault);
    case Kill(c, fault) =>
      KillKeepsInv(s, c, fault);
      TickKeepsInv(Effect(s, m));
    case _ =>
      EffectKeepsInv(s, m);
      TickKeepsInv(Effect(s, m));
  }

  lemma {:induction false} RacesKeepInv(ms: seq<Move>)
    ensures RaceInv(Races(START, ms))
  {
    if |ms| > 0 {
      RacesKeepInv(ms[..|ms| - 1]);
      NextKeepsInv(Races(START, ms[..|ms| - 1]), ms[|ms| - 1]);
    }
  }

  // ------------------------------------------------------------- the counting bound

  /** The calls whose read of token x allowed rotation before the first revocation of x committed. */
  function EarlyReaders(s: Race, x: Id): (calls: set<CallId>) {
    set c | c in s.seen && s.seen[c].token == x && (x in s.firstRevoke ==> s.seen[c].at < s.firstRevoke[x])
  }

  /** How many stored tokens were issued in exchange for x. */
  function Successors(rows: seq<Row>, x: Id): (n: nat) {
    if |rows| == 0 then 0
    else
      Successors(rows[..|rows| - 1], x)
      + (if rows[|rows| - 1].origin.RotatedFrom? && rows[|rows| - 1].origin.parent == x then 1 else 0)
  }

  function Authors(rows: seq<Row>, x: Id): (calls: set<CallId>) {
    set i | 0 <= i < |rows| && rows[i].origin.RotatedFrom? && rows[i].origin.parent == x :: rows[i].origin.author
  }

  lemma {:induction false} DistinctAuthorsCount(rows: seq<Row>, x: Id)
    requires forall i, j :: 0 <= i < j < |rows| && rows[i].origin.RotatedFrom? && rows[j].origin.RotatedFrom?
               ==> rows[i].origin.author != rows[j].origin.author
    ensures |Authors(rows, x)| == Successors(rows, x)
  {
    if |rows| > 0 {
      var n := |rows| - 1;
      var front := rows[..n];
      DistinctAuthorsCount(front, x);
      assert forall i :: 0 <= i < n ==> front[i] == rows[i];
      if rows[n].origin.RotatedFrom? && rows[n].origin.parent == x {
        assert Authors(rows, x) == Authors(front, x) + {rows[n].origin.author};
        assert rows[n].origin.author !in Authors(front, x);
      } else {
        assert Authors(rows, x) == Authors(front, x);
      }
    }
  }

  /** Under any interleaving a token gets at most as many successors as calls read it as
      rotatable before its first revocation committed. */
  lemma SuccessorsBoundedByEarlyReaders(ms: seq<Move>, x: Id)
    ensures var s := Races(START, ms); Successors(s.rows, x) <= |EarlyReaders(s, x)|
  {
    RacesKeepInv(ms);
    var s := Races(START, ms);
    DistinctAuthorsCount(s.rows, x);
    forall c | c in Authors(s.rows, x) ensures c in EarlyReaders(s, x) {
      var i :| 0 <= i < |s.rows| && s.rows[i].origin.RotatedFrom? && s.rows[i].origin.parent == x
          && s.rows[i].origin.author == c;
      assert OriginOk(s, s.rows[i]);
    }
    SubsetSize(Authors(s.rows, x), EarlyReaders(s, x));
  }

  // ------------------------------------------------------- along the successor tree

  /** The row a stored successor came from comes before it in the table. */
  predicate HasEarlierParent(rows: seq<Row>, i: nat)
    requires i < |rows| && rows[i].origin.RotatedFrom?
  {
    exists j :: 0 <= j < i && rows[j].token.id == rows[i].origin.parent
        && Same(rows[j].token, rows[i].token.(id := rows[i].origin.parent))
  }

  ghost predicate Grown(rows: seq<Row>) {
    && (forall i: nat {:trigger HasEarlierParent(rows, i)} ::
          i < |rows| && rows[i].origin.RotatedFrom? ==> HasEarlierParent(rows, i))
    && (forall i, j :: 0 <= i < j < |rows| && rows[i].token.family == rows[j].token.family ==>
      rows[j].origin.RotatedFrom?)
  }

  lemma UpdateKeepsGrown(rows: seq<Row>, f: Token -> Token)
    requires Grown(rows) && Gentle(f)
    ensures Grown(UpdateTokens(rows, f))
  {
    var out := UpdateTokens(rows, f);
    forall i: nat | i < |out| && out[i].origin.RotatedFrom? ensures HasEarlierParent(out, i) {
      assert HasEarlierParent(rows, i);
      var j :| 0 <= j < i && rows[j].token.id == rows[i].origin.parent
          && Same(rows[j].token, rows[i].token.(id := rows[i].origin.parent));
      assert Same(out[j].token, rows[j].token) && Same(out[i].token, rows[i].token);
    }
    forall i, j | 0 <= i < j < |out| && out[i].token.family == out[j].token.family ensures out[j].origin.RotatedFrom? {
      assert Same(out[i].token, rows[i].token) && Same(out[j].token, rows[j].token);
    }
  }

  lemma AppendKeepsGrown(rows: seq<Row>, r: Row)
    requires Grown(rows)
    requires r.origin.LoggedIn? ==> forall i :: 0 <= i < |rows| ==> rows[i].token.family != r.token.family
    requires r.origin.RotatedFrom? ==> Held(rows, r.token.(id := r.origin.parent))
    ensures Grown(rows + [r])
  {
    var out := rows + [r];
    forall i: nat | i < |out| && out[i].origin.RotatedFrom? ensures HasEarlierParent(out, i) {
      if i < |rows| {
        assert HasEarlierParent(rows, i);
        var j :| 0 <= j < i && rows[j].token.id == rows[i].origin.parent
            && Same(rows[j].token, rows[i].token.(id := rows[i].origin.parent));
        assert out[j] == rows[j];
      } else {
        var j :| 0 <= j < |rows| && Same(rows[j].token, r.token.(id := r.origin.parent));
        assert out[j] == rows[j];
      }
    }
  }

  /** The three ways a move can change the table. */
  lemma TableMoves(s: Race, m: Move)
    requires RaceInv(s)
    ensures var rows' := Next(s, m).rows;
      || rows' == s.rows
      || (exists f :: Gentle(f) && rows' == UpdateTokens(s.rows, f))
      || (exists t: Token ::
            m.Login? && Unseen(s, m.next) && t.family == m.next.family && t.id == m.next.id
            && rows' == s.rows + [Row(t, LoggedIn)])
      || (m.Store? && m.call in s.phases && s.phases[m.call].Storing? && rows' == s.rows + [StoredRow(s, m.call)])
  {
    hide RaceInv;
    match m
    case Revoke(c, next, ready, fault) =>
      if c in s.phases && s.phases[c].Rotating? {
        RevokedIsGentle(s.phases[c].token.id, next.id, 0);
      }
    case Kill(c, fault) =>
      if c in s.phases && s.phases[c].Killing? {
        RevokedIsGentle(0, 0, s.phases[c].family);
      }
    case Login(user, tenant, next, fault) =>
      var t := Token(next.id, user, tenant, next.family, next.hash, next.expires, false, None);
      assert Next(s, m).rows == s.rows || (t.family == next.family && Next(s, m).rows == s.rows + [Row(t, LoggedIn)]);
    case _ =>
  }

  lemma FreshFamilyUnused(s: Race, family: Id)
    requires RaceInv(s) && family !in s.families
    ensures forall i :: 0 <= i < |s.rows| ==> s.rows[i].token.family != family
  {
  }

  lemma StoredRowHasParent(s: Race, c: CallId)
    requires RaceInv(s) && c in s.phases && s.phases[c].Storing?
    ensures var r := StoredRow(s, c); Held(s.rows, r.token.(id := r.origin.parent))
  {
    var r := StoredRow(s, c);
    assert PhaseOk(s, c);
    var j :| 0 <= j < |s.rows| && Same(s.rows[j].token, s.phases[c].token);
    assert Same(s.rows[j].token, r.token.(id := r.origin.parent));
  }

  lemma NextKeepsGrown(s: Race, m: Move)
    requires RaceInv(s) && Grown(s.rows)
    ensures Grown(Next(s, m).rows)
  {
    TableMoves(s, m);
    hide RaceInv, Next, Grown;
    var rows' := Next(s, m).rows;
    if rows' == s.rows {
    } else if f :| Gentle(f) && rows' == UpdateTokens(s.rows, f) {
      UpdateKeepsGrown(s.rows, f);
    } else if m.Login? {
      var t: Token :| t.family == m.next.family && t.id == m.next.id && rows' == s.rows + [Row(t, LoggedIn)];
      FreshFamilyUnused(s, m.next.family);
      AppendKeepsGrown(s.rows, Row(t, LoggedIn));
    } else {
      StoredRowHasParent(s, m.call);
      AppendKeepsGrown(s.rows, StoredRow(s, m.call));
    }
  }

  lemma {:induction false} RacesKeepGrown(ms: seq<Move>)
    ensures Grown(Races(START, ms).rows)
  {
    if |ms| > 0 {
      RacesKeepInv(ms[..|ms| - 1]);
      RacesKeepGrown(ms[..|ms| - 1]);
      NextKeepsGrown(Races(START, ms[..|ms| - 1]), ms[|ms| - 1]);
    }
  }

  /** t is the token r was issued for, and r is its user's, tenant's and family's. */
  predicate IsParent(t: Token, r: Row) {
    && r.origin.RotatedFrom? && t.id == r.origin.parent
    && t.user == r.token.user && t.tenant == r.token.tenant && t.family == r.token.family
  }

  /** Every successor has a parent row that was there before it, is revoked, and has its user, tenant and family. */
  lemma SuccessorsInheritIdentity(ms: seq<Move>, i: nat)
    requires i < |Races(START, ms).rows| && Races(START, ms).rows[i].origin.RotatedFrom?
    ensures var rows := Races(START, ms).rows;
      exists j :: 0 <= j < i && IsParent(rows[j].token, rows[i]) && rows[j].token.revoked
  {
    RacesKeepInv(ms);
    RacesKeepGrown(ms);
    ParentOf(Races(START, ms), i);
  }

  lemma ParentOf(s: Race, i: nat)
    requires RaceInv(s) && Grown(s.rows) && i < |s.rows| && s.rows[i].origin.RotatedFrom?
    ensures exists j :: 0 <= j < i && IsParent(s.rows[j].token, s.rows[i]) && s.rows[j].token.revoked
  {
    assert HasEarlierParent(s.rows, i);
    var j :| 0 <= j < i && s.rows[j].token.id == s.rows[i].origin.parent
        && Same(s.rows[j].token, s.rows[i].token.(id := s.rows[i].origin.parent));
    assert OriginOk(s, s.rows[i]);
    var k :| 0 <= k < |s.rows| && s.rows[k].token.id == s.rows[i].origin.parent && s.rows[k].token.revoked;
    assert k == j && IsParent(s.rows[j].token, s.rows[i]);
  }

  /** Revocation is never undone, by any move. */
  lemma RevocationIsForever(s: Race, m: Move, i: nat)
    requires RaceInv(s) && i < |s.rows|
    ensures var s' := Next(s, m);
      i < |s'.rows| && Same(s'.rows[i].token, s.rows[i].token) && s'.rows[i].origin == s.rows[i].origin
      && (s.rows[i].token.revoked ==> s'.rows[i].token.revoked)
  {
    TableMoves(s, m);
    hide RaceInv, Next;
    var rows' := Next(s, m).rows;
    if f :| Gentle(f) && rows' == UpdateTokens(s.rows, f) {
      assert rows'[i] == s.rows[i].(token := f(s.rows[i].token));
    }
  }

  lemma {:induction false} RaceInvForever(s: Race, ms: seq<Move>)
    requires RaceInv(s)
    ensures RaceInv(Races(s, ms))
  {
    if |ms| > 0 {
      RaceInvForever(s, ms[..|ms| - 1]);
      NextKeepsInv(Races(s, ms[..|ms| - 1]), ms[|ms| - 1]);
    }
  }

  /** Through any continuation a row keeps its place, user, tenant, family and origin, and stays revoked. */
  lemma {:induction false} RevokedForGood(s: Race, ms: seq<Move>, i: nat)
    requires RaceInv(s) && i < |s.rows|
    ensures var s' := Races(s, ms);
      i < |s'.rows| && Same(s'.rows[i].token, s.rows[i].token) && s'.rows[i].origin == s.rows[i].origin
      && (s.rows[i].token.revoked ==> s'.rows[i].token.revoked)
  {
    if |ms| > 0 {
      RaceInvForever(s, ms[..|ms| - 1]);
      RevokedForGood(s, ms[..|ms| - 1], i);
      RevocationIsForever(Races(s, ms[..|ms| - 1]), ms[|ms| - 1], i);
      hide RaceInv, Next;
    }
  }

  // ------------------------------------------------------------- without interruption

  /** One refresh by itself, statement by statement; what its read leaves impossible does not happen. */
  function Straight(c: CallId, hash: Hash, now: int, next: NewToken, f: RefreshFaults): (ms: seq<Move>) {
    [Present(c, hash), Read(c, now, !f.find), Revoke(c, next, !f.role && !f.generate, f.revoke), Store(c, f.store),
     Kill(c, f.family)]
  }

  lemma RunFive(s: Race, a: Move, b: Move, c: Move, d: Move, e: Move)
    ensures Races(s, [a, b, c, d, e]) == Next(Next(Next(Next(Next(s, a), b), c), d), e)
  {
    hide Next;
    assert [a, b, c, d, e][..4] == [a, b, c, d] && [a, b, c, d][..3] == [a, b, c] && [a, b, c][..2] == [a, b];
    assert [a, b][..1] == [a] && [a][..0] == [];
    assert Races(s, [a]) == Next(s, a);
    assert Races(s, [a, b]) == Next(Next(s, a), b);
    assert Races(s, [a, b, c]) == Next(Next(Next(s, a), b), c);
  }

  lemma TokensOfUpdate(rows: seq<Row>, f: Token -> Token)
    ensures Tokens(UpdateTokens(rows, f)) == Update(Tokens(rows), f)
  {
  }

  lemma TokensOfAppend(rows: seq<Row>, r: Row)
    ensures Tokens(rows + [r]) == Tokens(rows) + [r.token]
  {
  }

  /** A call that nobody interrupts does to the table what the one-step refresh does. */
  lemma UninterruptedIsAtomic(s: Race, c: CallId, hash: Hash, now: int, next: NewToken, f: RefreshFaults)
    requires c !in s.phases && Unseen(s, next)
    ensures var s' := Races(s, Straight(c, hash, now, next, f));
      Tokens(s'.rows) == RefreshResult(Tokens(s.rows), Some(hash), now, next, f).0
  {
    var ms := Straight(c, hash, now, next, f);
    RunFive(s, ms[0], ms[1], ms[2], ms[3], ms[4]);
    var s1 := Next(s, ms[0]);
    assert s1.rows == s.rows && s1.phases[c] == Presenting(hash) && Unseen(s1, next);
    var s2 := Next(s1, ms[1]);
    assert s2.rows == s.rows && Unseen(s2, next);
    AfterTheRead(s, s2, c, hash, now, next, f);
  }

  lemma AfterTheRead(s: Race, s2: Race, c: CallId, hash: Hash, now: int, next: NewToken, f: RefreshFaults)
    requires s2.rows == s.rows && Unseen(s2, next) && c in s2.phases
    requires s2.phases[c] ==
      if f.find || Find(Tokens(s.rows), hash).None? then Ended
      else
        var t := Find(Tokens(s.rows), hash).value;
        match DecideRotation(t.revoked, t.replacedBy, t.expires, now)
        case RejectRevoked => Killing(t.family)
        case Allow => Rotating(t)
        case _ => Ended
    ensures var ms := Straight(c, hash, now, next, f);
      Tokens(Next(Next(Next(s2, ms[2]), ms[3]), ms[4]).rows)
      == RefreshResult(Tokens(s.rows), Some(hash), now, next, f).0
  {
    hide Find, DecideRotation, UpdateTokens;
    if s2.phases[c].Rotating? {
      AfterTheAllow(s2, c, next, !f.role && !f.generate, f.revoke, f.store, f.family);
    } else if s2.phases[c].Killing? {
      TokensOfUpdate(s.rows, FamilyRevoked(s2.phases[c].family));
    }
  }

  lemma AfterTheAllow(s: Race, c: CallId, next: NewToken, ready: bool, revoke: Fault, store: Fault, kill: Fault)
    requires Unseen(s, next) && c in s.phases && s.phases[c].Rotating?
    ensures var t := s.phases[c].token;
      var marked := Update(Tokens(s.rows), Revoked(t.id, next.id));
      Tokens(Next(Next(Next(s, Revoke(c, next, ready, revoke)), Store(c, store)), Kill(c, kill)).rows)
      == if !ready || revoke.Lost? then Tokens(s.rows)
         else if revoke.AckLost? || store.Lost? then marked
         else marked + [Successor(t, next)]
  {
    var t := s.phases[c].token;
    var marked := UpdateTokens(s.rows, Revoked(t.id, next.id));
    TokensOfUpdate(s.rows, Revoked(t.id, next.id));
    TokensOfAppend(marked, Row(Successor(t, next), RotatedFrom(t.id, c)));
    hide UpdateTokens, Update, Tokens;
  }

  /** A login that has passed its checks does what the one-step login does. */
  lemma LoginIsAtomic(s: Race, user: string, tenant: string, next: NewToken, fault: Fault)
    requires Unseen(s, next)
    ensures Tokens(Next(s, Move.Login(user, tenant, next, fault)).rows)
         == LoginResult(Tokens(s.rows), user, tenant, true, next, LoginFaults(false, false, false, fault)).0
  {
    var t := Token(next.id, user, tenant, next.family, next.hash, next.expires, false, None);
    TokensOfAppend(s.rows, Row(t, LoggedIn));
  }
}
