/**
 * What interleaved refreshes can do to a family: exactly when it keeps one live member, and exactly when
 * killing it is final.
 */
module RefreshRivals {
  import opened Basics
  import opened RefreshTokens
  import opened RefreshRace

  // ---------------------------------------------------------- when nobody races

  predicate Consecutive(rows: seq<Row>, i: nat, k: nat) {
    && i < k < |rows| && rows[i].token.family == rows[k].token.family
    && forall j :: i < j < k ==> rows[j].token.family != rows[k].token.family
  }

  lemma {:induction false} NextMember(rows: seq<Row>, i: nat, j: nat) returns (k: nat)
    requires i < j < |rows| && rows[i].token.family == rows[j].token.family
    ensures k <= j && Consecutive(rows, i, k)
    decreases j - i
  {
    k := i + 1;
    while rows[k].token.family != rows[i].token.family
      invariant i < k <= j
      invariant forall l :: i < l < k ==> rows[l].token.family != rows[i].token.family
      decreases j - k
    {
      k := k + 1;
    }
  }

  /** No token of the family was exchanged twice. */
  predicate NoFork(rows: seq<Row>, family: Id) {
    forall i, j :: (0 <= i < j < |rows| && rows[i].token.family == rows[j].token.family == family
                    && rows[i].origin.RotatedFrom? && rows[j].origin.RotatedFrom?)
      ==> rows[i].origin.parent != rows[j].origin.parent
  }

  /** Then each member of the family was issued for the member before it. */
  lemma {:induction false} ParentIsPrevious(s: Race, i: nat, k: nat)
    requires RaceInv(s) && Grown(s.rows) && Consecutive(s.rows, i, k) && NoFork(s.rows, s.rows[k].token.family)
    ensures s.rows[k].origin.RotatedFrom? && s.rows[k].origin.parent == s.rows[i].token.id
    decreases k
  {
    ParentOf(s, k);
    var p :| 0 <= p < k && IsParent(s.rows[p].token, s.rows[k]);
    if p < i {
      var q := NextMember(s.rows, p, i);
      ParentIsPrevious(s, p, q);
    }
  }

  predicate Authored(rows: seq<Row>, c: CallId, x: Id) {
    exists i :: 0 <= i < |rows| && rows[i].origin == RotatedFrom(x, c)
  }

  /** The call read x as rotatable and still is to exchange it, or has exchanged it. */
  predicate Rival(s: Race, c: CallId, x: Id) {
    && c in s.seen && s.seen[c].token == x && c in s.phases
    && (s.phases[c].Rotating? || s.phases[c].Storing? || Authored(s.rows, c, x))
  }

  predicate TokenOf(rows: seq<Row>, x: Id, family: Id) {
    exists i :: 0 <= i < |rows| && rows[i].token.id == x && rows[i].token.family == family
  }

  /** No token of the family has two rivals. */
  ghost predicate NoRivalry(s: Race, family: Id) {
    forall x, c, d :: TokenOf(s.rows, x, family) && Rival(s, c, x) && Rival(s, d, x) ==> c == d
  }

  lemma NoRivalryNoFork(s: Race, family: Id)
    requires RaceInv(s) && NoRivalry(s, family)
    ensures NoFork(s.rows, family)
  {
    forall i, j | 0 <= i < j < |s.rows| && s.rows[i].token.family == s.rows[j].token.family == family
      && s.rows[i].origin.RotatedFrom? && s.rows[j].origin.RotatedFrom?
      ensures s.rows[i].origin.parent != s.rows[j].origin.parent
    {
      StoredRowsHaveRivals(s, i);
      StoredRowsHaveRivals(s, j);
      DistinctAuthors(s, i, j);
    }
  }

  lemma DistinctAuthors(s: Race, i: nat, j: nat)
    requires RaceInv(s) && i < j < |s.rows| && s.rows[i].origin.RotatedFrom? && s.rows[j].origin.RotatedFrom?
    ensures s.rows[i].origin.author != s.rows[j].origin.author
  {
  }

  /** Whoever stored a row is a rival for its parent, a token of the same family. */
  lemma StoredRowsHaveRivals(s: Race, i: nat)
    requires RaceInv(s) && i < |s.rows| && s.rows[i].origin.RotatedFrom?
    ensures var o := s.rows[i].origin; Rival(s, o.author, o.parent) && TokenOf(s.rows, o.parent, s.rows[i].token.family)
  {
    var o := s.rows[i].origin;
    assert OriginOk(s, s.rows[i]);
    assert o == RotatedFrom(o.parent, o.author);
    var j :| 0 <= j < |s.rows| && Same(s.rows[j].token, s.rows[i].token.(id := o.parent));
    assert s.rows[j].token.id == o.parent && s.rows[j].token.family == s.rows[i].token.family;
  }

  /** As long as no token of a family has two rivals, the split level keeps for that family what the atomic
      level promises: all its members but the newest are revoked, whatever happens to other families. */
  lemma WithoutOverlapOneLiveToken(ms: seq<Move>, i: nat, j: nat)
    requires var s := Races(START, ms);
      i < j < |s.rows| && s.rows[i].token.family == s.rows[j].token.family && NoRivalry(s, s.rows[i].token.family)
    ensures Races(START, ms).rows[i].token.revoked
  {
    RacesKeepInv(ms);
    RacesKeepGrown(ms);
    var s := Races(START, ms);
    NoRivalryNoFork(s, s.rows[i].token.family);
    OldMembersRevoked(s, i, j);
  }

  lemma OldMembersRevoked(s: Race, i: nat, j: nat)
    requires RaceInv(s) && Grown(s.rows)
    requires i < j < |s.rows| && s.rows[i].token.family == s.rows[j].token.family
      && NoFork(s.rows, s.rows[i].token.family)
    ensures s.rows[i].token.revoked
  {
    var k := NextMember(s.rows, i, j);
    ParentIsPrevious(s, i, k);
    ParentOf(s, k);
  }

  // ------------------------------------------------------------- and when they do

  lemma RacesSnoc(s: Race, ms: seq<Move>, m: Move)
    ensures Races(s, ms + [m]) == Next(Races(s, ms), m)
  {
    assert (ms + [m])[..|ms|] == ms;
  }

  predicate LiveSiblings(rows: seq<Row>, i: nat, j: nat) {
    && i < j < |rows| && rows[i].token.family == rows[j].token.family
    && !rows[i].token.revoked && !rows[j].token.revoked
  }

  function FinishBoth(c: CallId, d: CallId, n1: NewToken, n2: NewToken): (ms: seq<Move>) {
    [Revoke(c, n1, true, Healthy), Revoke(d, n2, true, Healthy), Store(c, Healthy), Store(d, Healthy)]
  }

  /** From any state in which two calls hold an allowing read of one family, their remaining four moves can
      leave two live tokens: Revoke is unconditional, so the second call does not notice that it lost. */
  lemma OverlapLeavesTwoLiveTokens(s: Race, c: CallId, d: CallId, n1: NewToken, n2: NewToken)
    requires c != d && c in s.phases && d in s.phases && s.phases[c].Rotating? && s.phases[d].Rotating?
    requires s.phases[c].token.family == s.phases[d].token.family
    requires Unseen(s, n1) && Unseen(Draw(s, n1), n2)
    ensures var rows := Races(s, FinishBoth(c, d, n1, n2)).rows;
      LiveSiblings(rows, |s.rows|, |s.rows| + 1) && rows[|s.rows|].token.family == s.phases[c].token.family
  {
    var m1, m2, m3, m4 := Revoke(c, n1, true, Healthy), Revoke(d, n2, true, Healthy), Store(c, Healthy),
                          Store(d, Healthy);
    FourMoves(s, m1, m2, m3, m4);
    var s2 := BothRevoke(s, c, d, n1, n2);
    BothStore(s2, c, d, n1, n2);
  }

  lemma FourMoves(s: Race, m1: Move, m2: Move, m3: Move, m4: Move)
    ensures Races(s, [m1, m2, m3, m4]) == Next(Next(Next(Next(s, m1), m2), m3), m4)
  {
    hide Next;
    RacesSnoc(s, [], m1);
    RacesSnoc(s, [m1], m2);
    RacesSnoc(s, [m1, m2], m3);
    RacesSnoc(s, [m1, m2, m3], m4);
    assert [] + [m1] == [m1] && [m1] + [m2] == [m1, m2] && [m1, m2] + [m3] == [m1, m2, m3];
    assert [m1, m2, m3] + [m4] == [m1, m2, m3, m4];
  }

  lemma BothRevoke(s: Race, c: CallId, d: CallId, n1: NewToken, n2: NewToken) returns (s2: Race)
    requires c != d && c in s.phases && d in s.phases && s.phases[c].Rotating? && s.phases[d].Rotating?
    requires Unseen(s, n1) && Unseen(Draw(s, n1), n2)
    ensures s2 == Next(Next(s, Revoke(c, n1, true, Healthy)), Revoke(d, n2, true, Healthy)) && |s2.rows| == |s.rows|
    ensures c in s2.phases && s2.phases[c] == Storing(s.phases[c].token, n1)
    ensures d in s2.phases && s2.phases[d] == Storing(s.phases[d].token, n2)
  {
    var s1 := Next(s, Revoke(c, n1, true, Healthy));
    assert s1.phases == s.phases[c := Storing(s.phases[c].token, n1)] && Unseen(s1, n2);
    s2 := Next(s1, Revoke(d, n2, true, Healthy));
  }

  lemma BothStore(s: Race, c: CallId, d: CallId, n1: NewToken, n2: NewToken)
    requires c != d && c in s.phases && d in s.phases && s.phases[c].Storing? && s.phases[d].Storing?
    requires s.phases[c].token.family == s.phases[d].token.family
    ensures var rows := Next(Next(s, Store(c, Healthy)), Store(d, Healthy)).rows;
      LiveSiblings(rows, |s.rows|, |s.rows| + 1) && rows[|s.rows|].token.family == s.phases[c].token.family
  {
    var s1 := Next(s, Store(c, Healthy));
    assert s1.rows == s.rows + [StoredRow(s, c)] && s1.phases == s.phases[c := Ended];
    var s2 := Next(s1, Store(d, Healthy));
    assert s2.rows == s1.rows + [StoredRow(s, d)];
  }

  /** The call was exchanging already, or a read of an unrevoked row has just started it. */
  predicate Began(s: Race, m: Move, c: CallId) {
    && m.Read? && m.call == c && Next(s, m).rows == s.rows && c in Next(s, m).phases && Next(s, m).phases[c].Rotating?
    && exists j :: 0 <= j < |s.rows| && s.rows[j].token == Next(s, m).phases[c].token && !s.rows[j].token.revoked
  }

  lemma ExchangeBegins(s: Race, m: Move, c: CallId)
    requires c in Next(s, m).phases && (Next(s, m).phases[c].Rotating? || Next(s, m).phases[c].Storing?)
    ensures (c in s.phases && (s.phases[c].Rotating? || s.phases[c].Storing?)
      && Next(s, m).phases[c].token == s.phases[c].token)
            || (c in s.phases && s.phases[c].Presenting? && Began(s, m, c))
  {
    if m.Read? && m.call == c && c in s.phases && s.phases[c].Presenting? && m.healthy {
      ReadCases(s, c, m.now);
      assert Next(s, m).rows == s.rows && Next(s, m).phases == AfterRead(s, c, m.now).phases;
      hide AfterRead;
    }
  }

  lemma SeenStays(s: Race, m: Move, c: CallId)
    requires c in Next(s, m).seen && !(m.Read? && m.call == c)
    ensures c in s.seen && Next(s, m).seen[c] == s.seen[c]
  {
  }

  lemma SeenByPresenting(s: Race, c: CallId)
    requires RaceInv(s) && c in s.seen
    ensures c in s.phases && !s.phases[c].Presenting?
  {
    assert PhaseOk(s, c);
  }

  /** What a read that begins an exchange has noted. */
  lemma BeganSeen(s: Race, m: Move, c: CallId)
    requires RaceInv(s) && Began(s, m, c)
    ensures c in Next(s, m).seen && Next(s, m).seen[c].token == Next(s, m).phases[c].token.id
  {
    NextKeepsInv(s, m);
    assert PhaseOk(Next(s, m), c);
  }

  /** A read that begins nothing notes nothing. */
  lemma ReadNotes(s: Race, m: Move)
    requires m.Read? && m.call in Next(s, m).seen
    ensures (m.call in s.seen && Next(s, m).seen[m.call] == s.seen[m.call])
            || (m.call in Next(s, m).phases && Next(s, m).phases[m.call].Rotating? && m.call in s.phases
              && s.phases[m.call].Presenting?)
  {
  }

  /** A rival after a step was one before it, or is a reader that has just been allowed. */
  lemma NewRivals(s: Race, m: Move, c: CallId, x: Id)
    requires RaceInv(s) && Rival(Next(s, m), c, x) && !Rival(s, c, x)
    ensures Next(s, m).rows == s.rows
    ensures exists i :: 0 <= i < |s.rows| && s.rows[i].token.id == x && !s.rows[i].token.revoked
  {
    var s' := Next(s, m);
    if s'.phases[c].Rotating? || s'.phases[c].Storing? {
      ExchangeBegins(s, m, c);
    }
    if Authored(s'.rows, c, x) {
      AuthoredBefore(s, m, c, x);
    }
    if m.Read? && m.call == c {
      ReadNotes(s, m);
    } else {
      SeenStays(s, m, c);
    }
    if c in s.seen {
      SeenByPresenting(s, c);
    }
    if Began(s, m, c) {
      BeganSeen(s, m, c);
    }
    hide RaceInv, Next, Authored;
  }

  /** Authorship comes only with a store, by a call that was storing. */
  lemma AuthoredBefore(s: Race, m: Move, c: CallId, x: Id)
    requires RaceInv(s) && Authored(Next(s, m).rows, c, x)
    ensures Authored(s.rows, c, x) || (m.Store? && m.call == c && c in s.phases && s.phases[c].Storing?)
  {
    TableMoves(s, m);
    hide RaceInv, Next;
    var rows' := Next(s, m).rows;
    var i :| 0 <= i < |rows'| && rows'[i].origin == RotatedFrom(x, c);
    if i < |s.rows| {
      if f :| Gentle(f) && rows' == UpdateTokens(s.rows, f) {
        assert rows'[i].origin == s.rows[i].origin;
      }
      assert s.rows[i].origin == RotatedFrom(x, c);
    }
  }

  lemma ExchangedWasRevoked(s: Race, c: CallId, x: Id)
    requires RaceInv(s) && Authored(s.rows, c, x)
    ensures x in s.firstRevoke
  {
    var j :| 0 <= j < |s.rows| && s.rows[j].origin == RotatedFrom(x, c);
    assert OriginOk(s, s.rows[j]);
  }

  /** Whoever is a rival for a token that is still unrevoked has yet to revoke it. */
  lemma RivalOfLiveIsRotating(s: Race, c: CallId, x: Id, i: nat)
    requires RaceInv(s) && Rival(s, c, x) && i < |s.rows| && s.rows[i].token.id == x && !s.rows[i].token.revoked
    ensures s.phases[c].Rotating? && s.phases[c].token.id == x && s.phases[c].token.family == s.rows[i].token.family
  {
    assert PhaseOk(s, c);
    if Authored(s.rows, c, x) {
      ExchangedWasRevoked(s, c, x);
    }
    if s.phases[c].Rotating? {
      var j :| 0 <= j < |s.rows| && Same(s.rows[j].token, s.phases[c].token);
    }
  }

  /** A token that a rival has read was in the table before the step. */
  lemma OldTokens(s: Race, m: Move, c: CallId, x: Id, family: Id)
    requires RaceInv(s) && Rival(s, c, x) && TokenOf(Next(s, m).rows, x, family)
    ensures TokenOf(s.rows, x, family)
  {
    ReadTokenIsHeld(s, c, x);
    var j :| 0 <= j < |s.rows| && s.rows[j].token.id == x;
    RevocationIsForever(s, m, j);
    NextKeepsInv(s, m);
    OnlyFamilyOf(Next(s, m), j, x, family);
    hide RaceInv, Next, Rival;
  }

  lemma ReadTokenIsHeld(s: Race, c: CallId, x: Id)
    requires RaceInv(s) && Rival(s, c, x)
    ensures exists j :: 0 <= j < |s.rows| && s.rows[j].token.id == x
  {
    assert PhaseOk(s, c);
    if s.phases[c].Rotating? || s.phases[c].Storing? {
      var j :| 0 <= j < |s.rows| && Same(s.rows[j].token, s.phases[c].token);
      assert s.rows[j].token.id == x;
    } else {
      var i :| 0 <= i < |s.rows| && s.rows[i].origin == RotatedFrom(x, c);
      assert OriginOk(s, s.rows[i]);
      var j :| 0 <= j < |s.rows| && Same(s.rows[j].token, s.rows[i].token.(id := x));
      assert s.rows[j].token.id == x;
    }
  }

  /** The step that gives a token of a family its second rival can be continued, by four statements of the two
      rivals alone, to two live tokens of that family: Revoke is unconditional, so the second does not notice
      that it lost. */
  lemma SecondRivalIsFatal(s: Race, m: Move, family: Id, n1: NewToken, n2: NewToken) returns (c: CallId, d: CallId)
    requires RaceInv(s) && NoRivalry(s, family) && !NoRivalry(Next(s, m), family)
    requires Unseen(Next(s, m), n1) && Unseen(Draw(Next(s, m), n1), n2)
    ensures var rows := Races(Next(s, m), FinishBoth(c, d, n1, n2)).rows;
      LiveSiblings(rows, |s.rows|, |s.rows| + 1) && rows[|s.rows|].token.family == family
  {
    var s' := Next(s, m);
    var x;
    x, c, d := Rivals(s', family);
    if Rival(s, c, x) && Rival(s, d, x) {
      OldTokens(s, m, c, x, family);
    } else {
      var e := if Rival(s, c, x) then d else c;
      NewRivals(s, m, e, x);
      var i :| 0 <= i < |s.rows| && s.rows[i].token.id == x && !s.rows[i].token.revoked;
      NextKeepsInv(s, m);
      RivalOfLiveIsRotating(s', c, x, i);
      RivalOfLiveIsRotating(s', d, x, i);
      OnlyFamilyOf(s', i, x, family);
      OverlapLeavesTwoLiveTokens(s', c, d, n1, n2);
    }
  }

  lemma Rivals(s: Race, family: Id) returns (x: Id, c: CallId, d: CallId)
    requires !NoRivalry(s, family)
    ensures TokenOf(s.rows, x, family) && Rival(s, c, x) && Rival(s, d, x) && c != d
  {
    x, c, d :| TokenOf(s.rows, x, family) && Rival(s, c, x) && Rival(s, d, x) && c != d;
  }

  lemma OnlyFamilyOf(s: Race, i: nat, x: Id, family: Id)
    requires RaceInv(s) && i < |s.rows| && s.rows[i].token.id == x && TokenOf(s.rows, x, family)
    ensures s.rows[i].token.family == family
  {
    var j :| 0 <= j < |s.rows| && s.rows[j].token.id == x && s.rows[j].token.family == family;
  }

  // ------------------------------------------------------------- what killing a family achieves

  predicate DeadFamily(rows: seq<Row>, family: Id) {
    forall i :: 0 <= i < |rows| && rows[i].token.family == family ==> rows[i].token.revoked
  }

  /** Some call is past its read and has yet to store. */
  predicate Busy(s: Race, family: Id) {
    exists c :: c in s.phases && Exchanging(s.phases[c], family)
  }

  predicate Exchanging(p: Phase, family: Id) {
    (p.Rotating? || p.Storing?) && p.token.family == family
  }

  /** No live member, and nobody about to store one. */
  predicate Extinct(s: Race, family: Id) {
    DeadFamily(s.rows, family) && !Busy(s, family) && family in s.families
  }

  lemma UpdateKeepsDeadFamily(rows: seq<Row>, f: Token -> Token, family: Id)
    requires DeadFamily(rows, family) && Gentle(f)
    ensures DeadFamily(UpdateTokens(rows, f), family)
  {
    forall i | 0 <= i < |rows| ensures UpdateTokens(rows, f)[i].token.family == rows[i].token.family {
      assert Same(f(rows[i].token), rows[i].token);
    }
  }

  lemma RowsStayDead(s: Race, m: Move, family: Id)
    requires RaceInv(s) && Extinct(s, family)
    ensures DeadFamily(Next(s, m).rows, family)
  {
    TableMoves(s, m);
    hide RaceInv, Next;
    var rows' := Next(s, m).rows;
    if f :| Gentle(f) && rows' == UpdateTokens(s.rows, f) {
      UpdateKeepsDeadFamily(s.rows, f, family);
    } else if m.Store? && m.call in s.phases && s.phases[m.call].Storing? {
      assert !Exchanging(s.phases[m.call], family);
    }
  }

  /** Only a read of a live member makes a call start to exchange. */
  lemma NobodyStarts(s: Race, m: Move, family: Id, c: CallId)
    requires Extinct(s, family) && c in Next(s, m).phases
    ensures !Exchanging(Next(s, m).phases[c], family)
  {
    if Next(s, m).phases[c].Rotating? || Next(s, m).phases[c].Storing? {
      ExchangeBegins(s, m, c);
    }
    assert c in s.phases ==> !Exchanging(s.phases[c], family);
    hide Next;
  }

  lemma {:induction false} ExtinctForGood(s: Race, ms: seq<Move>, family: Id)
    requires RaceInv(s) && Extinct(s, family)
    ensures RaceInv(Races(s, ms)) && Extinct(Races(s, ms), family)
  {
    if |ms| > 0 {
      var t, m := Races(s, ms[..|ms| - 1]), ms[|ms| - 1];
      ExtinctForGood(s, ms[..|ms| - 1], family);
      NextKeepsInv(t, m);
      RowsStayDead(t, m, family);
      forall c | c in Next(t, m).phases ensures !Exchanging(Next(t, m).phases[c], family) {
        NobodyStarts(t, m, family, c);
      }
      FamiliesGrow(t, m);
      hide RaceInv, Next, DeadFamily;
    }
  }

  lemma FamiliesGrow(s: Race, m: Move)
    ensures s.families <= Next(s, m).families
  {
  }

  lemma {:induction false} FreshNumber(used: set<nat>) returns (n: nat)
    ensures forall m :: m in used ==> m < n
  {
    if used == {} {
      n := 0;
    } else {
      var x :| x in used;
      var rest := FreshNumber(used - {x});
      n := if rest > x then rest else x + 1;
      forall m | m in used ensures m < n {
        assert m == x || m in used - {x};
      }
    }
  }

  lemma FreshDraw(s: Race) returns (next: NewToken)
    ensures Unseen(s, next)
  {
    var id := FreshNumber(s.ids);
    var hash := FreshNumber(s.hashes);
    var family := FreshNumber(s.families);
    next := NewToken(id, family, hash, 0);
  }

  /** What is left to do for a call that is exchanging a token. */
  function Finish(s: Race, c: CallId, next: NewToken): (ms: seq<Move>)
    requires c in s.phases
  {
    if s.phases[c].Rotating? then [Revoke(c, next, true, Healthy), Store(c, Healthy)] else [Store(c, Healthy)]
  }

  lemma FinishStores(s: Race, c: CallId, next: NewToken, family: Id)
    requires c in s.phases && Exchanging(s.phases[c], family) && Unseen(s, next)
    ensures !DeadFamily(Races(s, Finish(s, c, next)).rows, family)
  {
    if s.phases[c].Rotating? {
      var s1 := Next(s, Revoke(c, next, true, Healthy));
      assert s1.phases[c] == Storing(s.phases[c].token, next);
      StoreLives(s1, c, family);
      assert [Revoke(c, next, true, Healthy), Store(c, Healthy)]
             == [] + [Revoke(c, next, true, Healthy)] + [Store(c, Healthy)];
      RacesSnoc(s, [], Revoke(c, next, true, Healthy));
      RacesSnoc(s, [] + [Revoke(c, next, true, Healthy)], Store(c, Healthy));
    } else {
      StoreLives(s, c, family);
      assert [Store(c, Healthy)] == [] + [Store(c, Healthy)];
      RacesSnoc(s, [], Store(c, Healthy));
    }
  }

  lemma StoreLives(s: Race, c: CallId, family: Id)
    requires c in s.phases && s.phases[c].Storing? && s.phases[c].token.family == family
    ensures !DeadFamily(Next(s, Store(c, Healthy)).rows, family)
  {
    var rows := Next(s, Store(c, Healthy)).rows;
    assert rows[|s.rows|] == StoredRow(s, c);
  }

  ghost predicate StaysDead(s: Race, family: Id) {
    forall ms :: DeadFamily(Races(s, ms).rows, family)
  }

  lemma KillMarks(s: Race, c: CallId, fault: Fault)
    requires RaceInv(s) && c in s.phases && s.phases[c].Killing? && TookEffect(fault)
    ensures var s', family := Next(s, Kill(c, fault)), s.phases[c].family;
      DeadFamily(s'.rows, family) && family in s'.families
  {
    assert PhaseOk(s, c);
  }

  /** Reuse detection kills a family for good, in every continuation, if and only if at that moment no call is
      between its read and its insert for a token of the family: such a call stores a live member afterwards. */
  lemma KillIsFinalIff(s: Race, c: CallId, fault: Fault)
    requires RaceInv(s) && c in s.phases && s.phases[c].Killing? && TookEffect(fault)
    ensures StaysDead(Next(s, Kill(c, fault)), s.phases[c].family) <==> !Busy(s, s.phases[c].family)
  {
    var s', family := Next(s, Kill(c, fault)), s.phases[c].family;
    KillMarks(s, c, fault);
    NextKeepsInv(s, Kill(c, fault));
    assert s'.phases == s.phases[c := Ended];
    hide RaceInv, Next;
    if d :| d in s.phases && Exchanging(s.phases[d], family) {
      assert d != c && s'.phases[d] == s.phases[d];
      var next := FreshDraw(s');
      FinishStores(s', d, next, family);
    } else {
      forall d | d in s'.phases ensures !Exchanging(s'.phases[d], family) {
        assert d != c ==> s'.phases[d] == s.phases[d] && !Exchanging(s.phases[d], family);
      }
      forall ms ensures DeadFamily(Races(s', ms).rows, family) {
        ExtinctForGood(s', ms, family);
      }
    }
  }

  lemma LoginRow(m: Move) returns (s: Race)
    requires m == Move.Login("u", "t", NewToken(0, 0, 0, 9), Healthy)
    ensures s == Next(START, m) && s.phases == map[]
    ensures s.rows == [Row(Token(0, "u", "t", 0, 0, 9, false, None), LoggedIn)]
  {
    s := Next(START, m);
  }

  lemma TwoReads(s: Race, t: Token) returns (s': Race)
    requires s.rows == [Row(t, LoggedIn)] && s.phases == map[] && t.hash == 0 && !t.revoked && t.expires > 0
    ensures s' == Next(Next(Next(Next(s, Present(1, 0)), Present(2, 0)), Read(1, 0, true)), Read(2, 0, true))
    ensures 1 in s'.phases && 2 in s'.phases && s'.phases[1] == Rotating(t) && s'.phases[2] == Rotating(t)
  {
    var s2 := Next(Next(s, Present(1, 0)), Present(2, 0));
    assert s2.rows == s.rows && s2.phases == map[1 := Presenting(0), 2 := Presenting(0)];
    assert Tokens(s2.rows) == [t];
    assert Find([t], 0) == Some(t);
    var s3 := Next(s2, Read(1, 0, true));
    assert s3.rows == s2.rows && s3.phases == s2.phases[1 := Rotating(t)];
    s' := Next(s3, Read(2, 0, true));
  }

  predicate BothRotating(s: Race) {
    1 in s.phases && 2 in s.phases && s.phases[1].Rotating? && s.phases[2] == s.phases[1]
  }

  /** Such a state is reachable: one login, two calls presenting its token, two reads. */
  lemma OverlapIsReachable()
    ensures exists ms :: BothRotating(Races(START, ms))
  {
    hide Next;
    var m0 := Move.Login("u", "t", NewToken(0, 0, 0, 9), Healthy);
    var s1 := LoginRow(m0);
    var s2 := TwoReads(s1, s1.rows[0].token);
    RacesSnoc(START, [], m0);
    assert [] + [m0] == [m0];
    FourMoves(s1, Present(1, 0), Present(2, 0), Read(1, 0, true), Read(2, 0, true));
    var rest := [Present(1, 0), Present(2, 0), Read(1, 0, true), Read(2, 0, true)];
    RacesConcat(START, [m0], rest);
    assert BothRotating(Races(START, [m0] + rest));
  }

  lemma {:induction false} RacesConcat(s: Race, a: seq<Move>, b: seq<Move>)
    ensures Races(s, a + b) == Races(Races(s, a), b)
  {
    if |b| == 0 {
      assert a + b == a;
    } else {
      RacesConcat(s, a, b[..|b| - 1]);
      assert (a + b)[..|a + b| - 1] == a + b[..|b| - 1];
    }
  }

  predicate KillerAndStorer(s: Race, killer: CallId, storer: CallId) {
    && killer in s.phases && storer in s.phases && killer != storer
    && s.phases[killer].Killing? && Exchanging(s.phases[storer], s.phases[killer].family)
  }

  lemma FirstReads(s: Race, t: Token) returns (s': Race)
    requires s.rows == [Row(t, LoggedIn)] && s.phases == map[] && t.hash == 0 && !t.revoked && t.expires > 0
    ensures s' == Next(Next(Next(s, Present(1, 0)), Present(2, 0)), Read(1, 0, true))
    ensures s'.rows == s.rows && s'.phases == map[1 := Rotating(t), 2 := Presenting(0)]
    ensures s'.ids == s.ids && s'.hashes == s.hashes && s'.families == s.families
  {
    var s2 := Next(Next(s, Present(1, 0)), Present(2, 0));
    assert s2.rows == s.rows && s2.phases == map[1 := Presenting(0), 2 := Presenting(0)];
    assert Tokens(s2.rows) == [t] && Find([t], 0) == Some(t);
    s' := Next(s2, Read(1, 0, true));
  }

  lemma RevokeThenRead(s: Race, t: Token) returns (s': Race)
    requires s.rows == [Row(t, LoggedIn)] && t.hash == 0 && t.id == 0 && !t.revoked
    requires s.phases == map[1 := Rotating(t), 2 := Presenting(0)] && Unseen(s, NewToken(1, 1, 1, 9))
    ensures s' == Next(Next(s, Revoke(1, NewToken(1, 1, 1, 9), true, Healthy)), Read(2, 0, true))
    ensures KillerAndStorer(s', 2, 1)
  {
    var s4 := Next(s, Revoke(1, NewToken(1, 1, 1, 9), true, Healthy));
    var u := t.(revoked := true, replacedBy := Some(1));
    assert s4.rows == [Row(u, LoggedIn)] && s4.phases == s.phases[1 := Storing(t, NewToken(1, 1, 1, 9))];
    assert Tokens(s4.rows) == [u] && Find([u], 0) == Some(u);
    s' := Next(s4, Read(2, 0, true));
  }

  /** The bad moment is reached with a single rotation under way: the second call reads between the first
      one's revocation and its insert, and kills a family whose new member is not yet there. */
  lemma BusyKillIsReachable()
    returns (ms: seq<Move>)
    ensures KillerAndStorer(Races(START, ms), 2, 1)
  {
    hide Next;
    var m0 := Move.Login("u", "t", NewToken(0, 0, 0, 9), Healthy);
    var s1 := LoginRow(m0);
    FirstDraw(m0);
    var s2 := FirstReads(s1, s1.rows[0].token);
    var s3 := RevokeThenRead(s2, s1.rows[0].token);
    RacesSnoc(START, [], m0);
    assert [] + [m0] == [m0];
    var last := Read(2, 0, true);
    var four := [Present(1, 0), Present(2, 0), Read(1, 0, true), Revoke(1, NewToken(1, 1, 1, 9), true, Healthy)];
    FourMoves(s1, four[0], four[1], four[2], four[3]);
    RacesSnoc(s1, four, last);
    RacesConcat(START, [m0], four + [last]);
    ms := [m0] + (four + [last]);
  }

  lemma FirstDraw(m: Move)
    requires m == Move.Login("u", "t", NewToken(0, 0, 0, 9), Healthy)
    ensures Unseen(Next(START, m), NewToken(1, 1, 1, 9))
  {
  }
}
