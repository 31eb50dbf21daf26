/**
 * Refresh-token rotation with reuse detection (section 4.14.2 of RFC 9700) over the table
 * app.refresh_tokens. A token value stands for itself and for its SHA-256 digest, which is
 * what the table stores. Login and Refresh are single steps here; every repository call
 * inside them may fail, before or after taking effect.
 */
module RefreshTokens {
  import opened Basics

  type Id = nat
  type Hash = nat

  datatype Token = Token(id: Id, user: string, tenant: string, family: Id, hash: Hash, expires: int,
                         revoked: bool, replacedBy: Option<Id>)

  /** NewRefreshToken: random id, family and value. */
  datatype NewToken = NewToken(id: Id, family: Id, hash: Hash, expires: int)

  datatype Decision = RejectInvalid | RejectRevoked | RejectExpired | Allow

  function DecideRotation(revoked: bool, replacedBy: Option<Id>, expires: int, now: int): (d: Decision) {
    if revoked then
      if replacedBy.Some? then RejectRevoked else RejectInvalid
    else if expires <= now then RejectExpired
    else Allow
  }

  // ------------------------------------------------------------------- the table

  /** SELECT ... WHERE token_hash = $1. */
  function Find(rows: seq<Token>, hash: Hash): (found: Option<Token>)
    ensures found.Some? ==> found.value in rows && found.value.hash == hash
    ensures found.None? ==> forall t :: t in rows ==> t.hash != hash
  {
    if |rows| == 0 then None
    else if rows[|rows| - 1].hash == hash then Some(rows[|rows| - 1])
    else Find(rows[..|rows| - 1], hash)
  }

  function Update(rows: seq<Token>, f: Token -> Token): (out: seq<Token>)
    ensures |out| == |rows| && forall i :: 0 <= i < |rows| ==> out[i] == f(rows[i])
  {
    seq(|rows|, i requires 0 <= i < |rows| => f(rows[i]))
  }

  /** UPDATE ... SET revoked_at, replaced_by WHERE id: unconditional. */
  function Revoked(id: Id, next: Id): (f: Token -> Token) {
    (t: Token) => if t.id == id then t.(revoked := true, replacedBy := Some(next)) else t
  }

  /** UPDATE ... SET revoked_at WHERE family_id AND revoked_at IS NULL. */
  function FamilyRevoked(family: Id): (f: Token -> Token) {
    (t: Token) => if t.family == family then t.(revoked := true) else t
  }

  function Successor(parent: Token, next: NewToken): (t: Token) {
    Token(next.id, parent.user, parent.tenant, parent.family, next.hash, next.expires, false, None)
  }

  // -------------------------------------------------------- Login and Refresh as steps

  /** Which calls inside one Refresh fail. */
  datatype RefreshFaults = RefreshFaults(find: bool, role: bool, generate: bool, revoke: Fault, store: Fault,
                                         issue: bool, family: Fault)

  /** Which calls inside one Login fail. */
  datatype LoginFaults = LoginFaults(role: bool, issue: bool, generate: bool, store: Fault)

  datatype Outcome = Session(hash: Hash) | Unauthorized | Failed

  function LoginResult(rows: seq<Token>, user: string, tenant: string, valid: bool, next: NewToken, f: LoginFaults)
    : (r: (seq<Token>, Outcome))
  {
    if !valid then (rows, Unauthorized)
    else if f.role || f.issue || f.generate || f.store.Lost? then (rows, Failed)
    else
      (rows + [Token(next.id, user, tenant, next.family, next.hash, next.expires, false, None)],
       if f.store.AckLost? then Failed else Session(next.hash))
  }

  function RefreshResult(rows: seq<Token>, presented: Option<Hash>, now: int, next: NewToken, f: RefreshFaults)
    : (r: (seq<Token>, Outcome))
  {
    if presented.None? then (rows, Unauthorized)
    else if f.find then (rows, Failed)
    else
      var found := Find(rows, presented.value);
      if found.None? then (rows, Unauthorized)
      else
        var t := found.value;
        match DecideRotation(t.revoked, t.replacedBy, t.expires, now)
        case RejectInvalid => (rows, Unauthorized)
        case RejectExpired => (rows, Unauthorized)
        case RejectRevoked =>
          if f.family.Lost? then (rows, Failed)
          else (Update(rows, FamilyRevoked(t.family)), if f.family.AckLost? then Failed else Unauthorized)
        case Allow =>
          if f.role || f.generate || f.revoke.Lost? then (rows, Failed)
          else
            var marked := Update(rows, Revoked(t.id, next.id));
            if f.revoke.AckLost? || f.store.Lost? then (marked, Failed)
            else
              (marked + [Successor(t, next)],
               if f.store.AckLost? || f.issue then Failed else Session(next.hash))
  }

  // ------------------------------------------------------------------- the machine

  /** The table, and every random value drawn so far. */
  datatype State = State(rows: seq<Token>, ids: set<Id>, hashes: set<Hash>, families: set<Id>)

  const INITIAL := State([], {}, {}, {})

  datatype Event =
    | Login(user: string, tenant: string, valid: bool, next: NewToken, loginFaults: LoginFaults)
    | Refresh(presented: Option<Hash>, now: int, next: NewToken, faults: RefreshFaults)

  predicate Fresh(s: State, next: NewToken) {
    next.id !in s.ids && next.hash !in s.hashes && next.family !in s.families
  }

  function Result(s: State, e: Event): (r: (seq<Token>, Outcome)) {
    match e
    case Login(user, tenant, valid, next, f) => LoginResult(s.rows, user, tenant, valid, next, f)
    case Refresh(presented, now, next, f) => RefreshResult(s.rows, presented, now, next, f)
  }

  /** One call. A draw that repeats an earlier value does not happen. */
  function Step(s: State, e: Event): (s': State) {
    if !Fresh(s, e.next) then s
    else State(Result(s, e).0, s.ids + {e.next.id}, s.hashes + {e.next.hash}, s.families + {e.next.family})
  }

  function Run(s: State, es: seq<Event>): (s': State) {
    if |es| == 0 then s else Step(Run(s, es[..|es| - 1]), es[|es| - 1])
  }

  // ------------------------------------------------------------------- families

  /** The members of a family, oldest first. */
  function Family(rows: seq<Token>, family: Id): (members: seq<Token>) {
    if |rows| == 0 then []
    else
      var last := rows[|rows| - 1];
      Family(rows[..|rows| - 1], family) + (if last.family == family then [last] else [])
  }

  ghost predicate Unclaimed(rows: seq<Token>, id: Id) {
    forall t :: t in rows ==> t.id != id
  }

  /** One linear rotation chain: each member but the last is revoked in favour of the next; the last
      may point only at a successor that was never stored, and then it is revoked. */
  ghost predicate Linear(rows: seq<Token>, members: seq<Token>) {
    && (forall i :: 0 <= i < |members| - 1 ==> members[i].revoked && members[i].replacedBy == Some(members[i + 1].id))
    && (|members| > 0 && members[|members| - 1].replacedBy.Some? ==>
          members[|members| - 1].revoked && Unclaimed(rows, members[|members| - 1].replacedBy.value))
    && (forall i, j :: 0 <= i < j < |members| ==>
          members[i].user == members[j].user && members[i].tenant == members[j].tenant)
  }

  predicate Dead(rows: seq<Token>, family: Id) {
    forall i :: 0 <= i < |rows| && rows[i].family == family ==> rows[i].revoked
  }

  ghost predicate Inv(s: State) {
    && (forall i, j :: 0 <= i < j < |s.rows| ==> s.rows[i].id != s.rows[j].id && s.rows[i].hash != s.rows[j].hash)
    && (forall t :: t in s.rows ==> t.id in s.ids && t.hash in s.hashes && t.family in s.families
                                    && (t.replacedBy.Some? ==> t.replacedBy.value in s.ids))
    && (forall f :: Linear(s.rows, Family(s.rows, f)))
  }

  lemma FamilyAppend(rows: seq<Token>, t: Token, family: Id)
    ensures Family(rows + [t], family) == Family(rows, family) + (if t.family == family then [t] else [])
  {
    assert (rows + [t])[..|rows|] == rows;
  }

  /** An update that keeps families acts member by member. */
  lemma {:induction false} FamilyUpdate(rows: seq<Token>, f: Token -> Token, family: Id)
    requires forall t :: f(t).family == t.family
    ensures Family(Update(rows, f), family) == Update(Family(rows, family), f)
  {
    if |rows| > 0 {
      FamilyUpdate(rows[..|rows| - 1], f, family);
      assert Update(rows, f)[..|rows| - 1] == Update(rows[..|rows| - 1], f);
    }
  }

  lemma {:induction false} FamilyMembers(rows: seq<Token>, family: Id, t: Token)
    ensures t in Family(rows, family) <==> t in rows && t.family == family
  {
    if |rows| > 0 {
      FamilyMembers(rows[..|rows| - 1], family, t);
      assert rows == rows[..|rows| - 1] + [rows[|rows| - 1]];
    }
  }

  /** An unrevoked member is the last of its family. */
  lemma UnrevokedIsLast(s: State, t: Token)
    requires Inv(s) && t in s.rows && !t.revoked
    ensures var m := Family(s.rows, t.family); |m| > 0 && m[|m| - 1] == t
  {
    FamilyMembers(s.rows, t.family, t);
    assert Linear(s.rows, Family(s.rows, t.family));
  }

  lemma UniqueId(s: State, t: Token, u: Token)
    requires Inv(s) && t in s.rows && u in s.rows && (t.id == u.id || t.hash == u.hash)
    ensures t == u
  {
  }

  // ------------------------------------------------------------------- preservation

  lemma MarkingKeepsRows(rows: seq<Token>, f: Token -> Token)
    requires forall t :: f(t).id == t.id && f(t).hash == t.hash && f(t).family == t.family
    ensures forall u :: u in Update(rows, f) ==> exists t :: t in rows && u == f(t)
    ensures forall id :: Unclaimed(rows, id) ==> Unclaimed(Update(rows, f), id)
  {
    var out := Update(rows, f);
    forall u | u in out ensures exists t :: t in rows && u == f(t) {
      var i :| 0 <= i < |out| && out[i] == u;
      assert rows[i] in rows && u == f(rows[i]);
    }
  }

  /** Revoking the last member in favour of an unstored id keeps the chain. */
  lemma RevokeKeepsLinear(s: State, t: Token, next: Id, family: Id)
    requires Inv(s) && t in s.rows && !t.revoked && next !in s.ids
    ensures Linear(Update(s.rows, Revoked(t.id, next)), Family(Update(s.rows, Revoked(t.id, next)), family))
  {
    var f := Revoked(t.id, next);
    var m := Family(s.rows, family);
    FamilyUpdate(s.rows, f, family);
    MarkingKeepsRows(s.rows, f);
    assert Linear(s.rows, m);
    forall i | 0 <= i < |m| ensures m[i].id == t.id ==> i == |m| - 1 {
      if m[i].id == t.id {
        MarkedIsLast(s, t, family, i);
      }
    }
    assert Unclaimed(s.rows, next);
    hide Inv, Family;
  }

  /** The unrevoked row is the last member of its family. */
  lemma MarkedIsLast(s: State, t: Token, family: Id, i: nat)
    requires Inv(s) && t in s.rows && !t.revoked && i < |Family(s.rows, family)| && Family(s.rows, family)[i].id == t.id
    ensures i == |Family(s.rows, family)| - 1
  {
    var m := Family(s.rows, family);
    FamilyMembers(s.rows, family, m[i]);
    UniqueId(s, m[i], t);
    assert Linear(s.rows, m);
  }

  lemma LinearSurvives(rows: seq<Token>, m: seq<Token>, f: Token -> Token)
    requires Linear(rows, m)
    requires forall t :: f(t).id == t.id && f(t).hash == t.hash && f(t).family == t.family
    requires forall t :: f(t).user == t.user && f(t).tenant == t.tenant && f(t).replacedBy == t.replacedBy
    requires forall t: Token :: t.revoked ==> f(t).revoked
    ensures Linear(Update(rows, f), Update(m, f))
  {
    MarkingKeepsRows(rows, f);
  }

  lemma FamilyRevokedKeepsLinear(s: State, dead: Id, family: Id)
    requires Inv(s)
    ensures Linear(Update(s.rows, FamilyRevoked(dead)), Family(Update(s.rows, FamilyRevoked(dead)), family))
  {
    var f := FamilyRevoked(dead);
    var m := Family(s.rows, family);
    FamilyUpdate(s.rows, f, family);
    assert Linear(s.rows, m);
    LinearSurvives(s.rows, m, f);
  }

  lemma LinearGrows(rows: seq<Token>, members: seq<Token>, t: Token)
    requires Linear(rows, members)
    requires forall u :: u in rows && u.replacedBy.Some? && u.replacedBy.value == t.id ==>
      u in members && u == members[|members| - 1]
    requires forall u :: u in members ==> u in rows
    ensures members != [] && members[|members| - 1].replacedBy == Some(t.id) && !t.revoked && t.replacedBy.None?
            && t.user == members[|members| - 1].user && t.tenant == members[|members| - 1].tenant
            ==> Linear(rows + [t], members + [t])
    ensures members == [] && t.replacedBy.None? ==> Linear(rows + [t], [t])
    ensures (members != [] ==> members[|members| - 1].replacedBy != Some(t.id)) ==> Linear(rows + [t], members)
  {
  }

  /** Once marked, the parent alone points at the successor. */
  lemma OnlyParentPoints(s: State, t: Token, next: NewToken, v: Token)
    requires Inv(s) && t in s.rows && Fresh(s, next)
    requires v in Update(s.rows, Revoked(t.id, next.id)) && v.replacedBy == Some(next.id)
    ensures v == Revoked(t.id, next.id)(t)
  {
    MarkingKeepsRows(s.rows, Revoked(t.id, next.id));
    var w :| w in s.rows && v == Revoked(t.id, next.id)(w);
    if w.id == t.id {
      UniqueId(s, w, t);
    }
  }

  lemma MarkedLast(s: State, t: Token, next: Id)
    requires Inv(s) && t in s.rows && !t.revoked
    ensures var m := Family(Update(s.rows, Revoked(t.id, next)), t.family);
      |m| > 0 && m[|m| - 1] == Revoked(t.id, next)(t)
  {
    FamilyUpdate(s.rows, Revoked(t.id, next), t.family);
    UnrevokedIsLast(s, t);
    hide Inv, Family;
  }

  /** Storing the successor right after its parent was revoked for it. */
  lemma StoreKeepsLinear(s: State, t: Token, next: NewToken, family: Id)
    requires Inv(s) && t in s.rows && !t.revoked && Fresh(s, next)
    ensures var rows := Update(s.rows, Revoked(t.id, next.id)) + [Successor(t, next)];
      Linear(rows, Family(rows, family))
  {
    var rows := Update(s.rows, Revoked(t.id, next.id));
    var u := Successor(t, next);
    var m := Family(rows, family);
    RevokeKeepsLinear(s, t, next.id, family);
    FamilyAppend(rows, u, family);
    assert m + [] == m;
    if family == t.family {
      ChildKeepsLinear(s, t, next);
    } else {
      OtherFamilyKeepsLinear(s, t, next, family);
    }
    hide *;
  }

  lemma ChildKeepsLinear(s: State, t: Token, next: NewToken)
    requires Inv(s) && t in s.rows && !t.revoked && Fresh(s, next)
    requires var rows := Update(s.rows, Revoked(t.id, next.id)); Linear(rows, Family(rows, t.family))
    ensures var rows := Update(s.rows, Revoked(t.id, next.id));
      Linear(rows + [Successor(t, next)], Family(rows, t.family) + [Successor(t, next)])
  {
    var rows := Update(s.rows, Revoked(t.id, next.id));
    var m := Family(rows, t.family);
    MarkedLast(s, t, next.id);
    forall v | v in rows && v.replacedBy.Some? && v.replacedBy.value == next.id ensures v == m[|m| - 1] {
      OnlyParentPoints(s, t, next, v);
    }
    forall v | v in m ensures v in rows {
      FamilyMembers(rows, t.family, v);
    }
    hide Inv, Family, Update, Linear;
    LinearGrows(rows, m, Successor(t, next));
  }

  lemma OtherFamilyKeepsLinear(s: State, t: Token, next: NewToken, family: Id)
    requires Inv(s) && t in s.rows && !t.revoked && Fresh(s, next) && family != t.family
    requires var rows := Update(s.rows, Revoked(t.id, next.id)); Linear(rows, Family(rows, family))
    ensures var rows := Update(s.rows, Revoked(t.id, next.id));
      Linear(rows + [Successor(t, next)], Family(rows, family))
  {
    var rows := Update(s.rows, Revoked(t.id, next.id));
    var m := Family(rows, family);
    if m != [] {
      FamilyMembers(rows, family, m[|m| - 1]);
      if m[|m| - 1].replacedBy == Some(next.id) {
        OnlyParentPoints(s, t, next, m[|m| - 1]);
      }
    }
    hide Inv, Family, Update, Linear;
    OtherRowKeepsLinear(rows, m, Successor(t, next));
  }

  lemma FreshFamilyIsEmpty(s: State, family: Id)
    requires Inv(s) && family !in s.families
    ensures Family(s.rows, family) == []
  {
    var m := Family(s.rows, family);
    if m != [] {
      FamilyMembers(s.rows, family, m[0]);
    }
  }

  lemma OtherRowKeepsLinear(rows: seq<Token>, m: seq<Token>, t: Token)
    requires Linear(rows, m)
    requires m != [] && m[|m| - 1].replacedBy.Some? ==> m[|m| - 1].replacedBy.value != t.id
    ensures Linear(rows + [t], m)
  {
  }

  lemma NewFamilyKeepsLinear(s: State, t: Token, family: Id)
    requires Inv(s) && t.id !in s.ids && t.family !in s.families && !t.revoked && t.replacedBy.None?
    ensures Linear(s.rows + [t], Family(s.rows + [t], family))
  {
    var m := Family(s.rows, family);
    FamilyAppend(s.rows, t, family);
    if family == t.family {
      FreshFamilyIsEmpty(s, family);
      assert m + [t] == [t];
    } else {
      assert m + [] == m;
      assert Linear(s.rows, m);
      if m != [] {
        FamilyMembers(s.rows, family, m[|m| - 1]);
      }
      OtherRowKeepsLinear(s.rows, m, t);
    }
  }

  /** The ways a call can change the table. */
  datatype Change = Nothing | Added(t: Token) | Killed(family: Id) | Marked(parent: Token) | Exchanged(parent: Token)

  function Changed(s: State, c: Change, next: NewToken): (rows: seq<Token>) {
    match c
    case Nothing => s.rows
    case Added(t) => s.rows + [t]
    case Killed(family) => Update(s.rows, FamilyRevoked(family))
    case Marked(t) => Update(s.rows, Revoked(t.id, next.id))
    case Exchanged(t) => Update(s.rows, Revoked(t.id, next.id)) + [Successor(t, next)]
  }

  predicate Possible(s: State, c: Change, next: NewToken) {
    match c
    case Added(t) =>
      t.id == next.id && t.hash == next.hash && t.family == next.family && !t.revoked && t.replacedBy.None?
    case Marked(t) => t in s.rows && !t.revoked
    case Exchanged(t) => t in s.rows && !t.revoked
    case _ => true
  }

  lemma StepChange(s: State, e: Event) returns (c: Change)
    requires Fresh(s, e.next)
    ensures Possible(s, c, e.next)
    ensures Step(s, e) == State(Changed(s, c, e.next), s.ids + {e.next.id}, s.hashes + {e.next.hash},
                                s.families + {e.next.family})
  {
    match e
    case Login(user, tenant, valid, next, f) =>
      c := if Result(s, e).0 == s.rows then Nothing
           else Added(Token(next.id, user, tenant, next.family, next.hash, next.expires, false, None));
    case Refresh(presented, now, next, f) =>
      var rows := Result(s, e).0;
      if rows == s.rows {
        c := Nothing;
      } else {
        var t := Find(s.rows, presented.value).value;
        c := if t.revoked then Killed(t.family)
             else if f.revoke.AckLost? || f.store.Lost? then Marked(t) else Exchanged(t);
      }
      hide Find;
  }

  ghost predicate Keyed(s: State) {
    && (forall i, j :: 0 <= i < j < |s.rows| ==> s.rows[i].id != s.rows[j].id && s.rows[i].hash != s.rows[j].hash)
    && (forall t :: t in s.rows ==> t.id in s.ids && t.hash in s.hashes && t.family in s.families
                                    && (t.replacedBy.Some? ==> t.replacedBy.value in s.ids))
  }

  function Drawn(s: State, rows: seq<Token>, next: NewToken): (s': State) {
    State(rows, s.ids + {next.id}, s.hashes + {next.hash}, s.families + {next.family})
  }

  lemma MarkKeepsKeyed(s: State, f: Token -> Token, next: NewToken)
    requires Keyed(s)
    requires forall t :: f(t).id == t.id && f(t).hash == t.hash && f(t).family == t.family
    requires forall t: Token :: f(t).replacedBy == t.replacedBy || f(t).replacedBy == Some(next.id)
    ensures Keyed(Drawn(s, Update(s.rows, f), next))
  {
    MarkingKeepsRows(s.rows, f);
  }

  lemma AddKeepsKeyed(s: State, t: Token, next: NewToken)
    requires Keyed(s) && t.id !in s.ids && t.hash !in s.hashes && t.replacedBy.None?
    ensures Keyed(Drawn(s, s.rows + [t], next).(ids := s.ids + {t.id}, hashes := s.hashes + {t.hash},
                                                   families := s.families + {t.family}))
  {
  }

  lemma ChangeKeepsKeyed(s: State, c: Change, next: NewToken)
    requires Keyed(s) && Fresh(s, next) && Possible(s, c, next)
    ensures Keyed(Drawn(s, Changed(s, c, next), next))
  {
    match c
    case Nothing =>
    case Added(t) =>
      AddKeepsKeyed(s, t, next);
    case Killed(family) =>
      MarkKeepsKeyed(s, FamilyRevoked(family), next);
    case Marked(t) =>
      MarkKeepsKeyed(s, Revoked(t.id, next.id), next);
    case Exchanged(t) =>
      MarkKeepsKeyed(s, Revoked(t.id, next.id), next);
      SuccessorKeepsKeyed(s, t, next);
  }

  lemma SuccessorKeepsKeyed(s: State, t: Token, next: NewToken)
    requires Keyed(s) && Fresh(s, next) && t in s.rows
    requires Keyed(Drawn(s, Update(s.rows, Revoked(t.id, next.id)), next))
    ensures Keyed(Drawn(s, Update(s.rows, Revoked(t.id, next.id)) + [Successor(t, next)], next))
  {
    MarkingKeepsRows(s.rows, Revoked(t.id, next.id));
  }

  lemma ChangeKeepsLinear(s: State, c: Change, next: NewToken, family: Id)
    requires Inv(s) && Fresh(s, next) && Possible(s, c, next)
    ensures var rows := Changed(s, c, next); Linear(rows, Family(rows, family))
  {
    match c
    case Nothing => assert Linear(s.rows, Family(s.rows, family));
    case Added(t) => NewFamilyKeepsLinear(s, t, family);
    case Killed(dead) => FamilyRevokedKeepsLinear(s, dead, family);
    case Marked(t) => RevokeKeepsLinear(s, t, next.id, family);
    case Exchanged(t) => StoreKeepsLinear(s, t, next, family);
  }

  lemma StepKeepsInv(s: State, e: Event)
    requires Inv(s)
    ensures Inv(Step(s, e))
  {
    if Fresh(s, e.next) {
      var c := StepChange(s, e);
      hide Step, Changed, Possible, Linear, Family;
      ChangeKeepsKeyed(s, c, e.next);
      var rows := Changed(s, c, e.next);
      forall f ensures Linear(rows, Family(rows, f)) {
        ChangeKeepsLinear(s, c, e.next, f);
      }
    }
  }

  lemma {:induction false} RunKeepsInv(es: seq<Event>)
    ensures Inv(Run(INITIAL, es))
  {
    if |es| > 0 {
      RunKeepsInv(es[..|es| - 1]);
      StepKeepsInv(Run(INITIAL, es[..|es| - 1]), es[|es| - 1]);
    }
  }

  // ------------------------------------------------------------------- the theorems

  lemma AtMostOneUnrevoked(s: State, family: Id)
    requires Inv(s)
    ensures forall i, j :: (0 <= i < |s.rows| && 0 <= j < |s.rows| && s.rows[i].family == s.rows[j].family == family
                            && !s.rows[i].revoked && !s.rows[j].revoked) ==> i == j
  {
    forall i, j | 0 <= i < |s.rows| && 0 <= j < |s.rows| && s.rows[i].family == s.rows[j].family == family
      && !s.rows[i].revoked && !s.rows[j].revoked
      ensures i == j
    {
      UnrevokedIsLast(s, s.rows[i]);
      UnrevokedIsLast(s, s.rows[j]);
    }
  }

  /** Every reachable family is one linear rotation chain with at most one unrevoked member,
      all of one user and tenant, whatever failed along the way. */
  lemma EveryFamilyIsOneChain(es: seq<Event>, family: Id)
    ensures var rows := Run(INITIAL, es).rows; Linear(rows, Family(rows, family))
    ensures var rows := Run(INITIAL, es).rows;
      forall i, j :: (0 <= i < |rows| && 0 <= j < |rows| && rows[i].family == rows[j].family == family
                      && !rows[i].revoked && !rows[j].revoked) ==> i == j
  {
    RunKeepsInv(es);
    AtMostOneUnrevoked(Run(INITIAL, es), family);
  }

  lemma {:induction false} FamilyDistinct(rows: seq<Token>, family: Id)
    requires forall i, j :: 0 <= i < j < |rows| ==> rows[i].id != rows[j].id
    ensures var m := Family(rows, family); forall i, j :: 0 <= i < j < |m| ==> m[i].id != m[j].id
  {
    if |rows| > 0 {
      var front := rows[..|rows| - 1];
      FamilyDistinct(front, family);
      var m := Family(front, family);
      forall i | 0 <= i < |m| ensures m[i].id != rows[|rows| - 1].id {
        FamilyMembers(front, family, m[i]);
      }
    }
  }

  /** The chain starts at the login token: no row was ever replaced by it. */
  lemma ChainStartsAtLogin(es: seq<Event>, family: Id)
    ensures var rows := Run(INITIAL, es).rows; var m := Family(rows, family);
      m != [] ==> forall t :: t in rows ==> t.replacedBy != Some(m[0].id)
  {
    RunKeepsInv(es);
    var s := Run(INITIAL, es);
    var m := Family(s.rows, family);
    if m != [] {
      FamilyMembers(s.rows, family, m[0]);
      forall t | t in s.rows ensures t.replacedBy != Some(m[0].id) {
        var k := Family(s.rows, t.family);
        FamilyMembers(s.rows, t.family, t);
        assert Linear(s.rows, k);
        var i :| 0 <= i < |k| && k[i] == t;
        if i < |k| - 1 && k[i + 1].id == m[0].id {
          FamilyMembers(s.rows, t.family, k[i + 1]);
          UniqueId(s, k[i + 1], m[0]);
          FamilyDistinct(s.rows, family);
        }
      }
    }
  }

  // --------------------------------------------------- what one Refresh does, exactly

  /** Read off the definition: a session is returned exactly for a known, unrevoked, unexpired token when
      nothing fails. */
  lemma SessionIff(rows: seq<Token>, presented: Option<Hash>, now: int, next: NewToken, f: RefreshFaults)
    ensures RefreshResult(rows, presented, now, next, f).1 == Session(next.hash) <==>
      && presented.Some? && Find(rows, presented.value).Some?
      && !Find(rows, presented.value).value.revoked && now < Find(rows, presented.value).value.expires
      && !f.find && !f.role && !f.generate && f.revoke.Healthy? && f.store.Healthy? && !f.issue
  {
  }

  /** A login gives a session exactly when the credentials are valid and nothing fails. */
  lemma LoginSessionIff(s: State, e: Event)
    requires e.Login? && Fresh(s, e.next)
    ensures var f := e.loginFaults;
      Result(s, e).1.Session? <==> e.valid && !f.role && !f.issue && !f.generate && f.store.Healthy?
    ensures !e.valid ==> Result(s, e).1 == Unauthorized && Step(s, e).rows == s.rows
    ensures e.valid ==> Result(s, e).1 != Unauthorized
  {
  }

  /** The client is told 401, and wipes its tokens, exactly when it presented nothing or the token it presented was
      looked up and is unknown, expired or revoked; a rotated one only if its family was revoked and that was
      acknowledged. Every other refusal is a failure of the server. */
  lemma UnauthorizedIff(s: State, e: Event)
    requires e.Refresh?
    ensures Result(s, e).1 == Unauthorized <==>
      || e.presented.None?
      || (!e.faults.find &&
          match Find(s.rows, e.presented.value)
          case None => true
          case Some(t) => if t.revoked then t.replacedBy.Some? ==> e.faults.family.Healthy? else t.expires <= e.now)
  {
  }

  /** The row behind a session, column by column. */
  lemma SessionRow(s: State, e: Event)
    requires Inv(s) && Fresh(s, e.next) && Result(s, e).1.Session?
    ensures Result(s, e).1.hash == e.next.hash
    ensures e.Login? ==>
      Find(Step(s, e).rows, e.next.hash)
      == Some(Token(e.next.id, e.user, e.tenant, e.next.family, e.next.hash, e.next.expires, false, None))
    ensures e.Refresh? ==>
      && e.presented.Some? && Find(s.rows, e.presented.value).Some?
      && var p := Find(s.rows, e.presented.value).value;
         Find(Step(s, e).rows, e.next.hash)
         == Some(Token(e.next.id, p.user, p.tenant, p.family, e.next.hash, e.next.expires, false, None))
  {
    var s' := Step(s, e);
    var t := s'.rows[|s'.rows| - 1];
    assert t.hash == e.next.hash;
    StepKeepsInv(s, e);
    FindUnique(s', t);
    hide Inv, Find;
  }

  /** So the token of a session is good for a session exactly until the expiry drawn with it. */
  lemma SessionIsRotatableIff(s: State, e: Event, second: Event)
    requires Inv(s) && Fresh(s, e.next) && Result(s, e).1.Session?
    requires second.Refresh? && second.presented == Some(Result(s, e).1.hash)
    requires var f := second.faults;
      !f.find && !f.role && !f.generate && f.revoke.Healthy? && f.store.Healthy? && !f.issue
    ensures Result(Step(s, e), second).1.Session? <==> second.now < e.next.expires
  {
    SessionRow(s, e);
    SessionIff(Step(s, e).rows, second.presented, second.now, second.next, second.faults);
    hide Find, Inv, Step;
  }

  // --------------------------------------------------- where families come from

  /** Event k of the run is the login that began the family of t, for the user and the tenant of t. */
  predicate Begins(es: seq<Event>, k: nat, t: Token) {
    && k < |es| && es[k].Login? && es[k].valid && es[k].user == t.user && es[k].tenant == t.tenant
    && es[k].next.family == t.family && Fresh(Run(INITIAL, es[..k]), es[k].next)
  }

  /** A row has a row of the same user, tenant and family before it, or a valid login of that user has just begun its
      family. */
  lemma RowOrigin(s: State, e: Event, t: Token)
    requires t in Step(s, e).rows
    ensures || (exists u :: u in s.rows && u.user == t.user && u.tenant == t.tenant && u.family == t.family)
            || (Fresh(s, e.next) && e.Login? && e.valid && e.user == t.user && e.tenant == t.tenant
                && e.next.family == t.family)
  {
    if Fresh(s, e.next) && e.Refresh? && Step(s, e).rows != s.rows {
      var p := Find(s.rows, e.presented.value).value;
      var i :| 0 <= i < |Step(s, e).rows| && Step(s, e).rows[i] == t;
      if i < |s.rows| {
        StepPersists(s, e, i);
        assert s.rows[i] in s.rows;
      } else {
        assert p in s.rows && t == Successor(p, e.next);
      }
      hide Find;
    }
  }

  /** Every row of every run goes back to a login with valid credentials, of its own user and tenant. */
  lemma {:induction false} EveryFamilyBeganWithALogin(es: seq<Event>, t: Token)
    requires t in Run(INITIAL, es).rows
    ensures exists k: nat :: Begins(es, k, t)
  {
    if |es| > 0 {
      var n := |es| - 1;
      var before := Run(INITIAL, es[..n]);
      RowOrigin(before, es[n], t);
      if u :| u in before.rows && u.user == t.user && u.tenant == t.tenant && u.family == t.family {
        EveryFamilyBeganWithALogin(es[..n], u);
        var k: nat :| Begins(es[..n], k, u);
        assert es[..n][..k] == es[..k];
        assert Begins(es, k, t);
      } else {
        assert Begins(es, n, t);
      }
    }
  }

  /** Whoever gets a session out of a refresh, after any run, gets it for a user and tenant that logged in with
      valid credentials, and in the family of that login. */
  lemma SessionsComeFromLogins(es: seq<Event>, e: Event)
    requires var s := Run(INITIAL, es); e.Refresh? && Fresh(s, e.next) && Result(s, e).1.Session?
    ensures var s := Run(INITIAL, es);
      var t := Find(Step(s, e).rows, Result(s, e).1.hash);
      t.Some? && exists k: nat :: Begins(es, k, t.value)
  {
    RunKeepsInv(es);
    var s := Run(INITIAL, es);
    SessionRow(s, e);
    var p := Find(s.rows, e.presented.value).value;
    EveryFamilyBeganWithALogin(es, p);
    var k: nat :| Begins(es, k, p);
    hide Run, Step, Inv, Find, Result;
    var t := Find(Step(s, e).rows, Result(s, e).1.hash).value;
    assert t.user == p.user && t.tenant == p.tenant && t.family == p.family;
    assert Begins(es, k, t);
  }

  /** The token the call finds and may rotate. */
  predicate Rotates(s: State, e: Event, t: Token) {
    && e.Refresh? && Fresh(s, e.next) && !e.faults.find && e.presented.Some?
    && Find(s.rows, e.presented.value) == Some(t) && !t.revoked && e.now < t.expires
  }

  /** After a rotation attempt the family has lost its live member exactly when the revocation took
      effect and the successor was not stored. */
  lemma RotationKillsFamilyIff(s: State, e: Event, t: Token)
    requires Inv(s) && Rotates(s, e, t)
    ensures Dead(Step(s, e).rows, t.family) <==>
      && !e.faults.role && !e.faults.generate && TookEffect(e.faults.revoke)
      && (e.faults.revoke.AckLost? || e.faults.store.Lost?)
  {
    var s' := Step(s, e);
    UnrevokedIsLast(s, t);
    if e.faults.role || e.faults.generate || e.faults.revoke.Lost? {
      assert s'.rows == s.rows;
      var i :| 0 <= i < |s.rows| && s.rows[i] == t;
    } else if e.faults.revoke.AckLost? || e.faults.store.Lost? {
      forall i | 0 <= i < |s'.rows| && s'.rows[i].family == t.family ensures s'.rows[i].revoked {
        if !s.rows[i].revoked {
          UnrevokedIsLast(s, s.rows[i]);
        }
      }
    } else {
      assert s'.rows[|s.rows|] == Successor(t, e.next);
    }
  }

  /** A family without a live member never gets one again. */
  lemma StepKeepsDead(s: State, e: Event, family: Id)
    requires Dead(s.rows, family) && family in s.families
    ensures Dead(Step(s, e).rows, family) && family in Step(s, e).families
  {
    var s' := Step(s, e);
    if Fresh(s, e.next) && e.Refresh? && s'.rows != s.rows {
      var t := Find(s.rows, e.presented.value).value;
      if !t.revoked {
        var i :| 0 <= i < |s.rows| && s.rows[i] == t;
        assert t.family != family;
      }
    }
  }

  lemma {:induction false} DeadForGood(s: State, es: seq<Event>, family: Id)
    requires Dead(s.rows, family) && family in s.families
    ensures Dead(Run(s, es).rows, family)
    ensures family in Run(s, es).families
  {
    if |es| > 0 {
      DeadForGood(s, es[..|es| - 1], family);
      StepKeepsDead(Run(s, es[..|es| - 1]), es[|es| - 1], family);
    }
  }

  /** A lost Store leaves the family without a usable token in every later state. */
  lemma LostStoreKillsForGood(s: State, e: Event, t: Token, later: seq<Event>)
    requires Inv(s) && Rotates(s, e, t)
    requires !e.faults.role && !e.faults.generate && TookEffect(e.faults.revoke) && e.faults.store.Lost?
    ensures Dead(Run(Step(s, e), later).rows, t.family)
  {
    RotationKillsFamilyIff(s, e, t);
    assert t.family in Step(s, e).families;
    DeadForGood(Step(s, e), later, t.family);
  }

  /** A row already rotated away. */
  predicate Rotated(t: Token) {
    t.revoked && t.replacedBy.Some?
  }

  /** Presenting a rotated token kills its family for good, provided the family UPDATE takes effect. */
  lemma ReplayKillsForGood(s: State, e: Event, t: Token, later: seq<Event>)
    requires Inv(s) && e.Refresh? && Fresh(s, e.next)
    requires e.presented.Some? && Find(s.rows, e.presented.value) == Some(t) && Rotated(t)
    requires !e.faults.find && TookEffect(e.faults.family)
    ensures !Result(s, e).1.Session?
    ensures Dead(Run(Step(s, e), later).rows, t.family)
  {
    var s' := Step(s, e);
    assert s'.rows == Update(s.rows, FamilyRevoked(t.family));
    assert Dead(s'.rows, t.family);
    DeadForGood(s', later, t.family);
  }

  /** The call presents a rotated token of a family with a live member, and the family update takes effect. */
  predicate Kills(s: State, e: Event) {
    && e.Refresh? && !e.faults.find && e.presented.Some? && Find(s.rows, e.presented.value).Some?
    && var t := Find(s.rows, e.presented.value).value;
       Rotated(t) && TookEffect(e.faults.family) && !Dead(s.rows, t.family)
  }

  lemma UpdatesChangeIff(rows: seq<Token>, t: Token, next: Id)
    requires t in rows
    ensures Update(rows, FamilyRevoked(t.family)) != rows <==> !Dead(rows, t.family)
    ensures !t.revoked ==> Update(rows, Revoked(t.id, next)) != rows
  {
    var killed := Update(rows, FamilyRevoked(t.family));
    if Dead(rows, t.family) {
      assert killed == rows;
    } else {
      var j :| 0 <= j < |rows| && rows[j].family == t.family && !rows[j].revoked;
      assert killed[j] != rows[j];
    }
    var i :| 0 <= i < |rows| && rows[i] == t;
    assert !t.revoked ==> Update(rows, Revoked(t.id, next))[i] != rows[i];
  }

  /** A refresh changes the table in two cases only: it kills a family, or it rotates a live unexpired token and
      gets as far as the revocation. */
  lemma RefreshChangesIff(s: State, e: Event)
    requires e.Refresh? && Fresh(s, e.next)
    ensures Step(s, e).rows != s.rows <==>
      || Kills(s, e)
      || (&& e.presented.Some? && Find(s.rows, e.presented.value).Some?
          && Rotates(s, e, Find(s.rows, e.presented.value).value)
          && !e.faults.role && !e.faults.generate && TookEffect(e.faults.revoke))
  {
    if e.presented.Some? && Find(s.rows, e.presented.value).Some? {
      var t := Find(s.rows, e.presented.value).value;
      UpdatesChangeIff(s.rows, t, e.next.id);
      var marked := Update(s.rows, Revoked(t.id, e.next.id));
      assert |marked| == |s.rows| && |marked + [Successor(t, e.next)]| == |s.rows| + 1;
    }
    hide Find, Update, Dead, Successor;
  }

  /** A failed role lookup, or random draw, burns no token: such a call gives no session and changes the table if
      and only if it kills a family, which is decided before the roles are looked up. */
  lemma RoleFailureBurnsNothing(s: State, e: Event)
    requires e.Refresh? && Fresh(s, e.next) && (e.faults.role || e.faults.generate)
    ensures !Result(s, e).1.Session?
    ensures Step(s, e).rows != s.rows <==> Kills(s, e)
  {
    RefreshChangesIff(s, e);
    SessionIff(s.rows, e.presented, e.now, e.next, e.faults);
    hide Kills;
  }

  /** Presenting an expired token gives no session, and changes the table if and only if it kills a family: being
      revoked is looked at before the expiry. */
  lemma ExpiredChangesIff(s: State, e: Event, t: Token)
    requires e.Refresh? && Fresh(s, e.next)
    requires e.presented.Some? && Find(s.rows, e.presented.value) == Some(t) && t.expires <= e.now
    ensures !Result(s, e).1.Session?
    ensures Step(s, e).rows != s.rows <==>
      !e.faults.find && Rotated(t) && TookEffect(e.faults.family) && !Dead(s.rows, t.family)
  {
    RefreshChangesIff(s, e);
    SessionIff(s.rows, e.presented, e.now, e.next, e.faults);
  }

  /** Rows keep their place and identity; a rotated row stays rotated. */
  predicate Persists(t: Token, u: Token) {
    && u.id == t.id && u.hash == t.hash && u.family == t.family && u.user == t.user && u.tenant == t.tenant
    && u.expires == t.expires && (t.revoked ==> u.revoked) && (t.replacedBy.Some? ==> u.replacedBy.Some?)
  }

  lemma StepPersists(s: State, e: Event, i: nat)
    requires i < |s.rows|
    ensures i < |Step(s, e).rows| && Persists(s.rows[i], Step(s, e).rows[i])
  {
    if Fresh(s, e.next) {
      var c := StepChange(s, e);
      hide Step;
    }
  }

  lemma {:induction false} RunPersists(s: State, es: seq<Event>, i: nat)
    requires i < |s.rows|
    ensures i < |Run(s, es).rows| && Persists(s.rows[i], Run(s, es).rows[i])
  {
    if |es| > 0 {
      RunPersists(s, es[..|es| - 1], i);
      StepPersists(Run(s, es[..|es| - 1]), es[|es| - 1], i);
    }
  }

  lemma {:induction false} RunFromInv(s: State, es: seq<Event>)
    requires Inv(s)
    ensures Inv(Run(s, es))
  {
    if |es| > 0 {
      RunFromInv(s, es[..|es| - 1]);
      StepKeepsInv(Run(s, es[..|es| - 1]), es[|es| - 1]);
    }
  }

  lemma FindUnique(s: State, t: Token)
    requires Inv(s) && t in s.rows
    ensures Find(s.rows, t.hash) == Some(t)
  {
    var u := Find(s.rows, t.hash);
    UniqueId(s, u.value, t);
  }

  lemma DeadGivesNoSession(s: State, e: Event, family: Id)
    requires Dead(s.rows, family) && e.Refresh? && e.presented.Some?
    requires Find(s.rows, e.presented.value).Some? && Find(s.rows, e.presented.value).value.family == family
    ensures !Result(s, e).1.Session?
  {
    var u := Find(s.rows, e.presented.value).value;
    var j :| 0 <= j < |s.rows| && s.rows[j] == u;
  }

  lemma FirstUseMarks(s: State, first: Event, between: seq<Event>, t: Token) returns (u: Token)
    requires Inv(s) && Rotates(s, first, t)
    requires !first.faults.role && !first.faults.generate && TookEffect(first.faults.revoke)
    ensures var s2 := Run(Step(s, first), between);
      Inv(s2) && Find(s2.rows, t.hash) == Some(u) && Rotated(u) && u.family == t.family
  {
    var i :| 0 <= i < |s.rows| && s.rows[i] == t;
    var s1 := Step(s, first);
    assert Rotated(s1.rows[i]) && s1.rows[i].hash == t.hash && s1.rows[i].family == t.family;
    RunPersists(s1, between, i);
    StepKeepsInv(s, first);
    RunFromInv(s1, between);
    u := Run(s1, between).rows[i];
    FindUnique(Run(s1, between), u);
  }

  lemma ReuseKillsForGood(s: State, first: Event, between: seq<Event>, second: Event, later: seq<Event>, t: Token)
    requires Inv(s) && Rotates(s, first, t)
    requires !first.faults.role && !first.faults.generate && TookEffect(first.faults.revoke)
    requires second.Refresh? && second.presented == Some(t.hash)
    requires Fresh(Run(Step(s, first), between), second.next)
    requires !second.faults.find && TookEffect(second.faults.family)
    ensures !Result(Run(Step(s, first), between), second).1.Session?
    ensures Dead(Run(Step(Run(Step(s, first), between), second), later).rows, t.family)
  {
    var u := FirstUseMarks(s, first, between, t);
    ReplayKillsForGood(Run(Step(s, first), between), second, u, later);
  }

  /** Two holders of one token value, in either order, with anything in between: once one of them has
      rotated it and the other has presented it again, no token of the family ever yields a session. */
  lemma NoHolderSurvivesReuse(s: State, first: Event, between: seq<Event>, second: Event, later: seq<Event>,
                              last: Event, t: Token)
    requires Inv(s) && Rotates(s, first, t)
    requires !first.faults.role && !first.faults.generate && TookEffect(first.faults.revoke)
    requires second.Refresh? && second.presented == Some(t.hash)
    requires Fresh(Run(Step(s, first), between), second.next)
    requires !second.faults.find && TookEffect(second.faults.family)
    requires var end := Run(Step(Run(Step(s, first), between), second), later);
      last.Refresh? && last.presented.Some? && Find(end.rows, last.presented.value).Some?
      && Find(end.rows, last.presented.value).value.family == t.family
    ensures !Result(Run(Step(s, first), between), second).1.Session?
    ensures !Result(Run(Step(Run(Step(s, first), between), second), later), last).1.Session?
  {
    ReuseKillsForGood(s, first, between, second, later, t);
    var end := Run(Step(Run(Step(s, first), between), second), later);
    DeadGivesNoSession(end, last, t.family);
  }

  /** A token that was rotated and is presented again kills its live family, and the clock has no say in that:
      neither its expiry nor any other time changes what the call does. */
  lemma ReplayIsTheftAtAnyTime(s: State, first: Event, second: Event, now: int, t: Token)
    requires Inv(s) && Rotates(s, first, t) && Result(s, first).1.Session?
    requires second.Refresh? && second.presented == Some(t.hash) && Fresh(Step(s, first), second.next)
    requires !second.faults.find && TookEffect(second.faults.family)
    ensures !Dead(Step(s, first).rows, t.family) && Dead(Step(Step(s, first), second).rows, t.family)
    ensures Step(Step(s, first), second) == Step(Step(s, first), second.(now := now))
  {
    RotationKillsFamilyIff(s, first, t);
    var u := FirstUseMarks(s, first, [], t);
    assert Run(Step(s, first), []) == Step(s, first);
    ClockHasNoSay(Step(s, first), second, now, u);
    ReplayKillsForGood(Step(s, first), second, u, []);
    assert Run(Step(Step(s, first), second), []) == Step(Step(s, first), second);
    SessionIff(s.rows, first.presented, first.now, first.next, first.faults);
    hide *;
  }

  lemma ClockHasNoSay(s: State, e: Event, now: int, t: Token)
    requires e.Refresh? && e.presented.Some? && Find(s.rows, e.presented.value) == Some(t) && Rotated(t)
    ensures Step(s, e) == Step(s, e.(now := now))
  {
  }
}
