/**
 * The refresh-token store and the two service calls as they run: statement by statement,
 * with early exits. Each is proved to compute LoginResult / RefreshResult on the table.
 */
module AuthService {
  import opened Basics
  import opened RefreshTokens
  import opened Base64
  import P = PasswordHash

  /** A row of the users table, as far as a login looks at it. */
  datatype Account = Account(id: string, tenant: string, active: bool, passwordHash: string)

  /** What a login is told to check, and what the lookup by tenant and email found; a failed lookup finds nothing. */
  datatype Credentials = Credentials(tenant: string, email: string, password: string, found: Option<Account>)

  /** The account is there and active, and its stored string accepts the password. */
  predicate Valid(kdf: P.Kdf, k: Credentials) {
    && k.tenant != "" && k.email != "" && k.password != "" && k.found.Some? && k.found.value.active
    && P.Verify(kdf, k.found.value.passwordHash, k.password) == P.Verdict(true)
  }

  /** For an account whose string was made from a password, exactly the passwords with the same key are valid. */
  lemma ValidIffSameKey(kdf: P.Kdf, k: Credentials, salt: seq<Byte>, password: string)
    requires P.Sized(kdf) && k.found.Some? && P.Hash(kdf, Some(salt), password).Hashed?
    requires k.found.value.passwordHash == P.Hash(kdf, Some(salt), password).encoded
    ensures Valid(kdf, k) <==>
      && k.tenant != "" && k.email != "" && k.password != "" && k.found.value.active
      && kdf(k.password, salt, P.TIME, P.MEMORY, P.THREADS, P.KEY_LENGTH)
         == kdf(password, salt, P.TIME, P.MEMORY, P.THREADS, P.KEY_LENGTH)
  {
    P.CandidateAcceptedIffSameKey(kdf, salt, password, k.password);
    hide P.Hash, P.Verify, P.Sized;
  }

  /** The random values of a new token repeat nothing stored (256-bit and UUID draws). */
  predicate Unused(rows: seq<Token>, next: NewToken) {
    forall i :: 0 <= i < |rows| ==> rows[i].id != next.id && rows[i].hash != next.hash
  }

  class RefreshTokenStore {
    var rows: seq<Token>

    constructor ()
      ensures rows == []
    {
      rows := [];
    }

    /** INSERT; the primary key on id and UNIQUE on token_hash reject a repeat. */
    method Store(t: Token, fault: Fault) returns (ok: bool)
      modifies this
      ensures var fits := TookEffect(fault) && forall i :: 0 <= i < |old(rows)| ==>
        old(rows)[i].id != t.id && old(rows)[i].hash != t.hash;
        rows == (if fits then old(rows) + [t] else old(rows)) && (ok <==> fits && fault.Healthy?)
    {
      if fault.Lost? || exists i :: 0 <= i < |rows| && (rows[i].id == t.id || rows[i].hash == t.hash) {
        return false;
      }
      rows := rows + [t];
      return fault.Healthy?;
    }

    /** A row of the table with that hash, or no row has it. */
    method FindByHash(hash: Hash) returns (found: Option<Token>)
      ensures found.Some? ==> found.value in rows && found.value.hash == hash
      ensures found.None? ==> forall t :: t in rows ==> t.hash != hash
      ensures found == Find(rows, hash)
    {
      found := Find(rows, hash);
    }

    method Revoke(id: Id, replacedBy: Id, fault: Fault) returns (ok: bool)
      modifies this
      ensures ok <==> fault.Healthy?
      ensures |rows| == |old(rows)|
      ensures forall i :: 0 <= i < |rows| ==>
        rows[i] == if TookEffect(fault) && old(rows)[i].id == id
                   then old(rows)[i].(revoked := true, replacedBy := Some(replacedBy)) else old(rows)[i]
      ensures rows == if TookEffect(fault) then Update(old(rows), Revoked(id, replacedBy)) else old(rows)
    {
      if !fault.Lost? {
        rows := Update(rows, Revoked(id, replacedBy));
      }
      return fault.Healthy?;
    }

    method RevokeFamily(family: Id, fault: Fault) returns (ok: bool)
      modifies this
      ensures ok <==> fault.Healthy?
      ensures |rows| == |old(rows)|
      ensures forall i :: 0 <= i < |rows| ==>
        rows[i] == if TookEffect(fault) && old(rows)[i].family == family
                   then old(rows)[i].(revoked := true) else old(rows)[i]
      ensures rows == if TookEffect(fault) then Update(old(rows), FamilyRevoked(family)) else old(rows)
    {
      if !fault.Lost? {
        rows := Update(rows, FamilyRevoked(family));
      }
      return fault.Healthy?;
    }
  }

  class AuthService {
    const tokens: RefreshTokenStore

    constructor (tokens: RefreshTokenStore)
      ensures this.tokens == tokens
    {
      this.tokens := tokens;
    }

    /** The checks of a login, in order. */
    method Check(kdf: P.Kdf, k: Credentials) returns (valid: bool)
      ensures valid <==> Valid(kdf, k)
    {
      if k.tenant == "" || k.email == "" || k.password == "" {
        return false;
      }
      if k.found.None? {
        return false;
      }
      if !k.found.value.active {
        return false;
      }
      var verdict := P.Verify(kdf, k.found.value.passwordHash, k.password);
      return verdict == P.Verdict(true);
    }

    /** Login: a session exactly for valid credentials when nothing fails, and then, or when only the last reply is
        lost, one new row: unrevoked, of the account's user and tenant, in the new family, with the drawn expiry. */
    method Login(kdf: P.Kdf, k: Credentials, next: NewToken, f: LoginFaults) returns (out: Outcome)
      requires Unused(tokens.rows, next)
      modifies tokens
      ensures !Valid(kdf, k) ==> out == Unauthorized && tokens.rows == old(tokens.rows)
      ensures Valid(kdf, k) ==>
        && out == (if !f.role && !f.issue && !f.generate && f.store.Healthy? then Session(next.hash) else Failed)
        && tokens.rows == old(tokens.rows) +
             if f.role || f.issue || f.generate || f.store.Lost? then []
             else [Token(next.id, k.found.value.id, k.found.value.tenant, next.family, next.hash, next.expires, false,
                         None)]
      ensures k.found.Some? ==>
        (tokens.rows, out)
        == LoginResult(old(tokens.rows), k.found.value.id, k.found.value.tenant, Valid(kdf, k), next, f)
    {
      var valid := Check(kdf, k);
      if !valid {
        return Unauthorized;
      }
      var user, tenant := k.found.value.id, k.found.value.tenant;
      // Role and access token come before the family exists.
      if f.role {
        return Failed;
      }
      if f.issue {
        return Failed;
      }
      if f.generate {
        return Failed;
      }
      var t := Token(next.id, user, tenant, next.family, next.hash, next.expires, false, None);
      var stored := tokens.Store(t, f.store);
      if !stored {
        return Failed;
      }
      return Session(next.hash);
    }

    /** Refresh. A session means that the presented token was in the table, unrevoked and unexpired, and that the last
        row is its successor: same user, tenant and family, and the drawn expiry. */
    method Refresh(presented: Option<Hash>, now: int, next: NewToken, f: RefreshFaults) returns (out: Outcome)
      requires Unused(tokens.rows, next)
      modifies tokens
      ensures out.Session? ==>
        && out.hash == next.hash && presented.Some? && |tokens.rows| == |old(tokens.rows)| + 1
        && exists t :: t in old(tokens.rows) && t.hash == presented.value && !t.revoked && now < t.expires
             && tokens.rows[|old(tokens.rows)|]
                == Token(next.id, t.user, t.tenant, t.family, next.hash, next.expires, false, None)
      ensures presented.None? ==> out == Unauthorized && tokens.rows == old(tokens.rows)
      ensures out.Unauthorized? ==> |tokens.rows| == |old(tokens.rows)|
      ensures (tokens.rows, out) == RefreshResult(old(tokens.rows), presented, now, next, f)
    {
      if presented.None? {
        return Unauthorized;
      }
      if f.find {
        return Failed;
      }
      var found := tokens.FindByHash(presented.value);
      if found.None? {
        return Unauthorized;
      }
      var record := found.value;
      match DecideRotation(record.revoked, record.replacedBy, record.expires, now)
      case RejectRevoked =>
        var killed := tokens.RevokeFamily(record.family, f.family);
        return if killed then Unauthorized else Failed;
      case RejectExpired =>
        return Unauthorized;
      case RejectInvalid =>
        return Unauthorized;
      case Allow =>
        // The role is resolved before anything is burned.
        if f.role {
          return Failed;
        }
        if f.generate {
          return Failed;
        }
        var revoked := tokens.Revoke(record.id, next.id, f.revoke);
        if !revoked {
          return Failed;
        }
        var stored := tokens.Store(Successor(record, next), f.store);
        if !stored {
          return Failed;
        }
        if f.issue {
          return Failed;
        }
        return Session(next.hash);
    }
  }
}
