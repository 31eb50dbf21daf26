/**
 * tokens.js and api.js as objects: the token store over a storage area, and the client whose code runs
 * from one await to the next. Each method is proved to be the corresponding function of BrowserClient.
 */
module ApiClient {
  import opened Basics
  import opened BrowserClient
  import R = RefreshTokens

  const REFRESH_KEY := "agro.refresh_token"

  /** createTokenStore. `works` says whether the storage area accepts the call or throws. */
  class TokenStore {
    var accessToken: Option<R.Hash>
    var items: map<string, R.Hash>

    constructor (items: map<string, R.Hash>)
      ensures accessToken.None? && this.items == items
    {
      accessToken, this.items := None, items;
    }

    function Stored(): (token: Option<R.Hash>)
      reads this
    {
      if REFRESH_KEY in items then Some(items[REFRESH_KEY]) else None
    }

    method SetAccess(token: Option<R.Hash>)
      modifies this`accessToken
      ensures accessToken == token
    {
      accessToken := token;
    }

    method GetRefresh(works: bool) returns (token: Option<R.Hash>)
      ensures token == if works then Stored() else None
    {
      if !works {
        return None;
      }
      token := if REFRESH_KEY in items then Some(items[REFRESH_KEY]) else None;
    }

    /** A token replaces the stored one; none removes it. No other key is written. */
    method SetRefresh(token: Option<R.Hash>, works: bool)
      modifies this`items
      ensures Stored() == if works then token else old(Stored())
      ensures forall k :: k != REFRESH_KEY ==>
        (k in items <==> k in old(items)) && (k in items ==> items[k] == old(items)[k])
    {
      if works {
        if token.Some? {
          items := items[REFRESH_KEY := token.value];
        } else {
          items := items - {REFRESH_KEY};
        }
      }
    }

    method Clear(works: bool)
      modifies this
      ensures accessToken.None? && Stored() == if works then None else old(Stored())
      ensures forall k :: k != REFRESH_KEY ==>
        (k in items <==> k in old(items)) && (k in items ==> items[k] == old(items)[k])
    {
      accessToken := None;
      if works {
        items := items - {REFRESH_KEY};
      }
    }
  }

  class Api {
    const tokens: TokenStore
    var flight: Flight
    var requests: seq<Request>
    var logins: seq<LoginCall>

    /** createApi at page load. */
    constructor (storage: map<string, R.Hash>)
      ensures fresh(tokens) && Value() == Reload(Client(None, tokens.Stored(), Idle, [], []))
      ensures tokens.items == storage && tokens.accessToken.None? && flight.Idle? && requests == [] && logins == []
    {
      tokens := new TokenStore(storage);
      flight, requests, logins := Idle, [], [];
    }

    ghost function Value(): (c: Client)
      reads this, tokens
    {
      Client(tokens.accessToken, tokens.Stored(), flight, requests, logins)
    }

    /** createSingleFlight: callers share the flight that is under way. */
    method Refresh()
      modifies this`flight
      ensures Value() == Join(old(Value()))
      ensures flight == if old(flight).Idle? then Queued else old(flight)
    {
      if flight.Idle? {
        flight := Queued;
      }
    }

    method Request()
      modifies this`requests
      ensures Value() == Call(old(Value()))
      ensures requests == old(requests) + [First(tokens.accessToken)]
    {
      requests := requests + [First(tokens.accessToken)];
    }

    /** The fetch of request i resolves, or fails, which counts as an answer other than 401. */
    method OnResponse(i: nat, unauthorized: bool)
      requires i < |requests|
      modifies this`requests, this`flight
      ensures Value() == Answer(old(Value()), i, unauthorized)
      ensures |requests| == |old(requests)|
      ensures forall j :: 0 <= j < |requests| && j != i ==> requests[j] == old(requests)[j]
      ensures old(requests)[i].First? || old(requests)[i].Retried? ==>
        requests[i] == if !unauthorized then Over(true)
                       else if old(requests)[i].First? && old(requests)[i].bearer.Some? then Refreshing
                       else Over(false)
      ensures flight == if requests[i].Refreshing? && old(requests)[i].First? && old(flight).Idle? then Queued
                        else old(flight)
    {
      match requests[i] {
        case First(bearer) =>
          if unauthorized && bearer.Some? {
            Refresh();
            requests := requests[i := Refreshing];
          } else {
            requests := requests[i := Over(!unauthorized)];
          }
        case Retried(_) =>
          requests := requests[i := Over(!unauthorized)];
        case _ =>
      }
    }

    /** Request i comes back from `await refresh()`. */
    method OnRefreshed(i: nat)
      requires i < |requests|
      modifies this`requests
      ensures Value() == Resume(old(Value()), i)
      ensures requests == match old(requests)[i]
                          case Woken(ok) => old(requests)[i := if ok then Retried(tokens.accessToken) else Over(false)]
                          case _ => old(requests)
    {
      if requests[i].Woken? {
        if !requests[i].ok {
          requests := requests[i := Over(false)];
          return;
        }
        requests := requests[i := Retried(tokens.accessToken)];
      }
    }

    /** The flight's function up to its fetch. */
    method RunFlight(readable: bool)
      requires flight.Queued?
      modifies this`flight
      ensures Value() == ReadToken(old(Value()), readable)
      ensures flight == if readable && REFRESH_KEY in tokens.items then Sent(tokens.items[REFRESH_KEY])
                        else Settled(false)
    {
      var token := tokens.GetRefresh(readable);
      if token.None? {
        flight := Settled(false);
        return;
      }
      flight := Sent(token.value);
    }

    /** The flight's function from its fetch on. */
    method OnRefreshReply(outcome: R.Outcome, written: bool)
      requires flight.Sent?
      modifies this`flight, tokens
      ensures Value() == Deliver(old(Value()).(flight := Answered(old(flight).token, outcome)), written)
      ensures flight == Settled(outcome.Session?)
      ensures tokens.accessToken == match outcome
                                    case Session(h) => Some(h)
                                    case Unauthorized => None
                                    case Failed => old(tokens.accessToken)
      ensures tokens.Stored() == match outcome
                                 case Session(h) => if written then Some(h) else old(tokens.Stored())
                                 case Unauthorized => if written then None else old(tokens.Stored())
                                 case Failed => old(tokens.Stored())
    {
      if outcome.Unauthorized? {
        tokens.Clear(written);
        flight := Settled(false);
        return;
      }
      if !outcome.Session? {
        flight := Settled(false);
        return;
      }
      tokens.SetAccess(Some(outcome.hash));
      tokens.SetRefresh(Some(outcome.hash), written);
      flight := Settled(true);
    }

    /** The fetch of the flight rejects. */
    method OnRefreshBroken()
      requires flight.Sent?
      modifies this`flight
      ensures Value() == BreakOff(old(Value()))
      ensures flight == Settled(false)
    {
      flight := Settled(false);
    }

    /** finally: the slot is free, every waiter is resumed with the one outcome. */
    method OnSettled()
      requires flight.Settled?
      modifies this`flight, this`requests
      ensures Value() == FreeSlot(old(Value()))
      ensures flight.Idle? && |requests| == |old(requests)|
      ensures forall i :: 0 <= i < |requests| ==>
        requests[i] == if old(requests)[i].Refreshing? then Woken(old(flight).ok) else old(requests)[i]
    {
      var ok, waiting := flight.ok, requests;
      flight := Idle;
      requests := seq(|waiting|, i requires 0 <= i < |waiting| => Wake(waiting[i], ok));
      assert requests == FreeSlot(old(Value())).requests;
    }

    method Login(user: string, tenant: string, valid: bool)
      modifies this`logins
      ensures Value() == SubmitLogin(old(Value()), user, tenant, valid)
      ensures logins == old(logins) + [Submitted(user, tenant, valid)]
    {
      logins := logins + [Submitted(user, tenant, valid)];
    }

    method OnLoginReply(i: nat, written: bool)
      requires i < |logins| && logins[i].Reply?
      modifies this`logins, tokens
      ensures Value() == DeliverLogin(old(Value()), i, written)
      ensures logins == old(logins)[i := Closed]
      ensures match old(logins)[i].outcome
              case Session(h) =>
                tokens.accessToken == Some(h) && tokens.Stored() == if written then Some(h) else old(tokens.Stored())
              case _ => tokens.accessToken == old(tokens.accessToken) && tokens.Stored() == old(tokens.Stored())
    {
      var outcome := logins[i].outcome;
      logins := logins[i := Closed];
      if !outcome.Session? {
        return;
      }
      tokens.SetAccess(Some(outcome.hash));
      tokens.SetRefresh(Some(outcome.hash), written);
    }

    method Logout(written: bool)
      modifies tokens
      ensures Value() == BrowserClient.Logout(old(Value()), written)
      ensures tokens.accessToken.None? && tokens.Stored() == if written then None else old(tokens.Stored())
    {
      tokens.Clear(written);
    }
  }
}
