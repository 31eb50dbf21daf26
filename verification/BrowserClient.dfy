/**
 * The browser side of a session (api.js and tokens.js) as values: the two tokens, the single-flight
 * refresh, and the requests and logins that are under way. Each function is the code between two
 * awaits; an event that cannot happen leaves the client alone.
 */
module BrowserClient {
  import opened Basics
  import R = RefreshTokens

  /** The shared refresh: queued as a microtask, sent, answered, or settled with its slot still taken. */
  datatype Flight =
    | Idle
    | Queued
    | Sent(token: R.Hash)
    | Answered(token: R.Hash, outcome: R.Outcome)
    | Settled(ok: bool)

  /** One request(): its first fetch, its wait for the shared refresh, its one retry. An access token is
      named by the refresh token issued with it; a retry without one sends the text "null". */
  datatype Request =
    | First(bearer: Option<R.Hash>)
    | Refreshing
    | Woken(ok: bool)
    | Retried(bearer: Option<R.Hash>)
    | Over(authorized: bool)

  datatype LoginCall = Submitted(user: string, tenant: string, valid: bool) | Reply(outcome: R.Outcome) | Closed

  datatype Client = Client(access: Option<R.Hash>, stored: Option<R.Hash>, flight: Flight,
                           requests: seq<Request>, logins: seq<LoginCall>)

  /** The flight has presented, or is about to learn about, a token it read from storage. */
  predicate Open(f: Flight) {
    f.Sent? || f.Answered?
  }

  function Call(c: Client): (c': Client) {
    c.(requests := c.requests + [First(c.access)])
  }

  /** refresh(): join the flight under way or open one. */
  function Join(c: Client): (c': Client) {
    if c.flight.Idle? then c.(flight := Queued) else c
  }

  /** The reply to a request's fetch. A 401 to a first fetch that carried a token joins the refresh. */
  function Answer(c: Client, i: nat, unauthorized: bool): (c': Client) {
    if i >= |c.requests| then c
    else
      match c.requests[i]
      case First(bearer) =>
        if unauthorized && bearer.Some? then Join(c.(requests := c.requests[i := Refreshing]))
        else c.(requests := c.requests[i := Over(!unauthorized)])
      case Retried(_) => c.(requests := c.requests[i := Over(!unauthorized)])
      case _ => c
  }

  /** A request whose refresh settled: retry once, or surface the first 401. */
  function Resume(c: Client, i: nat): (c': Client) {
    if i < |c.requests| && c.requests[i].Woken? then
      c.(requests := c.requests[i := if c.requests[i].ok then Retried(c.access) else Over(false)])
    else c
  }

  /** The flight starts to run: a storage that throws reads as empty. */
  function ReadToken(c: Client, readable: bool): (c': Client) {
    if !c.flight.Queued? then c
    else if readable && c.stored.Some? then c.(flight := Sent(c.stored.value))
    else c.(flight := Settled(false))
  }

  /** The reply of the refresh endpoint reaches the client; `written` says whether storage accepts the write. */
  function Deliver(c: Client, written: bool): (c': Client) {
    if !c.flight.Answered? then c
    else
      match c.flight.outcome
      case Session(h) =>
        c.(access := Some(h), stored := if written then Some(h) else c.stored, flight := Settled(true))
      case Unauthorized =>
        c.(access := None, stored := if written then None else c.stored, flight := Settled(false))
      case Failed => c.(flight := Settled(false))
  }

  /** The connection breaks while the refresh is under way. */
  function BreakOff(c: Client): (c': Client) {
    if Open(c.flight) then c.(flight := Settled(false)) else c
  }

  function Wake(r: Request, ok: bool): (r': Request) {
    if r.Refreshing? then Woken(ok) else r
  }

  /** The slot is freed and every waiter gets the one outcome. */
  function FreeSlot(c: Client): (c': Client) {
    if c.flight.Settled? then
      c.(flight := Idle,
         requests := seq(|c.requests|, i requires 0 <= i < |c.requests| => Wake(c.requests[i], c.flight.ok)))
    else c
  }

  function SubmitLogin(c: Client, user: string, tenant: string, valid: bool): (c': Client) {
    c.(logins := c.logins + [Submitted(user, tenant, valid)])
  }

  function DeliverLogin(c: Client, i: nat, written: bool): (c': Client) {
    if i < |c.logins| && c.logins[i].Reply? then
      var closed := c.(logins := c.logins[i := Closed]);
      if c.logins[i].outcome.Session? then
        var h := c.logins[i].outcome.hash;
        closed.(access := Some(h), stored := if written then Some(h) else c.stored)
      else closed
    else c
  }

  function Logout(c: Client, written: bool): (c': Client) {
    c.(access := None, stored := if written then None else c.stored)
  }

  /** A page load: memory is gone, storage stays. */
  function Reload(c: Client): (c': Client) {
    Client(None, c.stored, Idle, [], [])
  }
}
