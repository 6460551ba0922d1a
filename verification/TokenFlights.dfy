/**
 Tokens for tenants: one shared exchange per credential, callers that wait for it and may
 be cancelled, a cache, and the high-water marks of the credential file. Every await is a
 place where other events happen; the file's content is arbitrary at each read.
 */
module TokenFlights {
  import opened Wrappers

  /** `content` stands for the client, secret, resource and scope. */
  datatype Credential = Credential(tenant: string, generation: nat, content: nat)

  /** What reading the file gives: nothing usable, or the credentials by tenant. */
  type File = Option<map<string, Credential>>

  datatype TokenError = CredentialsUnavailable | CredentialsChanged | ProviderClosed | ExchangeFailed

  // ----- the credential file -------------------------------------------------------------

  predicate Forward(observed: map<string, Credential>, current: Credential) {
    current.tenant in observed ==>
      current.generation > observed[current.tenant].generation || current == observed[current.tenant]
  }

  /** A readable file whose every credential is at or above its high-water mark. */
  predicate Acceptable(observed: map<string, Credential>, file: File) {
    file.Some? && forall t | t in file.value :: file.value[t].tenant == t && Forward(observed, file.value[t])
  }

  datatype Snapshot = Snapshot(observed: map<string, Credential>, credential: Result<Credential, TokenError>)

  /** The marks move for every tenant of an acceptable file, also when the wanted tenant is missing. */
  function TakeSnapshot(observed: map<string, Credential>, file: File, tenant: string): Snapshot {
    if !Acceptable(observed, file) then Snapshot(observed, Err(CredentialsUnavailable))
    else
      var next := observed + file.value;
      Snapshot(next, if tenant in file.value then Ok(file.value[tenant]) else Err(CredentialsUnavailable))
  }

  class CredentialFile {
    var observed: map<string, Credential>

    constructor ()
      ensures observed == map[]
    {
      observed := map[];
    }

    method TakeSnapshotOf(file: File, tenant: string) returns (r: Result<Credential, TokenError>)
      modifies this
      ensures Snapshot(observed, r) == TakeSnapshot(old(observed), file, tenant)
    {
      if file.None? {
        return Err(CredentialsUnavailable);
      }
      var tenants := file.value.Keys;
      while tenants != {}
        invariant tenants <= file.value.Keys
        invariant forall t | t in file.value && t !in tenants :: file.value[t].tenant == t && Forward(observed, file.value[t])
        decreases |tenants|
      {
        var t :| t in tenants;
        if file.value[t].tenant != t || !Forward(observed, file.value[t]) {
          return Err(CredentialsUnavailable);
        }
        tenants := tenants - {t};
      }
      observed := observed + file.value;
      if tenant !in file.value {
        return Err(CredentialsUnavailable);
      }
      return Ok(file.value[tenant]);
    }
  }

  // ----- the provider ----------------------------------------------------------------------

  datatype Task = Running(cancelling: bool) | Succeeded(token: string) | Failed

  datatype Flight = Flight(credential: Credential, waiters: int, task: Task)

  datatype Ending = Returned(token: string, credential: Credential) | Raised(error: TokenError) | Cancelled

  /** `Leaving` is the await of the last waiter for the exchange it has just cancelled. */
  datatype Caller = Waiting(credential: Credential, flight: nat) | Leaving(flight: nat, ending: Ending) | Done(ending: Ending)

  datatype Cached = Cached(credential: Credential, token: string, expires: int)

  /** `returned` lists the credentials of returned tokens in the order of their last check. */
  datatype Provider = Provider(
    closed: bool, observed: map<string, Credential>, cache: map<string, Cached>, registered: map<Credential, nat>,
    flights: seq<Flight>, callers: map<nat, Caller>, returned: seq<Credential>)

  datatype Event =
    | Call(id: nat, tenant: string, file: File, now: int)
    | Exchanged(flight: nat, token: Option<string>, expires: int, file: File, now: int)
    | Stopped(flight: nat)
    | Resumed(id: nat, file: File)
    | CancelCaller(id: nat)
    | Drained(id: nat)
    | Close
    | Clear

  function WithFlight(p: Provider, f: nat, flight: Flight): Provider
    requires f < |p.flights|
  {
    p.(flights := p.flights[f := flight])
  }

  /** A new caller: a cached token, a registered exchange, or a new one. */
  function Enter(p: Provider, id: nat, tenant: string, file: File, now: int): Provider {
    if p.closed then p.(callers := p.callers[id := Done(Raised(ProviderClosed))])
    else
      var snapshot := TakeSnapshot(p.observed, file, tenant);
      var p := p.(observed := snapshot.observed);
      if snapshot.credential.Err? then p.(callers := p.callers[id := Done(Raised(snapshot.credential.error))])
      else
        var credential := snapshot.credential.value;
        if tenant in p.cache && p.cache[tenant].credential == credential && p.cache[tenant].expires - now > 5
        then
          p.(callers := p.callers[id := Done(Returned(p.cache[tenant].token, credential))], returned := p.returned + [credential])
        else Join(p.(cache := p.cache - {tenant}), id, credential)
  }

  function Join(p: Provider, id: nat, credential: Credential): Provider {
    if credential in p.registered && p.registered[credential] < |p.flights| then
      var f := p.registered[credential];
      WithFlight(p, f, p.flights[f].(waiters := p.flights[f].waiters + 1)).(callers := p.callers[id := Waiting(credential, f)])
    else
      p.(registered := p.registered[credential := |p.flights|],
         flights := p.flights + [Flight(credential, 1, Running(false))],
         callers := p.callers[id := Waiting(credential, |p.flights|)])
  }

  /** The `finally` of a waiting caller. */
  function Leave(p: Provider, id: nat, f: nat, ending: Ending): Provider
    requires f < |p.flights|
  {
    var flight := p.flights[f].(waiters := p.flights[f].waiters - 1);
    if flight.waiters != 0 then WithFlight(p, f, flight).(callers := p.callers[id := Done(ending)])
    else
      var p := p.(registered := p.registered - {flight.credential}, callers := p.callers[id := Leaving(f, ending)]);
      if flight.task.Running? then WithFlight(p, f, flight.(task := Running(true)))
      else WithFlight(p, f, flight)
  }

  /** The exchange came to an end while its credential is still the current one, or failed. */
  function Finish(p: Provider, f: nat, token: Option<string>, expires: int, file: File, now: int): Provider
    requires f < |p.flights|
  {
    var flight := p.flights[f];
    if token.None? then WithFlight(p, f, flight.(task := Failed))
    else
      var snapshot := TakeSnapshot(p.observed, file, flight.credential.tenant);
      var p := p.(observed := snapshot.observed);
      if snapshot.credential != Ok(flight.credential) || expires - now <= 5 then WithFlight(p, f, flight.(task := Failed))
      else
        WithFlight(p, f, flight.(task := Succeeded(token.value)))
          .(cache := p.cache[flight.credential.tenant := Cached(flight.credential, token.value, expires)])
  }

  /** A waiting caller wakes up after the exchange. */
  function Wake(p: Provider, id: nat, credential: Credential, f: nat, file: File): Provider
    requires f < |p.flights|
  {
    var task := p.flights[f].task;
    if !task.Succeeded? then Leave(p, id, f, Raised(ExchangeFailed))
    else if p.closed then Leave(p, id, f, Raised(ProviderClosed))
    else
      var snapshot := TakeSnapshot(p.observed, file, credential.tenant);
      var p := p.(observed := snapshot.observed);
      if snapshot.credential.Err? then Leave(p, id, f, Raised(snapshot.credential.error))
      else if snapshot.credential.value != credential then Leave(p, id, f, Raised(CredentialsChanged))
      else Leave(p.(returned := p.returned + [credential]), id, f, Returned(task.token, credential))
  }

  function CancelFlight(f: Flight): Flight {
    if f.task.Running? then f.(task := Running(true)) else f
  }

  /** Closing cancels the exchange of every registered flight. */
  function CloseAll(p: Provider): Provider {
    var flights := seq(|p.flights|, i requires 0 <= i < |p.flights| =>
      if IsRegistered(p, i) then CancelFlight(p.flights[i]) else p.flights[i]);
    p.(closed := true, flights := flights)
  }

  predicate IsRegistered(p: Provider, f: nat)
    requires f < |p.flights|
  {
    var c := p.flights[f].credential;
    c in p.registered && p.registered[c] == f
  }

  function Happen(p: Provider, e: Event): Provider {
    match e
    case Call(id, tenant, file, now) => if id in p.callers then p else Enter(p, id, tenant, file, now)
    case Exchanged(f, token, expires, file, now) =>
      if f < |p.flights| && p.flights[f].task.Running? then Finish(p, f, token, expires, file, now) else p
    case Stopped(f) =>
      if f < |p.flights| && p.flights[f].task == Running(true) then WithFlight(p, f, p.flights[f].(task := Failed)) else p
    case Resumed(id, file) =>
      if id in p.callers && p.callers[id].Waiting? && p.callers[id].flight < |p.flights| && !p.flights[p.callers[id].flight].task.Running?
      then Wake(p, id, p.callers[id].credential, p.callers[id].flight, file) else p
    case CancelCaller(id) =>
      if id !in p.callers || p.callers[id].Done? then p
      else if p.callers[id].Leaving? then p.(callers := p.callers[id := Done(Cancelled)])
      else if p.callers[id].flight < |p.flights| then Leave(p, id, p.callers[id].flight, Cancelled)
      else p
    case Drained(id) =>
      if id in p.callers && p.callers[id].Leaving? && p.callers[id].flight < |p.flights| && !p.flights[p.callers[id].flight].task.Running?
      then p.(callers := p.callers[id := Done(p.callers[id].ending)]) else p
    case Close => CloseAll(p)
    case Clear => if p.closed then p.(cache := map[]) else p
  }

  function Happened(events: seq<Event>): Provider {
    if events == [] then Provider(false, map[], map[], map[], [], map[], [])
    else Happen(Happened(events[..|events| - 1]), events[|events| - 1])
  }
}
