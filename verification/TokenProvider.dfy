/**
 The token provider and its credential file as the objects they are: what runs between two
 awaits is one method, and it changes the fields exactly as the event of the state machine
 says.
 */
module TokenProvider {
  import opened Wrappers
  import opened TokenFlights
  import T = TokenSafety

  class PlatformTokens {
    const credentials: CredentialFile
    var closed: bool
    var cache: map<string, Cached>
    var registered: map<Credential, nat>
    var flights: seq<Flight>
    var callers: map<nat, Caller>
    var returned: seq<Credential>

    function State(): Provider
      reads this, credentials
    {
      Provider(closed, credentials.observed, cache, registered, flights, callers, returned)
    }

    /** Some events have made this of a new provider, so that every property of runs holds. */
    ghost predicate Valid()
      reads this, credentials
    {
      T.Reached(State())
    }

    /** What a caller may use: exact waiters, one registered flight per credential, ordered returns. */
    lemma Proper()
      requires Valid()
      ensures T.FlightsOk(State()) && T.GenerationsOk(State())
    {
      T.ReachedProper(State());
    }

    constructor (credentials: CredentialFile)
      ensures State() == Provider(false, credentials.observed, map[], map[], [], map[], [])
      ensures this.credentials == credentials
      ensures credentials.observed == map[] ==> Valid()
    {
      this.credentials, closed, cache, registered := credentials, false, map[], map[];
      flights, callers, returned := [], map[], [];
      new;
      if credentials.observed == map[] {
        T.StartReached(State());
      }
    }

    /** A call up to its await. */
    method Token(id: nat, tenant: string, file: File, now: int)
      requires id !in callers
      modifies this, credentials
      ensures State() == Enter(old(State()), id, tenant, file, now)
      ensures old(Valid()) ==> Valid()
    {
      T.StepReached(State(), Call(id, tenant, file, now));
      if closed {
        callers := callers[id := Done(Raised(ProviderClosed))];
        return;
      }
      var snapshot := credentials.TakeSnapshotOf(file, tenant);
      if snapshot.Err? {
        callers := callers[id := Done(Raised(snapshot.error))];
        return;
      }
      var credential := snapshot.value;
      if tenant in cache {
        var cached := cache[tenant];
        if cached.credential == credential && cached.expires - now > 5 {
          callers, returned := callers[id := Done(Returned(cached.token, credential))], returned + [credential];
          return;
        }
      }
      cache := cache - {tenant};
      var f := |flights|;
      if credential in registered && registered[credential] < |flights| {
        f := registered[credential];
        flights := flights[f := flights[f].(waiters := flights[f].waiters + 1)];
      } else {
        registered := registered[credential := f];
        flights := flights + [Flight(credential, 1, Running(false))];
      }
      callers := callers[id := Waiting(credential, f)];
    }

    predicate Awaits(id: nat, f: nat)
      reads this
    {
      id in callers && callers[id].Waiting? && callers[id].flight == f
    }

    /** The `finally` block of a call. */
    method Finally(id: nat, f: nat, ending: Ending)
      requires f < |flights|
      modifies this`registered, this`flights, this`callers
      ensures State() == Leave(old(State()), id, f, ending)
      ensures old(Valid() && Awaits(id, f)) && ending == Cancelled ==> Valid()
    {
      if Awaits(id, f) {
        T.CancelReached(State(), id, f);
      }
      flights := flights[f := flights[f].(waiters := flights[f].waiters - 1)];
      if flights[f].waiters != 0 {
        callers := callers[id := Done(ending)];
        return;
      }
      registered := registered - {flights[f].credential};
      callers := callers[id := Leaving(f, ending)];
      if flights[f].task.Running? {
        flights := flights[f := flights[f].(task := Running(true))];
      }
    }

    /** A call after its await. */
    method Resume(id: nat, credential: Credential, f: nat, file: File)
      requires f < |flights|
      modifies this, credentials
      ensures State() == Wake(old(State()), id, credential, f, file)
      ensures old(Valid() && Awaits(id, f) && callers[id].credential == credential && !flights[f].task.Running?) ==> Valid()
    {
      T.StepReached(State(), Resumed(id, file));
      if !flights[f].task.Succeeded? {
        Finally(id, f, Raised(ExchangeFailed));
        return;
      }
      if closed {
        Finally(id, f, Raised(ProviderClosed));
        return;
      }
      var token := flights[f].task.token;
      var snapshot := credentials.TakeSnapshotOf(file, credential.tenant);
      if snapshot.Err? {
        Finally(id, f, Raised(snapshot.error));
      } else if snapshot.value != credential {
        Finally(id, f, Raised(CredentialsChanged));
      } else {
        returned := returned + [credential];
        Finally(id, f, Returned(token, credential));
      }
    }

    /** The end of an exchange: only a token for the current credential, with time left, is cached. */
    method FinishExchange(f: nat, token: Option<string>, expires: int, file: File, now: int)
      requires f < |flights|
      modifies this, credentials
      ensures State() == Finish(old(State()), f, token, expires, file, now)
      ensures old(Valid() && flights[f].task.Running?) ==> Valid()
    {
      T.StepReached(State(), Exchanged(f, token, expires, file, now));
      if token.None? {
        flights := flights[f := flights[f].(task := Failed)];
        return;
      }
      var credential := flights[f].credential;
      var snapshot := credentials.TakeSnapshotOf(file, credential.tenant);
      if snapshot != Ok(credential) || expires - now <= 5 {
        flights := flights[f := flights[f].(task := Failed)];
        return;
      }
      cache := cache[credential.tenant := Cached(credential, token.value, expires)];
      flights := flights[f := flights[f].(task := Succeeded(token.value))];
    }

    /** Closing cancels the registered exchanges, one after the other. */
    method Close()
      modifies this`closed, this`flights
      ensures State() == CloseAll(old(State()))
      ensures old(Valid()) ==> Valid()
    {
      T.StepReached(State(), TokenFlights.Close);
      closed := true;
      var f := 0;
      while f < |flights|
        invariant closed && 0 <= f <= |flights| == |old(flights)|
        invariant forall g | 0 <= g < f :: flights[g] == CloseAll(old(State())).flights[g]
        invariant forall g | f <= g < |flights| :: flights[g] == old(flights)[g]
      {
        var c := flights[f].credential;
        if c in registered && registered[c] == f && flights[f].task.Running? {
          flights := flights[f := flights[f].(task := Running(true))];
        }
        f := f + 1;
      }
      assert flights == CloseAll(old(State())).flights;
    }
  }
}
