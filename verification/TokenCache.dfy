/** The shared access-token cache of `sqlserver_runtime.py`: two lock regions with an unlocked load
    between them, run by any number of threads over one monotone clock. */
module TokenCache {
  import opened Text

  datatype Token = Token(text: string, expiresOn: int)

  /** `_AccessTokenCacheKey`. */
  datatype Key = Key(authentication: string, scope: string, backend: string,
                     tenantId: Option<string>, clientId: Option<string>)

  type Cache = map<Key, Token>

  /** `token.expires_on - time.time() >= refresh_buffer_seconds`. */
  predicate Fresh(token: Token, now: real, buffer: int) {
    token.expiresOn as real - now >= buffer as real
  }

  /** The first lock region: a fresh cached token, or nothing. */
  function FirstRegion(cache: Cache, key: Key, now: real, buffer: int): Option<Token> {
    if key in cache && Fresh(cache[key], now, buffer) then Some(cache[key]) else None
  }

  /** The second lock region: adopt what another call stored meanwhile, or store `loaded`. */
  function SecondRegion(cache: Cache, key: Key, loaded: Token, now: real, buffer: int): (Cache, Token) {
    if key in cache && Fresh(cache[key], now, buffer) then (cache, cache[key])
    else (cache[key := loaded], loaded)
  }

  /** Neither this call nor the others are for `k`. */
  predicate Untouched(k: Key, key: Key, others: seq<(Key, Token, real)>) {
    k != key && forall i :: 0 <= i < |others| ==> others[i].0 != k
  }

  /** The shared object; the bodies of the first two methods are the two lock regions. */
  class RuntimeState {
    var accessTokenCache: Cache

    constructor ()
      ensures accessTokenCache == map[]
    {
      accessTokenCache := map[];
    }

    method TryCached(key: Key, now: real, buffer: int) returns (token: Option<Token>)
      ensures token == FirstRegion(accessTokenCache, key, now, buffer)
      ensures token.Some? <==> key in accessTokenCache && accessTokenCache[key].expiresOn as real - now >= buffer as real
      ensures token.Some? ==> token.value == accessTokenCache[key]
    {
      if key in accessTokenCache && Fresh(accessTokenCache[key], now, buffer) {
        return Some(accessTokenCache[key]);
      }
      return None;
    }

    /** Afterwards the key holds the returned token; a token with at least the buffer left is kept and returned,
        any other is replaced by the loaded one, and no other key is touched. */
    method AdoptOrStore(key: Key, loaded: Token, now: real, buffer: int) returns (token: Token)
      modifies this
      ensures (accessTokenCache, token) == SecondRegion(old(accessTokenCache), key, loaded, now, buffer)
      ensures key in accessTokenCache && accessTokenCache[key] == token
      ensures accessTokenCache - {key} == old(accessTokenCache) - {key}
      ensures token == if key in old(accessTokenCache)
                          && old(accessTokenCache)[key].expiresOn as real - now >= buffer as real
                       then old(accessTokenCache)[key] else loaded
    {
      if key in accessTokenCache && Fresh(accessTokenCache[key], now, buffer) {
        return accessTokenCache[key];
      }
      accessTokenCache := accessTokenCache[key := loaded];
      return loaded;
    }

    /** `get_cached_access_token`: `loaded` is what the loader returns, `others` are the calls whose second
        region runs while it loads, and `end` is the clock when it is done. A cached token with at least the
        buffer left at the start is returned and nothing changes. One with less left is not: then the token is
        the loaded one, or one that another call stored and that has the buffer left at the end. */
    method GetCachedAccessToken(key: Key, loaded: Token, start: real, others: seq<(Key, Token, real)>, end: real,
                                buffer: int) returns (token: Token)
      modifies this
      ensures key in accessTokenCache && accessTokenCache[key] == token
      ensures token == loaded || token.expiresOn as real - start >= buffer as real
           || token.expiresOn as real - end >= buffer as real
      ensures key in old(accessTokenCache) && old(accessTokenCache)[key].expiresOn as real - start >= buffer as real ==>
                token == old(accessTokenCache)[key] && accessTokenCache == old(accessTokenCache)
      ensures key !in old(accessTokenCache) || old(accessTokenCache)[key].expiresOn as real - start < buffer as real ==>
                token == loaded || token.expiresOn as real - end >= buffer as real
      ensures (key !in old(accessTokenCache) || old(accessTokenCache)[key].expiresOn as real - start < buffer as real)
              && (forall i :: 0 <= i < |others| ==> others[i].0 != key) && start <= end ==>
                token == loaded
      ensures forall k :: Untouched(k, key, others) ==>
                (k in accessTokenCache <==> k in old(accessTokenCache))
                && (k in accessTokenCache ==> accessTokenCache[k] == old(accessTokenCache)[k])
    {
      var hit := TryCached(key, start, buffer);
      if hit.Some? {
        return hit.value;
      }
      for i := 0 to |others|
        invariant forall k :: Untouched(k, key, others) ==>
                    (k in accessTokenCache <==> k in old(accessTokenCache))
                    && (k in accessTokenCache ==> accessTokenCache[k] == old(accessTokenCache)[k])
        invariant (forall j :: 0 <= j < i ==> others[j].0 != key) ==>
                    (key in accessTokenCache <==> key in old(accessTokenCache))
                    && (key in accessTokenCache ==> accessTokenCache[key] == old(accessTokenCache)[key])
      {
        var _ := AdoptOrStore(others[i].0, others[i].1, others[i].2, buffer);
      }
      token := AdoptOrStore(key, loaded, end, buffer);
    }

    method ResetAccessTokenCache()
      modifies this
      ensures accessTokenCache == map[]
    {
      accessTokenCache := map[];
    }
  }

  // --------------------------------------------------------------- interleavings

  type Thread = nat

  /** Where a thread is in its current call, if it is in one. */
  datatype Pc = Loading(key: Key) | Loaded(key: Key, token: Token)

  datatype State = State(cache: Cache, calls: map<Thread, Pc>, now: real)

  datatype Event =
    | Tick(to: real)
    | Enter(thread: Thread, enterKey: Key)
    | Load(thread: Thread, token: Token)
    | LoadRaises(thread: Thread)
    | Decide(thread: Thread)
    | Reset

  predicate Enabled(s: State, e: Event) {
    match e
    case Tick(to) => to >= s.now
    case Enter(t, _) => t !in s.calls
    case Load(t, _) => t in s.calls && s.calls[t].Loading?
    case LoadRaises(t) => t in s.calls && s.calls[t].Loading?
    case Decide(t) => t in s.calls && s.calls[t].Loaded?
    case Reset => true
  }

  function Next(s: State, e: Event, buffer: int): State
    requires Enabled(s, e)
  {
    match e
    case Tick(to) => s.(now := to)
    case Enter(t, key) =>
      if FirstRegion(s.cache, key, s.now, buffer).Some? then s else s.(calls := s.calls[t := Loading(key)])
    case Load(t, token) => s.(calls := s.calls[t := Loaded(s.calls[t].key, token)])
    case LoadRaises(t) => s.(calls := s.calls - {t})
    case Decide(t) =>
      s.(cache := SecondRegion(s.cache, s.calls[t].key, s.calls[t].token, s.now, buffer).0, calls := s.calls - {t})
    case Reset => s.(cache := map[])
  }

  /** The key and token a call returns with at this event, if one does. */
  function Output(s: State, e: Event, buffer: int): Option<(Key, Token)>
    requires Enabled(s, e)
  {
    match e
    case Enter(t, key) =>
      var hit := FirstRegion(s.cache, key, s.now, buffer);
      if hit.Some? then Some((key, hit.value)) else None
    case Decide(t) =>
      Some((s.calls[t].key, SecondRegion(s.cache, s.calls[t].key, s.calls[t].token, s.now, buffer).1))
    case _ => None
  }

  /** An interleaving: any events of any threads, each enabled where it happens. */
  ghost predicate Interleaving(states: seq<State>, events: seq<Event>, buffer: int) {
    && |states| == |events| + 1
    && forall i :: 0 <= i < |events| ==>
         Enabled(states[i], events[i]) && states[i + 1] == Next(states[i], events[i], buffer)
  }

  predicate Holds(s: State, key: Key, token: Token) {
    key in s.cache && s.cache[key] == token
  }

  lemma {:induction false} ClockMonotone(states: seq<State>, events: seq<Event>, buffer: int, i: nat, j: nat)
    requires Interleaving(states, events, buffer) && i <= j <= |events|
    ensures states[i].now <= states[j].now
    decreases j - i
  {
    if i < j {
      ClockMonotone(states, events, buffer, i, j - 1);
    }
  }

  /** A token with the buffer left stays in the cache: no event but a reset replaces it, not even the decision of
      a call that missed before it was stored and loaded another token meanwhile. */
  lemma {:induction false} FreshTokenStays(states: seq<State>, events: seq<Event>, buffer: int, i: nat, j: nat,
                                           key: Key, token: Token)
    requires Interleaving(states, events, buffer) && i <= j <= |events|
    requires Holds(states[i], key, token) && token.expiresOn as real - states[j].now >= buffer as real
    requires forall m :: i <= m < j ==> events[m] != Reset
    ensures Holds(states[j], key, token)
    decreases j - i
  {
    if i < j {
      ClockMonotone(states, events, buffer, j - 1, j);
      FreshTokenStays(states, events, buffer, i, j - 1, key, token);
      assert events[j - 1] != Reset;
    }
  }

  /** After a call returned, its key holds what it returned. */
  lemma ReturnedIsCached(s: State, e: Event, buffer: int)
    requires Enabled(s, e) && Output(s, e, buffer).Some?
    ensures var (key, token) := Output(s, e, buffer).value;
            Holds(Next(s, e, buffer), key, token)
  {
  }

  /** A call that returns while the cached token has the buffer left returns that token. */
  lemma CachedTokenIsReturned(s: State, e: Event, buffer: int, key: Key, token: Token)
    requires Enabled(s, e) && Holds(s, key, token) && token.expiresOn as real - s.now >= buffer as real
    requires Output(s, e, buffer).Some? && Output(s, e, buffer).value.0 == key
    ensures Output(s, e, buffer).value.1 == token
  {
  }

  /** Agreement over every interleaving: if one call returned a token, every later call for that key
      that returns while the token still has the buffer left returns the same token. */
  lemma CallsAgree(states: seq<State>, events: seq<Event>, buffer: int, i: nat, j: nat)
    requires Interleaving(states, events, buffer) && i < j < |events|
    requires Output(states[i], events[i], buffer).Some? && Output(states[j], events[j], buffer).Some?
    requires Output(states[i], events[i], buffer).value.0 == Output(states[j], events[j], buffer).value.0
    requires Output(states[i], events[i], buffer).value.1.expiresOn as real - states[j].now >= buffer as real
    requires forall m :: i < m < j ==> events[m] != Reset
    ensures Output(states[i], events[i], buffer).value.1 == Output(states[j], events[j], buffer).value.1
  {
    var (key, token) := Output(states[i], events[i], buffer).value;
    ReturnedIsCached(states[i], events[i], buffer);
    FreshTokenStays(states, events, buffer, i + 1, j, key, token);
    CachedTokenIsReturned(states[j], events[j], buffer, key, token);
  }

  /** Every call that returns while a token from the cache still has the buffer left returns that token. */
  lemma StoredTokenIsReturned(states: seq<State>, events: seq<Event>, buffer: int, i: nat, j: nat, token: Token)
    requires Interleaving(states, events, buffer) && i <= j < |events|
    requires Output(states[j], events[j], buffer).Some?
    requires Holds(states[i], Output(states[j], events[j], buffer).value.0, token)
    requires token.expiresOn as real - states[j].now >= buffer as real
    requires forall m :: i <= m < j ==> events[m] != Reset
    ensures Output(states[j], events[j], buffer).value.1 == token
  {
    var key := Output(states[j], events[j], buffer).value.0;
    FreshTokenStays(states, events, buffer, i, j, key, token);
    CachedTokenIsReturned(states[j], events[j], buffer, key, token);
  }

  /** Thread `t` is inside a call at every state of `from..to`. */
  ghost predicate InOneCall(states: seq<State>, t: Thread, from: nat, to: nat)
    requires to < |states|
  {
    forall m :: from <= m <= to ==> t in states[m].calls
  }

  /** A loaded token was loaded by the same call: after its Load the thread did nothing else. */
  lemma {:induction false} LoadedByThisCall(states: seq<State>, events: seq<Event>, buffer: int, j: nat, t: Thread)
    returns (m: nat)
    requires Interleaving(states, events, buffer) && j <= |events|
    requires states[0].calls == map[]
    requires t in states[j].calls && states[j].calls[t].Loaded?
    ensures m < j && events[m] == Load(t, states[j].calls[t].token)
    ensures InOneCall(states, t, m, j) && states[m].calls[t] == Loading(states[j].calls[t].key)
  {
    if events[j - 1] == Load(t, states[j].calls[t].token) && states[j - 1].calls[t].Loading? {
      m := j - 1;
    } else {
      m := LoadedByThisCall(states, events, buffer, j - 1, t);
    }
  }

  /** A returned token either has at least the buffer left at that moment, or was loaded by the
      returning call itself for the same key. */
  lemma ReturnedTokenIsSound(states: seq<State>, events: seq<Event>, buffer: int, j: nat)
    requires Interleaving(states, events, buffer) && j < |events|
    requires states[0].calls == map[]
    requires Output(states[j], events[j], buffer).Some?
    ensures var (key, token) := Output(states[j], events[j], buffer).value;
            || token.expiresOn as real - states[j].now >= buffer as real
            || (&& events[j].Decide?
                && exists m: nat :: m < j && events[m] == Load(events[j].thread, token)
                     && InOneCall(states, events[j].thread, m, j)
                     && states[m].calls[events[j].thread] == Loading(key))
  {
    if events[j].Decide? {
      var m := LoadedByThisCall(states, events, buffer, j, events[j].thread);
    }
  }

  /** How often thread `t` has entered a call, and how often its loader has raised. */
  function Entered(events: seq<Event>, t: Thread): nat {
    if events == [] then 0
    else
      var last := events[|events| - 1];
      Entered(events[..|events| - 1], t) + (if last.Enter? && last.thread == t then 1 else 0)
  }

  function Raised(events: seq<Event>, t: Thread): nat {
    if events == [] then 0
    else
      var last := events[|events| - 1];
      Raised(events[..|events| - 1], t) + (if last == LoadRaises(t) then 1 else 0)
  }

  /** How often a call of thread `t` has returned a token. */
  ghost function Returned(states: seq<State>, events: seq<Event>, buffer: int, t: Thread): nat
    requires Interleaving(states, events, buffer)
  {
    if events == [] then 0
    else
      var i := |events| - 1;
      var last := events[i];
      Returned(states[..i + 1], events[..i], buffer, t)
      + (if Output(states[i], last, buffer).Some? && (last.Enter? || last.Decide?) && last.thread == t then 1 else 0)
  }

  /** No call is lost and none returns twice: over every interleaving the calls a thread entered are those that
      returned, those whose loader raised, and the one it is still in. */
  lemma {:induction false} CallsAccounted(states: seq<State>, events: seq<Event>, buffer: int, t: Thread)
    requires Interleaving(states, events, buffer) && states[0].calls == map[]
    ensures Entered(events, t)
         == Returned(states, events, buffer, t) + Raised(events, t)
            + (if t in states[|events|].calls then 1 else 0)
    decreases |events|
  {
    if events != [] {
      var i := |events| - 1;
      CallsAccounted(states[..i + 1], events[..i], buffer, t);
      assert states[i + 1] == Next(states[i], events[i], buffer);
    }
  }

  /** A reset forgets: whatever is cached later was stored behind it, by the decision of a call whose loaded
      token it is. A call that was already loading at the reset may still store its token. */
  lemma {:induction false} ResetForgets(states: seq<State>, events: seq<Event>, buffer: int, i: nat, j: nat, key: Key)
    returns (m: nat)
    requires Interleaving(states, events, buffer) && i < j <= |events|
    requires events[i] == Reset && key in states[j].cache
    ensures i < m < j && events[m].Decide? && states[m].calls[events[m].thread] == Loaded(key, states[j].cache[key])
    decreases j
  {
    m := j - 1;
    if key in states[m].cache && states[m].cache[key] == states[j].cache[key] && m > i {
      m := ResetForgets(states, events, buffer, i, m, key);
    }
  }

  /** A call only ever changes the cache entry of its own key, and only by the token it returns. */
  lemma OnlyOwnKeyChanges(s: State, e: Event, buffer: int, key: Key)
    requires Enabled(s, e) && e != Reset
    requires (key in s.cache) != (key in Next(s, e, buffer).cache)
          || (key in s.cache && s.cache[key] != Next(s, e, buffer).cache[key])
    ensures Output(s, e, buffer) == Some((key, Next(s, e, buffer).cache[key]))
    ensures key in s.cache ==> s.cache[key].expiresOn as real - s.now < buffer as real
  {
  }
}
