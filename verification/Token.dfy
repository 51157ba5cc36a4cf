/**
 * The access token of the policy calls, cached until shortly before it expires. `expires_in` is the
 * lifetime in seconds of section 5.1 of RFC 6749, where it is optional.
 */
module Token {
  import opened Wrappers

  const SKEW: real := 30.0
  const DEFAULT_TTL: real := 300.0

  datatype Grant = Grant(accessToken: string, expiresIn: Option<real>)

  function Lifetime(grant: Grant): real {
    if grant.expiresIn.Some? then grant.expiresIn.value else DEFAULT_TTL
  }

  datatype Cache = Cache(cached: Option<string>, expiresAt: real)

  /** One call at a time `now`; `grant` is what the token endpoint would answer, or nothing when it fails. */
  datatype Query = Query(now: real, grant: Option<Grant>)

  predicate Serves(cache: Cache, now: real) {
    cache.cached.Some? && now < cache.expiresAt - SKEW
  }

  /** The call goes to the endpoint and succeeds. */
  predicate Fetches(cache: Cache, query: Query) {
    !Serves(cache, query.now) && query.grant.Some?
  }

  function Next(cache: Cache, query: Query): Cache {
    if Fetches(cache, query)
        then Cache(Some(query.grant.value.accessToken), query.now + Lifetime(query.grant.value)) else cache
  }

  function Answer(cache: Cache, query: Query): Option<string> {
    if Serves(cache, query.now) then cache.cached
    else if query.grant.Some? then Some(query.grant.value.accessToken)
    else None
  }

  class ClientCredentialsTokenProvider {
    var cached: Option<string>
    var expiresAt: real

    ghost function State(): Cache
      reads this
    {
      Cache(cached, expiresAt)
    }

    constructor ()
      ensures State() == Cache(None, 0.0)
    {
      cached, expiresAt := None, 0.0;
    }

    /** `token`: the cached token while it is good for another thirty seconds, otherwise a new one. */
    method Token(query: Query) returns (token: Option<string>)
      modifies this
      ensures State() == Next(old(State()), query) && token == Answer(old(State()), query)
      ensures token.Some? ==> cached == token
    {
      if cached.Some? && query.now < expiresAt - SKEW {
        return cached;
      }
      if query.grant.None? {
        return None;
      }
      var grant := query.grant.value;
      cached := Some(grant.accessToken);
      expiresAt := query.now + if grant.expiresIn.Some? then grant.expiresIn.value else DEFAULT_TTL;
      return Some(grant.accessToken);
    }
  }

  // ----- runs

  function After(cache: Cache, queries: seq<Query>): Cache {
    if queries == [] then cache else Next(After(cache, queries[..|queries| - 1]), queries[|queries| - 1])
  }

  function FetchCount(cache: Cache, queries: seq<Query>): nat {
    if queries == [] then 0
    else
      var init := queries[..|queries| - 1];
      FetchCount(cache, init) + if Fetches(After(cache, init), queries[|queries| - 1]) then 1 else 0
  }

  predicate Monotone(queries: seq<Query>) {
    forall i, j :: 0 <= i < j < |queries| ==> queries[i].now <= queries[j].now
  }

  predicate LivesAtLeast(queries: seq<Query>, m: real) {
    forall i :: 0 <= i < |queries| && queries[i].grant.Some? ==> Lifetime(queries[i].grant.value) >= m
  }

  /** The token and expiry in the cache were granted together by one of the queries. */
  predicate GrantedBy(cache: Cache, query: Query) {
    query.grant.Some? && cache == Cache(Some(query.grant.value.accessToken), query.now + Lifetime(query.grant.value))
  }

  lemma {:induction false} CacheWasGranted(queries: seq<Query>)
    ensures var cache := After(Cache(None, 0.0), queries);
            cache == Cache(None, 0.0) || exists i :: 0 <= i < |queries| && GrantedBy(cache, queries[i])
  {
    if queries != [] {
      var init := queries[..|queries| - 1];
      CacheWasGranted(init);
      var before, after := After(Cache(None, 0.0), init), After(Cache(None, 0.0), queries);
      if after != before {
        assert GrantedBy(after, queries[|queries| - 1]);
      } else if i :| 0 <= i < |init| && GrantedBy(before, init[i]) {
        assert GrantedBy(after, queries[i]);
      }
    }
  }

  /**
   * Over any run of a new provider, the token answered to the last query was granted by one of the
   * queries, and unless that was this very query, more than thirty seconds of its lifetime are left.
   */
  lemma {:induction false} NoStaleToken(queries: seq<Query>, query: Query)
    ensures var token := Answer(After(Cache(None, 0.0), queries), query);
            token.Some? ==>
              || (query.grant.Some? && token.value == query.grant.value.accessToken)
              || exists i :: 0 <= i < |queries| && queries[i].grant.Some?
                             && token.value == queries[i].grant.value.accessToken
                             && query.now < queries[i].now + Lifetime(queries[i].grant.value) - SKEW
  {
    CacheWasGranted(queries);
    var cache := After(Cache(None, 0.0), queries);
    if cache != Cache(None, 0.0) {
      var i :| 0 <= i < |queries| && GrantedBy(cache, queries[i]);
    }
  }

  /**
   * A call is answered exactly when the cached token is still good or the endpoint grants one, and it asks
   * the endpoint only when the cached token is not.
   */
  lemma AnswersIff(queries: seq<Query>, query: Query)
    ensures var cache := After(Cache(None, 0.0), queries);
            && (Answer(cache, query).Some? <==> Serves(cache, query.now) || query.grant.Some?)
            && (Serves(cache, query.now) ==> Answer(cache, query) == cache.cached && Next(cache, query) == cache)
  {
    CacheWasGranted(queries);
  }

  /**
   * A token fetched at one time is the answer of every later call up to thirty seconds before its lifetime
   * ends (three hundred seconds when none is given) without asking again; from then on a call fetches.
   */
  lemma ServedUntil(cache: Cache, fetch: Query, query: Query)
    requires Fetches(cache, fetch)
    ensures var lifetime := if fetch.grant.value.expiresIn.Some? then fetch.grant.value.expiresIn.value else 300.0;
            var cache' := Next(cache, fetch);
            if query.now < fetch.now + lifetime - 30.0 then
              Answer(cache', query) == Some(fetch.grant.value.accessToken) && Next(cache', query) == cache'
            else
              && (Fetches(cache', query) <==> query.grant.Some?)
              && Answer(cache', query) == if query.grant.Some? then Some(query.grant.value.accessToken) else None
  {
  }

  /** `n` gaps of `d` seconds. */
  ghost function Gaps(n: nat, d: real): real {
    n as real * d
  }

  lemma GapsStep(n: nat, d: real)
    ensures Gaps(0, d) == 0.0 && Gaps(n + 1, d) == Gaps(n, d) + d
  {
  }

  /** After `n` fetches in a span the cached token serves until `n` gaps past its start. */
  lemma {:induction false} FetchesAreSpaced(cache: Cache, queries: seq<Query>, m: real)
    requires |queries| > 0 && Monotone(queries) && LivesAtLeast(queries, m) && m > SKEW
    ensures var n := FetchCount(cache, queries);
            n > 0 ==>
              && After(cache, queries).cached.Some?
              && After(cache, queries).expiresAt - SKEW >= queries[0].now + Gaps(n, m - SKEW)
              && queries[|queries| - 1].now >= queries[0].now + Gaps(n - 1, m - SKEW)
  {
    hide Gaps;
    var init, last := queries[..|queries| - 1], queries[|queries| - 1];
    var k := FetchCount(cache, init);
    GapsStep(k, m - SKEW);
    if init != [] {
      FetchesAreSpaced(cache, init, m);
      assert init[|init| - 1].now <= last.now;
    }
    assert Fetches(After(cache, init), last) ==> Lifetime(last.grant.value) >= m;
  }

  /** The successful fetches of a span, minus one, times `m - 30` seconds, never exceed the span. */
  lemma FewFetches(cache: Cache, queries: seq<Query>, m: real)
    requires |queries| > 0 && Monotone(queries) && LivesAtLeast(queries, m) && m > SKEW
    ensures var span := queries[|queries| - 1].now - queries[0].now;
            FetchCount(cache, queries) as real <= 1.0 + span / (m - SKEW)
  {
    hide FetchCount, After, Monotone, LivesAtLeast, Gaps;
    FetchesAreSpaced(cache, queries, m);
    var n, span, d := FetchCount(cache, queries), queries[|queries| - 1].now - queries[0].now, m - SKEW;
    SpanNonNegative(queries);
    GapsStep(0, d);
    if n > 0 {
      Divide(n - 1, d, span);
    } else {
      Divide(0, d, span);
    }
  }

  lemma SpanNonNegative(queries: seq<Query>)
    requires |queries| > 0 && Monotone(queries)
    ensures queries[0].now <= queries[|queries| - 1].now
  {
  }

  lemma Divide(k: nat, d: real, span: real)
    requires d > 0.0 && Gaps(k, d) <= span
    ensures k as real <= span / d
  {
    assert span / d * d == span;
  }
}
