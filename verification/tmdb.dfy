/** The TMDB client: request construction (URL parameters and headers), the
    argument guards of `searchMovies` and `getMovieDetails`, and how a failed
    HTTP response becomes an error. The network call itself is not modelled:
    a request is returned as data, and its answer is given as an `HttpResponse`. */
module Tmdb {
  import opened Js

  const API_ROOT := "https://api.themoviedb.org/3"
  const ID_REQUIRED := "getMovieDetails: id is required"
  const FAILURE_PREFIX := "TMDB request failed: "

  /** The two build-time variables the client reads: `VITE_TMDB_API_KEY` and
      `VITE_TMDB_READ_ACCESS_TOKEN`. */
  datatype Env = Env(apiKey: Option<string>, token: Option<string>)

  /** An object's entries in insertion order. */
  type Entries<V> = seq<(string, V)>

  predicate DistinctKeys<V>(es: Entries<V>)
  {
    forall i, j :: 0 <= i < j < |es| ==> es[i].0 != es[j].0
  }

  /** The value stored under `k`, if any. */
  function Lookup<V>(es: Entries<V>, k: string): Option<V>
  {
    if es == [] then None
    else if es[0].0 == k then Some(es[0].1)
    else Lookup(es[1..], k)
  }

  /** `obj[k] = v`: an existing key keeps its position, a new one is appended. */
  function Put<V>(es: Entries<V>, k: string, v: V): (r: Entries<V>)
    ensures Lookup(r, k) == Some(v)
    ensures forall k' :: k' != k ==> Lookup(r, k') == Lookup(es, k')
    ensures DistinctKeys(es) ==> DistinctKeys(r)
    decreases |es|
  {
    if es == [] then [(k, v)]
    else if es[0].0 == k then [(k, v)] + es[1..]
    else
      var rest := Put(es[1..], k, v);
      assert DistinctKeys(es) ==> forall j :: 0 <= j < |rest| ==> rest[j].0 != es[0].0 by {
        if DistinctKeys(es) {
          forall j | 0 <= j < |rest| ensures rest[j].0 != es[0].0 {
            KeyOfEntry(rest, j);
            if rest[j].0 == k {
            } else {
              assert Lookup(rest, rest[j].0).Some?;
              LookupFindsEntry(es[1..], rest[j].0);
              var i :| 0 <= i < |es[1..]| && es[1..][i].0 == rest[j].0;
              assert es[i + 1].0 == rest[j].0;
            }
          }
        }
      }
      [es[0]] + rest
  }

  /** A key stored at some position is found by `Lookup`. */
  lemma {:induction false} KeyOfEntry<V>(es: Entries<V>, j: nat)
    requires j < |es|
    ensures Lookup(es, es[j].0).Some?
    decreases j
  {
    if j > 0 && es[0].0 != es[j].0 {
      assert es[1..][j - 1] == es[j];
      KeyOfEntry(es[1..], j - 1);
    }
  }

  /** A key `Lookup` finds is stored at some position. */
  lemma {:induction false} LookupFindsEntry<V>(es: Entries<V>, k: string)
    requires Lookup(es, k).Some?
    ensures exists i :: 0 <= i < |es| && es[i].0 == k
    decreases |es|
  {
    if es[0].0 != k {
      LookupFindsEntry(es[1..], k);
      var i :| 0 <= i < |es[1..]| && es[1..][i].0 == k;
      assert es[i + 1].0 == k;
    }
  }

  /** `{ ...a, ...b }`: every entry of `b` written over `a`, in order. */
  function Spread<V>(a: Entries<V>, b: Entries<V>): (r: Entries<V>)
    decreases |b|
  {
    if b == [] then a else Spread(Put(a, b[0].0, b[0].1), b[1..])
  }

  /** A key stored nowhere is not found. */
  lemma {:induction false} LookupAbsent<V>(es: Entries<V>, k: string)
    requires forall i :: 0 <= i < |es| ==> es[i].0 != k
    ensures Lookup(es, k).None?
    decreases |es|
  {
    if es != [] {
      assert forall i :: 0 <= i < |es[1..]| ==> es[1..][i].0 == es[i + 1].0;
      LookupAbsent(es[1..], k);
    }
  }

  /** With distinct keys, the first entry's key does not occur again. */
  lemma HeadKeyNotInTail<V>(es: Entries<V>)
    requires es != [] && DistinctKeys(es)
    ensures Lookup(es[1..], es[0].0).None?
    ensures DistinctKeys(es[1..])
  {
    assert forall i :: 0 <= i < |es[1..]| ==> es[1..][i].0 == es[i + 1].0;
    LookupAbsent(es[1..], es[0].0);
  }

  /** In a spread the later object wins on every key it has. */
  lemma {:induction false} SpreadLookup<V>(a: Entries<V>, b: Entries<V>, k: string)
    requires DistinctKeys(b)
    ensures Lookup(Spread(a, b), k) == (if Lookup(b, k).Some? then Lookup(b, k) else Lookup(a, k))
    decreases |b|
  {
    if b != [] {
      HeadKeyNotInTail(b);
      SpreadLookup(Put(a, b[0].0, b[0].1), b[1..], k);
    }
  }

  // ---------------------------------------------------------------------------
  // Headers

  /** `getAuthHeaders()`: a bearer header exactly when a token is configured. */
  function AuthHeaders(env: Env): (r: Entries<string>)
    ensures DistinctKeys(r)
    ensures Present(env.token) ==> r == [("Authorization", "Bearer " + env.token.value)]
    ensures !Present(env.token) ==> r == []
  {
    if Present(env.token) then [("Authorization", "Bearer " + env.token.value)] else []
  }

  /** The headers `safeFetch` sends: JSON content type, then the auth header,
      then the caller's headers (`opts.headers || {}`), later keys winning. */
  function RequestHeaders(env: Env, caller: Entries<string>): Entries<string>
  {
    Spread(Spread([("Content-Type", "application/json")], AuthHeaders(env)), caller)
  }

  lemma HeaderPrecedence(env: Env, caller: Entries<string>, k: string)
    requires DistinctKeys(caller)
    ensures Lookup(caller, k).Some? ==> Lookup(RequestHeaders(env, caller), k) == Lookup(caller, k)
    ensures Lookup(caller, k).None? && k == "Authorization" ==>
      Lookup(RequestHeaders(env, caller), k) == (if Present(env.token) then Some("Bearer " + env.token.value) else None)
    ensures Lookup(caller, k).None? && k == "Content-Type" ==>
      Lookup(RequestHeaders(env, caller), k) == Some("application/json")
  {
    var base := [("Content-Type", "application/json")];
    SpreadLookup(Spread(base, AuthHeaders(env)), caller, k);
    SpreadLookup(base, AuthHeaders(env), k);
  }

  // ---------------------------------------------------------------------------
  // URLs

  /** A request URL before percent-encoding: the base and the search parameters
      in the order they were set. */
  datatype Url = Url(base: string, query: Entries<string>)

  /** The parameters after the API key is added: only with a key and no token. */
  function WithCredentials(env: Env, params: Entries<JsVal>): Entries<JsVal>
  {
    if Present(env.apiKey) && !Present(env.token) then Put(params, "api_key", Str(env.apiKey.value))
    else params
  }

  /** The entries `buildUrl` sets on the URL: nullish values dropped, the rest
      converted with `String(v)`. */
  function SearchParams(params: Entries<JsVal>): (r: Entries<string>)
    ensures DistinctKeys(params) ==> forall k :: (Lookup(r, k) ==
      (if Lookup(params, k).Some? && !Nullish(Lookup(params, k).value)
       then Some(ToString(Lookup(params, k).value)) else None))
    decreases |params|
  {
    if params == [] then []
    else
      var rest := SearchParams(params[1..]);
      assert DistinctKeys(params) ==> Lookup(params[1..], params[0].0).None? && DistinctKeys(params[1..]) by {
        if DistinctKeys(params) {
          HeadKeyNotInTail(params);
        }
      }
      if Nullish(params[0].1) then rest
      else [(params[0].0, ToString(params[0].1))] + rest
  }

  /** `buildUrl(path, params)`: the path under the API root; every parameter
      but `api_key` is set as `String(v)` exactly when it is not nullish, and
      `api_key` is set exactly when a key and no token is configured. */
  function BuildUrl(env: Env, path: string, params: Entries<JsVal>): (r: Url)
    ensures r.base == API_ROOT + path
    ensures DistinctKeys(params) ==> forall k :: k != "api_key" ==>
      Lookup(r.query, k) ==
        (if Lookup(params, k).Some? && !Nullish(Lookup(params, k).value)
         then Some(ToString(Lookup(params, k).value)) else None)
    ensures DistinctKeys(params) && Lookup(params, "api_key").None? ==>
      Lookup(r.query, "api_key") ==
        (if Present(env.apiKey) && !Present(env.token) then Some(env.apiKey.value) else None)
  {
    assert DistinctKeys(params) ==> DistinctKeys(WithCredentials(env, params));
    Url(API_ROOT + path, SearchParams(WithCredentials(env, params)))
  }

  /** The API key travels in the URL only when there is a key and no token, and
      the bearer header only when there is a token: never both. */
  lemma CredentialsExclusive(env: Env, path: string, params: Entries<JsVal>)
    requires Lookup(params, "api_key").None?
    ensures Lookup(BuildUrl(env, path, params).query, "api_key") ==
      (if Present(env.apiKey) && !Present(env.token) then Some(env.apiKey.value) else None)
    ensures Lookup(BuildUrl(env, path, params).query, "api_key").Some?
      ==> Lookup(AuthHeaders(env), "Authorization").None?
  {
  }

  // ---------------------------------------------------------------------------
  // Endpoints

  /** What an endpoint call does before any network I/O: return a value
      directly, throw, or send a request. */
  datatype Call =
    | Immediate(value: JsVal)
    | Throws(message: string)
    | Send(url: Url, headers: Entries<string>)

  /** `{ results: [], page: 1, total_pages: 0, total_results: 0 }` */
  const EMPTY_PAGE := Obj(map["results" := Arr([]), "page" := Num(1), "total_pages" := Num(0), "total_results" := Num(0)])

  /** A parameter default: only `undefined` takes it. */
  function Default(v: JsVal, d: JsVal): JsVal
  {
    if v.Undefined? then d else v
  }

  /** `searchMovies(query, page = 1, includeAdult = false)` */
  function SearchMovies(env: Env, query: Option<string>, page: JsVal, includeAdult: JsVal): (r: Call)
    ensures BlankOrMissing(query) <==> r.Immediate?
    ensures r.Immediate? ==> r.value == EMPTY_PAGE
    ensures r.Send? ==> r.url.base == API_ROOT + "/search/movie" && r.headers == RequestHeaders(env, [])
  {
    if BlankOrMissing(query) then Immediate(EMPTY_PAGE)
    else
      Send(BuildUrl(env, "/search/movie",
                    [("query", Str(query.value)), ("page", Default(page, Num(1))),
                     ("include_adult", Default(includeAdult, Bool(false)))]),
           RequestHeaders(env, []))
  }

  /** `getMovieDetails(id, appendToResponse = '')` */
  function GetMovieDetails(env: Env, id: JsVal, append: JsVal): (r: Call)
    ensures !Truthy(id) <==> r == Throws(ID_REQUIRED)
    ensures Truthy(id) ==> r.Send? && r.url.base == API_ROOT + "/movie/" + ToString(id)
  {
    if !Truthy(id) then Throws(ID_REQUIRED)
    else
      var params := if Truthy(Default(append, Str(""))) then [("append_to_response", append)] else [];
      Send(BuildUrl(env, "/movie/" + ToString(id), params), RequestHeaders(env, []))
  }

  /** Every parameter other than `api_key` reaches the URL as given, minus the
      nullish ones. */
  lemma ParamReachesUrl(env: Env, path: string, params: Entries<JsVal>, k: string)
    requires DistinctKeys(params) && k != "api_key"
    ensures Lookup(BuildUrl(env, path, params).query, k) ==
      (if Lookup(params, k).Some? && !Nullish(Lookup(params, k).value)
       then Some(ToString(Lookup(params, k).value)) else None)
  {
    assert DistinctKeys(WithCredentials(env, params));
  }

  /** The parameters a search with default page and adult flag passes. */
  function DefaultSearchParams(q: string): Entries<JsVal>
  {
    [("query", Str(q)), ("page", Num(1)), ("include_adult", Bool(false))]
  }

  lemma {:induction false} DefaultSearchLookups(q: string)
    ensures DistinctKeys(DefaultSearchParams(q))
    ensures Lookup(DefaultSearchParams(q), "query") == Some(Str(q))
    ensures Lookup(DefaultSearchParams(q), "page") == Some(Num(1))
    ensures Lookup(DefaultSearchParams(q), "include_adult") == Some(Bool(false))
  {
    var ps := DefaultSearchParams(q);
    assert ps[1..] == [("page", Num(1)), ("include_adult", Bool(false))];
    assert ps[1..][1..] == [("include_adult", Bool(false))];
    assert Lookup(ps, "page") == Lookup(ps[1..], "page");
    assert Lookup(ps, "include_adult") == Lookup(ps[1..][1..], "include_adult");
  }

  /** A search with a query and no page or flag sends the default parameters. */
  lemma {:induction false} DefaultSearchSends(env: Env, q: string)
    requires !Blank(q)
    ensures var r := SearchMovies(env, Some(q), Undefined, Undefined);
      r.Send? && r.url == BuildUrl(env, "/search/movie", DefaultSearchParams(q))
  {
  }

  /** The URL of a default search carries each of its three parameters. */
  lemma {:induction false} DefaultSearchUrl(env: Env, q: string)
    ensures var url := BuildUrl(env, "/search/movie", DefaultSearchParams(q));
      Lookup(url.query, "query") == Some(ToString(Str(q)))
      && Lookup(url.query, "page") == Some(ToString(Num(1)))
      && Lookup(url.query, "include_adult") == Some(ToString(Bool(false)))
  {
    var ps := DefaultSearchParams(q);
    DefaultSearchLookups(q);
    ParamReachesUrl(env, "/search/movie", ps, "query");
    ParamReachesUrl(env, "/search/movie", ps, "page");
    ParamReachesUrl(env, "/search/movie", ps, "include_adult");
  }

  /** A search sends the query exactly as given, untrimmed, and page 1 when no
      page is passed. */
  lemma {:induction false} SearchSendsQueryVerbatim(env: Env, q: string)
    requires !Blank(q)
    ensures var r := SearchMovies(env, Some(q), Undefined, Undefined);
      r.Send? && Lookup(r.url.query, "query") == Some(q)
      && Lookup(r.url.query, "page") == Some("1")
      && Lookup(r.url.query, "include_adult") == Some("false")
  {
    DefaultSearchSends(env, q);
    DefaultSearchUrl(env, q);
    assert ToString(Num(1)) == "1" by { SmallNumerals(); }
  }

  /** `append_to_response` is sent exactly when the argument is truthy. */
  lemma AppendOnlyWhenGiven(env: Env, id: JsVal, append: JsVal)
    requires Truthy(id)
    ensures var r := GetMovieDetails(env, id, append);
      Lookup(r.url.query, "append_to_response") ==
        (if Truthy(append) then Some(ToString(append)) else None)
  {
  }

  // ---------------------------------------------------------------------------
  // Responses

  /** An HTTP answer; `body` is the body parsed as JSON, `None` when it is not
      JSON (or could not be read). */
  datatype HttpResponse = HttpResponse(ok: bool, status: int, statusText: string, body: Option<JsVal>)

  /** How `safeFetch` settles. */
  datatype Outcome =
    | Data(value: JsVal)
    | Failed(message: string, status: int)
    | BadJson

  /** The `status_message` detail of an error body, when it is truthy. */
  function Detail(body: Option<JsVal>): Option<string>
  {
    if body.None? then None
    else
      match Get(body.value, "status_message")
      case None => None
      case Some(v) => if Truthy(v) then Some(ToString(v)) else None
  }

  function FailureMessage(status: int, statusText: string, body: Option<JsVal>): (m: string)
    ensures var head := FAILURE_PREFIX + IntToString(status) + " " + statusText;
      && (Detail(body).None? ==> m == head)
      && (Detail(body).Some? ==> m == head + " — " + Detail(body).value)
  {
    var head := FAILURE_PREFIX + IntToString(status) + " " + statusText;
    if Detail(body).Some? then head + " — " + Detail(body).value else head
  }

  /** `safeFetch` after `fetch` answered `res`. */
  function SafeFetch(res: HttpResponse): (r: Outcome)
    ensures res.ok && res.body.Some? ==> r == Data(res.body.value)
    ensures res.ok && res.body.None? ==> r == BadJson
    ensures !res.ok ==> (r.Failed? && r.status == res.status
      && r.message == FailureMessage(res.status, res.statusText, res.body))
  {
    if !res.ok then Failed(FailureMessage(res.status, res.statusText, res.body), res.status)
    else if res.body.Some? then Data(res.body.value)
    else BadJson
  }

  /** The detail is appended exactly when the body is JSON with a truthy
      `status_message`; a `null` body or a non-JSON body leaves the plain message,
      and the plain message is always a prefix. */
  lemma DetailAppendedIff(res: HttpResponse)
    requires !res.ok
    ensures var head := FAILURE_PREFIX + IntToString(res.status) + " " + res.statusText;
      && head <= SafeFetch(res).message
      && (SafeFetch(res).message == head <==>
          !(res.body.Some? && res.body.value.Obj? && "status_message" in res.body.value.props
            && Truthy(res.body.value.props["status_message"])))
  {
    var head := FAILURE_PREFIX + IntToString(res.status) + " " + res.statusText;
    if Detail(res.body).Some? {
      assert |SafeFetch(res).message| > |head|;
    }
  }
}
