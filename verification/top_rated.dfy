/** `useTopRatedMovies`: a category listing that validates the requested page
    and the response shape, keeps its data on failure, and refuses to navigate
    while a request is loading. */
module TopRated {
  import opened Js
  import opened Films
  import opened Paging

  const INVALID_RESPONSE := "Resposta inválida do servidor"
  const UNKNOWN_FAILURE := "Erro desconhecido ao carregar filmes"

  /** `gen` is `requestRef`. */
  datatype State = State(list: Listing, gen: nat)

  function Init(page: int): State
  {
    State(Fresh(page), 0)
  }

  /** `validatePage`: anything that is not a number (no coercion) or is NaN
      becomes 1, a number is clamped to at least 1. */
  function ValidatePage(p: JsVal): (r: int)
    ensures r >= 1
    ensures p.Num? ==> r == Max(1, p.n)
    ensures !p.Num? ==> r == 1
  {
    if p.Num? && p.n > 1 then p.n else 1
  }

  /** The response fields `validateResponse` extracts. */
  datatype Validated = Validated(results: seq<Film>, page: int, totalPages: int, totalResults: int)

  /** `validateResponse`: non-objects are rejected; missing or ill-typed fields
      default to no results, page 1 and zero totals. */
  function ValidateResponse(resp: Response): (r: Result)
    ensures r.Invalid? <==> !resp.Body?
    ensures r.Invalid? ==> r.error == ErrorWith(INVALID_RESPONSE)
    ensures resp.Body? ==>
      && r.value.results == (if resp.results.Items? then resp.results.films else [])
      && r.value.page == OrDefault(resp.page, 1)
      && r.value.totalPages == OrDefault(resp.totalPages, 0)
      && r.value.totalResults == OrDefault(resp.totalResults, 0)
  {
    match resp
    case Body(res, pg, tp, tr) =>
      Valid(Validated(if res.Items? then res.films else [], OrDefault(pg, 1), OrDefault(tp, 0), OrDefault(tr, 0)))
    case _ => Invalid(ErrorWith(INVALID_RESPONSE))
  }

  datatype Result = Valid(value: Validated) | Invalid(error: Thrown)

  /** `err instanceof Error ? err.message : 'Erro desconhecido ao carregar filmes'` */
  function FailureMessage(e: Thrown): string
  {
    if e.ErrorWith? then e.message else UNKNOWN_FAILURE
  }

  /** `fetchMovies(p)`: bumps the counter and requests the validated page. */
  function FetchMovies(s: State, p: JsVal): (r: Step<State>)
    ensures r.fetch == Some(Request(s.gen + 1, "", ValidatePage(p)))
    ensures r.state == State(s.list.(loading := true, error := None), s.gen + 1)
  {
    var ticket := s.gen + 1;
    Step(State(s.list.(loading := true, error := None), ticket), Some(Request(ticket, "", ValidatePage(p))))
  }

  /** Rejection: only the error is recorded, the listing shown stays. */
  function Fail(s: State, req: Request, e: Thrown): (r: State)
    ensures req.ticket != s.gen ==> r == s
    ensures req.ticket == s.gen ==>
      r == s.(list := s.list.(error := Some(ErrorWith(FailureMessage(e))), loading := false))
  {
    if req.ticket != s.gen then s
    else s.(list := s.list.(error := Some(ErrorWith(FailureMessage(e))), loading := false))
  }

  /** Completion: a valid response replaces results and totals and sets the
      page to the one requested, never the one the server reports. */
  function Resolve(s: State, req: Request, resp: Response): (r: State)
    ensures req.ticket != s.gen ==> r == s
    ensures req.ticket == s.gen && !resp.Body? ==> r == Fail(s, req, ErrorWith(INVALID_RESPONSE))
    ensures req.ticket == s.gen && resp.Body? ==>
      && r.gen == s.gen
      && r.list.page == req.page
      && r.list.results == ValidateResponse(resp).value.results
      && r.list.totalPages == ValidateResponse(resp).value.totalPages
      && r.list.totalResults == ValidateResponse(resp).value.totalResults
      && !r.list.loading && r.list.error == s.list.error
  {
    if req.ticket != s.gen then s
    else
      match ValidateResponse(resp)
      case Invalid(e) => Fail(s, req, e)
      case Valid(v) =>
        s.(list := s.list.(results := v.results, totalPages := v.totalPages,
                           totalResults := v.totalResults, page := req.page, loading := false))
  }

  /** `goToPage(p)`: no request when the validated page is the current one. */
  function GoToPage(s: State, p: JsVal): (r: Step<State>)
    ensures ValidatePage(p) == s.list.page ==> r == Step(s, None)
    ensures ValidatePage(p) != s.list.page ==> r == FetchMovies(s, Num(ValidatePage(p)))
  {
    var v := ValidatePage(p);
    if v != s.list.page then FetchMovies(s, Num(v)) else Step(s, None)
  }

  predicate CanGoNext(s: State)
  {
    s.list.page < s.list.totalPages && !s.list.loading
  }

  predicate CanGoPrev(s: State)
  {
    s.list.page > 1 && !s.list.loading
  }

  predicate HasResults(s: State) { |s.list.results| > 0 }
  predicate HasError(s: State) { s.list.error.Some? }

  predicate IsEmpty(s: State)
  {
    !s.list.loading && !HasError(s) && !HasResults(s)
  }

  function NextPage(s: State): (r: Step<State>)
    ensures !CanGoNext(s) ==> r == Step(s, None)
    ensures CanGoNext(s) ==> r == GoToPage(s, Num(s.list.page + 1))
  {
    if CanGoNext(s) then GoToPage(s, Num(s.list.page + 1)) else Step(s, None)
  }

  function PrevPage(s: State): (r: Step<State>)
    ensures !CanGoPrev(s) ==> r == Step(s, None)
    ensures CanGoPrev(s) ==> r == GoToPage(s, Num(s.list.page - 1))
  {
    if CanGoPrev(s) then GoToPage(s, Num(s.list.page - 1)) else Step(s, None)
  }

  function Reset(s: State): (r: State)
    ensures r.gen == s.gen + 1 && r.list == Fresh(1)
  {
    State(Fresh(1), s.gen + 1)
  }

  // ---------------------------------------------------------------------------
  // Properties

  /** While a request is loading, neither `nextPage` nor `prevPage` starts another. */
  lemma NoNavigationWhileLoading(s: State)
    requires s.list.loading
    ensures NextPage(s) == Step(s, None) && PrevPage(s) == Step(s, None)
  {
  }

  /** `nextPage` on an idle controller below the last page requests exactly the following page. */
  lemma NextPageRequestsFollowingPage(s: State)
    requires !s.list.loading && 1 <= s.list.page < s.list.totalPages
    ensures NextPage(s).fetch == Some(Request(s.gen + 1, "", s.list.page + 1))
  {
  }

  /** Only numbers are pages: the string "3" is page 1 here, whereas the search
      controller coerces it to page 3. */
  lemma NoStringCoercion()
    ensures ValidatePage(Str("3")) == 1
  {
  }

  /** Once a fetch completes, the empty screen shows exactly when the server
      answered with an object without results, and the error screen exactly
      when it answered with anything else (the results shown before then
      stay on screen); while the fetch runs, neither. */
  lemma {:induction false} EmptyExactlyForEmptyAnswer(s: State, p: JsVal, resp: Response)
    ensures !IsEmpty(FetchMovies(s, p).state) && !HasError(FetchMovies(s, p).state)
    ensures
      var started := FetchMovies(s, p);
      var done := Resolve(started.state, started.fetch.value, resp);
      && (IsEmpty(done) <==> resp.Body? && ValidateResponse(resp).value.results == [])
      && (HasError(done) <==> !resp.Body?)
      && (resp.Body? ==> (HasResults(done) <==> ValidateResponse(resp).value.results != []))
  {
    var started := FetchMovies(s, p);
    var req := started.fetch.value;
    assert req.ticket == started.state.gen && started.state.list.error.None?;
    var done := Resolve(started.state, req, resp);
    if resp.Body? {
      assert done.list.error.None? && !done.list.loading;
      assert done.list.results == ValidateResponse(resp).value.results;
    } else {
      assert done == Fail(started.state, req, ErrorWith(INVALID_RESPONSE));
      assert HasError(done);
    }
  }

  /** A failed fetch is never shown as empty: the error screen takes its place. */
  lemma {:induction false} FailureIsNotEmpty(s: State, p: JsVal, e: Thrown)
    ensures
      var started := FetchMovies(s, p);
      HasError(Fail(started.state, started.fetch.value, e))
      && !IsEmpty(Fail(started.state, started.fetch.value, e))
  {
    var started := FetchMovies(s, p);
    assert started.fetch.value.ticket == started.state.gen;
  }

  /** `canGoNext` and `canGoPrev` hold exactly when `nextPage` and `prevPage`
      would start a request. */
  lemma {:induction false} NavigationFlagsMatchRequests(s: State)
    ensures CanGoNext(s) <==> NextPage(s).fetch.Some?
    ensures CanGoPrev(s) <==> PrevPage(s).fetch.Some?
  {
    if CanGoNext(s) {
      assert ValidatePage(Num(s.list.page + 1)) != s.list.page;
    }
    if CanGoPrev(s) {
      assert ValidatePage(Num(s.list.page - 1)) == s.list.page - 1;
    }
  }

  datatype Event =
    | Fetch(p: JsVal)
    | GoTo(p: JsVal)
    | Next
    | Prev
    | ResetAll
    | Resolved(req: Request, resp: Response)
    | Rejected(req: Request, e: Thrown)

  function Apply(s: State, ev: Event): State
  {
    match ev
    case Fetch(p) => FetchMovies(s, p).state
    case GoTo(p) => GoToPage(s, p).state
    case Next => NextPage(s).state
    case Prev => PrevPage(s).state
    case ResetAll => Reset(s)
    case Resolved(req, resp) => Resolve(s, req, resp)
    case Rejected(req, e) => Fail(s, req, e)
  }

  function Run(s: State, evs: seq<Event>): State
    decreases |evs|
  {
    if evs == [] then s else Run(Apply(s, evs[0]), evs[1..])
  }

  /** The page shown stays at least 1 whatever happens, provided it started so:
      the page written on success is always a validated request page. */
  lemma {:induction false} PageStaysPositive(s: State, evs: seq<Event>)
    requires s.list.page >= 1
    requires forall i :: 0 <= i < |evs| && evs[i].Resolved? ==> evs[i].req.page >= 1
    ensures Run(s, evs).list.page >= 1
    decreases |evs|
  {
    if evs != [] {
      var t := Apply(s, evs[0]);
      assert t.list.page >= 1 by {
        match evs[0]
        case GoTo(p) => {}
        case Next => {}
        case Prev => {}
        case _ => {}
      }
      assert forall i :: 0 <= i < |evs[1..]| && evs[1..][i].Resolved? ==> evs[1..][i].req.page >= 1 by {
        forall i | 0 <= i < |evs[1..]| && evs[1..][i].Resolved?
          ensures evs[1..][i].req.page >= 1
        {
          assert evs[1..][i] == evs[i + 1];
        }
      }
      PageStaysPositive(t, evs[1..]);
    }
  }

  /** A step bumps the request counter by at most one: navigation that does
      not move and every completion leave it, `reset` bumps it. */
  lemma ApplyKeepsGen(s: State, ev: Event)
    ensures s.gen <= Apply(s, ev).gen <= s.gen + 1
    ensures ev.Resolved? || ev.Rejected? ==> Apply(s, ev).gen == s.gen
    ensures ev.Fetch? || ev.ResetAll? ==> Apply(s, ev).gen == s.gen + 1
  {
    match ev
    case Fetch(p) =>
    case GoTo(p) =>
    case Next =>
    case Prev =>
    case ResetAll =>
    case Resolved(req, resp) =>
    case Rejected(req, e) =>
  }

  /** The request counter never goes back. */
  lemma {:induction false} CounterMonotone(s: State, evs: seq<Event>)
    ensures Run(s, evs).gen >= s.gen
    decreases |evs|
  {
    if evs != [] {
      ApplyKeepsGen(s, evs[0]);
      CounterMonotone(Apply(s, evs[0]), evs[1..]);
    }
  }

  /** Completions of superseded requests are ignored entirely, including `loading`. */
  lemma SupersededRequestIgnored(s: State, req: Request, evs: seq<Event>, resp: Response, e: Thrown)
    requires req.ticket < s.gen
    ensures Resolve(Run(s, evs), req, resp) == Run(s, evs)
    ensures Fail(Run(s, evs), req, e) == Run(s, evs)
  {
    CounterMonotone(s, evs);
  }
}
