/** `useMovieSearch`: a search controller whose request counter discards
    responses that arrive after a newer search (or a reset) has started. */
module MovieSearch {
  import opened Js
  import opened Films
  import opened Paging

  const INVALID_RESPONSE := "Resposta inválida do servidor"
  const INVALID_RESULTS := "Formato de resultados inválido"
  const SEARCH_FAILED := "Erro ao buscar filmes"

  /** `query` is the last query whose results were applied; `gen` is `requestRef`. */
  datatype State = State(query: string, list: Listing, gen: nat)

  function Init(query: string, page: int): State
  {
    State(query, Fresh(page), 0)
  }

  /** `Math.max(1, Math.floor(p) || 1)`: 0 and NaN fall back to page 1. */
  function TargetPage(p: JsVal): (t: int)
    ensures t >= 1
    ensures ToNumber(p).Num? && ToNumber(p).n >= 1 ==> t == ToNumber(p).n
    ensures ToNumber(p).NaN? || ToNumber(p).n < 1 ==> t == 1
  {
    var x := ToNumber(p);
    if x.Num? && x.n > 1 then x.n else 1
  }

  /** `err?.message || 'Erro ao buscar filmes'` */
  function FailureMessage(e: Thrown): (m: string)
    ensures m != ""
    ensures e.ErrorWith? && e.message != "" ==> m == e.message
  {
    if e.ErrorWith? && e.message != "" then e.message else SEARCH_FAILED
  }

  /** The catch branch of a current request: error set, results and totals cleared. */
  function Failed(s: State, e: Thrown): State
  {
    s.(list := s.list.(error := Some(ErrorWith(FailureMessage(e))),
                       results := [], totalPages := 0, totalResults := 0, loading := false))
  }

  /** `search(q, p)`. A blank query clears the listing without a request and
      without touching the counter; otherwise the counter is bumped and the
      trimmed query is requested at the target page. */
  function Search(s: State, q: Option<string>, p: JsVal): (r: Step<State>)
    ensures TrimOrEmpty(q) == "" ==>
      r.fetch.None? && r.state == s.(list := Fresh(1))
    ensures TrimOrEmpty(q) != "" ==>
      && r.fetch == Some(Request(s.gen + 1, TrimOrEmpty(q), TargetPage(p)))
      && r.state.gen == s.gen + 1
      && r.state.list.loading && r.state.list.error.None?
      && r.state.query == s.query
      && r.state.list.page == s.list.page && r.state.list.results == s.list.results
      && r.state.list.totalPages == s.list.totalPages
      && r.state.list.totalResults == s.list.totalResults
  {
    var trimmed := TrimOrEmpty(q);
    if trimmed == "" then
      Step(s.(list := s.list.(results := [], totalPages := 0, totalResults := 0,
                              page := 1, error := None, loading := false)), None)
    else
      var ticket := s.gen + 1;
      Step(s.(gen := ticket, list := s.list.(loading := true, error := None)),
           Some(Request(ticket, trimmed, TargetPage(p))))
  }

  /** Completion of request `req` with response `resp`. */
  function Resolve(s: State, req: Request, resp: Response): (r: State)
    ensures req.ticket != s.gen ==> r == s
    ensures req.ticket == s.gen && (resp.Nullish? || resp.Primitive?) ==>
      r == Failed(s, ErrorWith(INVALID_RESPONSE))
    ensures req.ticket == s.gen && resp.Body? && resp.results.Falsy? ==>
      r == Failed(s, ErrorWith(INVALID_RESULTS))
    ensures req.ticket == s.gen && resp.Body? && !resp.results.Falsy? ==>
      && r.gen == s.gen
      && r.query == req.query
      && r.list.results == (if resp.results.Items? then resp.results.films else [])
      && r.list.totalPages == Max(0, OrDefault(resp.totalPages, 0))
      && r.list.totalResults == Max(0, OrDefault(resp.totalResults, 0))
      && r.list.page == OrDefault(resp.page, req.page)
      && !r.list.loading && r.list.error == s.list.error
  {
    if req.ticket != s.gen then s
    else
      match resp
      case Nullish => Failed(s, ErrorWith(INVALID_RESPONSE))
      case Primitive => Failed(s, ErrorWith(INVALID_RESPONSE))
      case Body(res, pg, tp, tr) =>
        if res.Falsy? then Failed(s, ErrorWith(INVALID_RESULTS))
        else
          s.(query := req.query,
             list := s.list.(results := if res.Items? then res.films else [],
                             totalPages := Max(0, OrDefault(tp, 0)),
                             totalResults := Max(0, OrDefault(tr, 0)),
                             page := OrDefault(pg, req.page),
                             loading := false))
  }

  /** Rejection of request `req` with thrown value `e`. */
  function Fail(s: State, req: Request, e: Thrown): (r: State)
    ensures req.ticket != s.gen ==> r == s
    ensures req.ticket == s.gen ==>
      && r.gen == s.gen && r.query == s.query
      && r.list.error == Some(ErrorWith(FailureMessage(e)))
      && r.list.results == [] && r.list.totalPages == 0 && r.list.totalResults == 0
      && r.list.page == s.list.page && !r.list.loading
  {
    if req.ticket != s.gen then s else Failed(s, e)
  }

  /** `Math.max(1, Math.floor(p))`: NaN stays NaN. */
  function ClampedTarget(p: JsVal): (t: JsVal)
    ensures t.NaN? <==> ToNumber(p).NaN?
    ensures t.Num? ==> t.n >= 1
  {
    var x := ToNumber(p);
    if x.Num? && x.n < 1 then Num(1) else x
  }

  /** `goToPage(p)`: re-runs the stored query at the clamped page unless that is
      the current page or the stored query is blank. */
  function GoToPage(s: State, p: JsVal): (r: Step<State>)
    ensures ClampedTarget(p) == Num(s.list.page) || Blank(s.query) ==> r == Step(s, None)
    ensures ClampedTarget(p) != Num(s.list.page) && !Blank(s.query) ==>
      r == Search(s, Some(s.query), ClampedTarget(p))
  {
    var target := ClampedTarget(p);
    if target != Num(s.list.page) && !Blank(s.query) then Search(s, Some(s.query), target)
    else Step(s, None)
  }

  predicate CanGoNext(s: State)
  {
    s.list.page < s.list.totalPages
  }

  predicate CanGoPrev(s: State)
  {
    s.list.page > 1
  }

  function NextPage(s: State): (r: Step<State>)
    ensures !CanGoNext(s) ==> r == Step(s, None)
    ensures CanGoNext(s) ==> r == GoToPage(s, Num(s.list.page + 1))
  {
    if CanGoNext(s) then GoToPage(s, Num(s.list.page + 1)) else Step(s, None)
  }

  function PrevPage(s: State): (r: Step<State>)
    ensures !CanGoPrev(s) ==> r == Step(s, None)
    ensures CanGoPrev(s) ==> r == GoToPage(s, Num(s.list.page - 1))
  {
    if CanGoPrev(s) then GoToPage(s, Num(s.list.page - 1)) else Step(s, None)
  }

  /** `reset()`: bumps the counter so that any request in flight is ignored,
      and restores the initial listing with an empty query. */
  function Reset(s: State): (r: State)
    ensures r.gen == s.gen + 1
    ensures r.query == "" && r.list == Fresh(1)
  {
    State("", Fresh(1), s.gen + 1)
  }

  /** `setQuery(q)`, the exported state setter: the text is stored as typed,
      nothing is requested, and the listing and counter stay. */
  function SetQuery(s: State, q: string): (r: State)
    ensures r.query == q && r.list == s.list && r.gen == s.gen
  {
    s.(query := q)
  }

  predicate HasResults(s: State) { |s.list.results| > 0 }
  predicate HasError(s: State) { s.list.error.Some? }
  predicate IsEmptyQuery(s: State) { Blank(s.query) }

  // ---------------------------------------------------------------------------
  // Properties

  /** Everything the UI can do to the controller, including completions. */
  datatype Event =
    | SearchFor(q: Option<string>, p: JsVal)
    | Typed(text: string)
    | GoTo(p: JsVal)
    | Next
    | Prev
    | ResetAll
    | Resolved(req: Request, resp: Response)
    | Rejected(req: Request, e: Thrown)

  function Apply(s: State, ev: Event): State
  {
    match ev
    case SearchFor(q, p) => Search(s, q, p).state
    case Typed(q) => SetQuery(s, q)
    case GoTo(p) => GoToPage(s, p).state
    case Next => NextPage(s).state
    case Prev => PrevPage(s).state
    case ResetAll => Reset(s)
    case Resolved(req, resp) => Resolve(s, req, resp)
    case Rejected(req, e) => Fail(s, req, e)
  }

  function Run(s: State, evs: seq<Event>): State
    decreases |evs|
  {
    if evs == [] then s else Run(Apply(s, evs[0]), evs[1..])
  }

  /** A step bumps the request counter by at most one: completions leave it,
      `reset` bumps it. */
  lemma ApplyKeepsGen(s: State, ev: Event)
    ensures s.gen <= Apply(s, ev).gen <= s.gen + 1
    ensures ev.Resolved? || ev.Rejected? ==> Apply(s, ev).gen == s.gen
    ensures ev.ResetAll? ==> Apply(s, ev).gen == s.gen + 1
  {
    match ev
    case SearchFor(q, p) =>
    case Typed(q) =>
    case GoTo(p) =>
    case Next =>
    case Prev =>
    case ResetAll =>
    case Resolved(req, resp) =>
    case Rejected(req, e) =>
  }

  /** The request counter never goes back. */
  lemma {:induction false} CounterMonotone(s: State, evs: seq<Event>)
    ensures Run(s, evs).gen >= s.gen
    decreases |evs|
  {
    if evs != [] {
      ApplyKeepsGen(s, evs[0]);
      CounterMonotone(Apply(s, evs[0]), evs[1..]);
    }
  }

  /** A request superseded by a later start or reset stays superseded: whatever
      happens meanwhile, its completion changes nothing. */
  lemma SupersededRequestIgnored(s: State, req: Request, evs: seq<Event>, resp: Response, e: Thrown)
    requires req.ticket < s.gen
    ensures Resolve(Run(s, evs), req, resp) == Run(s, evs)
    ensures Fail(Run(s, evs), req, e) == Run(s, evs)
  {
    CounterMonotone(s, evs);
  }

  /** Searching "a" then "b": if "b" answers first and "a" later, the state
      shows "b"'s results. */
  lemma LatestSearchWins(s: State, a: string, b: string, ra: Response, rb: seq<Film>)
    requires Trim(a) != "" && Trim(b) != ""
    ensures
      var first := Search(s, Some(a), Num(1));
      var second := Search(first.state, Some(b), Num(1));
      var afterB := Resolve(second.state, second.fetch.value, Body(Items(rb), None, None, None));
      var afterA := Resolve(afterB, first.fetch.value, ra);
      afterA == afterB && afterA.list.results == rb && afterA.query == Trim(b)
  {
  }

  /** A blank search sends nothing and leaves the counter where it was. */
  lemma {:induction false} BlankSearchKeepsCounter(s: State, blank: string)
    requires Trim(blank) == ""
    ensures Search(s, Some(blank), Num(1)).fetch.None?
    ensures Search(s, Some(blank), Num(1)).state.gen == s.gen
  {
    assert TrimOrEmpty(Some(blank)) == "";
  }

  /** A blank search does not bump the counter, so unlike `reset` it does not
      cancel a request already in flight: that response is still applied. */
  lemma {:induction false} BlankSearchKeepsInFlight(s: State, q: string, blank: string, films: seq<Film>)
    requires Trim(q) != "" && Trim(blank) == ""
    ensures
      var started := Search(s, Some(q), Num(1));
      var cleared := Search(started.state, Some(blank), Num(1));
      var done := Resolve(cleared.state, started.fetch.value, Body(Items(films), None, None, None));
      cleared.fetch.None? && done.list.results == films && done.query == Trim(q)
  {
    var started := Search(s, Some(q), Num(1));
    assert started.fetch == Some(Request(s.gen + 1, Trim(q), TargetPage(Num(1)))) by {
      assert TrimOrEmpty(Some(q)) == Trim(q);
    }
    var req := started.fetch.value;
    var cleared := Search(started.state, Some(blank), Num(1));
    BlankSearchKeepsCounter(started.state, blank);
    assert cleared.state.gen == req.ticket;
    var done := Resolve(cleared.state, req, Body(Items(films), None, None, None));
    assert done.query == req.query && done.list.results == films;
  }

  /** `reset` cancels the request in flight. */
  lemma ResetCancelsInFlight(s: State, q: string, resp: Response)
    requires Trim(q) != ""
    ensures
      var started := Search(s, Some(q), Num(1));
      var r := Reset(started.state);
      Resolve(r, started.fetch.value, resp) == r
  {
  }

  /** The same-page guard of `goToPage` compares against NaN, which is never
      equal to anything: `goToPage(NaN)` on page 1 still requests page 1. */
  lemma GoToNaNRefetchesFirstPage(s: State)
    requires s.list.page == 1 && !Blank(s.query)
    ensures GoToPage(s, NaN).fetch == Some(Request(s.gen + 1, Trim(s.query), 1))
  {
  }

  /** The computed flags after each kind of step: a current rejection shows
      the error and no results; `reset` shows an empty query and neither; a
      blank search clears both; typing changes only `isEmptyQuery`, which
      holds exactly for blank text, and while it holds paging sends nothing. */
  lemma ComputedFlags(s: State, req: Request, e: Thrown, q: string, blank: Option<string>, p: JsVal)
    requires BlankOrMissing(blank)
    ensures req.ticket == s.gen ==> HasError(Fail(s, req, e)) && !HasResults(Fail(s, req, e))
    ensures IsEmptyQuery(Reset(s)) && !HasResults(Reset(s)) && !HasError(Reset(s))
    ensures !HasResults(Search(s, blank, p).state) && !HasError(Search(s, blank, p).state)
    ensures IsEmptyQuery(SetQuery(s, q)) <==> Blank(q)
    ensures HasResults(SetQuery(s, q)) == HasResults(s) && HasError(SetQuery(s, q)) == HasError(s)
    ensures IsEmptyQuery(s) ==> GoToPage(s, p).fetch.None?
  {
  }

  /** A query typed with `setQuery` is the one paging then searches, trimmed. */
  lemma TypedQueryIsPaged(s: State, q: string, p: JsVal)
    requires !Blank(q) && ClampedTarget(p) != Num(s.list.page)
    ensures GoToPage(SetQuery(s, q), p).fetch.Some?
    ensures GoToPage(SetQuery(s, q), p).fetch.value.query == Trim(q)
    ensures GoToPage(SetQuery(s, q), p).fetch.value.ticket == s.gen + 1
  {
  }

  /** Totals are never negative and a loading controller shows no error. */
  ghost predicate Valid(s: State)
  {
    s.list.totalPages >= 0 && s.list.totalResults >= 0 && (s.list.loading ==> s.list.error.None?)
  }

  lemma {:induction false} RunPreservesValid(s: State, evs: seq<Event>)
    requires Valid(s)
    ensures Valid(Run(s, evs))
    decreases |evs|
  {
    if evs != [] {
      var t := Apply(s, evs[0]);
      assert Valid(t) by {
        match evs[0]
        case GoTo(p) => {}
        case Next => {}
        case Prev => {}
        case _ => {}
      }
      RunPreservesValid(t, evs[1..]);
    }
  }
}
