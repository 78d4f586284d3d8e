/** `useTmdbSearch`: the search controller `App` uses. It stores the query as
    typed, refuses to paginate a blank query, and otherwise navigates without
    bounds. */
module TmdbSearch {
  import opened Js
  import opened Films
  import opened Paging

  /** `query` may be null or undefined when `search` was called with one;
      `gen` is `requestRef`. */
  datatype State = State(query: Option<string>, list: Listing, gen: nat)

  function Init(query: Option<string>, page: int): State
  {
    State(query, Fresh(page), 0)
  }

  /** `fetchPage(q, p)`: a blank query clears the listing without a request and
      without touching the counter; otherwise the trimmed query is requested. */
  function FetchPage(s: State, q: Option<string>, p: int): (r: Step<State>)
    ensures TrimOrEmpty(q) == "" ==> r == Step(s.(list := Fresh(1)), None)
    ensures TrimOrEmpty(q) != "" ==>
      r.fetch == Some(Request(s.gen + 1, TrimOrEmpty(q), p))
      && r.state == s.(list := s.list.(loading := true, error := None), gen := s.gen + 1)
  {
    var trimmed := TrimOrEmpty(q);
    if trimmed == "" then
      Step(s.(list := s.list.(results := [], totalPages := 0, totalResults := 0,
                              page := 1, error := None, loading := false)), None)
    else
      var ticket := s.gen + 1;
      Step(s.(list := s.list.(loading := true, error := None), gen := ticket),
           Some(Request(ticket, trimmed, p)))
  }

  /** `search(q)`: stores `q` verbatim, blank or not, then fetches page 1. A
      blank or missing query sends nothing and leaves the counter, so an answer
      already in flight still lands. */
  function Search(s: State, q: Option<string>): (r: Step<State>)
    ensures r.state.query == q
    ensures !BlankOrMissing(q) ==>
      && r.fetch == Some(Request(s.gen + 1, Trim(q.value), 1))
      && r.state == s.(query := q, list := s.list.(loading := true, error := None), gen := s.gen + 1)
    ensures BlankOrMissing(q) ==>
      r.fetch.None? && r.state == s.(query := q, list := Fresh(1))
  {
    assert BlankOrMissing(q) <==> TrimOrEmpty(q) == "";
    assert !BlankOrMissing(q) ==> TrimOrEmpty(q) == Trim(q.value);
    FetchPage(s.(query := q), q, 1)
  }

  /** `goToPage(p)`: nothing happens while the stored query is blank;
      otherwise the trimmed stored query is requested at a page of at least 1,
      even the page already shown. */
  function GoToPage(s: State, p: int): (r: Step<State>)
    ensures BlankOrMissing(s.query) ==> r == Step(s, None)
    ensures !BlankOrMissing(s.query) ==>
      && r.fetch.Some? && r.fetch.value.ticket == s.gen + 1
      && r.fetch.value.query == Trim(s.query.value)
      && r.fetch.value.page >= 1 && (p >= 1 ==> r.fetch.value.page == p)
      && r.fetch.value.page == Max(1, p)
      && r.state.gen == s.gen + 1 && r.state.query == s.query
      && r.state.list.loading && r.state.list.results == s.list.results
  {
    if BlankOrMissing(s.query) then Step(s, None)
    else FetchPage(s, s.query, if p < 1 then 1 else p)
  }

  /** `nextPage()`: the page after the one shown, with no upper bound. */
  function NextPage(s: State): (r: Step<State>)
    ensures BlankOrMissing(s.query) ==> r == Step(s, None)
    ensures !BlankOrMissing(s.query) ==>
      r.fetch == Some(Request(s.gen + 1, Trim(s.query.value), Max(1, s.list.page + 1)))
  {
    GoToPage(s, s.list.page + 1)
  }

  /** `prevPage()`: the page before the one shown, but never below 1. */
  function PrevPage(s: State): (r: Step<State>)
    ensures BlankOrMissing(s.query) ==> r == Step(s, None)
    ensures !BlankOrMissing(s.query) ==>
      r.fetch == Some(Request(s.gen + 1, Trim(s.query.value), Max(1, s.list.page - 1)))
  {
    GoToPage(s, s.list.page - 1)
  }

  function Fail(s: State, req: Request, e: Thrown): (r: State)
    ensures req.ticket != s.gen ==> r == s
    ensures req.ticket == s.gen ==>
      r.gen == s.gen && r.query == s.query && r.list.error == Some(e) && !r.list.loading
      && r.list.results == s.list.results && r.list.page == s.list.page
  {
    if req.ticket != s.gen then s else s.(list := Recorded(s.list, e))
  }

  function Resolve(s: State, req: Request, resp: Response): (r: State)
    ensures req.ticket != s.gen ==> r == s
    ensures req.ticket == s.gen && resp.Nullish? ==> r == Fail(s, req, ErrorWith(NULL_READ))
    ensures req.ticket == s.gen && !resp.Nullish? ==>
      r.gen == s.gen && r.query == s.query && r.list == Lenient(s.list, req.page, resp)
  {
    if req.ticket != s.gen then s
    else if resp.Nullish? then Fail(s, req, ErrorWith(NULL_READ))
    else s.(list := Lenient(s.list, req.page, resp))
  }

  function Reset(s: State): (r: State)
    ensures r.gen == s.gen + 1 && r.query == Some("") && r.list == Fresh(1)
  {
    State(Some(""), Fresh(1), s.gen + 1)
  }

  // ---------------------------------------------------------------------------
  // Properties

  /** A blank search is stored as typed but issues nothing, and afterwards no
      page navigation issues anything either. */
  lemma BlankSearchDisablesPaging(s: State, q: string, p: int)
    requires Blank(q)
    ensures Search(s, Some(q)).fetch.None?
    ensures Search(s, Some(q)).state.query == Some(q)
    ensures GoToPage(Search(s, Some(q)).state, p).fetch.None?
  {
  }

  /** `prevPage` from page 1 with a query requests page 1 again. */
  lemma PrevFromFirstPageRefetches(s: State)
    requires s.list.page == 1 && !BlankOrMissing(s.query)
    ensures PrevPage(s).fetch == Some(Request(s.gen + 1, Trim(s.query.value), 1))
  {
  }

  datatype Event =
    | SearchFor(q: Option<string>)
    | FetchFor(q: Option<string>, p: int)
    | GoTo(p: int)
    | Next
    | Prev
    | ResetAll
    | Resolved(req: Request, resp: Response)
    | Rejected(req: Request, e: Thrown)

  function Apply(s: State, ev: Event): State
  {
    match ev
    case SearchFor(q) => Search(s, q).state
    case FetchFor(q, p) => FetchPage(s, q, p).state
    case GoTo(p) => GoToPage(s, p).state
    case Next => NextPage(s).state
    case Prev => PrevPage(s).state
    case ResetAll => Reset(s)
    case Resolved(req, resp) => Resolve(s, req, resp)
    case Rejected(req, e) => Fail(s, req, e)
  }

  function Run(s: State, evs: seq<Event>): State
    decreases |evs|
  {
    if evs == [] then s else Run(Apply(s, evs[0]), evs[1..])
  }

  /** A step bumps the request counter by at most one: a blank query and
      every completion leave it, a request and `reset` bump it. */
  lemma ApplyKeepsGen(s: State, ev: Event)
    ensures s.gen <= Apply(s, ev).gen <= s.gen + 1
    ensures ev.Resolved? || ev.Rejected? ==> Apply(s, ev).gen == s.gen
    ensures ev.ResetAll? ==> Apply(s, ev).gen == s.gen + 1
  {
    match ev
    case SearchFor(q) =>
    case FetchFor(q, p) =>
    case GoTo(p) =>
    case Next =>
    case Prev =>
    case ResetAll =>
    case Resolved(req, resp) =>
    case Rejected(req, e) =>
  }

  /** The request counter never goes back. */
  lemma {:induction false} CounterMonotone(s: State, evs: seq<Event>)
    ensures Run(s, evs).gen >= s.gen
    decreases |evs|
  {
    if evs != [] {
      ApplyKeepsGen(s, evs[0]);
      CounterMonotone(Apply(s, evs[0]), evs[1..]);
    }
  }

  lemma SupersededRequestIgnored(s: State, req: Request, evs: seq<Event>, resp: Response, e: Thrown)
    requires req.ticket < s.gen
    ensures Resolve(Run(s, evs), req, resp) == Run(s, evs)
    ensures Fail(Run(s, evs), req, e) == Run(s, evs)
  {
    CounterMonotone(s, evs);
  }
}
