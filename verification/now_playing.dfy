/** `useNowPlayingMovies`: a category listing with no page validation, `||`
    fallbacks on the response and unconditional next/previous navigation. */
module NowPlaying {
  import opened Js
  import opened Films
  import opened Paging

  /** `gen` is `requestRef`. */
  datatype State = State(list: Listing, gen: nat)

  function Init(page: int): State
  {
    State(Fresh(page), 0)
  }

  /** `fetchMovies(p)`: bumps the counter and requests page `p` as given. */
  function FetchMovies(s: State, p: int): (r: Step<State>)
    ensures r.fetch == Some(Request(s.gen + 1, "", p))
    ensures r.state == State(s.list.(loading := true, error := None), s.gen + 1)
  {
    var ticket := s.gen + 1;
    Step(State(s.list.(loading := true, error := None), ticket), Some(Request(ticket, "", p)))
  }

  /** Rejection: the thrown value itself becomes the error; the listing stays. */
  function Fail(s: State, req: Request, e: Thrown): (r: State)
    ensures req.ticket != s.gen ==> r == s
    ensures req.ticket == s.gen ==>
      r.gen == s.gen && r.list.error == Some(e) && !r.list.loading
      && r.list.results == s.list.results && r.list.page == s.list.page
      && r.list.totalPages == s.list.totalPages && r.list.totalResults == s.list.totalResults
  {
    if req.ticket != s.gen then s else s.(list := Recorded(s.list, e))
  }

  /** Completion: `results || []`, totals `|| 0`, `page || p`. A null response
      makes the first property read throw, which lands in the failure path. */
  function Resolve(s: State, req: Request, resp: Response): (r: State)
    ensures req.ticket != s.gen ==> r == s
    ensures req.ticket == s.gen && resp.Nullish? ==> r == Fail(s, req, ErrorWith(NULL_READ))
    ensures req.ticket == s.gen && !resp.Nullish? ==>
      r.gen == s.gen && r.list == Lenient(s.list, req.page, resp)
  {
    if req.ticket != s.gen then s
    else if resp.Nullish? then Fail(s, req, ErrorWith(NULL_READ))
    else s.(list := Lenient(s.list, req.page, resp))
  }

  /** `goToPage(p)`: always fetches, even the page already shown, and never
      a page below 1. The listing shown stays until the answer arrives. */
  function GoToPage(s: State, p: int): (r: Step<State>)
    ensures r.fetch.Some? && r.fetch.value.ticket == s.gen + 1 && r.fetch.value.query == ""
    ensures r.fetch.value.page >= 1 && (p >= 1 ==> r.fetch.value.page == p)
    ensures r.fetch.value.page == Max(1, p)
    ensures r.state.gen == s.gen + 1 && r.state.list.loading && r.state.list.error.None?
    ensures r.state.list.results == s.list.results && r.state.list.page == s.list.page
    ensures r.state.list.totalPages == s.list.totalPages
    ensures r.state.list.totalResults == s.list.totalResults
  {
    FetchMovies(s, if p < 1 then 1 else p)
  }

  /** `nextPage()`: requests the page after the one shown, with no upper bound. */
  function NextPage(s: State): (r: Step<State>)
    ensures r.fetch == Some(Request(s.gen + 1, "", Max(1, s.list.page + 1)))
    ensures s.list.page >= 0 ==> r.fetch.value.page == s.list.page + 1
    ensures r.state.gen == s.gen + 1 && r.state.list.loading
  {
    GoToPage(s, s.list.page + 1)
  }

  /** `prevPage()`: requests the page before the one shown, but never below 1. */
  function PrevPage(s: State): (r: Step<State>)
    ensures r.fetch == Some(Request(s.gen + 1, "", Max(1, s.list.page - 1)))
    ensures s.list.page >= 2 ==> r.fetch.value.page == s.list.page - 1
    ensures r.state.gen == s.gen + 1 && r.state.list.loading
  {
    GoToPage(s, s.list.page - 1)
  }

  function Reset(s: State): (r: State)
    ensures r.gen == s.gen + 1 && r.list == Fresh(1)
  {
    State(Fresh(1), s.gen + 1)
  }

  // ---------------------------------------------------------------------------
  // Properties

  /** Navigation has no bounds: `prevPage` on page 1 requests page 1 again,
      and `nextPage` on the last page requests the page after it. */
  lemma UnboundedNavigation(s: State)
    requires s.list.page == 1
    ensures PrevPage(s).fetch == Some(Request(s.gen + 1, "", 1))
    ensures s.list.totalPages == 1 ==> NextPage(s).fetch == Some(Request(s.gen + 1, "", 2))
  {
  }

  /** A successful page that omits its page number (or reports 0) shows the
      page that was requested; one that reports a page shows that. */
  lemma PageFromServerOrRequest(s: State, req: Request, films: seq<Film>, reported: Option<int>)
    requires req.ticket == s.gen
    ensures Resolve(s, req, Body(Items(films), reported, None, None)).list.page
         == (if reported.Some? && reported.value != 0 then reported.value else req.page)
  {
  }

  datatype Event =
    | Fetch(p: int)
    | GoTo(p: int)
    | Next
    | Prev
    | ResetAll
    | Resolved(req: Request, resp: Response)
    | Rejected(req: Request, e: Thrown)

  function Apply(s: State, ev: Event): State
  {
    match ev
    case Fetch(p) => FetchMovies(s, p).state
    case GoTo(p) => GoToPage(s, p).state
    case Next => NextPage(s).state
    case Prev => PrevPage(s).state
    case ResetAll => Reset(s)
    case Resolved(req, resp) => Resolve(s, req, resp)
    case Rejected(req, e) => Fail(s, req, e)
  }

  function Run(s: State, evs: seq<Event>): State
    decreases |evs|
  {
    if evs == [] then s else Run(Apply(s, evs[0]), evs[1..])
  }

  /** Every user action bumps the request counter by one; completions leave it. */
  lemma ApplyKeepsGen(s: State, ev: Event)
    ensures ev.Resolved? || ev.Rejected? ==> Apply(s, ev).gen == s.gen
    ensures !(ev.Resolved? || ev.Rejected?) ==> Apply(s, ev).gen == s.gen + 1
  {
    match ev
    case Fetch(p) =>
    case GoTo(p) =>
    case Next =>
    case Prev =>
    case ResetAll =>
    case Resolved(req, resp) =>
    case Rejected(req, e) =>
  }

  /** The request counter never goes back. */
  lemma {:induction false} CounterMonotone(s: State, evs: seq<Event>)
    ensures Run(s, evs).gen >= s.gen
    decreases |evs|
  {
    if evs != [] {
      ApplyKeepsGen(s, evs[0]);
      CounterMonotone(Apply(s, evs[0]), evs[1..]);
    }
  }

  lemma SupersededRequestIgnored(s: State, req: Request, evs: seq<Event>, resp: Response, e: Thrown)
    requires req.ticket < s.gen
    ensures Resolve(Run(s, evs), req, resp) == Run(s, evs)
    ensures Fail(Run(s, evs), req, e) == Run(s, evs)
  {
    CounterMonotone(s, evs);
  }
}
