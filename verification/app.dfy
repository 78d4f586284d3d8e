/** `App`: the legacy single-screen shell. It keeps favorites as a set of ids,
    loads details into a modal with no guard against overlapping requests, and
    shows previous/next controls for the `useTmdbSearch` listing. */
module App {
  import opened Js
  import opened Films
  import TmdbSearch
  import Tmdb

  // ---------------------------------------------------------------------------
  // Favorites as a set of ids

  /** `handleToggleFavorite(film)`: `Set` membership is by value for the
      primitive ids the catalog uses. */
  function ToggleId(favorites: set<JsVal>, id: JsVal): (r: set<JsVal>)
    ensures id in favorites ==> id !in r
    ensures id !in favorites ==> id in r
    ensures forall x :: x != id ==> (x in r <==> x in favorites)
  {
    if id in favorites then favorites - {id} else favorites + {id}
  }

  /** Toggling the same id twice is the identity. */
  lemma ToggleIdInvolution(favorites: set<JsVal>, id: JsVal)
    ensures ToggleId(ToggleId(favorites, id), id) == favorites
  {
  }

  /** Toggles of different ids commute. */
  lemma ToggleIdCommutes(favorites: set<JsVal>, a: JsVal, b: JsVal)
    ensures ToggleId(ToggleId(favorites, a), b) == ToggleId(ToggleId(favorites, b), a)
  {
  }

  // ---------------------------------------------------------------------------
  // The details modal

  /** `details` is `null` until a response arrives; `error` is what was thrown. */
  datatype Modal = Modal(open: bool, loading: bool, details: JsVal, error: Option<Thrown>)

  const CLOSED := Modal(false, false, Null, None)

  /** The state after `handleDetails` and the id whose details it requested. */
  datatype Opened = Opened(state: Modal, fetch: Option<JsVal>)

  /** `handleDetails(film)` up to its `await`. */
  function HandleDetails(s: Modal, film: Option<Film>): (r: Opened)
    ensures !HasId(film) ==> r == Opened(s, None)
    ensures HasId(film) ==> r == Opened(Modal(true, true, Null, None), Some(film.value.id))
  {
    if !HasId(film) then Opened(s, None)
    else Opened(Modal(true, true, Null, None), Some(film.value.id))
  }

  /** The request `handleDetails` makes: `getMovieDetails(film.id, 'credits')`. */
  function DetailsRequest(env: Tmdb.Env, film: Film): Tmdb.Call
  {
    Tmdb.GetMovieDetails(env, film.id, Str("credits"))
  }

  /** Every film the modal opens for is requested with its credits, at the
      detail URL of its id. */
  lemma DetailsRequestAsksForCredits(env: Tmdb.Env, s: Modal, film: Film)
    requires HandleDetails(s, Some(film)).fetch.Some?
    ensures var r := DetailsRequest(env, film);
      r.Send? && r.url.base == Tmdb.API_ROOT + "/movie/" + ToString(film.id)
      && Tmdb.Lookup(r.url.query, "append_to_response") == Some("credits")
  {
    Tmdb.AppendOnlyWhenGiven(env, film.id, Str("credits"));
  }

  /** `getMovieDetails` resolved with `data`. */
  function Resolved(s: Modal, data: JsVal): (r: Modal)
    ensures r.details == data && !r.loading && r.open == s.open && r.error == s.error
  {
    s.(details := data, loading := false)
  }

  /** `getMovieDetails` rejected with `e`. */
  function Failed(s: Modal, e: Thrown): (r: Modal)
    ensures r.error == Some(e) && !r.loading && r.open == s.open && r.details == s.details
  {
    s.(error := Some(e), loading := false)
  }

  /** `onClose`: only hides the modal. */
  function Close(s: Modal): (r: Modal)
    ensures !r.open && r.loading == s.loading && r.details == s.details && r.error == s.error
  {
    s.(open := false)
  }

  /** Nothing ties a completion to the request that started it: when two films
      are opened in a row and the first answer arrives last, the modal shows
      the first film's details. */
  lemma LateAnswerOverwrites(s: Modal, a: Film, b: Film, da: JsVal, db: JsVal)
    requires Truthy(a.id) && Truthy(b.id)
    ensures
      var first := HandleDetails(s, Some(a));
      var second := HandleDetails(first.state, Some(b));
      var shown := Resolved(Resolved(second.state, db), da);
      second.fetch == Some(b.id) && shown.details == da && shown.open && !shown.loading
  {
  }

  /** Closing does not cancel: a later completion fills the hidden modal, and
      `loading` ends false either way. */
  lemma CompletionAfterClose(s: Modal, film: Film, data: JsVal, e: Thrown)
    requires Truthy(film.id)
    ensures
      var closed := Close(HandleDetails(s, Some(film)).state);
      Resolved(closed, data) == Modal(false, false, data, None)
      && Failed(closed, e) == Modal(false, false, Null, Some(e))
  {
  }

  // ---------------------------------------------------------------------------
  // Pagination controls

  /** `totalPages > 1` */
  predicate ControlsShown(totalPages: int)
  {
    totalPages > 1
  }

  /** `page <= 1` */
  predicate PrevDisabled(page: int)
  {
    page <= 1
  }

  /** `page >= totalPages` */
  predicate NextDisabled(page: int, totalPages: int)
  {
    page >= totalPages
  }

  /** The controls are what keeps the unbounded `prevPage`/`nextPage` of
      `useTmdbSearch` in range: an enabled button requests an adjacent page
      inside 1..totalPages. */
  lemma EnabledControlsStayInRange(s: TmdbSearch.State)
    requires !BlankOrMissing(s.query)
    ensures !PrevDisabled(s.list.page) ==>
      TmdbSearch.PrevPage(s).fetch.Some? && 1 <= TmdbSearch.PrevPage(s).fetch.value.page == s.list.page - 1
    ensures !NextDisabled(s.list.page, s.list.totalPages) && s.list.page >= 1 ==>
      TmdbSearch.NextPage(s).fetch.Some?
      && TmdbSearch.NextPage(s).fetch.value.page == s.list.page + 1 <= s.list.totalPages
  {
  }

  /** Whenever the controls are shown on a page inside 1..totalPages, at least
      one of the two buttons is enabled. */
  lemma SomeControlEnabled(page: int, totalPages: int)
    requires ControlsShown(totalPages) && 1 <= page <= totalPages
    ensures !PrevDisabled(page) || !NextDisabled(page, totalPages)
  {
  }

  // ---------------------------------------------------------------------------
  // Initial demo search

  /** The mount effect: with no query and some TMDB credential configured,
      search for 'matrix' once. */
  function InitialSearch(query: Option<string>, apiKey: Option<string>, token: Option<string>): (r: Option<string>)
    ensures r.Some? <==> !Present(query) && (Present(apiKey) || Present(token))
    ensures r.Some? ==> r.value == "matrix"
  {
    if !Present(query) && (Present(apiKey) || Present(token)) then Some("matrix") else None
  }
}
