# Tunesflix core in Dafny

Tunesflix is a React front end for The Movie Database (TMDB). It has almost no
business logic of its own. It does have a set of small sequential state
machines and pure helpers, and this project models them:

- **Paginated data controllers.** `useMovieSearch`, `useTopRatedMovies`,
  `useNowPlayingMovies` and `useTmdbSearch` each keep a listing (page, results,
  totals, loading, error) and a request counter (`requestRef`). Starting a fetch
  bumps the counter and remembers the new value as the request's ticket. A
  completion is applied only while its ticket still equals the counter. The
  promise is replaced by explicit completion events: `Resolve(state, request,
  response)` and `Fail(state, request, thrown)`. Each operation returns a
  `Step(state, fetch)`, where `fetch` is the request it started, if any.
- **The category/search multiplexer** (`useMovies`). It decides which controller
  is shown. Each action returns the commands it sends to the controllers.
- **Favorites.** There are two versions: the keyed store of `FavoritesContext`
  and the id set of the legacy `App` shell.
- **Detail loaders.** `useMovieDetailsModal`, `useMovieDetails` and the `App`
  modal. None of them guards against stale answers, and the model proves it.
- **Pure helpers:**
  - request construction and error messages in the TMDB client;
  - `deepMerge`, `createConfig`, `getEnv` and `validateConfig`;
  - the route helpers;
  - the view-state classifier and its ARIA mapping;
  - the two navigation dispatch tables;
  - the card's derived fields;
  - the pagination control;
  - the header and category-label choices.

JavaScript values are modelled by `Js.JsVal`, together with truthiness, `||`,
`String(v)`, `Number(s)` and `trim()`. Numbers are integers plus NaN.
Environment variables, HTTP answers and storage contents are parameters.

Modules follow the source files:

- `Js`, `Films` and `Paging` hold shared definitions.
- `MovieSearch`, `TopRated`, `NowPlaying` and `TmdbSearch` are the four
  controllers.
- `Movies` is the multiplexer.
- `Favorites` and `App` hold the two favorites versions; `App` also holds the
  legacy shell's modal and controls.
- `MovieDetailsModal` and `MovieDetails` are the detail loaders.
- `Tmdb` is the API client.
- `Config` is `src/utils/config.js`.
- `AppConfig` holds the routes.
- `ViewState` is `src/hooks/useViewState.js`.
- `Router`, `Navigation` and `AppNavigation` are the navigation hooks.
- `CardFilm`, `Pagination`, `HomeHeader`, `Constants` and `HomeView` are the
  components and view helpers.

## Model

| member | source | states |
|---|---|---|
| MovieSearch.TargetPage | src/hooks/useMovieSearch.jsx:43 | the page searched is at least 1; a number of at least 1 is used as is; 0, negative numbers and NaN become page 1 |
| MovieSearch.FailureMessage | src/hooks/useMovieSearch.jsx:81 | the stored message is never empty, and an Error's own non-empty message is kept |
| MovieSearch.Search | src/hooks/useMovieSearch.jsx:28-47 | a null, undefined or blank query resets the listing to page 1 with no request and no counter bump; otherwise the counter goes up by one, loading is set, the error is cleared, the trimmed query is requested at the target page, and what is shown stays |
| MovieSearch.Resolve | src/hooks/useMovieSearch.jsx:49-76 | a stale ticket changes nothing at all; for the current ticket, a non-object fails with 'Resposta inválida do servidor' and a non-array results field fails with 'Formato de resultados inválido'; otherwise results, clamped totals, response page (default: requested page) and the trimmed query are stored and loading ends |
| MovieSearch.Fail | src/hooks/useMovieSearch.jsx:77-91 | a stale rejection changes nothing; a current one stores the error, clears results and totals, keeps the page and ends loading |
| MovieSearch.ClampedTarget | src/hooks/useMovieSearch.jsx:100 | `Math.max(1, Math.floor(p))` is NaN exactly when p is not a number and otherwise at least 1 |
| MovieSearch.GoToPage | src/hooks/useMovieSearch.jsx:98-106 | no request when the clamped page equals the current page or the stored query is blank; otherwise the stored query is searched at that page |
| MovieSearch.NextPage | src/hooks/useMovieSearch.jsx:19-115 | acts only when page < totalPages, and then goes to page + 1 |
| MovieSearch.PrevPage | src/hooks/useMovieSearch.jsx:20-124 | acts only when page > 1, and then goes to page - 1 |
| MovieSearch.Reset | src/hooks/useMovieSearch.jsx:129-138 | the counter goes up by one; the query becomes '' and the listing returns to page 1, no results, zero totals, no error and not loading |
| MovieSearch.SetQuery | src/hooks/useMovieSearch.jsx:5 | the exported setter stores the text as typed and changes neither the listing nor the counter |
| MovieSearch.ComputedFlags | src/hooks/useMovieSearch.jsx:17-21 | a current rejection shows the error and no results; `reset` shows an empty query, no results and no error; a blank search clears both; typing changes only `isEmptyQuery`, which holds exactly for blank text, and while it holds `goToPage` sends nothing |
| MovieSearch.TypedQueryIsPaged | src/hooks/useMovieSearch.jsx:98-104 | after `setQuery` with text, moving to another page searches that text, trimmed, under a fresh ticket |
| MovieSearch.ApplyKeepsGen | src/hooks/useMovieSearch.jsx:45-130 | every single step raises the request counter by at most one; completions leave it and `reset` raises it |
| MovieSearch.CounterMonotone | src/hooks/useMovieSearch.jsx:45-130 | over any sequence of operations and completions the request counter never decreases |
| MovieSearch.SupersededRequestIgnored | src/hooks/useMovieSearch.jsx:53-90 | once a request is superseded, its answer or rejection changes nothing, whatever happens in between, loading included |
| MovieSearch.LatestSearchWins | src/hooks/useMovieSearch.jsx:45-53 | when two searches overlap and the first answers last, the second's results and query stay on screen |
| MovieSearch.BlankSearchKeepsInFlight | src/hooks/useMovieSearch.jsx:32-45 | a blank search does not bump the counter, so a request already in flight is still applied after it |
| MovieSearch.BlankSearchKeepsCounter | src/hooks/useMovieSearch.jsx:32-40 | a blank search sends nothing and leaves the request counter |
| MovieSearch.ResetCancelsInFlight | src/hooks/useMovieSearch.jsx:129-130 | an answer to a request started before `reset` is ignored |
| MovieSearch.GoToNaNRefetchesFirstPage | src/hooks/useMovieSearch.jsx:43-102 | `goToPage(NaN)` on page 1 passes the same-page guard and requests page 1 again |
| MovieSearch.RunPreservesValid | src/hooks/useMovieSearch.jsx:28-138 | totals never become negative, and a loading controller never shows an error, over any sequence of events |
| TopRated.ValidatePage | src/hooks/useTopRatedMovies.jsx:37-42 | the result is at least 1; a number is clamped to at least 1; anything else, strings included, is page 1 |
| TopRated.ValidateResponse | src/hooks/useTopRatedMovies.jsx:45-56 | rejected exactly when the response is not an object, with 'Resposta inválida do servidor'; otherwise missing fields default to no results, page 1 and zero totals |
| TopRated.FetchMovies | src/hooks/useTopRatedMovies.jsx:58-64 | the counter goes up by one, loading is set, the error cleared and the validated page requested; the listing shown is kept |
| TopRated.Fail | src/hooks/useTopRatedMovies.jsx:78-89 | a stale rejection changes nothing; a current one sets only the error and ends loading |
| TopRated.Resolve | src/hooks/useTopRatedMovies.jsx:66-89 | a stale answer changes nothing; an invalid one fails; a valid one stores results and totals, and the page becomes the requested page, never the server's |
| TopRated.GoToPage | src/hooks/useTopRatedMovies.jsx:95-103 | no request when the validated page is the current page, otherwise a fetch of that page |
| TopRated.NextPage | src/hooks/useTopRatedMovies.jsx:20-109 | acts only when page < totalPages and not loading |
| TopRated.PrevPage | src/hooks/useTopRatedMovies.jsx:24-115 | acts only when page > 1 and not loading |
| TopRated.Reset | src/hooks/useTopRatedMovies.jsx:117-125 | the counter goes up by one and the listing returns to its initial values |
| TopRated.NoNavigationWhileLoading | src/hooks/useTopRatedMovies.jsx:20-115 | while loading, neither `nextPage` nor `prevPage` changes anything or starts a request |
| TopRated.NextPageRequestsFollowingPage | src/hooks/useTopRatedMovies.jsx:105-109 | when idle below the last page, `nextPage` requests exactly the following page with a fresh ticket |
| TopRated.NoStringCoercion | src/hooks/useTopRatedMovies.jsx:38-39 | the string '3' is not a number and validates to page 1 |
| TopRated.EmptyExactlyForEmptyAnswer | src/hooks/useTopRatedMovies.jsx:16-89 | while a fetch runs the controller is neither empty nor in error; once it completes, `isEmpty` holds exactly when the server answered with an object without results, `hasError` exactly when it answered with a non-object, and `hasResults` follows the results of an object answer |
| TopRated.FailureIsNotEmpty | src/hooks/useTopRatedMovies.jsx:28-89 | a rejected fetch shows the error state and never the empty state |
| TopRated.NavigationFlagsMatchRequests | src/hooks/useTopRatedMovies.jsx:20-115 | `canGoNext` and `canGoPrev` hold exactly when `nextPage` and `prevPage` would start a request |
| TopRated.PageStaysPositive | src/hooks/useTopRatedMovies.jsx:41-77 | provided the start page is at least 1 and every answer is to a request for a page of at least 1 (as every `FetchMovies` request is, its page being validated), the page shown stays at least 1 over any sequence of events |
| TopRated.ApplyKeepsGen | src/hooks/useTopRatedMovies.jsx:61-118 | every single step raises the request counter by at most one; completions leave it, a fetch and `reset` raise it |
| TopRated.CounterMonotone | src/hooks/useTopRatedMovies.jsx:61-118 | the request counter never decreases |
| TopRated.SupersededRequestIgnored | src/hooks/useTopRatedMovies.jsx:70-89 | a superseded request's answer or rejection changes nothing, loading included |
| NowPlaying.FetchMovies | src/hooks/useNowPlayingMovies.jsx:16-19 | the counter goes up by one, loading is set, the error cleared, and the page is requested as given, unvalidated |
| NowPlaying.Fail | src/hooks/useNowPlayingMovies.jsx:30-34 | a stale rejection changes nothing; a current one stores the thrown value as the error and keeps the results |
| NowPlaying.Resolve | src/hooks/useNowPlayingMovies.jsx:21-35 | a stale answer changes nothing; a current one stores `results or []`, totals `or 0` and `page or requested page`; a null answer fails on the property read |
| NowPlaying.GoToPage | src/hooks/useNowPlayingMovies.jsx:38-44 | always starts a request with a fresh ticket, even for the page already shown; the page requested is max(1, p), so 1 for a page below 1 and the given page otherwise; loading is set, the error cleared, and the results, page and both totals shown stay until the answer |
| NowPlaying.NextPage | src/hooks/useNowPlayingMovies.jsx:46 | requests the page after the one shown, with no upper bound |
| NowPlaying.PrevPage | src/hooks/useNowPlayingMovies.jsx:47 | requests the page before the one shown, never below page 1 |
| NowPlaying.Reset | src/hooks/useNowPlayingMovies.jsx:49-57 | the counter goes up by one and the listing returns to its initial values |
| NowPlaying.UnboundedNavigation | src/hooks/useNowPlayingMovies.jsx:40-47 | `prevPage` on page 1 requests page 1 again, and `nextPage` on the last page requests a page past it |
| NowPlaying.PageFromServerOrRequest | src/hooks/useNowPlayingMovies.jsx:29 | the page shown after success is the reported page, or the requested page when the report is missing or 0 |
| NowPlaying.ApplyKeepsGen | src/hooks/useNowPlayingMovies.jsx:17-50 | every user action raises the request counter by exactly one and every completion leaves it |
| NowPlaying.CounterMonotone | src/hooks/useNowPlayingMovies.jsx:17-50 | the request counter never decreases |
| NowPlaying.SupersededRequestIgnored | src/hooks/useNowPlayingMovies.jsx:24-34 | a superseded request's answer or rejection changes nothing |
| TmdbSearch.FetchPage | src/hooks/useTmdbSearch.jsx:17-33 | a blank or missing query resets the listing to page 1 with no request and no counter bump; otherwise the counter goes up by one and the trimmed query is requested |
| TmdbSearch.Search | src/hooks/useTmdbSearch.jsx:54-61 | the query is stored as given, blank or not; a query with text requests its trimmed form at page 1 under a fresh ticket, sets loading and clears the error; a blank or missing one sends nothing, resets the listing to page 1 and leaves the counter |
| TmdbSearch.GoToPage | src/hooks/useTmdbSearch.jsx:63-71 | nothing happens while the stored query is blank; otherwise a request with a fresh ticket for the trimmed stored query, at page max(1, p), so 1 for a page below 1 and the given page otherwise; the query and the results shown are kept |
| TmdbSearch.NextPage | src/hooks/useTmdbSearch.jsx:73 | nothing while the query is blank; otherwise the page after the one shown, with no upper bound |
| TmdbSearch.PrevPage | src/hooks/useTmdbSearch.jsx:74 | nothing while the query is blank; otherwise the page before the one shown, never below page 1 |
| TmdbSearch.Fail | src/hooks/useTmdbSearch.jsx:44-48 | a stale rejection changes nothing; a current one stores the thrown value and keeps results and page |
| TmdbSearch.Resolve | src/hooks/useTmdbSearch.jsx:35-48 | a stale answer changes nothing; a current one stores `results or []`, totals `or 0` and `page or requested page`, and keeps the query |
| TmdbSearch.Reset | src/hooks/useTmdbSearch.jsx:76-85 | the counter goes up by one; the query becomes '' and the listing is cleared |
| TmdbSearch.BlankSearchDisablesPaging | src/hooks/useTmdbSearch.jsx:56-66 | a blank search is stored as typed but sends nothing, and afterwards `goToPage` sends nothing either |
| TmdbSearch.PrevFromFirstPageRefetches | src/hooks/useTmdbSearch.jsx:67-74 | `prevPage` from page 1 with a query requests page 1 again |
| TmdbSearch.ApplyKeepsGen | src/hooks/useTmdbSearch.jsx:31-85 | every single step raises the request counter by at most one; completions leave it and `reset` raises it |
| TmdbSearch.CounterMonotone | src/hooks/useTmdbSearch.jsx:31-77 | the request counter never decreases |
| TmdbSearch.SupersededRequestIgnored | src/hooks/useTmdbSearch.jsx:38-48 | a superseded request's answer or rejection changes nothing |
| Movies.Init | src/hooks/useMovies.jsx:8-10 | the hook starts with the given category (popular by default) and an empty search query |
| Movies.CategoryHook | src/hooks/useMovies.jsx:19-29 | 'top-rated' selects the top-rated controller and 'now-playing' the now-playing one; anything else selects popular, never the search controller |
| Movies.Active | src/hooks/useMovies.jsx:32 | the search controller is shown exactly when the search query is non-empty; otherwise the category's controller is shown |
| Movies.ChangeCategory | src/hooks/useMovies.jsx:35-44 | the category is stored as given and search mode ends; the search controller is reset and then the category's controller fetches page 1 |
| Movies.HandleSearch | src/hooks/useMovies.jsx:47-56 | a query with text is stored untrimmed and searched from page 1; a blank or missing one empties the search query and fetches page 1 of the current category instead |
| Movies.Reset | src/hooks/useMovies.jsx:59-66 | back to popular with no search, and four reset commands |
| Movies.LoadedHookIsShown | src/hooks/useMovies.jsx:32-54 | after `changeCategory` or `handleSearch`, the controller told to load is the one whose data is shown |
| Movies.ResetReachesEveryHook | src/hooks/useMovies.jsx:62-65 | `reset` resets each of the four controllers exactly once |
| Movies.SearchingIffSearchShown | src/hooks/useMovies.jsx:32-72 | `isSearching` holds exactly when the data comes from the search controller |
| Movies.UnknownCategoryShowsPopular | src/hooks/useMovies.jsx:26-42 | an unrecognised category is stored as given but popular's data is shown and loaded |
| Movies.ActionsPreserveValid | src/hooks/useMovies.jsx:37-60 | the stored search query is always either '' or a query with text |
| Favorites.Normalize | src/contexts/FavoritesContext.jsx:24-29 | the stored record has exactly the keys id, title, poster_path and release_date, each taken from the film with its `||` fallback |
| Favorites.Toggle | src/contexts/FavoritesContext.jsx:18-32 | a film whose key is listed is removed; otherwise its normalised record is stored under `String(id)`; every other key and record is unchanged |
| Favorites.Count | src/contexts/FavoritesContext.jsx:40 | the count is zero exactly for the empty store, and any stored key, even with a falsy value, counts |
| Favorites.ToggleFlipsListed | src/contexts/FavoritesContext.jsx:22-29 | a film is listed exactly when toggling it leaves no own entry; a toggle flips whether it is listed, except for a key named like an inherited member, which stays listed |
| Favorites.Clear | src/contexts/FavoritesContext.jsx:34 | clearing leaves an empty store |
| Favorites.ToggleTwiceRestoresAbsent | src/contexts/FavoritesContext.jsx:22-29 | adding then removing a film that was absent gives back the original store |
| Favorites.ToggleTwiceRestoresPresent | src/contexts/FavoritesContext.jsx:22-29 | removing then adding a stored film gives back the key set, with the entry re-normalised |
| Favorites.FalsyEntryIsReplacedThenDropped | src/contexts/FavoritesContext.jsx:22 | an entry with a falsy value counts as absent: a toggle overwrites it, and the next toggle removes it |
| Favorites.ToggleCount | src/contexts/FavoritesContext.jsx:22-40 | `count` goes down by one when a listed key is removed and up by one when a new key is added; it is unchanged when a falsy entry is overwritten; a film whose key is an inherited member name changes nothing |
| Favorites.NumericAndStringIdsShareKey | src/contexts/FavoritesContext.jsx:21 | the ids 7 and '7' share one favorite slot |
| Favorites.NumericKeysDistinct | src/contexts/FavoritesContext.jsx:21 | distinct numeric ids never share a slot |
| App.ToggleId | src/App.jsx:54-61 | the id is removed when present and added when absent; membership of every other id is unchanged |
| App.ToggleIdInvolution | src/App.jsx:56-59 | toggling the same id twice is the identity |
| App.ToggleIdCommutes | src/App.jsx:56-59 | toggles of two ids commute |
| App.HandleDetails | src/App.jsx:63-68 | a film without an id changes nothing and fetches nothing; otherwise the modal opens in the loading state with no details and no error, and the film's id is fetched |
| App.DetailsRequestAsksForCredits | src/App.jsx:70 | the detail request targets the film's detail URL and asks for `append_to_response=credits` |
| App.Resolved | src/App.jsx:71-75 | an answer sets the details and ends loading; open and error are unchanged |
| App.Failed | src/App.jsx:73-75 | a rejection sets the error and ends loading; open and details are unchanged |
| App.Close | src/App.jsx:113 | `onClose` only hides the modal: loading, details and error stay as they were |
| App.LateAnswerOverwrites | src/App.jsx:63-77 | with two films opened in a row, a late answer for the first replaces what is shown for the second |
| App.CompletionAfterClose | src/App.jsx:69-76 | closing cancels nothing: a later answer or rejection fills the hidden modal |
| App.EnabledControlsStayInRange | src/App.jsx:102-106 | an enabled button requests an adjacent page inside 1..totalPages |
| App.SomeControlEnabled | src/App.jsx:102-106 | whenever the controls are shown for a page in range, at least one button is enabled |
| App.InitialSearch | src/App.jsx:44-52 | the mount effect searches 'matrix' exactly when there is no query and an API key or token is configured |
| MovieDetailsModal.OpenModal | src/hooks/useMovieDetailsModal.js:52-64 | a film without an id changes nothing; otherwise the state becomes open and loading with no details and no error, and the id is fetched |
| MovieDetailsModal.Validate | src/hooks/useMovieDetailsModal.js:71-78 | an answer is accepted exactly when it is an object with a truthy id, title or name; a non-object gets the 'dados não encontrados' message and an object without those fields gets 'campos obrigatórios ausentes' |
| MovieDetailsModal.Fail | src/hooks/useMovieDetailsModal.js:86-98 | loading ends and the error is the Error's message, or the default message for a non-Error; open and details are kept |
| MovieDetailsModal.Resolve | src/hooks/useMovieDetailsModal.js:70-85 | accepted data replaces the details and ends loading, keeping open and error; rejected data goes through the failure path with the validation message |
| MovieDetailsModal.CloseModal | src/hooks/useMovieDetailsModal.js:105-112 | closing gives the all-false, all-null state |
| MovieDetailsModal.ValidationExamples | src/hooks/useMovieDetailsModal.js:71-78 | a titled object passes whatever its other fields; an object with none of the three fields, null, and a string are rejected with their messages |
| MovieDetailsModal.CompletionAfterCloseStaysClosed | src/hooks/useMovieDetailsModal.js:81-98 | a completion after `closeModal` updates details or error but the modal stays closed and not loading |
| MovieDetailsModal.FirstAnswerLandsOnSecondModal | src/hooks/useMovieDetailsModal.js:52-85 | with two films opened in a row, the first film's answer is shown in the modal opened for the second |
| MovieDetailsModal.OpenThenCompleteConsistent | src/hooks/useMovieDetailsModal.js:52-112 | opening a film and then completing, failing or closing always leaves exactly one of four screens: closed with nothing shown, open and loading with nothing shown, open with details and no error, or open with an error and no details |
| MovieDetails.FetchDetails | src/hooks/useMovieDetails.jsx:10-19 | a falsy id clears details and error without a request; otherwise loading is set, the error cleared, and the previous details kept |
| MovieDetails.Resolve | src/hooks/useMovieDetails.jsx:22-28 | an answer replaces the details and ends loading |
| MovieDetails.Fail | src/hooks/useMovieDetails.jsx:24-28 | a rejection stores the error, drops the details and ends loading |
| MovieDetails.Reset | src/hooks/useMovieDetails.jsx:32-36 | `reset` clears details, error and loading |
| MovieDetails.FalsyIdResets | src/hooks/useMovieDetails.jsx:11-16 | fetching with a falsy id is the same as `reset`, and sends nothing |
| MovieDetails.StaleDetailsWin | src/hooks/useMovieDetails.jsx:10-30 | when a second load starts while the first is in flight, the old details stay and loading is set; the second answer shows its details, and if the first answers after it, the first film's details replace them and loading ends |
| MovieDetails.CompletionEndsLoading | src/hooks/useMovieDetails.jsx:22-29 | loading is false after any completion, and a failure never leaves details behind |
| Tmdb.AuthHeaders | src/services/tmdb.js:3-9 | there is a bearer Authorization header exactly when a token is configured |
| Tmdb.HeaderPrecedence | src/services/tmdb.js:27 | the caller's headers win; otherwise Authorization comes from the token and Content-Type is JSON |
| Tmdb.SearchParams | src/services/tmdb.js:20-22 | a parameter reaches the URL exactly when it is neither null nor undefined, as `String(v)` |
| Tmdb.BuildUrl | src/services/tmdb.js:11-24 | the URL is the API root plus the path; every parameter other than api_key is set, as `String(v)`, exactly when it is not null or undefined; api_key is set exactly when a key and no token is configured |
| Tmdb.CredentialsExclusive | src/services/tmdb.js:3-18 | api_key is in the URL exactly when a key is configured and no token is; then there is no Authorization header |
| Tmdb.ParamReachesUrl | src/services/tmdb.js:17-22 | every parameter other than api_key reaches the URL as `String(v)` unless it is nullish |
| Tmdb.SearchMovies | src/services/tmdb.js:45-49 | a missing or blank query answers the empty page without a request; otherwise the search endpoint is requested |
| Tmdb.SearchSendsQueryVerbatim | src/services/tmdb.js:45-47 | the query is sent untrimmed, with page 1 and include_adult false by default |
| Tmdb.DefaultSearchSends | src/services/tmdb.js:45-47 | a search with text and no page or flag sends a request to the search endpoint with the default parameters |
| Tmdb.DefaultSearchUrl | src/services/tmdb.js:11-24 | the URL of a default search carries the query, page and include_adult parameters, each as `String(v)` |
| Tmdb.GetMovieDetails | src/services/tmdb.js:51-57 | throws 'getMovieDetails: id is required' exactly when the id is falsy; otherwise requests the movie's path |
| Tmdb.AppendOnlyWhenGiven | src/services/tmdb.js:53-54 | append_to_response is sent exactly when the argument is truthy |
| Tmdb.FailureMessage | src/services/tmdb.js:31-34 | the message is 'TMDB request failed: status statusText', followed by ' — ' and the detail when one exists |
| Tmdb.SafeFetch | src/services/tmdb.js:26-43 | a failed answer rejects with the composed message and carries the status; a successful one resolves with the parsed body |
| Tmdb.DetailAppendedIff | src/services/tmdb.js:29-40 | the detail is appended exactly when the body is JSON with a truthy status_message, and the plain message is always a prefix |
| Config.MergeValue | src/utils/config.js:44-47 | a plain-object source value is merged over `result[key] or {}` with the union of keys; any other value replaces |
| Config.MergeInto | src/utils/config.js:40-52 | the result's keys are the union of target and source keys; target-only keys keep their value; non-object source values replace; object source values are merged recursively |
| Config.DeepMerge | src/utils/config.js:40-43 | throws exactly when the source is null or undefined; for an object source, the keys are the target's own keys plus the source's |
| Config.CreateConfig | src/utils/config.js:29-52 | nothing comes back (the call throws) exactly for a null or undefined configuration; for an object the result has the keys of both, the configuration's non-object settings as given, the defaults it does not mention unchanged, and its nested objects merged over the defaults under the same key |
| Config.CreateConfigCopies | src/utils/config.js:29-52 | with no defaults or empty defaults the result is a copy of the configuration, and a configuration used as its own defaults comes back unchanged |
| Config.MergeIntoEmpty | src/utils/config.js:41-49 | merging an object into `{}` reproduces it |
| Config.MergeIntoSelf | src/utils/config.js:41-49 | merging an object into itself changes nothing |
| Config.DocumentedExample | src/utils/config.js:20-27 | the documented example gives `{ api: { timeout: 5000, retries: 3 } }` |
| Config.GetEnv | src/utils/config.js:61-70 | an undefined variable gives the default, or null when no default is passed; 'true' and 'false' give the booleans; a defined variable never gives undefined |
| Config.GetEnvReadsNumbers | src/utils/config.js:72-75 | a non-empty value that reads as a number gives that number |
| Config.GetEnvReadsIntegers | src/utils/config.js:72-75 | the decimal text of any integer gives that integer back |
| Config.GetEnvKeepsText | src/utils/config.js:72-77 | a value other than 'true' and 'false' that is not blank, has no digit and is not a spelling of Infinity comes back unchanged as text |
| Config.GetEnvEmpty | src/utils/config.js:73-77 | the empty string comes back unchanged |
| Config.GetEnvBlank | src/utils/config.js:72-75 | a value of only spaces reads as the number 0 |
| Config.GetEnvBooleanBecomesNumber | src/utils/config.js:69-75 | a boolean variable comes back as 1 or 0, not as itself |
| Config.MissingKeys | src/utils/config.js:88-90 | the missing keys are exactly the required keys that are absent, null or undefined |
| Config.MissingKeysAppend | src/utils/config.js:88-90 | the filter keeps input order |
| Config.ValidateConfig | src/utils/config.js:87-95 | throws exactly when some required key is missing, with the prefix and the missing keys joined by ', ' |
| Config.InheritedNamesPass | src/utils/config.js:89 | the `in` test counts inherited names such as 'constructor' as present, while an absent own key is reported |
| AppConfig.GetMovieDetailUrl | src/config/appConfig.js:87-89 | the detail URL starts with '/movie/' |
| AppConfig.IndexOf | src/config/appConfig.js:100 | the position found is the first occurrence of the pattern, and none means no occurrence |
| AppConfig.Expand | src/config/appConfig.js:100 | the value of a string replacement is inserted as it is when it has no '$'; '$$' inserts a dollar sign, '$&' the matched text, '$`' the text before the match and "$'" the text after it |
| AppConfig.ReplaceFirst | src/config/appConfig.js:100 | with no occurrence the text is unchanged; otherwise only the first occurrence is replaced, by the value itself when it has no '$' |
| AppConfig.BuildRoute | src/config/appConfig.js:97-103 | with no parameters the route is returned unchanged |
| AppConfig.SingleParam | src/config/appConfig.js:99-101 | one parameter is one first-occurrence replacement of ':key' by `String(value)` |
| AppConfig.AbsentPlaceholderIgnored | src/config/appConfig.js:100 | a parameter whose placeholder is not in the route changes nothing |
| AppConfig.DetailRouteIsDetailUrl | src/config/appConfig.js:20-102 | building the detail route from an id gives the detail URL of that id, when the id's text has no '$' |
| AppConfig.NumericDetailRoute | src/config/appConfig.js:20-102 | for every numeric id, building the detail route gives the detail URL |
| AppConfig.DollarPatternInId | src/config/appConfig.js:100 | the id '$&' builds '/movie/:id', not its detail URL |
| AppConfig.DetailUrlsDistinct | src/config/appConfig.js:87-89 | distinct numeric ids have distinct detail URLs |
| AppConfig.OnlyFirstOccurrence | src/config/appConfig.js:100 | only the first occurrence of a placeholder is replaced |
| ViewState.Classify | src/hooks/useViewState.js:45-97 | error exactly when the error is truthy; loading exactly when not an error and loading; empty exactly when neither and items are missing or empty, with isSearch iff the query has text; otherwise success with itemCount = items.length |
| ViewState.FlagsExclusive | src/hooks/useViewState.js:48-95 | at most one of hasItems, isLoading and isEmpty holds, and the header is hidden exactly in the error and empty states |
| ViewState.ListStates | src/hooks/useViewState.js:73-95 | a non-empty idle list is success with its length and shows header and pagination; an empty one is empty and shows neither |
| ViewState.OrNoOp | src/hooks/useViewState.js:111-112 | a missing callback becomes the no-op handler and a given one is kept |
| ViewState.ViewActions | src/hooks/useViewState.js:109-114 | each handler is the caller's callback when one was given, and the empty function exactly when none was |
| ViewState.ViewActionsCallThrough | src/hooks/useViewState.js:109-114 | each handler calls through to exactly the callback it was built from, and does not depend on the other callback |
| ViewState.Accessibility | src/hooks/useViewState.js:125-157 | error: assertive alert; loading: polite status labelled 'Carregando ' + context; empty: polite status labelled 'Nenhum resultado ' + ('para ' + context, when given); success: only a 'Resultados' label; anything else: the polite status base |
| ViewState.ClassifiedStateAnnouncements | src/hooks/useViewState.js:45-157 | every classified state is a live region except success; only errors are assertive; every state but the error state carries a label |
| Router.OptionalProp | src/hooks/useAppNavigation.js:74 | for the own-property keys `id` and `film`: undefined for null and undefined, the property of an object that has it, undefined for a value without that property |
| Router.LocationState | src/hooks/useNavigation.js:58-59 | after `navigate(path, options)` the location state is never undefined: it is `options.state` exactly when the options carry a state that is not undefined, and null otherwise |
| Router.FilmInStateRoundTrip | src/pages/MovieDetailPage.jsx:11 | a film pushed as `{ state: { film } }` is the film the detail page reads back; no state reads back as no film |
| Navigation.NavigateToMovie | src/hooks/useNavigation.js:51-62 | no navigation for a falsy id; otherwise a push to the detail URL, with `{state:{film}}` exactly when movie data is given |
| Navigation.HandleNavigate | src/hooks/useNavigation.js:86-121 | 'detail' navigates to the item's id; 'home' goes to '/' and 'favorites' to '/favorites'; 'back' goes back; 'modal' calls the callback and never navigates; anything else does nothing |
| Navigation.DetailCarriesFilm | src/hooks/useNavigation.js:58-91 | a detail navigation carries the film data, so the detail page reads it back from the location state |
| Navigation.ModalNeverNavigates | src/hooks/useNavigation.js:109-114 | the modal case never pushes and never goes back |
| AppNavigation.NavigateToMovieDetail | src/hooks/useAppNavigation.js:58-64 | no navigation for a falsy id; otherwise a push to the detail URL whose options always have a state, the film or undefined |
| AppNavigation.HandleNavigate | src/hooks/useAppNavigation.js:71-87 | 'detail', 'home' and 'favorites' navigate; everything else, 'back' and 'modal' included, does nothing |
| AppNavigation.DispatchTablesAgree | src/hooks/useAppNavigation.js:71-87 | the two tables agree on home, favorites and detail paths, and differ on 'back' |
| AppNavigation.OptionsWithoutFilm | src/hooks/useAppNavigation.js:60-62 | without film data the two helpers push the same path with different options, and neither carries a film |
| CardFilm.Title | src/components/CardFilm/CardFilm.jsx:10 | the title is the title, else the name, else 'Sem título', and never empty |
| CardFilm.Date | src/components/CardFilm/CardFilm.jsx:11 | the release date when present, else the first-air date when present, else empty; non-empty exactly when one of them is present |
| CardFilm.Year | src/components/CardFilm/CardFilm.jsx:12-15 | no date gives ''; a date starting with four digits gives exactly those digits, and a non-empty year is always the first four characters of the date |
| CardFilm.IsoDateYear | src/components/CardFilm/CardFilm.jsx:14-15 | a date in ISO form yields its four-digit year |
| CardFilm.TestedDateYear | src/components/CardFilm/CardFilm.test.jsx:7-17 | '2020-01-01' yields '2020' |
| CardFilm.PosterPath | src/components/CardFilm/CardFilm.jsx:19 | `poster_path` when present, else `poster`, else `posterPath`, else empty; empty exactly when none of the three is present |
| CardFilm.PosterSrc | src/components/CardFilm/CardFilm.jsx:20-24 | no source for an empty path; a path starting with 'http' is used as is; any other path is prefixed with the w342 image base |
| CardFilm.PosterSrcIsUrl | src/components/CardFilm/CardFilm.jsx:20-24 | every source starts with 'http', and feeding it back in gives it unchanged |
| CardFilm.FavoriteLabel | src/components/CardFilm/CardFilm.jsx:51 | 'Remover ... dos favoritos' when favorite, else 'Adicionar ... aos favoritos' |
| CardFilm.FavoriteCardMatchesFilmCard | src/contexts/FavoritesContext.jsx:24-29 | a card built from the record stored for a favorite shows the same title and date as the card of the film itself, and the same poster unless the film's only poster was the camel-case `posterPath`, which the record drops |
| CardFilm.FavoriteLabelsDiffer | src/components/CardFilm/CardFilm.jsx:51 | the two labels differ for every title |
| Pagination.Visible | src/components/Pagination/Pagination.jsx:5 | the control shows exactly when there are at least two pages |
| Pagination.PrevDisabled | src/components/Pagination/Pagination.jsx:8 | the previous button is enabled exactly when the page before the current one is a page number |
| Pagination.NextDisabled | src/components/Pagination/Pagination.jsx:14 | the next button is enabled exactly when the page after the current one exists |
| Pagination.InfoText | src/components/Pagination/Pagination.jsx:12 | the text starts with the caption and ' — ' when there is a caption, with 'página ' otherwise, and ends with 'page / totalPages' |
| Pagination.AgreesWithShellControls | src/components/Pagination/Pagination.jsx:5-14 | the component is shown, and its buttons disabled, exactly as in the shell's inline controls; both are enabled strictly inside the range; prev is disabled at 0 or below and next past the last page |
| Pagination.InfoTextInjective | src/components/Pagination/Pagination.jsx:12 | the info text determines the page and the page count |
| Pagination.CounterInjective | src/components/Pagination/Pagination.jsx:12 | 'page / totalPages' determines both numbers |
| Constants.LabelTableKeys | src/views/constants.js:2-13 | the label table's keys are exactly the three categories |
| Constants.GetCategoryLabelAsWritten | src/views/constants.js:31-33 | the lookup as written yields an inherited member exactly for a category named like a prototype member that is not a table key |
| Constants.InheritedNameIsNotALabel | src/views/constants.js:32 | 'toString' and 'constructor' yield inherited members, not labels |
| Constants.GetCategoryLabel | src/views/constants.js:9-33 | the label is always one of the three labels: 'Mais Avaliados' exactly for top-rated, 'Em Cartaz' exactly for now-playing, 'Populares' for everything else |
| Constants.AsWrittenAgreesOffPrototype | src/views/constants.js:31-33 | off the inherited names, the lookup as written returns the corrected label |
| HomeView.CategoryLabel | src/views/HomeView.jsx:64-74 | the switch always answers one of the three labels |
| HomeView.CategoryLabelsAgree | src/views/HomeView.jsx:64-74 | the switch agrees with the corrected table lookup on every category |
| HomeView.PaginationCaption | src/views/HomeView.jsx:58 | 'Busca' exactly when the query has text, otherwise the category label; never empty |
| HomeHeader.HeaderAsWritten | src/components/HomeHeader/HomeHeader.jsx:11-32 | search mode exactly when the query has text, with the category read through an inherited-member lookup |
| HomeHeader.InheritedNameRendersEmptyHeading | src/components/HomeHeader/HomeHeader.jsx:32 | the category 'valueOf' renders an empty title and subtitle |
| HomeHeader.Header | src/components/HomeHeader/HomeHeader.jsx:11-38 | search mode exactly when the query has text, with the trimmed headline; otherwise one of the three fixed headings, popular's for any unrecognised category |
| HomeHeader.AsWrittenAgreesOffPrototype | src/components/HomeHeader/HomeHeader.jsx:32 | off the inherited names, the header as written is the corrected one |
| HomeHeader.TitleIsCategoryLabel | src/components/HomeHeader/HomeHeader.jsx:11-32 | the heading's title is the category's label, and with no category the header is popular's |
| HomeHeader.SearchHeadlineTrims | src/components/HomeHeader/HomeHeader.jsx:13-38 | surrounding spaces do not reach the headline |

## Left out

- Network, storage and timers are not modelled. The real `fetch`, `new URL` percent-encoding, JSON parsing, localStorage, `withTimeout` and console warnings are absent. Requests are returned as data, and answers, parsed bodies and environment variables are parameters.
- Promises, effects and memoisation are replaced by explicit start and completion events, and the model keeps the order the events arrive in.
- Numbers are integers plus NaN. `Math.floor` of a fraction, floats in `Number(...)`, hexadecimal and exponent numerals, and `vote_average` formatting are not modelled.
- Config.GetEnv: a value that `Number` reads as a non-integer — a fraction, an exponent, a hexadecimal, octal or binary literal (`0x1A`, `0o17`, `0b101`), or `Infinity` — comes back as text here, where the source returns the number. Config.GetEnvKeepsText therefore only speaks of values without digits. Functions are not values of the model either, so a key that is absent from the environment reads as undefined even when it names an inherited member such as `constructor`, where `import.meta.env[key]` finds that member and `getEnv` returns it.
- NowPlaying.GoToPage: pages are integers, so `goToPage(NaN)` is not modelled. `Math.max(1, NaN)` is NaN, which would be requested and could become the page shown. The same holds for TmdbSearch.GoToPage.
- TmdbSearch.FetchPage: the `opts.includeAdult` flag that `fetchPage`, `search`, `goToPage`, `nextPage` and `prevPage` hand on to `searchMovies` is not carried by the request. What the flag does to the URL is modelled by Tmdb.SearchMovies.
- CardFilm.Year: for a date that does not start with four digits it returns `None`. It does not model `new Date(date).getFullYear()`, because date parsing is a host facility.
- Response fields are modelled with integer types or absence. Ill-typed numeric fields such as strings or null, and truthy non-array `results`, are not.
- Assigning `__proto__` is not modelled. Neither `deepMerge` nor the favorites store can re-parent objects here.
- Favorites loading and saving is out (src/contexts/favoritesCore.js, the `loadFavorites`/`saveFavorites` calls). `deepFreeze` and the rest of config.js beyond the four functions are out too.
- Key ordering of objects with integer-like keys is not modelled. Object entries keep insertion order.
- `buildRoute` with a null or undefined params object throws; here the params are a sequence of entries, so the case is absent. A function as the replacement value of `replace` is absent too.
- Navigation.HandleNavigate: an explicit null `options` argument throws when the modal case reads `options.onModalOpen`. This is not modelled; the callback's presence is a boolean.
- Pagination takes `totalPages` as an integer, so an undefined or NaN page count is not modelled.
- The `query` arguments are `Option<string>`. Non-string queries, which would throw on `trim()`, are not modelled.
- Symbols and getters are not modelled.
- The App form's submit handler, usePopularMovies and the presentational components are not modelled. usePopularMovies is not part of this model: the multiplexer only issues commands to the popular controller.
- Behaviour that the tests expect but the code does not implement is not modelled: caches, retries, `loadMore`, and the page-number buttons of the pagination.
- HomeView.modern.jsx repeats the label logic of HomeView.jsx verbatim, so it is not modelled separately.

## Findings

| source | as written | input that shows it | evidently intended | confidence | as-written member | corrected member |
|---|---|---|---|---|---|---|
| src/views/constants.js:31-33 | `CATEGORY_LABELS[category] \|\| CATEGORY_LABELS.popular` reads inherited `Object.prototype` members | `getCategoryLabel('toString')` returns the `toString` function, not a label | any category that is not a key of the table falls back to 'Populares', as the switch in src/views/HomeView.jsx:64-74 does | not executed | Constants.GetCategoryLabelAsWritten, shown by Constants.InheritedNameIsNotALabel | Constants.GetCategoryLabel, proved to agree with the switch by HomeView.CategoryLabelsAgree |
| src/components/HomeHeader/HomeHeader.jsx:32 | `categoryInfo[category] \|\| categoryInfo.popular` reads inherited members, and `.title` of a function is undefined | `<HomeHeader category="valueOf" />` renders an empty title and subtitle | an unrecognised category shows popular's title and subtitle | not executed | HomeHeader.HeaderAsWritten, shown by HomeHeader.InheritedNameRendersEmptyHeading | HomeHeader.Header, with HomeHeader.TitleIsCategoryLabel |
