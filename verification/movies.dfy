/** `useMovies`: chooses which controller the home screen shows (one per
    category, plus search) and which controllers each action drives. The
    controllers themselves are modelled in their own modules; here an action
    yields the commands it issues to them, in order. */
module Movies {
  import opened Js

  /** The four controllers `useMovies` owns. */
  datatype Hook = Popular | TopRatedHook | NowPlayingHook | SearchHook

  /** A call on a controller: `fetchMovies(page)`, `reset()` or `search(q, page)`. */
  datatype Command =
    | FetchMovies(hook: Hook, page: int)
    | ResetHook(hook: Hook)
    | RunSearch(query: string, page: int)

  /** `category` is stored exactly as given; `searchQuery` is `''` or a query with text. */
  datatype Mux = Mux(category: string, searchQuery: string)

  /** The state after an action and the commands it issued. */
  datatype Out = Out(state: Mux, commands: seq<Command>)

  const POPULAR := "popular"
  const TOP_RATED := "top-rated"
  const NOW_PLAYING := "now-playing"

  /** `useMovies(initialCategory = 'popular')`. */
  function Init(initial: Option<string>): (m: Mux)
    ensures m.searchQuery == ""
    ensures initial.None? ==> m.category == POPULAR
    ensures initial.Some? ==> m.category == initial.value
  {
    Mux(if initial.Some? then initial.value else POPULAR, "")
  }

  /** `getActiveHook`: the category's controller, popular for anything unrecognised. */
  function CategoryHook(c: string): (h: Hook)
    ensures h != SearchHook
    ensures h == TopRatedHook <==> c == TOP_RATED
    ensures h == NowPlayingHook <==> c == NOW_PLAYING
  {
    match c
    case "top-rated" => TopRatedHook
    case "now-playing" => NowPlayingHook
    case _ => Popular
  }

  /** `searchQuery ? search : getActiveHook()`: the controller whose data is shown. */
  function Active(m: Mux): (h: Hook)
    ensures h == SearchHook <==> m.searchQuery != ""
    ensures m.searchQuery == "" ==> h == CategoryHook(m.category)
  {
    if m.searchQuery != "" then SearchHook else CategoryHook(m.category)
  }

  /** `Boolean(searchQuery)` */
  predicate IsSearching(m: Mux)
  {
    m.searchQuery != ""
  }

  /** `changeCategory(c)`: stores `c` verbatim, leaves search mode, resets the
      search controller and loads page 1 of the category's controller. */
  function ChangeCategory(m: Mux, c: string): (r: Out)
    ensures r.state.category == c && !IsSearching(r.state)
    ensures r.commands == [ResetHook(SearchHook), FetchMovies(CategoryHook(c), 1)]
  {
    Out(Mux(c, ""), [ResetHook(SearchHook), FetchMovies(CategoryHook(c), 1)])
  }

  /** `handleSearch(q)`: a query with text is stored untrimmed and searched from
      page 1; a blank or missing one leaves search mode and reloads page 1 of
      the current category. */
  function HandleSearch(m: Mux, q: Option<string>): (r: Out)
    ensures r.state.category == m.category
    ensures !BlankOrMissing(q) ==>
      r.state.searchQuery == q.value && r.commands == [RunSearch(q.value, 1)]
    ensures BlankOrMissing(q) ==>
      r.state.searchQuery == "" && r.commands == [FetchMovies(CategoryHook(m.category), 1)]
  {
    if !BlankOrMissing(q) then Out(m.(searchQuery := q.value), [RunSearch(q.value, 1)])
    else Out(m.(searchQuery := ""), [FetchMovies(CategoryHook(m.category), 1)])
  }

  /** `reset()`: back to popular, out of search mode, every controller reset. */
  function Reset(m: Mux): (r: Out)
    ensures r.state == Mux(POPULAR, "")
    ensures |r.commands| == 4
    ensures forall i :: 0 <= i < |r.commands| ==> r.commands[i].ResetHook?
  {
    Out(Mux(POPULAR, ""),
        [ResetHook(SearchHook), ResetHook(Popular), ResetHook(TopRatedHook), ResetHook(NowPlayingHook)])
  }

  // ---------------------------------------------------------------------------
  // Properties

  /** Which controller a command drives. */
  function Target(c: Command): Hook
  {
    match c
    case FetchMovies(h, _) => h
    case ResetHook(h) => h
    case RunSearch(_, _) => SearchHook
  }

  /** After `changeCategory` and `handleSearch`, the last controller asked to
      load is exactly the one whose data is now shown, and it loads page 1. */
  lemma LoadedHookIsShown(m: Mux, c: string, q: Option<string>)
    ensures var r := ChangeCategory(m, c);
      Target(r.commands[|r.commands| - 1]) == Active(r.state) == CategoryHook(c)
    ensures var r := HandleSearch(m, q);
      |r.commands| == 1 && Target(r.commands[0]) == Active(r.state)
      && !r.commands[0].ResetHook? && r.commands[0].page == 1
  {
    var r := HandleSearch(m, q);
    if !BlankOrMissing(q) {
      assert q.value != "";
    }
  }

  /** `reset` resets each of the four controllers exactly once. */
  lemma ResetReachesEveryHook(m: Mux, h: Hook)
    ensures exists i :: 0 <= i < |Reset(m).commands| && Reset(m).commands[i] == ResetHook(h)
    ensures forall i, j :: 0 <= i < j < |Reset(m).commands| ==> Reset(m).commands[i] != Reset(m).commands[j]
  {
    var cmds := Reset(m).commands;
    match h
    case SearchHook => assert cmds[0] == ResetHook(h);
    case Popular => assert cmds[1] == ResetHook(h);
    case TopRatedHook => assert cmds[2] == ResetHook(h);
    case NowPlayingHook => assert cmds[3] == ResetHook(h);
  }

  /** Search mode holds exactly when the data comes from the search controller. */
  lemma SearchingIffSearchShown(m: Mux)
    ensures IsSearching(m) <==> Active(m) == SearchHook
  {
  }

  /** An unrecognised category is stored as given but shows popular's data. */
  lemma UnknownCategoryShowsPopular(m: Mux, c: string)
    requires c != TOP_RATED && c != NOW_PLAYING
    ensures ChangeCategory(m, c).state.category == c
    ensures Active(ChangeCategory(m, c).state) == Popular
  {
  }

  /** Every reachable state keeps `searchQuery` empty or with text. */
  ghost predicate Valid(m: Mux)
  {
    m.searchQuery == "" || !Blank(m.searchQuery)
  }

  lemma ActionsPreserveValid(m: Mux, c: string, q: Option<string>)
    requires Valid(m)
    ensures Valid(ChangeCategory(m, c).state) && Valid(HandleSearch(m, q).state) && Valid(Reset(m).state)
  {
  }
}
