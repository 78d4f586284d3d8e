/** `useAppNavigation`: the navigation helpers of the legacy shell and their
    three-way `handleNavigate` dispatch table. */
module AppNavigation {
  import opened Js
  import opened Router
  import AppConfig
  import Navigation

  /** `navigateToMovieDetail(movieId, movie)`: nothing for a falsy id;
      otherwise a push of the detail URL whose options always hold a `state`
      key, `{ film: movie }` or `undefined`. */
  function NavigateToMovieDetail(id: JsVal, movie: JsVal): (r: Effect)
    ensures r.Stay? <==> !Truthy(id)
    ensures r.Push? ==> r.path == AppConfig.GetMovieDetailUrl(id)
    ensures r.Push? ==> r.options.Obj? && "state" in r.options.props
    ensures r.Push? ==> FilmInState(r.options) == (if Truthy(movie) then movie else Undefined)
    ensures r.Stay? || r.Push?
  {
    if !Truthy(id) then Stay
    else
      var state := if Truthy(movie) then Obj(map["film" := movie]) else Undefined;
      Push("/movie/" + ToString(id), Obj(map["state" := state]))
  }

  /** `handleNavigate(type, item)`. */
  function HandleNavigate(kind: string, item: JsVal): (r: Effect)
    ensures kind == "detail" ==> r == NavigateToMovieDetail(OptionalProp(item, "id"), item)
    ensures kind == "home" ==> r == Push(AppConfig.HOME, Undefined)
    ensures kind == "favorites" ==> r == Push(AppConfig.FAVORITES, Undefined)
    ensures kind !in {"detail", "home", "favorites"} ==> r == Stay
  {
    match kind
    case "detail" =>
      var id := OptionalProp(item, "id");
      if Truthy(id) then NavigateToMovieDetail(id, item) else Stay
    case "home" => Push("/", Undefined)
    case "favorites" => Push("/favorites", Undefined)
    case _ => Stay
  }

  /** The two dispatch tables agree on 'detail', 'home' and 'favorites' (the
      detail page sees the same film), and this one ignores 'back' and 'modal'. */
  lemma DispatchTablesAgree(kind: string, item: JsVal, hasModalCallback: bool)
    ensures kind in {"home", "favorites"} ==>
      HandleNavigate(kind, item) == Navigation.HandleNavigate(kind, item, hasModalCallback)
    ensures kind == "detail" ==>
      var a := HandleNavigate(kind, item);
      var b := Navigation.HandleNavigate(kind, item, hasModalCallback);
      a.Stay? == b.Stay? && (a.Push? ==> b.Push? && a.path == b.path && FilmInState(a.options) == FilmInState(b.options))
    ensures kind in {"back", "modal"} ==> HandleNavigate(kind, item) == Stay
    ensures HandleNavigate("back", item) != Navigation.HandleNavigate("back", item, hasModalCallback)
  {
    if kind == "detail" && Truthy(OptionalProp(item, "id")) {
      assert item.Obj?;
    }
  }

  /** Without film data the two helpers push the same path but different
      options: `undefined` there, `{ state: undefined }` here. */
  lemma OptionsWithoutFilm(id: JsVal)
    requires Truthy(id)
    ensures NavigateToMovieDetail(id, Undefined).options == Obj(map["state" := Undefined])
    ensures Navigation.NavigateToMovie(id, Undefined).options == Undefined
    ensures FilmInState(NavigateToMovieDetail(id, Undefined).options) == Undefined
  {
  }
}
