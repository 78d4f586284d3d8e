/** `useNavigation`: the router-facing navigation helpers and the `handleNavigate`
    dispatch table of the newer pages. Warnings written to the console are not
    modelled. */
module Navigation {
  import opened Js
  import opened Router
  import AppConfig

  /** `navigateToMovie(movieId, movieData)`: nothing for a falsy id; otherwise
      a push of the detail URL, with `{ state: { film } }` only when film data
      is given. */
  function NavigateToMovie(id: JsVal, data: JsVal): (r: Effect)
    ensures r.Stay? <==> !Truthy(id)
    ensures r.Push? ==> r.path == AppConfig.GetMovieDetailUrl(id)
    ensures r.Push? ==> (r.options.Undefined? <==> !Truthy(data))
    ensures r.Push? && Truthy(data) ==> FilmInState(r.options) == data
    ensures r.Stay? || r.Push?
  {
    if !Truthy(id) then Stay
    else
      var options := if Truthy(data) then Obj(map["state" := Obj(map["film" := data])]) else Undefined;
      Push("/movie/" + ToString(id), options)
  }

  /** `handleNavigate(type, data, options)`, where `hasModalCallback` says
      whether `options.onModalOpen` is truthy. */
  function HandleNavigate(kind: string, data: JsVal, hasModalCallback: bool): (r: Effect)
    ensures kind == "detail" ==> r == NavigateToMovie(OptionalId(data), data)
    ensures kind == "home" ==> r == Push(AppConfig.HOME, Undefined)
    ensures kind == "favorites" ==> r == Push(AppConfig.FAVORITES, Undefined)
    ensures kind == "back" ==> r == Back
    ensures kind == "modal" ==>
      r == (if hasModalCallback && Truthy(OptionalId(data)) then ModalOpen(data) else Stay)
    ensures kind !in {"detail", "home", "favorites", "back", "modal"} ==> r == Stay
  {
    match kind
    case "detail" =>
      var id := OptionalId(data);
      if Truthy(id) then NavigateToMovie(id, data) else Stay
    case "home" => Push("/", Undefined)
    case "favorites" => Push("/favorites", Undefined)
    case "back" => Back
    case "modal" => if hasModalCallback && Truthy(OptionalId(data)) then ModalOpen(data) else Stay
    case _ => Stay
  }

  /** `data?.id` */
  function OptionalId(data: JsVal): JsVal
  {
    OptionalProp(data, "id")
  }

  /** A detail navigation carries the film it was given: the detail page
      reads back exactly that object. */
  lemma DetailCarriesFilm(data: JsVal)
    requires Truthy(OptionalId(data))
    ensures var r := HandleNavigate("detail", data, false);
      r.Push? && r.path == AppConfig.GetMovieDetailUrl(OptionalId(data)) && FilmInState(r.options) == data
  {
    assert data.Obj?;
  }

  /** The modal case never touches the router. */
  lemma ModalNeverNavigates(data: JsVal, hasModalCallback: bool)
    ensures !HandleNavigate("modal", data, hasModalCallback).Push?
    ensures !HandleNavigate("modal", data, hasModalCallback).Back?
  {
  }
}
