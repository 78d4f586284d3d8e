/** What a call into the router amounts to, as seen by the navigation hooks:
    `navigate(path, options)`, `navigate(-1)`, handing the film to a modal
    callback, or nothing at all. */
module Router {
  import opened Js

  datatype Effect =
    | Stay
    | Push(path: string, options: JsVal)
    | Back
    | ModalOpen(data: JsVal)

  /** `v?.id` and `v?.film`, for keys that are own properties or nothing:
      `undefined` when `v` is null or undefined, the property of an object
      that has it, and `undefined` otherwise (a primitive or array has no
      `id` or `film` of its own). Inherited names such as `length` are not
      looked up. */
  function OptionalProp(v: JsVal, key: string): (r: JsVal)
    ensures Nullish(v) ==> r == Undefined
    ensures v.Obj? && key in v.props ==> r == v.props[key]
    ensures !v.Obj? ==> r == Undefined
  {
    match Get(v, key)
    case None => Undefined
    case Some(x) => x
  }

  /** `location.state` after `navigate(path, options)`: `options.state`, or
      `null` when no state, or an undefined one, was given. */
  function LocationState(options: JsVal): (r: JsVal)
    ensures !r.Undefined?
    ensures options.Obj? && "state" in options.props && !options.props["state"].Undefined? ==>
      r == options.props["state"]
    ensures !(options.Obj? && "state" in options.props && !options.props["state"].Undefined?) ==>
      r == Null
  {
    if options.Obj? && "state" in options.props && !options.props["state"].Undefined?
    then options.props["state"] else Null
  }

  /** `location.state?.film`, the film the detail page reads. */
  function FilmInState(options: JsVal): JsVal
  {
    OptionalProp(LocationState(options), "film")
  }

  /** A film handed over as `{ state: { film } }` is the film the detail page
      reads back, and no state at all reads back as no film. */
  lemma FilmInStateRoundTrip(film: JsVal)
    ensures FilmInState(Obj(map["state" := Obj(map["film" := film])])) == film
    ensures FilmInState(Undefined) == Undefined
    ensures FilmInState(Obj(map["state" := Undefined])) == Undefined
  {
  }
}
