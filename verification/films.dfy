/** The movie record the catalog returns and the UI passes around. Every field
    may be missing; text fields are strings when present. */
module Films {
  import opened Js

  datatype Film = Film(
    id: JsVal,
    title: Option<string>,
    name: Option<string>,
    posterPath: Option<string>,      // `poster_path`
    poster: Option<string>,          // `poster`
    posterPathCamel: Option<string>, // `posterPath`
    releaseDate: Option<string>,     // `release_date`
    firstAirDate: Option<string>     // `first_air_date`
  )

  /** `film?.id` is truthy, for a film argument that may itself be null or undefined. */
  predicate HasId(f: Option<Film>)
  {
    f.Some? && Truthy(f.value.id)
  }
}
