/** Shapes shared by the paginated data controllers: the rendered listing, the
    ticket a started fetch carries to its completion, and the response shape. */
module Paging {
  import opened Js
  import opened Films

  /** The fields every paginated controller exposes to the UI. */
  datatype Listing = Listing(
    page: int,
    results: seq<Film>,
    totalPages: int,
    totalResults: int,
    loading: bool,
    error: Option<Thrown>
  )

  /** The listing a controller starts with and returns to on `reset`. */
  function Fresh(page: int): Listing
  {
    Listing(page, [], 0, 0, false, None)
  }

  /** What a started fetch remembers for its completion: its ticket (the value
      the request counter was bumped to) and the query and page it asked for. */
  datatype Request = Request(ticket: nat, query: string, page: int)

  /** The state after an operation, and the fetch it started, if any. */
  datatype Step<S> = Step(state: S, fetch: Option<Request>)

  /** The `results` field of a response: missing, a falsy non-array (`null`,
      `false`, `0`, `''`), or an array. */
  datatype ResultsField = Absent | Falsy | Items(films: seq<Film>)

  /** A resolved catalog response. `Nullish` is `null`/`undefined`, `Primitive`
      any other non-object; a `Body` is an object (an array is a `Body` with every
      field missing). Numeric fields are integers when present. */
  datatype Response =
    | Nullish
    | Primitive
    | Body(results: ResultsField, page: Option<int>, totalPages: Option<int>, totalResults: Option<int>)

  /** `x || d` for an optional numeric field: missing and 0 fall back to `d`. */
  function OrInt(o: Option<int>, d: int): int
  {
    if o.Some? && o.value != 0 then o.value else d
  }

  /** `x = d` in a destructuring pattern: only a missing field takes the default. */
  function OrDefault(o: Option<int>, d: int): int
  {
    if o.Some? then o.value else d
  }

  function Max(a: int, b: int): int
  {
    if a < b then b else a
  }

  /** The listing written by the controllers that read a response with `||`
      fallbacks and no shape checks (`useNowPlayingMovies`, `useTmdbSearch`).
      Reading a property of a null response throws instead, so it is excluded. */
  function Lenient(l: Listing, requested: int, r: Response): (n: Listing)
    requires !r.Nullish?
    ensures n.results == (if r.Body? && r.results.Items? then r.results.films else [])
    ensures n.totalPages == (if r.Body? then OrInt(r.totalPages, 0) else 0)
    ensures n.totalResults == (if r.Body? then OrInt(r.totalResults, 0) else 0)
    ensures n.page == (if r.Body? then OrInt(r.page, requested) else requested)
    ensures !n.loading && n.error == l.error
  {
    match r
    case Primitive => l.(results := [], totalPages := 0, totalResults := 0, page := requested, loading := false)
    case Body(res, pg, tp, tr) =>
      l.(results := if res.Items? then res.films else [],
         totalPages := OrInt(tp, 0),
         totalResults := OrInt(tr, 0),
         page := OrInt(pg, requested),
         loading := false)
  }

  /** A failure that stores the thrown value and keeps everything already shown. */
  function Recorded(l: Listing, e: Thrown): Listing
  {
    l.(error := Some(e), loading := false)
  }
}
