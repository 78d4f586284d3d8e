/** `CardFilm`: the text and image a film card derives from its film. A
    missing `film` prop is the empty object, i.e. a film with every field
    missing. */
module CardFilm {
  import opened Js
  import opened Films
  import Favorites

  const UNTITLED := "Sem título"
  const IMAGE_BASE := "https://image.tmdb.org/t/p/w342"

  /** `film.title || film.name || 'Sem título'` */
  function Title(f: Film): (r: string)
    ensures r != ""
    ensures Present(f.title) ==> r == f.title.value
    ensures !Present(f.title) && Present(f.name) ==> r == f.name.value
    ensures !Present(f.title) && !Present(f.name) ==> r == UNTITLED
  {
    if Present(f.title) then f.title.value
    else if Present(f.name) then f.name.value
    else UNTITLED
  }

  /** `film.release_date || film.first_air_date || ''` */
  function Date(f: Film): (r: string)
    ensures r != "" <==> Present(f.releaseDate) || Present(f.firstAirDate)
    ensures Present(f.releaseDate) ==> r == f.releaseDate.value
    ensures !Present(f.releaseDate) && Present(f.firstAirDate) ==> r == f.firstAirDate.value
  {
    var d := OrText(f.releaseDate, f.firstAirDate);
    if d.Some? then d.value else ""
  }

  /** The year shown under the title: `''` for no date, the first four
      characters when they are digits (`/^(\d{4})/`), and otherwise whatever
      `new Date(date).getFullYear()` prints, which is not modelled (`None`). */
  function Year(date: string): (r: Option<string>)
    ensures date == "" ==> r == Some("")
    ensures r.Some? && r.value != "" ==> |date| >= 4 && AllDigits(r.value) && r.value == date[..4]
    ensures date != "" && (|date| < 4 || !AllDigits(date[..4])) ==> r.None?
    ensures |date| >= 4 && AllDigits(date[..4]) ==> r == Some(date[..4])
  {
    if date == "" then Some("")
    else if |date| >= 4 && AllDigits(date[..4]) then Some(date[..4])
    else None
  }

  /** The year of a date in ISO form is its first four digits. */
  lemma IsoDateYear(y: string, rest: string)
    requires |y| == 4 && AllDigits(y)
    ensures Year(y + rest) == Some(y)
  {
    assert (y + rest)[..4] == y;
  }

  lemma {:induction false} TestedDateYear()
    ensures Year("2020-01-01") == Some("2020")
  {
    assert "2020-01-01" == "2020" + "-01-01";
    IsoDateYear("2020", "-01-01");
  }

  /** `film.poster_path || film.poster || film.posterPath || ''` */
  function PosterPath(f: Film): (r: string)
    ensures r == "" <==> !Present(f.posterPath) && !Present(f.poster) && !Present(f.posterPathCamel)
    ensures Present(f.posterPath) ==> r == f.posterPath.value
    ensures !Present(f.posterPath) && Present(f.poster) ==> r == f.poster.value
    ensures !Present(f.posterPath) && !Present(f.poster) && Present(f.posterPathCamel) ==>
      r == f.posterPathCamel.value
  {
    var p := OrText(OrText(f.posterPath, f.poster), f.posterPathCamel);
    if p.Some? then p.value else ""
  }

  predicate StartsWith(s: string, prefix: string)
  {
    |prefix| <= |s| && s[..|prefix|] == prefix
  }

  /** The image source: none for an empty path, a full URL as it is, and a
      catalog path under the w342 image base. */
  function PosterSrc(path: string): (r: Option<string>)
    ensures r.None? <==> path == ""
    ensures r.Some? && StartsWith(path, "http") ==> r.value == path
    ensures r.Some? && !StartsWith(path, "http") ==> r.value == IMAGE_BASE + path
  {
    if path == "" then None
    else if StartsWith(path, "http") then Some(path)
    else Some(IMAGE_BASE + path)
  }

  /** Every image source starts with 'http', and feeding one back in leaves
      it as it is. */
  lemma {:induction false} PosterSrcIsUrl(path: string)
    requires path != ""
    ensures StartsWith(PosterSrc(path).value, "http")
    ensures PosterSrc(PosterSrc(path).value) == PosterSrc(path)
  {
    var r := PosterSrc(path).value;
    if !StartsWith(path, "http") {
      assert r[..4] == IMAGE_BASE[..4];
    }
  }

  /** The favourite button's accessible name. */
  function FavoriteLabel(title: string, isFavorite: bool): (r: string)
    ensures isFavorite ==> r == "Remover " + title + " dos favoritos"
    ensures !isFavorite ==> r == "Adicionar " + title + " aos favoritos"
  {
    if isFavorite then "Remover " + title + " dos favoritos"
    else "Adicionar " + title + " aos favoritos"
  }

  /** The label tells the two button states apart for every title. */
  lemma {:induction false} FavoriteLabelsDiffer(title: string)
    ensures FavoriteLabel(title, true) != FavoriteLabel(title, false)
  {
    assert FavoriteLabel(title, true)[0] == 'R';
    assert FavoriteLabel(title, false)[0] == 'A';
  }

  // ---------------------------------------------------------------------------
  // Cards of stored favorites

  /** A string property of a stored record, as the card reads it. */
  function TextProp(record: JsVal, key: string): Option<string>
  {
    if record.Obj? && key in record.props && record.props[key].Str? then Some(record.props[key].s) else None
  }

  /** The `film` prop a stored favorite record becomes: only the four fields
      the record keeps. */
  function FilmOf(record: JsVal): Film
  {
    var id := if record.Obj? && "id" in record.props then record.props["id"] else Undefined;
    Film(id, TextProp(record, "title"), None, TextProp(record, "poster_path"), None, None,
         TextProp(record, "release_date"), None)
  }

  /** The card of a stored favorite shows the same title and date as the card
      of the film it was made from, and the same poster unless the film's
      only poster was the camel-case `posterPath`, which the record drops. */
  lemma {:induction false} FavoriteCardMatchesFilmCard(f: Film)
    ensures Title(FilmOf(Favorites.Normalize(f))) == Title(f)
    ensures Date(FilmOf(Favorites.Normalize(f))) == Date(f)
    ensures PosterPath(FilmOf(Favorites.Normalize(f)))
         == (if Present(f.posterPath) || Present(f.poster) then PosterPath(f) else "")
  {
    var g := FilmOf(Favorites.Normalize(f));
    assert g.title == OrText(f.title, f.name);
    assert g.posterPath == OrText(f.posterPath, f.poster);
    assert g.releaseDate == OrText(f.releaseDate, f.firstAirDate);
  }
}
