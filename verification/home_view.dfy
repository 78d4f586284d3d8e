/** `HomeView`: the caption it hands to the pagination control. */
module HomeView {
  import opened Js
  import Constants

  /** The view's own `getCategoryLabel`, a `switch` on the category. */
  function CategoryLabel(category: Option<string>): (r: string)
    ensures r in {"Populares", "Mais Avaliados", "Em Cartaz"}
  {
    match category
    case Some("top-rated") => "Mais Avaliados"
    case Some("now-playing") => "Em Cartaz"
    case _ => "Populares"
  }

  /** The switch and the corrected table lookup agree on every category. */
  lemma CategoryLabelsAgree(category: Option<string>)
    ensures CategoryLabel(category) == Constants.GetCategoryLabel(category)
  {
  }

  /** `query && query.trim() ? 'Busca' : getCategoryLabel(category)` */
  function PaginationCaption(query: Option<string>, category: Option<string>): (r: string)
    ensures r == "Busca" <==> !BlankOrMissing(query)
    ensures BlankOrMissing(query) ==> r == Constants.GetCategoryLabel(category)
    ensures r != ""
  {
    if !BlankOrMissing(query) then "Busca" else CategoryLabel(category)
  }
}
