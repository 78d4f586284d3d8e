/** `HomeHeader`: the headline and subtitle above the home listing. The
    category table is a plain object, so `HeaderAsWritten` keeps the lookup
    that also finds inherited members, and `Header` is the own-property
    lookup. */
module HomeHeader {
  import opened Js
  import Constants

  /** What the header renders: a search headline alone, or a category title
      with its subtitle (an undefined field renders as empty text). */
  datatype View = SearchHeadline(headline: string) | CategoryHeading(title: string, subtitle: string)

  datatype Info = Info(title: string, subtitle: string)

  const CATEGORY_INFO: map<string, Info> := map[
    "popular" := Info("Populares", "Filmes populares no momento"),
    "top-rated" := Info("Mais Avaliados", "Filmes com as melhores avaliações"),
    "now-playing" := Info("Em Cartaz", "Filmes em exibição nos cinemas")
  ]

  /** The `category = 'popular'` default applies only to an undefined prop. */
  function CategoryKey(category: Option<string>): string
  {
    if category.Some? then category.value else "popular"
  }

  /** `'Resultados para "' + query.trim() + '"'` */
  function Headline(query: string): string
  {
    "Resultados para \"" + Trim(query) + "\""
  }

  /** `categoryInfo[category] || categoryInfo.popular` followed by reading
      `title` and `subtitle`: an inherited member has neither. */
  function HeaderAsWritten(query: Option<string>, category: Option<string>): (r: View)
    ensures r.SearchHeadline? <==> !BlankOrMissing(query)
  {
    if !BlankOrMissing(query) then SearchHeadline(Headline(query.value))
    else
      var key := CategoryKey(category);
      if key in CATEGORY_INFO then CategoryHeading(CATEGORY_INFO[key].title, CATEGORY_INFO[key].subtitle)
      else if key in OBJECT_PROTOTYPE_NAMES then CategoryHeading("", "")
      else CategoryHeading(CATEGORY_INFO["popular"].title, CATEGORY_INFO["popular"].subtitle)
  }

  /** The category `'valueOf'` renders an empty heading. */
  lemma InheritedNameRendersEmptyHeading()
    ensures HeaderAsWritten(None, Some("valueOf")) == CategoryHeading("", "")
  {
  }

  /** The header with an own-property lookup of the category. */
  function Header(query: Option<string>, category: Option<string>): (r: View)
    ensures r.SearchHeadline? <==> !BlankOrMissing(query)
    ensures r.SearchHeadline? ==> r.headline == Headline(query.value)
    ensures r.CategoryHeading? ==> Info(r.title, r.subtitle) in CATEGORY_INFO.Values && r.title != ""
    ensures r.CategoryHeading? && CategoryKey(category) !in CATEGORY_INFO ==>
      Info(r.title, r.subtitle) == CATEGORY_INFO["popular"]
  {
    if !BlankOrMissing(query) then SearchHeadline(Headline(query.value))
    else
      var key := if CategoryKey(category) in CATEGORY_INFO then CategoryKey(category) else "popular";
      assert CATEGORY_INFO[key] in CATEGORY_INFO.Values;
      CategoryHeading(CATEGORY_INFO[key].title, CATEGORY_INFO[key].subtitle)
  }

  /** Off the inherited names the header as written is the corrected one. */
  lemma AsWrittenAgreesOffPrototype(query: Option<string>, category: Option<string>)
    requires CategoryKey(category) !in OBJECT_PROTOTYPE_NAMES
    ensures HeaderAsWritten(query, category) == Header(query, category)
  {
  }

  /** The heading's title is the category's label, and no category supplied
      means popular. */
  lemma TitleIsCategoryLabel(category: Option<string>)
    ensures Header(None, category).title == Constants.GetCategoryLabel(category)
    ensures Header(None, None) == CategoryHeading("Populares", "Filmes populares no momento")
  {
  }

  /** Surrounding whitespace does not reach the headline: the query
      `'  batman '` reads `Resultados para "batman"`. */
  lemma {:induction false} SearchHeadlineTrims(q: string)
    requires q != "" && !IsSpace(q[0]) && !IsSpace(q[|q| - 1])
    ensures Header(Some("  " + q + " "), None) == SearchHeadline("Resultados para \"" + q + "\"")
  {
    TrimPadded("  ", q, " ");
    assert !BlankOrMissing(Some("  " + q + " "));
  }
}
