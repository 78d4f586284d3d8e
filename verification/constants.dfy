/** The category tables of the views and `getCategoryLabel`. The table is a
    plain object, so a computed lookup also finds the members every object
    inherits; `GetCategoryLabelAsWritten` keeps that behaviour and
    `GetCategoryLabel` is the own-property lookup the rest of the model uses. */
module Constants {
  import opened Js

  const POPULAR := "popular"
  const TOP_RATED := "top-rated"
  const NOW_PLAYING := "now-playing"

  const MOVIE_CATEGORIES: set<string> := {POPULAR, TOP_RATED, NOW_PLAYING}

  const CATEGORY_LABELS: map<string, string> :=
    map[POPULAR := "Populares", TOP_RATED := "Mais Avaliados", NOW_PLAYING := "Em Cartaz"]

  /** The label table covers exactly the three categories. */
  lemma LabelTableKeys()
    ensures CATEGORY_LABELS.Keys == MOVIE_CATEGORIES
    ensures CATEGORY_LABELS[POPULAR] == "Populares"
  {
  }

  /** `String(category)`, the property key a computed lookup uses. */
  function PropertyKey(category: Option<string>): string
  {
    if category.Some? then category.value else "undefined"
  }

  /** What `CATEGORY_LABELS[category] || CATEGORY_LABELS.popular` evaluates
      to: a label, or an inherited member (a function, or the prototype
      object itself for `__proto__`), which is truthy and so is returned. */
  datatype LabelLookup = Label(text: string) | Inherited(name: string)

  function GetCategoryLabelAsWritten(category: Option<string>): (r: LabelLookup)
    ensures r.Inherited? <==> PropertyKey(category) !in CATEGORY_LABELS && PropertyKey(category) in OBJECT_PROTOTYPE_NAMES
  {
    var key := PropertyKey(category);
    if key in CATEGORY_LABELS then Label(CATEGORY_LABELS[key])
    else if key in OBJECT_PROTOTYPE_NAMES then Inherited(key)
    else Label(CATEGORY_LABELS[POPULAR])
  }

  /** The category `'toString'` gets a function back, not a label. */
  lemma InheritedNameIsNotALabel()
    ensures GetCategoryLabelAsWritten(Some("toString")) == Inherited("toString")
    ensures GetCategoryLabelAsWritten(Some("constructor")).Inherited?
  {
  }

  /** `getCategoryLabel(category)` with an own-property lookup. */
  function GetCategoryLabel(category: Option<string>): (r: string)
    ensures r in CATEGORY_LABELS.Values
    ensures category == Some(TOP_RATED) <==> r == "Mais Avaliados"
    ensures category == Some(NOW_PLAYING) <==> r == "Em Cartaz"
    ensures category != Some(TOP_RATED) && category != Some(NOW_PLAYING) <==> r == "Populares"
  {
    var key := PropertyKey(category);
    assert CATEGORY_LABELS[POPULAR] in CATEGORY_LABELS.Values;
    if key in CATEGORY_LABELS then
      assert CATEGORY_LABELS[key] in CATEGORY_LABELS.Values;
      CATEGORY_LABELS[key]
    else CATEGORY_LABELS[POPULAR]
  }

  /** Off the inherited names the code as written returns the same label. */
  lemma AsWrittenAgreesOffPrototype(category: Option<string>)
    requires PropertyKey(category) !in OBJECT_PROTOTYPE_NAMES
    ensures GetCategoryLabelAsWritten(category) == Label(GetCategoryLabel(category))
  {
  }
}
