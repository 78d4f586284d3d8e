/** `FavoritesProvider`: favorites kept as a plain object from `String(id)` to
    a normalised film record. Persistence is left to the caller; the store
    here is the map the provider holds. */
module Favorites {
  import opened Js
  import opened Films

  /** A stored favorite as an object value: the normalised record the
      provider writes, or whatever value was loaded for that key. */
  type Store = map<string, JsVal>

  /** `String(film.id)` */
  function Key(f: Film): string
  {
    ToString(f.id)
  }

  /** A string field as a JavaScript value (missing is `undefined`). */
  function Text(o: Option<string>): JsVal
  {
    if o.Some? then Str(o.value) else Undefined
  }

  /** The record written for a new favorite. */
  function Normalize(f: Film): (r: JsVal)
    ensures Truthy(r)
    ensures r.Obj? && r.props.Keys == {"id", "title", "poster_path", "release_date"}
    ensures r.props["id"] == f.id
    ensures r.props["title"] == (if Present(f.title) then Str(f.title.value) else Text(f.name))
    ensures r.props["poster_path"] == (if Present(f.posterPath) then Str(f.posterPath.value) else Text(f.poster))
    ensures r.props["release_date"] == (if Present(f.releaseDate) then Str(f.releaseDate.value) else Text(f.firstAirDate))
  {
    Obj(map[
      "id" := f.id,
      "title" := Text(OrText(f.title, f.name)),
      "poster_path" := Text(OrText(f.posterPath, f.poster)),
      "release_date" := Text(OrText(f.releaseDate, f.firstAirDate))
    ])
  }

  /** `next[key]` is truthy: an own entry with a truthy value, or a name every
      object inherits (which `delete` then leaves in place). */
  predicate Listed(m: Store, key: string)
  {
    if key in m then Truthy(m[key]) else key in OBJECT_PROTOTYPE_NAMES
  }

  /** `toggleFavorite(film)`. */
  function Toggle(m: Store, f: Film): (r: Store)
    ensures Listed(m, Key(f)) ==> r == m - {Key(f)}
    ensures !Listed(m, Key(f)) ==> r == m[Key(f) := Normalize(f)]
    ensures forall k :: k != Key(f) ==> (k in r <==> k in m) && (k in r ==> r[k] == m[k])
  {
    var key := Key(f);
    if Listed(m, key) then m - {key} else m[key := Normalize(f)]
  }

  /** `clearFavorites()` */
  function Clear(): (r: Store)
    ensures |r| == 0
  {
    map[]
  }

  /** `count`: the number of own keys, stored values falsy or not. */
  function Count(m: Store): (n: nat)
    ensures n == 0 <==> m == map[]
    ensures forall key :: key in m ==> n >= 1
  {
    |m.Keys|
  }

  // ---------------------------------------------------------------------------
  // Properties

  /** A film is listed exactly when toggling it leaves no own entry, and a
      toggle flips whether it is listed, except for a key named like an
      inherited member, which stays listed. */
  lemma ToggleFlipsListed(m: Store, f: Film)
    ensures Listed(m, Key(f)) <==> Key(f) !in Toggle(m, f)
    ensures Listed(Toggle(m, f), Key(f)) <==> !Listed(m, Key(f)) || Key(f) in OBJECT_PROTOTYPE_NAMES
  {
  }

  /** A favorite that was not there, added and removed again, leaves the store
      exactly as it was. */
  lemma ToggleTwiceRestoresAbsent(m: Store, f: Film)
    requires Key(f) !in m && Key(f) !in OBJECT_PROTOTYPE_NAMES
    ensures Toggle(Toggle(m, f), f) == m
  {
    var once := Toggle(m, f);
    assert Listed(once, Key(f));
  }

  /** A favorite that was there, removed and added again, comes back under the
      same key (as a freshly normalised record): the key set is restored,
      unless the key is named like an inherited member, which cannot be re-added. */
  lemma ToggleTwiceRestoresPresent(m: Store, f: Film)
    requires Key(f) in m && Truthy(m[Key(f)]) && Key(f) !in OBJECT_PROTOTYPE_NAMES
    ensures Toggle(Toggle(m, f), f).Keys == m.Keys
    ensures Toggle(Toggle(m, f), f)[Key(f)] == Normalize(f)
  {
    var once := Toggle(m, f);
    assert Key(f) !in once;
  }

  /** A loaded entry with a falsy value counts as absent: toggling overwrites
      it with the record, and toggling again drops the key. */
  lemma FalsyEntryIsReplacedThenDropped(m: Store, f: Film)
    requires Key(f) in m && !Truthy(m[Key(f)])
    ensures Toggle(m, f)[Key(f)] == Normalize(f)
    ensures Toggle(Toggle(m, f), f) == m - {Key(f)}
  {
  }

  lemma RemoveCount(m: Store, key: string)
    requires key in m
    ensures |(m - {key}).Keys| == |m.Keys| - 1
  {
    assert (m - {key}).Keys == m.Keys - {key};
  }

  lemma InsertCount(m: Store, key: string, v: JsVal)
    ensures key !in m ==> |m[key := v].Keys| == |m.Keys| + 1
    ensures key in m ==> |m[key := v].Keys| == |m.Keys|
  {
    if key !in m {
      assert m[key := v].Keys == m.Keys + {key};
    } else {
      assert m[key := v].Keys == m.Keys;
    }
  }

  /** A toggle changes the count by exactly one, except for a key named like
      an inherited member, which toggling can never add. */
  lemma ToggleCount(m: Store, f: Film)
    ensures Listed(m, Key(f)) && Key(f) in m ==> Count(Toggle(m, f)) == Count(m) - 1
    ensures !Listed(m, Key(f)) && Key(f) !in m ==> Count(Toggle(m, f)) == Count(m) + 1
    ensures !Listed(m, Key(f)) && Key(f) in m ==> Count(Toggle(m, f)) == Count(m)
    ensures Key(f) !in m && Key(f) in OBJECT_PROTOTYPE_NAMES ==> Toggle(m, f) == m
  {
    var key := Key(f);
    if Listed(m, key) {
      if key in m {
        RemoveCount(m, key);
      }
    } else {
      InsertCount(m, key, Normalize(f));
    }
  }

  /** A film whose id is the number `n` and one whose id is the string of its
      digits are the same favorite. */
  lemma NumericAndStringIdsShareKey(f: Film, g: Film, n: int)
    requires f.id == Num(n) && g.id == Str(IntToString(n))
    ensures Key(f) == Key(g)
  {
  }

  /** Distinct numeric ids never collide. */
  lemma NumericKeysDistinct(f: Film, g: Film)
    requires f.id.Num? && g.id.Num? && f.id != g.id
    ensures Key(f) != Key(g)
  {
    if Key(f) == Key(g) {
      IntToStringInjective(f.id.n, g.id.n);
    }
  }
}
