/** The route table and the two route helpers, `getMovieDetailUrl` and
    `buildRoute`. `buildRoute` uses `String.prototype.replace` with a string
    pattern, so only the first occurrence is replaced and the replacement text
    goes through the `$` substitution patterns of that method. */
module AppConfig {
  import opened Js

  const HOME := "/"
  const FAVORITES := "/favorites"
  const MOVIE_DETAIL := "/movie/:id"
  const DETAIL_PREFIX := "/movie/"

  /** `getMovieDetailUrl(movieId)`: the template literal `/movie/${movieId}`. */
  function GetMovieDetailUrl(id: JsVal): (r: string)
    ensures |r| >= |DETAIL_PREFIX| && r[..|DETAIL_PREFIX|] == DETAIL_PREFIX
  {
    DETAIL_PREFIX + ToString(id)
  }

  // ---------------------------------------------------------------------------
  // First occurrence of a substring

  /** `p` occurs in `s` starting at position `j`. */
  predicate OccursAt(s: string, p: string, j: nat)
  {
    j + |p| <= |s| && s[j..j + |p|] == p
  }

  /** The first position at or after `i` where `p` occurs in `s`. */
  function FindFrom(s: string, p: string, i: nat): (r: Option<nat>)
    requires i <= |s|
    ensures r.Some? ==> i <= r.value && OccursAt(s, p, r.value)
    ensures r.Some? ==> forall j :: i <= j < r.value ==> !OccursAt(s, p, j)
    ensures r.None? ==> forall j :: i <= j ==> !OccursAt(s, p, j)
    decreases |s| - i
  {
    if i + |p| > |s| then None
    else if s[i..i + |p|] == p then Some(i)
    else FindFrom(s, p, i + 1)
  }

  /** `s.indexOf(p)`, with `None` for -1. */
  function IndexOf(s: string, p: string): (r: Option<nat>)
    ensures r.Some? ==> OccursAt(s, p, r.value)
    ensures r.Some? ==> forall j :: 0 <= j < r.value ==> !OccursAt(s, p, j)
    ensures r.None? ==> forall j: nat :: !OccursAt(s, p, j)
  {
    FindFrom(s, p, 0)
  }

  /** When `p`'s first character does not occur in `a`, the first occurrence of
      `p` in `a + p + b` is right after `a`. */
  lemma {:induction false} FirstAfterPrefix(a: string, p: string, b: string)
    requires |p| > 0 && p[0] !in a
    ensures IndexOf(a + p + b, p) == Some(|a|)
  {
    var s := a + p + b;
    assert s[|a|..|a| + |p|] == p;
    assert OccursAt(s, p, |a|);
    forall j: nat | j < |a| ensures !OccursAt(s, p, j) {
      assert s[j] == a[j];
      if j + |p| <= |s| {
        assert s[j..j + |p|][0] == s[j];
      }
    }
  }

  // ---------------------------------------------------------------------------
  // replace

  /** The replacement text after `$` substitution: `$$` is a dollar sign, `$&`
      the matched text, `` $` `` the text before the match and `$'` the text
      after it; a string pattern has no capture groups, so every other `$` is
      kept as written. */
  function Expand(repl: string, before: string, matched: string, after: string): (r: string)
    ensures '$' !in repl ==> r == repl
    ensures |repl| == 2 && repl[0] == '$' && repl[1] == '$' ==> r == "$"
    ensures |repl| == 2 && repl[0] == '$' && repl[1] == '&' ==> r == matched
    ensures |repl| == 2 && repl[0] == '$' && repl[1] == '`' ==> r == before
    ensures |repl| == 2 && repl[0] == '$' && repl[1] == '\'' ==> r == after
    decreases |repl|
  {
    if |repl| == 0 then ""
    else if repl[0] == '$' && |repl| >= 2 && repl[1] in "$&`'" then
      var piece := match repl[1]
        case '$' => "$"
        case '&' => matched
        case '`' => before
        case _ => after;
      piece + Expand(repl[2..], before, matched, after)
    else [repl[0]] + Expand(repl[1..], before, matched, after)
  }

  /** `s.replace(p, value)` for a string pattern and a string value. */
  function ReplaceFirst(s: string, p: string, value: string): (r: string)
    ensures IndexOf(s, p).None? ==> r == s
    ensures IndexOf(s, p).Some? && '$' !in value ==>
      var i := IndexOf(s, p).value;
      i + |p| <= |s| && r == s[..i] + value + s[i + |p|..]
  {
    match IndexOf(s, p)
    case None => s
    case Some(i) =>
      var after := s[i + |p|..];
      s[..i] + Expand(value, s[..i], p, after) + after
  }

  // ---------------------------------------------------------------------------
  // buildRoute

  /** `buildRoute(route, params)`: for each entry in order, the first `:key`
      is replaced by `String(value)`. */
  function BuildRoute(route: string, params: seq<(string, JsVal)>): (r: string)
    ensures params == [] ==> r == route
    decreases |params|
  {
    if params == [] then route
    else
      var (key, value) := params[0];
      BuildRoute(ReplaceFirst(route, ":" + key, ToString(value)), params[1..])
  }

  /** One parameter is one replacement. */
  lemma {:induction false} SingleParam(route: string, key: string, value: JsVal)
    ensures BuildRoute(route, [(key, value)]) == ReplaceFirst(route, ":" + key, ToString(value))
  {
    assert [(key, value)][1..] == [];
  }

  /** A parameter whose placeholder is not in the route changes nothing. */
  lemma AbsentPlaceholderIgnored(route: string, key: string, value: JsVal)
    requires IndexOf(route, ":" + key).None?
    ensures BuildRoute(route, [(key, value)]) == route
  {
    SingleParam(route, key, value);
  }

  /** Replacing the first occurrence in `a + p + b`, when `p` cannot start
      inside `a`. */
  lemma {:induction false} ReplaceAfterPrefix(a: string, p: string, b: string, v: string)
    requires |p| > 0 && p[0] !in a
    ensures ReplaceFirst(a + p + b, p, v) == a + Expand(v, a, p, b) + b
  {
    var s := a + p + b;
    FirstAfterPrefix(a, p, b);
    assert s[..|a|] == a;
    assert s[|a| + |p|..] == b;
  }

  /** ... which for dollar-free text is a plain substitution. */
  lemma {:induction false} ReplacePlainAfterPrefix(a: string, p: string, b: string, v: string)
    requires |p| > 0 && p[0] !in a && '$' !in v
    ensures ReplaceFirst(a + p + b, p, v) == a + v + b
  {
    ReplaceAfterPrefix(a, p, b, v);
  }

  /** The detail pattern with its placeholder replaced by dollar-free text. */
  lemma {:induction false} DetailPatternFilled(t: string)
    requires '$' !in t
    ensures ReplaceFirst(MOVIE_DETAIL, ":id", t) == DETAIL_PREFIX + t
  {
    assert MOVIE_DETAIL == DETAIL_PREFIX + ":id" + "";
    ReplacePlainAfterPrefix(DETAIL_PREFIX, ":id", "", t);
    assert DETAIL_PREFIX + t + "" == DETAIL_PREFIX + t;
  }

  /** The detail route built from an id is the detail URL of that id, as long
      as the id's text has no dollar sign. */
  lemma {:induction false} DetailRouteIsDetailUrl(id: JsVal)
    requires '$' !in ToString(id)
    ensures BuildRoute(MOVIE_DETAIL, [("id", id)]) == GetMovieDetailUrl(id)
  {
    assert ":" + "id" == ":id";
    SingleParam(MOVIE_DETAIL, "id", id);
    DetailPatternFilled(ToString(id));
  }

  /** Numeric ids in particular. */
  lemma NumericDetailRoute(n: int)
    ensures BuildRoute(MOVIE_DETAIL, [("id", Num(n))]) == GetMovieDetailUrl(Num(n))
  {
    NumeralChars(n);
    DetailRouteIsDetailUrl(Num(n));
  }

  /** Replacing the detail placeholder by `$&` puts the placeholder back. */
  lemma {:induction false} MatchedPatternRestores()
    ensures ReplaceFirst(MOVIE_DETAIL, ":id", "$&") == MOVIE_DETAIL
  {
    assert MOVIE_DETAIL == DETAIL_PREFIX + ":id" + "";
    ReplaceAfterPrefix(DETAIL_PREFIX, ":id", "", "$&");
    var amp := "$&";
    assert |amp| == 2 && amp[0] == '$' && amp[1] == '&';
  }

  /** A replacement text with `$&` puts the placeholder back: the id `"$&"`
      builds `/movie/:id`, not the detail URL. */
  lemma {:induction false} DollarPatternInId()
    ensures BuildRoute(MOVIE_DETAIL, [("id", Str("$&"))]) == MOVIE_DETAIL
    ensures GetMovieDetailUrl(Str("$&")) != MOVIE_DETAIL
  {
    assert ":" + "id" == ":id";
    SingleParam(MOVIE_DETAIL, "id", Str("$&"));
    MatchedPatternRestores();
    assert GetMovieDetailUrl(Str("$&"))[7] == '$';
  }

  /** Distinct numeric ids have distinct detail URLs. */
  lemma DetailUrlsDistinct(a: int, b: int)
    requires a != b
    ensures GetMovieDetailUrl(Num(a)) != GetMovieDetailUrl(Num(b))
  {
    if GetMovieDetailUrl(Num(a)) == GetMovieDetailUrl(Num(b)) {
      assert IntToString(a) == GetMovieDetailUrl(Num(a))[|DETAIL_PREFIX|..];
      assert IntToString(b) == GetMovieDetailUrl(Num(b))[|DETAIL_PREFIX|..];
      IntToStringInjective(a, b);
    }
  }

  /** Only the first occurrence of a placeholder is replaced. */
  lemma {:induction false} OnlyFirstOccurrence(v: string)
    requires '$' !in v
    ensures BuildRoute("/a/:id/:id", [("id", Str(v))]) == "/a/" + v + "/:id"
  {
    assert ":" + "id" == ":id";
    SingleParam("/a/:id/:id", "id", Str(v));
    TwoPlaceholders();
    ReplacePlainAfterPrefix("/a/", ":id", "/:id", v);
  }

  lemma TwoPlaceholders()
    ensures "/a/:id/:id" == "/a/" + ":id" + "/:id"
  {
  }
}
