/** `useMovieDetails`: loads one film's details for the detail page. It keeps
    the previous details while loading and has no request counter. */
module MovieDetails {
  import opened Js

  datatype Details = Details(details: JsVal, loading: bool, error: Option<Thrown>)

  const EMPTY := Details(Null, false, None)

  datatype Started = Started(state: Details, fetch: Option<JsVal>)

  /** `fetchDetails(id)` up to its `await`. */
  function FetchDetails(s: Details, id: JsVal): (r: Started)
    ensures !Truthy(id) ==> r == Started(EMPTY, None)
    ensures Truthy(id) ==>
      r.fetch == Some(id) && r.state.loading && r.state.error.None? && r.state.details == s.details
  {
    if !Truthy(id) then Started(EMPTY, None)
    else Started(s.(loading := true, error := None), Some(id))
  }

  /** Resolution: details replaced, error as it was. */
  function Resolve(s: Details, data: JsVal): (r: Details)
    ensures r.details == data && !r.loading && r.error == s.error
  {
    s.(details := data, loading := false)
  }

  /** Rejection: error set and details dropped. */
  function Fail(s: Details, e: Thrown): (r: Details)
    ensures r == Details(Null, false, Some(e))
  {
    Details(Null, false, Some(e))
  }

  function Reset(s: Details): (r: Details)
    ensures r.details == Null && !r.loading && r.error.None?
  {
    EMPTY
  }

  // ---------------------------------------------------------------------------
  // Properties

  /** A falsy id behaves as `reset`. */
  lemma FalsyIdResets(s: Details, id: JsVal)
    requires !Truthy(id)
    ensures FetchDetails(s, id).state == Reset(s) && FetchDetails(s, id).fetch.None?
  {
  }

  /** Loading a second film while the first is still loading keeps showing
      the old details; whichever answer comes last is the one shown, so when
      the first film answers after the second, its details win. */
  lemma StaleDetailsWin(s: Details, a: JsVal, b: JsVal, da: JsVal, db: JsVal)
    requires Truthy(a) && Truthy(b)
    ensures
      var st := FetchDetails(FetchDetails(s, a).state, b).state;
      st.details == s.details && st.loading
      && Resolve(st, db).details == db
      && Resolve(Resolve(st, db), da).details == da
      && !Resolve(Resolve(st, db), da).loading
  {
  }

  /** After any completion `loading` is false, and a failure never leaves
      details behind. */
  lemma CompletionEndsLoading(s: Details, data: JsVal, e: Thrown)
    ensures !Resolve(s, data).loading && !Fail(s, e).loading
    ensures Fail(s, e).details == Null && Fail(s, e).error == Some(e)
  {
  }
}
