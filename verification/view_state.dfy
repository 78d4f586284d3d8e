/** `useViewState`, `useViewActions` and `useViewAccessibility`: which of the
    four screen states a list view is in, the handlers its state views get,
    and the ARIA attributes announced for each state. */
module ViewState {
  import opened Js

  /** The four objects `useViewState` can return, by their `type`. */
  datatype View =
    | ErrorState(error: JsVal)
    | Loading
    | Empty(isSearch: bool, query: Option<string>)
    | Success(itemCount: JsVal)

  /** The `type` field. */
  function TypeName(v: View): string
  {
    match v
    case ErrorState(_) => "error"
    case Loading => "loading"
    case Empty(_, _) => "empty"
    case Success(_) => "success"
  }

  /** The boolean fields every result carries. */
  predicate HasItems(v: View) { v.Success? }
  predicate IsLoading(v: View) { v.Loading? }
  predicate IsEmpty(v: View) { v.Empty? }
  predicate ShowHeader(v: View) { v.Loading? || v.Success? }
  predicate ShowPagination(v: View) { v.Success? }

  /** `items.length` */
  function LengthOf(items: JsVal): JsVal
  {
    match items
    case Arr(xs) => Num(|xs|)
    case Str(s) => Num(|s|)
    case Obj(m) => if "length" in m then m["length"] else Undefined
    case _ => Undefined
  }

  /** `!items || items.length === 0` */
  predicate NoItems(items: JsVal)
  {
    !Truthy(items) || LengthOf(items) == Num(0)
  }

  /** `useViewState({ items, loading, error, query })`. */
  function Classify(items: JsVal, loading: JsVal, error: JsVal, query: Option<string>): (r: View)
    ensures r.ErrorState? <==> Truthy(error)
    ensures r.ErrorState? ==> r.error == error
    ensures r.Loading? <==> !Truthy(error) && Truthy(loading)
    ensures r.Empty? <==> !Truthy(error) && !Truthy(loading) && NoItems(items)
    ensures r.Empty? ==> r.query == query && (r.isSearch <==> !BlankOrMissing(query))
    ensures r.Success? ==> r.itemCount == LengthOf(items)
  {
    if Truthy(error) then ErrorState(error)
    else if Truthy(loading) then Loading
    else if NoItems(items) then Empty(!BlankOrMissing(query), query)
    else Success(LengthOf(items))
  }

  /** At most one of `hasItems`, `isLoading` and `isEmpty` holds, and the
      header is hidden exactly in the error and empty states. */
  lemma FlagsExclusive(items: JsVal, loading: JsVal, error: JsVal, query: Option<string>)
    ensures var v := Classify(items, loading, error, query);
      (if HasItems(v) then 1 else 0) + (if IsLoading(v) then 1 else 0) + (if IsEmpty(v) then 1 else 0) <= 1
    ensures var v := Classify(items, loading, error, query);
      !ShowHeader(v) <==> v.ErrorState? || v.Empty?
  {
  }

  /** A non-empty list that is neither loading nor failed shows the header
      and the pagination, and its count is the array's length; an empty one
      shows neither. */
  lemma {:induction false} ListStates(xs: seq<JsVal>, query: Option<string>)
    ensures var v := Classify(Arr(xs), Bool(false), Null, query);
      (|xs| > 0 ==> v == Success(Num(|xs|)) && ShowHeader(v) && ShowPagination(v))
      && (|xs| == 0 ==> v == Empty(!BlankOrMissing(query), query) && !ShowHeader(v) && !ShowPagination(v))
  {
    assert Truthy(Arr(xs));
    assert LengthOf(Arr(xs)) == Num(|xs|);
  }

  // ---------------------------------------------------------------------------
  // useViewActions

  /** A handler: the caller's, or the empty function put in its place. */
  datatype Handler<F> = NoOp | Given(f: F)

  datatype Actions<F> = Actions(retry: Handler<F>, navigate: Handler<F>)

  /** `onRetry || (() => {})` for a callback that may be absent. */
  function OrNoOp<F>(cb: Option<F>): (r: Handler<F>)
    ensures r.NoOp? <==> cb.None?
    ensures cb.Some? ==> r.f == cb.value
  {
    if cb.Some? then Given(cb.value) else NoOp
  }

  /** `useViewActions({ onRetry, onNavigate })`: both handlers are always
      there; each is the caller's callback when one was given and the empty
      function exactly when none was. */
  function ViewActions<F>(onRetry: Option<F>, onNavigate: Option<F>): (r: Actions<F>)
    ensures r.retry.NoOp? <==> onRetry.None?
    ensures onRetry.Some? ==> r.retry == Given(onRetry.value)
    ensures r.navigate.NoOp? <==> onNavigate.None?
    ensures onNavigate.Some? ==> r.navigate == Given(onNavigate.value)
  {
    Actions(OrNoOp(onRetry), OrNoOp(onNavigate))
  }

  /** The callback a handler calls through to, if any. */
  function CallsThrough<F>(h: Handler<F>): Option<F>
  {
    if h.Given? then Some(h.f) else None
  }

  /** Each handler calls through to exactly the callback it was built from,
      and neither depends on the other callback. */
  lemma ViewActionsCallThrough<F>(onRetry: Option<F>, onNavigate: Option<F>, other: Option<F>)
    ensures CallsThrough(ViewActions(onRetry, onNavigate).retry) == onRetry
    ensures CallsThrough(ViewActions(onRetry, onNavigate).navigate) == onNavigate
    ensures ViewActions(onRetry, onNavigate).retry == ViewActions(onRetry, other).retry
    ensures ViewActions(onRetry, onNavigate).navigate == ViewActions(other, onNavigate).navigate
  {
  }

  // ---------------------------------------------------------------------------
  // useViewAccessibility

  type Attributes = map<string, string>

  const BASE: Attributes := map["aria-live" := "polite", "role" := "status"]

  /** `useViewAccessibility(stateType, context = '')`. */
  function Accessibility(stateType: string, context: Option<string>): (r: Attributes)
    ensures stateType == "error" ==> r == map["aria-live" := "assertive", "role" := "alert"]
    ensures stateType == "loading" ==>
      r == BASE["aria-label" := "Carregando " + (if context.Some? then context.value else "")]
    ensures stateType == "empty" ==>
      r == BASE["aria-label" := "Nenhum resultado " + (if Present(context) then "para " + context.value else "")]
    ensures stateType == "success" ==>
      r == map["aria-label" := "Resultados " + (if Present(context) then "de " + context.value else "")]
    ensures stateType !in {"error", "loading", "empty", "success"} ==> r == BASE
  {
    var ctx := if context.Some? then context.value else "";
    match stateType
    case "error" => BASE["aria-live" := "assertive"]["role" := "alert"]
    case "loading" => BASE["aria-label" := "Carregando " + ctx]
    case "empty" => BASE["aria-label" := "Nenhum resultado " + (if ctx != "" then "para " + ctx else "")]
    case "success" => map["aria-label" := "Resultados " + (if ctx != "" then "de " + ctx else "")]
    case _ => BASE
  }

  /** Every state of the classifier is announced as a live region except the
      success state, whose attributes carry only a label; only errors are
      announced assertively. */
  lemma ClassifiedStateAnnouncements(items: JsVal, loading: JsVal, error: JsVal, query: Option<string>, context: Option<string>)
    ensures var v := Classify(items, loading, error, query);
      var a := Accessibility(TypeName(v), context);
      ("aria-live" in a <==> !v.Success?)
      && ("aria-live" in a && a["aria-live"] == "assertive" <==> Truthy(error))
      && ("aria-label" in a <==> !v.ErrorState?)
  {
  }
}
