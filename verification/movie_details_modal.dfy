/** `useMovieDetailsModal`: opens a modal, loads one film's details into it
    and validates them. Like the legacy shell it has no request counter. */
module MovieDetailsModal {
  import opened Js
  import opened Films

  const DATA_MISSING := "Resposta de detalhes inválida - dados não encontrados"
  const FIELDS_MISSING := "Resposta de detalhes inválida - campos obrigatórios ausentes"
  const UNKNOWN_FAILURE := "Erro desconhecido ao carregar detalhes"

  /** `error` is the message of the `Error` the hook stores. */
  datatype Modal = Modal(open: bool, loading: bool, details: JsVal, error: Option<string>)

  const CLOSED := Modal(false, false, Null, None)

  datatype Opened = Opened(state: Modal, fetch: Option<JsVal>)

  /** `openModal(film)` up to its `await`: a film without an id changes nothing. */
  function OpenModal(s: Modal, film: Option<Film>): (r: Opened)
    ensures !HasId(film) ==> r == Opened(s, None)
    ensures HasId(film) ==> r.state == Modal(true, true, Null, None) && r.fetch == Some(film.value.id)
  {
    if !HasId(film) then Opened(s, None)
    else Opened(Modal(true, true, Null, None), Some(film.value.id))
  }

  /** True when `v.key` is truthy. */
  predicate HasTruthy(v: JsVal, key: string)
  {
    var x := Get(v, key);
    x.Some? && Truthy(x.value)
  }

  /** The two checks on a resolved value: the message it is rejected with, or
      `None` when it is accepted. */
  function Validate(data: JsVal): (r: Option<string>)
    ensures r.None? <==> (data.Obj? || data.Arr?)
                         && (HasTruthy(data, "id") || HasTruthy(data, "title") || HasTruthy(data, "name"))
    ensures !(data.Obj? || data.Arr?) ==> r == Some(DATA_MISSING)
    ensures (data.Obj? || data.Arr?) && r.Some? ==> r == Some(FIELDS_MISSING)
  {
    if !Truthy(data) || !(data.Obj? || data.Arr?) then Some(DATA_MISSING)
    else if !HasTruthy(data, "id") && !HasTruthy(data, "title") && !HasTruthy(data, "name") then Some(FIELDS_MISSING)
    else None
  }

  /** The message the catch block stores. */
  function FailureMessage(e: Thrown): string
  {
    if e.ErrorWith? then e.message else UNKNOWN_FAILURE
  }

  /** Rejection with `e`: the error is set, details and `open` kept. */
  function Fail(s: Modal, e: Thrown): (r: Modal)
    ensures r.open == s.open && r.details == s.details && !r.loading
    ensures r.error == Some(if e.ErrorWith? then e.message else UNKNOWN_FAILURE)
  {
    s.(loading := false, error := Some(FailureMessage(e)))
  }

  /** Resolution with `data`: accepted data replaces the details and keeps
      `open` and `error`; rejected data takes the failure path. */
  function Resolve(s: Modal, data: JsVal): (r: Modal)
    ensures Validate(data).None? ==>
      r.details == data && r.open == s.open && r.error == s.error && !r.loading
    ensures Validate(data).Some? ==> r == Fail(s, ErrorWith(Validate(data).value))
  {
    match Validate(data)
    case None => s.(loading := false, details := data)
    case Some(m) => Fail(s, ErrorWith(m))
  }

  /** `closeModal()` */
  function CloseModal(s: Modal): (r: Modal)
    ensures !r.open && !r.loading && r.details == Null && r.error.None?
  {
    CLOSED
  }

  // ---------------------------------------------------------------------------
  // Properties

  /** Validation does not depend on the extra fields: an object with a title
      only is accepted, an object with none of the three is refused with the
      missing-fields message, and `null` with the missing-data message. */
  lemma ValidationExamples(title: string, other: map<string, JsVal>)
    requires title != "" && "id" !in other && "title" !in other && "name" !in other
    ensures Validate(Obj(other["title" := Str(title)])).None?
    ensures Validate(Obj(other)) == Some(FIELDS_MISSING)
    ensures Validate(Null) == Some(DATA_MISSING) && Validate(Str(title)) == Some(DATA_MISSING)
  {
  }

  /** A completion after `closeModal` updates details or error but the modal
      stays closed and not loading. */
  lemma CompletionAfterCloseStaysClosed(s: Modal, data: JsVal, e: Thrown)
    ensures !Resolve(CloseModal(s), data).open && !Resolve(CloseModal(s), data).loading
    ensures Validate(data).None? ==> Resolve(CloseModal(s), data).details == data
    ensures !Fail(CloseModal(s), e).open && Fail(CloseModal(s), e).error.Some?
  {
  }

  /** Opening a second film before the first answers does not protect against
      the first answer: it lands on the second film's modal. */
  lemma FirstAnswerLandsOnSecondModal(s: Modal, a: Film, b: Film, data: JsVal)
    requires Truthy(a.id) && Truthy(b.id) && Validate(data).None?
    ensures
      var second := OpenModal(OpenModal(s, Some(a)).state, Some(b));
      second.fetch == Some(b.id) && Resolve(second.state, data).details == data
  {
  }

  /** One of the four screens the modal can show: closed, loading, showing
      details, or showing an error. */
  ghost predicate Consistent(s: Modal)
  {
    || s == CLOSED
    || s == Modal(true, true, Null, None)
    || (s.open && !s.loading && s.details != Null && s.error.None?)
    || (s.open && !s.loading && s.details == Null && s.error.Some?)
  }

  /** Opening a film and then either completing the fetch or closing always
      leaves the modal on exactly one of the four screens. A completion that
      arrives after `closeModal` does not (see CompletionAfterCloseStaysClosed). */
  lemma OpenThenCompleteConsistent(s: Modal, film: Film, data: JsVal, e: Thrown)
    requires Truthy(film.id)
    ensures Consistent(OpenModal(s, Some(film)).state)
    ensures Consistent(Resolve(OpenModal(s, Some(film)).state, data))
    ensures Consistent(Fail(OpenModal(s, Some(film)).state, e))
    ensures Consistent(CloseModal(s))
    ensures Consistent(CloseModal(Resolve(OpenModal(s, Some(film)).state, data)))
  {
    if Validate(data).None? {
      assert data.Obj? || data.Arr?;
    }
  }
}
