/**
 * The diagnosis form (`PopupDiagnostico`): five text fields stored trimmed,
 * the validity check that enables submission, and the error shown on failure.
 */
module PopupDiagnostico {
  import opened Wrappers
  import opened JsString

  /** The `form` record, in its key order. */
  datatype Form = Form(nota_terapeuta: string, diagnostico: string, tratamiento_recomendado: string,
                       estado_emocional_inicio: string, estado_emocional_final: string)

  /** The `name` attribute of the input that changed. */
  datatype FieldName = NotaTerapeuta | Diagnostico | TratamientoRecomendado | EstadoInicio | EstadoFinal

  const EmptyForm := Form("", "", "", "", "")

  function FieldOf(f: Form, name: FieldName): string {
    match name
    case NotaTerapeuta => f.nota_terapeuta
    case Diagnostico => f.diagnostico
    case TratamientoRecomendado => f.tratamiento_recomendado
    case EstadoInicio => f.estado_emocional_inicio
    case EstadoFinal => f.estado_emocional_final
  }

  /** `Object.values(form)`. */
  function Values(f: Form): (vs: seq<string>)
    ensures |vs| == 5
  {
    [f.nota_terapeuta, f.diagnostico, f.tratamiento_recomendado, f.estado_emocional_inicio, f.estado_emocional_final]
  }

  /** `Values` lists each field exactly once. */
  lemma ValuesAreFields(f: Form)
    ensures forall n :: FieldOf(f, n) in Values(f)
    ensures forall v :: v in Values(f) ==> exists n :: v == FieldOf(f, n)
  {
    forall v | v in Values(f) ensures exists n :: v == FieldOf(f, n) {
      if v == f.nota_terapeuta { assert v == FieldOf(f, NotaTerapeuta); }
      else if v == f.diagnostico { assert v == FieldOf(f, Diagnostico); }
      else if v == f.tratamiento_recomendado { assert v == FieldOf(f, TratamientoRecomendado); }
      else if v == f.estado_emocional_inicio { assert v == FieldOf(f, EstadoInicio); }
      else { assert v == FieldOf(f, EstadoFinal); }
    }
  }

  /** `{ ...prev, [name]: value }`. */
  function WithField(f: Form, name: FieldName, value: string): (r: Form)
    ensures FieldOf(r, name) == value
    ensures forall other :: other != name ==> FieldOf(r, other) == FieldOf(f, other)
  {
    match name
    case NotaTerapeuta => f.(nota_terapeuta := value)
    case Diagnostico => f.(diagnostico := value)
    case TratamientoRecomendado => f.(tratamiento_recomendado := value)
    case EstadoInicio => f.(estado_emocional_inicio := value)
    case EstadoFinal => f.(estado_emocional_final := value)
  }

  /** `handleChange`: the named field takes the trimmed input. */
  function HandleChange(f: Form, name: FieldName, value: string): Form {
    WithField(f, name, Trim(value))
  }

  /** Every stored value is already trimmed. */
  predicate AllTrimmed(f: Form) {
    forall n :: Trim(FieldOf(f, n)) == FieldOf(f, n)
  }

  /**
   * `handleChange` stores the trimmed input in the named field only, and keeps
   * every stored value trimmed.
   */
  lemma HandleChangeSpec(f: Form, name: FieldName, value: string)
    requires AllTrimmed(f)
    ensures FieldOf(HandleChange(f, name, value), name) == Trim(value)
    ensures forall other :: other != name ==> FieldOf(HandleChange(f, name, value), other) == FieldOf(f, other)
    ensures AllTrimmed(HandleChange(f, name, value))
  {
    TrimIdempotent(value);
  }

  /** `isFormValid`. */
  predicate IsFormValid(f: Form) {
    forall v :: v in Values(f) ==> Trim(v) != ""
  }

  /** Every character of `s` is white space (so `s.trim()` is empty). */
  predicate Blank(s: string) {
    forall k :: 0 <= k < |s| ==> IsJsWhitespace(s[k])
  }

  lemma IsFormValidByField(f: Form)
    ensures IsFormValid(f) <==> forall n :: Trim(FieldOf(f, n)) != ""
  {
    ValuesAreFields(f);
  }

  /** The form is valid iff no field is empty or white space only; for stored values, iff none is empty. */
  lemma IsFormValidIff(f: Form)
    ensures IsFormValid(f) <==> forall n :: !Blank(FieldOf(f, n))
    ensures AllTrimmed(f) ==> (IsFormValid(f) <==> forall n :: FieldOf(f, n) != "")
  {
    IsFormValidByField(f);
    forall n ensures Trim(FieldOf(f, n)) == "" <==> Blank(FieldOf(f, n)) {
      TrimEmptyIff(FieldOf(f, n));
    }
  }

  /** The fresh form is empty, trimmed and therefore invalid. */
  lemma EmptyFormInvalid()
    ensures AllTrimmed(EmptyForm) && !IsFormValid(EmptyForm)
  {
    var t := Trim("");
    assert |t| <= 0;
    forall n ensures Trim(FieldOf(EmptyForm, n)) == FieldOf(EmptyForm, n) {
      assert FieldOf(EmptyForm, n) == "";
    }
    assert "" in Values(EmptyForm);
  }

  /** `disabled={loading || !isFormValid}`. */
  predicate SubmitDisabled(loading: bool, f: Form) {
    loading || !IsFormValid(f)
  }

  /**
   * The fresh form cannot be submitted; once nothing is loading, submission is
   * enabled exactly when no field is empty or white space only.
   */
  lemma SubmitEnabledIff(f: Form, loading: bool)
    ensures SubmitDisabled(loading, EmptyForm)
    ensures !SubmitDisabled(false, f) <==> forall n :: !Blank(FieldOf(f, n))
  {
    EmptyFormInvalid();
    IsFormValidIff(f);
  }

  /** The POST body `{ session_id, ...form }`. */
  datatype DiagnosticRequest = DiagnosticRequest(session_id: string, form: Form)

  /** How the POST ended: saved, refused with the body's `error` (if any), or thrown with a message. */
  datatype SubmitOutcome = Saved | Refused(serverError: Option<string>) | Threw(message: string)

  /** The `error` state `handleSubmit` leaves. */
  function ErrorFor(o: SubmitOutcome): (e: Option<string>)
    ensures e.None? <==> o.Saved?
    ensures e.Some? ==> e.value != ""
    ensures o.Refused? && o.serverError.Some? && o.serverError.value != "" ==> e == o.serverError
    ensures o.Refused? && (o.serverError.None? || o.serverError.value == "") ==> e == Some("Error al guardar el diagnóstico")
    ensures o.Threw? && o.message != "" ==> e == Some(o.message)
    ensures o.Threw? && o.message == "" ==> e == Some("Ha ocurrido un error")
  {
    match o
    case Saved => None
    case Refused(err) =>
      Some(if err.Some? && err.value != "" then err.value else "Error al guardar el diagnóstico")
    case Threw(m) =>
      Some(if m != "" then m else "Ha ocurrido un error")
  }

  class DiagnosticPopup {
    const sessionId: string
    var form: Form
    var loading: bool
    var error: Option<string>

    ghost predicate Valid()
      reads this
    {
      AllTrimmed(form)
    }

    constructor (id: string)
      ensures Valid() && sessionId == id && form == EmptyForm && !loading && error == None
      ensures !IsFormValid(form)
    {
      sessionId := id;
      form := EmptyForm;
      loading := false;
      error := None;
      EmptyFormInvalid();
    }

    /** An input's `onChange`. */
    method Change(name: FieldName, value: string)
      requires Valid()
      modifies this`form
      ensures Valid()
      ensures form == HandleChange(old(form), name, value)
    {
      HandleChangeSpec(form, name, value);
      form := HandleChange(form, name, value);
    }

    /** `handleSubmit` with the request's outcome given; `onSuccess` and `onClose` run when it was saved. */
    method Submit(outcome: SubmitOutcome) returns (body: DiagnosticRequest, succeeded: bool)
      requires Valid()
      modifies this`loading, this`error
      ensures Valid() && !loading
      ensures body == DiagnosticRequest(sessionId, form)
      ensures error == ErrorFor(outcome) && succeeded == outcome.Saved?
    {
      loading := true;
      error := None;
      body := DiagnosticRequest(sessionId, form);
      error := ErrorFor(outcome);
      succeeded := outcome.Saved?;
      loading := false;
    }
  }
}
