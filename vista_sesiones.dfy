/**
 * The sessions page (`VistaSesiones`): which list query a user's role allows,
 * the state change a therapist applies to one session, the split of the list
 * into confirmed and pending sessions, and what the page shows.
 */
module VistaSesiones {
  import opened Wrappers
  import opened Seqs

  /** One session of the fetched list; `motivo` stands for the fields the page only displays. */
  datatype Session = Session(session_id: string, estado: string, motivo: string)

  /** The `datosUsuario` record, of which the page reads the role. */
  datatype UserData = UserData(rol: int)

  const PatientRole := 6
  const TherapistRole := 4

  // ---------------------------------------------------------------- query choice

  /** The one search parameter of the list request. */
  datatype QueryParam = QueryParam(name: string, value: string)

  /** What the loading effect does: request the list with a parameter, or fail with a message. */
  datatype QueryChoice = Request(param: QueryParam) | Refuse(message: string)

  /** The loading effect's guard and role switch. */
  function ChooseQuery(uid: Option<string>, datos: Option<UserData>): QueryChoice {
    if uid.None? || uid.value == "" || datos.None? then Refuse("Datos de usuario no disponibles")
    else if datos.value.rol == PatientRole then Request(QueryParam("paciente_id", uid.value))
    else if datos.value.rol == TherapistRole then Request(QueryParam("terapeuta_id", uid.value))
    else Refuse("No estás autorizado para ver sesiones")
  }

  /**
   * Without a uid or user data nothing is requested; patients list by
   * `paciente_id`, therapists by `terapeuta_id`, both with their own uid, and
   * every other role is refused.
   */
  lemma ChooseQuerySpec(uid: Option<string>, datos: Option<UserData>)
    ensures ChooseQuery(uid, datos) == Refuse("Datos de usuario no disponibles")
        <==> uid.None? || uid.value == "" || datos.None?
    ensures ChooseQuery(uid, datos).Request? ==>
              ChooseQuery(uid, datos).param.value == uid.value
              && (ChooseQuery(uid, datos).param.name == "paciente_id" <==> datos.value.rol == 6)
              && (ChooseQuery(uid, datos).param.name == "terapeuta_id" <==> datos.value.rol == 4)
    ensures ChooseQuery(uid, datos).Request? <==>
              uid.Some? && uid.value != "" && datos.Some? && (datos.value.rol == 4 || datos.value.rol == 6)
  {
  }

  // ---------------------------------------------------------------- updateEstado

  /** `s.map(x => x.session_id === updated.session_id ? updated : x)`. */
  function ReplaceById(s: seq<Session>, updated: Session): seq<Session> {
    Map((x: Session) => if x.session_id == updated.session_id then updated else x, s)
  }

  /** Exactly the entries with the returned id are replaced; the length and all other entries stay. */
  lemma ReplaceByIdSpec(s: seq<Session>, updated: Session)
    ensures |ReplaceById(s, updated)| == |s|
    ensures forall i :: 0 <= i < |s| ==>
              ReplaceById(s, updated)[i] == if s[i].session_id == updated.session_id then updated else s[i]
    ensures (forall i :: 0 <= i < |s| ==> s[i].session_id != updated.session_id) ==> ReplaceById(s, updated) == s
  {
  }

  /** Applying the same returned session twice is the same as once. */
  lemma ReplaceByIdIdempotent(s: seq<Session>, updated: Session)
    ensures ReplaceById(ReplaceById(s, updated), updated) == ReplaceById(s, updated)
  {
  }

  // ---------------------------------------------------------------- grouping

  /** `pendientes`. */
  function Pendientes(s: seq<Session>): seq<Session> {
    Filter((x: Session) => x.estado == "pendiente", s)
  }

  /** `confirmadas`. */
  function Confirmadas(s: seq<Session>): seq<Session> {
    Filter((x: Session) => x.estado == "confirmada", s)
  }

  /**
   * Both groups keep the list's order, hold exactly the sessions of their
   * status, share no session, and together cover the list iff every session is
   * pending or confirmed.
   */
  lemma GroupsSpec(s: seq<Session>)
    ensures IsSubsequence(Pendientes(s), s) && IsSubsequence(Confirmadas(s), s)
    ensures forall x :: x in Pendientes(s) <==> x in s && x.estado == "pendiente"
    ensures forall x :: x in Confirmadas(s) <==> x in s && x.estado == "confirmada"
    ensures forall x :: !(x in Pendientes(s) && x in Confirmadas(s))
    ensures |Pendientes(s)| + |Confirmadas(s)| <= |s|
    ensures |Pendientes(s)| + |Confirmadas(s)| == |s|
        <==> forall i :: 0 <= i < |s| ==> s[i].estado == "pendiente" || s[i].estado == "confirmada"
  {
    var p := (x: Session) => x.estado == "pendiente";
    var q := (x: Session) => x.estado == "confirmada";
    FilterIsSubsequence(p, s);
    FilterIsSubsequence(q, s);
    FilterLengthSplit(p, q, s);
    forall x ensures (x in Pendientes(s) <==> x in s && x.estado == "pendiente")
                  && (x in Confirmadas(s) <==> x in s && x.estado == "confirmada")
    {
      FilterMembership(p, s, x);
      FilterMembership(q, s, x);
    }
  }

  // ---------------------------------------------------------------- action buttons

  datatype Action = Confirmar | Rechazar | Diagnosticar

  /** The buttons shown under a session, for the viewer's role. */
  function Actions(estado: string, rol: int): seq<Action> {
    (if estado == "pendiente" && rol == TherapistRole then [Confirmar, Rechazar] else [])
    + (if estado == "confirmada" && rol == TherapistRole then [Diagnosticar] else [])
  }

  /** The status a button sends to `updateEstado`; Diagnosticar sends none and opens the form. */
  function SentStatus(a: Action): Option<string> {
    match a
    case Confirmar => Some("confirmada")
    case Rechazar => Some("rechazada")
    case Diagnosticar => None
  }

  /**
   * Confirmar and Rechazar appear only on a pending session seen by a
   * therapist, Diagnosticar only on a confirmed one; patients see no button.
   */
  lemma ActionsSpec(estado: string, rol: int)
    ensures Confirmar in Actions(estado, rol) <==> estado == "pendiente" && rol == 4
    ensures Rechazar in Actions(estado, rol) <==> estado == "pendiente" && rol == 4
    ensures Diagnosticar in Actions(estado, rol) <==> estado == "confirmada" && rol == 4
    ensures rol != 4 ==> Actions(estado, rol) == []
    ensures forall a :: a in Actions(estado, rol) && SentStatus(a).Some? ==> estado == "pendiente"
  {
  }

  // ---------------------------------------------------------------- what is rendered

  datatype Section = Section(title: string, items: seq<Session>)

  datatype Screen = Loading | ErrorText(message: string) | NoSessions | Groups(sections: seq<Section>)

  /** The page's early returns and its two sections, confirmed first. */
  function Render(loading: bool, error: Option<string>, sesiones: seq<Session>): Screen {
    if loading then Loading
    else if error.Some? && error.value != "" then ErrorText(error.value)
    else if |sesiones| == 0 then NoSessions
    else
      var c, p := Confirmadas(sesiones), Pendientes(sesiones);
      Groups((if |c| > 0 then [Section("Confirmadas", c)] else [])
             + (if |p| > 0 then [Section("Pendientes", p)] else []))
  }

  /**
   * Loading wins over an error, an error over an empty list; otherwise only
   * non-empty groups are shown, confirmed sessions before pending ones.
   */
  lemma RenderSpec(loading: bool, error: Option<string>, sesiones: seq<Session>)
    ensures Render(loading, error, sesiones).Loading? <==> loading
    ensures Render(loading, error, sesiones).ErrorText? <==> !loading && error.Some? && error.value != ""
    ensures Render(loading, error, sesiones).NoSessions? <==> !loading && (error.None? || error.value == "") && sesiones == []
    ensures Render(loading, error, sesiones).Groups? ==>
              var secs := Render(loading, error, sesiones).sections;
              |secs| <= 2
              && (forall k :: 0 <= k < |secs| ==> secs[k].items != [])
              && (forall k :: 0 <= k < |secs| ==> secs[k].title == "Confirmadas" || secs[k].title == "Pendientes")
              && (|secs| == 2 ==> secs[0].title == "Confirmadas" && secs[1].title == "Pendientes")
    ensures Render(loading, error, sesiones).Groups? ==>
              var secs := Render(loading, error, sesiones).sections;
              (HasSection(secs, "Confirmadas") <==> Confirmadas(sesiones) != [])
              && (HasSection(secs, "Pendientes") <==> Pendientes(sesiones) != [])
              && (forall k :: 0 <= k < |secs| && secs[k].title == "Confirmadas" ==> secs[k].items == Confirmadas(sesiones))
              && (forall k :: 0 <= k < |secs| && secs[k].title == "Pendientes" ==> secs[k].items == Pendientes(sesiones))
  {
    var scr := Render(loading, error, sesiones);
    if scr.Groups? {
      var secs := scr.sections;
      var c, p := Confirmadas(sesiones), Pendientes(sesiones);
      if c != [] {
        assert secs[0] == Section("Confirmadas", c);
      }
      if p != [] {
        assert secs[|secs| - 1] == Section("Pendientes", p);
      }
    }
  }

  /** Some section of `secs` carries `title`. */
  predicate HasSection(secs: seq<Section>, title: string) {
    exists k :: 0 <= k < |secs| && secs[k].title == title
  }

  /** A non-empty list with neither pending nor confirmed sessions renders no group at all. */
  lemma OnlyRejectedShowsNothing()
    ensures Render(false, None, [Session("s1", "rechazada", "")]) == Groups([])
  {
    assert Confirmadas([Session("s1", "rechazada", "")]) == [];
    assert Pendientes([Session("s1", "rechazada", "")]) == [];
  }

  // ---------------------------------------------------------------- component state

  /** How the list request ended: the JSON list, or the rejection's text. */
  datatype LoadOutcome = Loaded(data: seq<Session>) | LoadFailed(text: string)

  class SessionsView {
    var sesiones: seq<Session>
    var loading: bool
    var error: Option<string>
    var showPopup: bool
    var selectedSession: Option<string>

    constructor ()
      ensures sesiones == [] && loading && error == None && !showPopup && selectedSession == None
    {
      sesiones, loading, error := [], true, None;
      showPopup, selectedSession := false, None;
    }

    /** The loading effect up to the request: a refused query ends loading with its message. */
    method LoadEffect(uid: Option<string>, datos: Option<UserData>) returns (request: Option<QueryParam>)
      modifies this`error, this`loading
      ensures match ChooseQuery(uid, datos)
              case Request(q) => request == Some(q) && error == old(error) && loading == old(loading)
              case Refuse(m) => request == None && error == Some(m) && !loading
    {
      match ChooseQuery(uid, datos)
      case Request(q) =>
        request := Some(q);
      case Refuse(m) =>
        error := Some(m);
        loading := false;
        request := None;
    }

    /** The list request's `then`, `catch` and `finally`. */
    method LoadResult(outcome: LoadOutcome)
      modifies this`sesiones, this`error, this`loading
      ensures !loading
      ensures match outcome
              case Loaded(data) => sesiones == data && error == old(error)
              case LoadFailed(text) => sesiones == old(sesiones) && error == Some(text)
    {
      match outcome {
        case Loaded(data) =>
          sesiones := data;
        case LoadFailed(text) =>
          error := Some(text);
      }
      loading := false;
    }

    /** `updateEstado` after the request: the returned session, or `None` when the request failed. */
    method UpdateEstado(returned: Option<Session>) returns (alertText: Option<string>)
      modifies this`sesiones
      ensures returned.Some? ==> sesiones == ReplaceById(old(sesiones), returned.value) && alertText == None
      ensures returned.None? ==> sesiones == old(sesiones) && alertText == Some("No fue posible cambiar el estado")
    {
      if returned.Some? {
        sesiones := ReplaceById(sesiones, returned.value);
        alertText := None;
      } else {
        alertText := Some("No fue posible cambiar el estado");
      }
    }

    /** `openDiagnostico(session_id)`. */
    method OpenDiagnostico(session_id: string)
      modifies this`selectedSession, this`showPopup
      ensures selectedSession == Some(session_id) && showPopup
    {
      selectedSession := Some(session_id);
      showPopup := true;
    }

    /** `onDiagnosticSuccess`: the form closes and a confirmation is shown. */
    method OnDiagnosticSuccess() returns (alertText: string)
      modifies this`showPopup
      ensures !showPopup && alertText == "Diagnóstico guardado correctamente"
    {
      showPopup := false;
      alertText := "Diagnóstico guardado correctamente";
    }
  }
}
