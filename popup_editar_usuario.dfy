/**
 * The profile editor (`PopupEditarUsuario`): six editable fields that start
 * from the stored profile, the dirty check that enables saving, and the save
 * sequence of a profile update followed, for therapists, by a type update.
 */
module PopupEditarUsuario {
  import opened Wrappers

  const TherapistRole := 4

  /** The stored profile; missing or null values are `None`. */
  datatype Profile = Profile(nombre: Option<string>, apellido: Option<string>, direccion: Option<string>,
                             sexo: Option<string>, telefono: Option<string>, tipo_terapeuta: Option<string>,
                             rol: int)

  /** `value || ''` for a stored text. */
  function Norm(v: Option<string>): string {
    v.GetOr("")
  }

  /** The six field states. */
  datatype Fields = Fields(nombre: string, apellido: string, direccion: string,
                           sexo: string, telefono: string, tipoSel: string)

  datatype FieldName = Nombre | Apellido | Direccion | Sexo | Telefono | TipoSel

  /** The initial value of every field state. */
  function InitialFields(p: Profile): Fields {
    Fields(Norm(p.nombre), Norm(p.apellido), Norm(p.direccion), Norm(p.sexo), Norm(p.telefono), Norm(p.tipo_terapeuta))
  }

  /** `isChanged`. */
  predicate IsChanged(p: Profile, f: Fields) {
    f.nombre != Norm(p.nombre) || f.apellido != Norm(p.apellido) || f.direccion != Norm(p.direccion)
    || f.sexo != Norm(p.sexo) || f.telefono != Norm(p.telefono)
    || (p.rol == TherapistRole && f.tipoSel != Norm(p.tipo_terapeuta))
  }

  /** The fields the dirty check compares: the therapist type only counts for therapists. */
  function Compared(f: Fields, rol: int): Fields {
    if rol == TherapistRole then f else f.(tipoSel := "")
  }

  /** The form is dirty iff the compared fields differ from their initial values. */
  lemma IsChangedIff(p: Profile, f: Fields)
    ensures IsChanged(p, f) <==> Compared(f, p.rol) != Compared(InitialFields(p), p.rol)
  {
  }

  /** A freshly opened form is not dirty. */
  lemma InitiallyUnchanged(p: Profile)
    ensures !IsChanged(p, InitialFields(p))
  {
  }

  /** For a user who is not a therapist, changing the type never makes the form dirty. */
  lemma TipoIrrelevantUnlessTherapist(p: Profile, f: Fields, t: string)
    requires p.rol != 4
    ensures IsChanged(p, f.(tipoSel := t)) == IsChanged(p, f)
  {
  }

  /** Editing one field of a fresh form makes it dirty iff the new value differs from the stored one. */
  lemma SingleEditDirty(p: Profile, name: FieldName, v: string)
    requires name != TipoSel || p.rol == 4
    ensures IsChanged(p, WithField(InitialFields(p), name, v)) <==> v != FieldOf(InitialFields(p), name)
  {
  }

  /** Field `name` of `f`. */
  function FieldOf(f: Fields, name: FieldName): string {
    match name
    case Nombre => f.nombre
    case Apellido => f.apellido
    case Direccion => f.direccion
    case Sexo => f.sexo
    case Telefono => f.telefono
    case TipoSel => f.tipoSel
  }

  /** The input's `onChange`: field `name` becomes `v`. */
  function WithField(f: Fields, name: FieldName, v: string): (r: Fields)
    ensures FieldOf(r, name) == v
    ensures forall other :: other != name ==> FieldOf(r, other) == FieldOf(f, other)
  {
    match name
    case Nombre => f.(nombre := v)
    case Apellido => f.(apellido := v)
    case Direccion => f.(direccion := v)
    case Sexo => f.(sexo := v)
    case Telefono => f.(telefono := v)
    case TipoSel => f.(tipoSel := v)
  }

  /** `disabled={loading || !isChanged}`. */
  predicate SaveDisabled(loading: bool, p: Profile, f: Fields) {
    loading || !IsChanged(p, f)
  }

  /**
   * A freshly opened form cannot be saved; once nothing is loading, saving is
   * enabled exactly when one compared field differs from its stored value.
   */
  lemma SaveEnabledIff(p: Profile, f: Fields, loading: bool)
    ensures SaveDisabled(loading, p, InitialFields(p))
    ensures !SaveDisabled(false, p, f) <==> Compared(f, p.rol) != Compared(InitialFields(p), p.rol)
  {
    InitiallyUnchanged(p);
    IsChangedIff(p, f);
  }

  // ---------------------------------------------------------------- handleSave

  /** A PUT's response as `handleSave` reads it, or a request that threw. */
  datatype Response = Response(isJson: bool, ok: bool) | NetworkFailure

  /** A JSON response with an ok status: the only way one update succeeds. */
  predicate Succeeded(r: Response) {
    r.Response? && r.isJson && r.ok
  }

  datatype Request =
    | ProfileUpdate(googleId: Option<string>, nombre: string, apellido: string, direccion: string,
                    sexo: string, telefono: string)
    | TypeUpdate(googleId: Option<string>, tipo_terapeuta: string)

  const SavedMessage := "Usuario actualizado correctamente"
  const FailedMessage := "No se pudo actualizar. Revisa la consola."

  /** The requests `handleSave` sends and the message it leaves; `second` is read only if a second request is sent. */
  function SaveFlow(p: Profile, f: Fields, uid: Option<string>, first: Response, second: Response)
    : (out: (seq<Request>, string))
    ensures 1 <= |out.0| <= 2
    ensures out.0[0] == ProfileUpdate(uid, f.nombre, f.apellido, f.direccion, f.sexo, f.telefono)
    ensures |out.0| == 2 <==> Succeeded(first) && p.rol == 4 && f.tipoSel != ""
    ensures |out.0| == 2 ==> out.0[1] == TypeUpdate(uid, f.tipoSel)
    ensures out.1 == SavedMessage <==> Succeeded(first) && (|out.0| == 1 || Succeeded(second))
    ensures out.1 == SavedMessage || out.1 == FailedMessage
  {
    var profile := ProfileUpdate(uid, f.nombre, f.apellido, f.direccion, f.sexo, f.telefono);
    if !Succeeded(first) then ([profile], FailedMessage)
    else if p.rol == TherapistRole && f.tipoSel != "" then
      ([profile, TypeUpdate(uid, f.tipoSel)], if Succeeded(second) then SavedMessage else FailedMessage)
    else ([profile], SavedMessage)
  }

  class EditUserPopup {
    const original: Profile
    var fields: Fields
    var loading: bool
    var msg: string

    constructor (p: Profile)
      ensures original == p && fields == InitialFields(p) && !loading && msg == ""
      ensures !IsChanged(original, fields)
    {
      original := p;
      fields := InitialFields(p);
      loading := false;
      msg := "";
    }

    /** An input's `onChange`. */
    method Edit(name: FieldName, v: string)
      modifies this`fields
      ensures fields == WithField(old(fields), name, v)
    {
      fields := WithField(fields, name, v);
    }

    /** `handleSave` with the two responses given; the popup closes on success. */
    method Save(uid: Option<string>, first: Response, second: Response) returns (sent: seq<Request>, closed: bool)
      modifies this`loading, this`msg
      ensures (sent, msg) == SaveFlow(original, fields, uid, first, second)
      ensures closed <==> msg == SavedMessage
      ensures !loading
    {
      loading := true;
      msg := "";
      var out := SaveFlow(original, fields, uid, first, second);
      sent := out.0;
      msg := out.1;
      closed := msg == SavedMessage;
      loading := false;
    }
  }
}
