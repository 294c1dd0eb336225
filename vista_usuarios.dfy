/**
 * The user administration list (`VistaUsuarios`): one role selector per user,
 * and the local update of the list once a role change has been sent.
 */
module VistaUsuarios {
  import opened Wrappers
  import opened Seqs
  import opened JsString

  datatype User = User(googleId: string, nombre: string, apellido: string, correo: string, rol: int)

  const AdminRole := 1

  /** `prev.map(user => user.googleId === googleId ? { ...user, rol: nuevoRol } : user)`. */
  function SetRol(users: seq<User>, googleId: string, nuevoRol: int): seq<User> {
    Map((u: User) => if u.googleId == googleId then u.(rol := nuevoRol) else u, users)
  }

  /**
   * Exactly the users with the given `googleId` get the new role; their other
   * fields, every other user and the length are unchanged.
   */
  lemma SetRolSpec(users: seq<User>, googleId: string, nuevoRol: int)
    ensures |SetRol(users, googleId, nuevoRol)| == |users|
    ensures forall i :: 0 <= i < |users| && users[i].googleId == googleId ==>
              SetRol(users, googleId, nuevoRol)[i] == users[i].(rol := nuevoRol)
    ensures forall i :: 0 <= i < |users| && users[i].googleId != googleId ==>
              SetRol(users, googleId, nuevoRol)[i] == users[i]
  {
  }

  /** Two updates of the same user: the later role is the one kept. */
  lemma SetRolLastWins(users: seq<User>, googleId: string, r1: int, r2: int)
    ensures SetRol(SetRol(users, googleId, r1), googleId, r2) == SetRol(users, googleId, r2)
  {
  }

  /** Updates of two different users commute. */
  lemma SetRolCommutes(users: seq<User>, g1: string, r1: int, g2: string, r2: int)
    requires g1 != g2
    ensures SetRol(SetRol(users, g1, r1), g2, r2) == SetRol(SetRol(users, g2, r2), g1, r1)
  {
  }

  // ---------------------------------------------------------------- the role selector

  /** `disabled={user.rol === 1}`. */
  predicate SelectorDisabled(u: User) {
    u.rol == AdminRole
  }

  /** The options of a user's selector. */
  function RoleOptions(rol: int): seq<int> {
    if rol == AdminRole then [1] else [4, 6]
  }

  /** `ROLES`: the label of each role number. */
  function RoleName(rol: int): Option<string> {
    if rol == 1 then Some("Admin")
    else if rol == 4 then Some("Terapeuta")
    else if rol == 6 then Some("Paciente")
    else None
  }

  /**
   * What choosing option `k` in user `i`'s selector sends to `actualizarRol`:
   * its id and `parseInt` of the option's value, or nothing on a disabled selector.
   */
  function OnRoleChange(users: seq<User>, i: int, k: int): Option<(string, int)>
    requires 0 <= i < |users| && 0 <= k < |RoleOptions(users[i].rol)|
  {
    if SelectorDisabled(users[i]) then None
    else match ParseInt(IntToString(RoleOptions(users[i].rol)[k]))
      case Some(r) => Some((users[i].googleId, r))
      case None => None
  }

  /** An admin's selector is disabled and offers only Admin; every other selector offers Terapeuta and Paciente. */
  lemma RoleOptionsSpec(rol: int)
    ensures rol == 1 ==> RoleOptions(rol) == [1]
    ensures rol != 1 ==> RoleOptions(rol) == [4, 6]
    ensures forall k :: 0 <= k < |RoleOptions(rol)| ==> RoleName(RoleOptions(rol)[k]).Some?
  {
  }

  /** A role change sends the chosen option's number, which is never the admin role. */
  lemma RoleChangeNeverAdmin(users: seq<User>, i: int, k: int)
    requires 0 <= i < |users| && 0 <= k < |RoleOptions(users[i].rol)|
    ensures OnRoleChange(users, i, k).Some? <==> !SelectorDisabled(users[i])
    ensures OnRoleChange(users, i, k).Some? ==>
              OnRoleChange(users, i, k).value == (users[i].googleId, RoleOptions(users[i].rol)[k])
              && OnRoleChange(users, i, k).value.1 in {4, 6}
  {
    ParseIntOfString(RoleOptions(users[i].rol)[k]);
  }

  // ---------------------------------------------------------------- component state

  /** How `actualizarRol`'s request went: its JSON was read (whatever the status), or it threw. */
  datatype RoleRequest = JsonRead | Threw

  class UsersView {
    var usuarios: seq<User>

    constructor ()
      ensures usuarios == []
    {
      usuarios := [];
    }

    /** The fetch effect's `setUsuarios(data)`. */
    method ReceiveUsers(data: seq<User>)
      modifies this
      ensures usuarios == data
    {
      usuarios := data;
    }

    /** `actualizarRol` after its request: the list changes once the JSON was read. */
    method ActualizarRol(googleId: string, nuevoRol: int, outcome: RoleRequest)
      modifies this
      ensures usuarios == if outcome == JsonRead then SetRol(old(usuarios), googleId, nuevoRol) else old(usuarios)
    {
      if outcome == JsonRead {
        usuarios := SetRol(usuarios, googleId, nuevoRol);
      }
    }
  }
}
