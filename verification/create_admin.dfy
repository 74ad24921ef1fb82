/**
 * POST /api/admin/create-admin: an administrator with the "create admin"
 * permission registers another administrator. Omitted permissions are off,
 * and a username already in use is refused by the table's unique constraint.
 */
module CreateAdminRoute {
  import opened Wrappers
  import opened Schema

  /** The JSON body; text fields are "" when absent or empty, flags None when absent or null. */
  datatype AdminBody = AdminBody(
    fullName: string, username: string, password: string,
    canCreateCollaborator: Option<bool>, canCreateAdmin: Option<bool>,
    canEnterHours: Option<bool>, canChangeAccessCode: Option<bool>)

  const DuplicateMessage := "Nome de usuário já existe."

  /** The row inserted: the password's hash, and each flag `?? false`. */
  function NewAdministrator(id: Id, body: AdminBody, hash: string -> string): (a: Administrator)
    ensures a.id == id && a.fullName == body.fullName && a.username == body.username
    ensures a.passwordHash == hash(body.password)
    ensures forall p :: Grants(a, p) <==> Requested(body, p)
  {
    Administrator(id, body.fullName, body.username, hash(body.password),
      body.canCreateCollaborator.GetOr(false), body.canCreateAdmin.GetOr(false),
      body.canEnterHours.GetOr(false), body.canChangeAccessCode.GetOr(false))
  }

  /** The body asks for the permission explicitly. */
  predicate Requested(body: AdminBody, p: Permission) {
    match p
    case CreateCollaborator => body.canCreateCollaborator == Some(true)
    case CreateAdmin => body.canCreateAdmin == Some(true)
    case EnterHours => body.canEnterHours == Some(true)
    case ChangeAccessCode => body.canChangeAccessCode == Some(true)
  }

  /** The insert would break a unique constraint: the generated id or the username is taken. */
  predicate Clashes(admins: seq<Administrator>, id: Id, username: string) {
    exists i :: 0 <= i < |admins| && (admins[i].id == id || admins[i].username == username)
  }

  /** A table with unique ids and usernames keeps them after an insert that does not clash. */
  lemma InsertKeepsUnique(admins: seq<Administrator>, a: Administrator)
    requires AdministratorsUnique(admins) && !Clashes(admins, a.id, a.username)
    ensures AdministratorsUnique(admins + [a])
  {
    var r := admins + [a];
    forall i, j | 0 <= i < j < |r| ensures r[i].id != r[j].id && r[i].username != r[j].username {
      if j == |admins| {
        assert r[i] == admins[i];
      }
    }
  }

  /**
   * The handler. Guards: admin session (401), the create-admin permission
   * (403), required fields (400); then the insert, refused with 400 and the
   * duplicate message on a clash. `newId` is the id the database generates
   * and `hash` the password hashing.
   */
  method RegisterAdmin(db: Db, session: Option<Session>, body: AdminBody, newId: Id, hash: string -> string)
    returns (status: int, error: string)
    requires db.Valid()
    modifies db`administrators
    ensures db.Valid()
    ensures !IsAdminSession(session) ==> status == 401
    ensures IsAdminSession(session) && !Permitted(old(db.administrators), session.value, CreateAdmin) ==> status == 403
    ensures (Authorized(old(db.administrators), session, CreateAdmin)
      && (body.fullName == "" || body.username == "" || body.password == "")) ==> status == 400
    ensures (Authorized(old(db.administrators), session, CreateAdmin)
      && body.fullName != "" && body.username != "" && body.password != "")
      ==> (if Clashes(old(db.administrators), newId, body.username) then status == 400 && error == DuplicateMessage else status == 200)
    ensures status != 200 ==> db.administrators == old(db.administrators)
    ensures status == 200 ==> db.administrators == old(db.administrators) + [NewAdministrator(newId, body, hash)]
  {
    error := "";
    if !IsAdminSession(session) {
      return 401, "Não autorizado.";
    }
    if !Permitted(db.administrators, session.value, CreateAdmin) {
      return 403, "Você não tem permissão para criar administradores.";
    }
    if body.fullName == "" || body.username == "" || body.password == "" {
      return 400, "Nome completo, usuário e senha são obrigatórios.";
    }
    var row := NewAdministrator(newId, body, hash);
    if Clashes(db.administrators, newId, body.username) {
      return 400, DuplicateMessage;
    }
    InsertKeepsUnique(db.administrators, row);
    db.administrators := db.administrators + [row];
    status := 200;
  }

  /** A username already registered is always refused, whatever id the database generates. */
  lemma TakenUsernameRefused(admins: seq<Administrator>, i: int, id: Id)
    requires 0 <= i < |admins|
    ensures Clashes(admins, id, admins[i].username)
  {
  }
}
