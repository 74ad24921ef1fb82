/**
 * GET and POST /api/admin/collaborators: the collaborator list in name
 * order, and the registration of a collaborator by an administrator with
 * the "create collaborator" permission.
 */
module CollaboratorsRoute {
  import opened Wrappers
  import opened Schema
  import opened Sorting
  import opened Text

  /** The JSON body; "" stands for an absent or empty field. */
  datatype CollaboratorBody = CollaboratorBody(fullName: string, badgeNumber: string, accessCode: string, directLeader: string)

  /** The column values the insert leaves to the table's defaults, which are not part of this model. */
  datatype ColumnDefaults = ColumnDefaults(accessCodeSet: bool, isActive: bool, balanceHours: Option<real>)

  const DuplicateMessage := "Número do crachá ou código de acesso já existe."

  /** The row inserted: `direct_leader || null`, the remaining columns from the defaults. */
  function NewCollaborator(id: Id, body: CollaboratorBody, defaults: ColumnDefaults): (c: Collaborator)
    ensures c.id == id && c.fullName == body.fullName && c.badgeNumber == body.badgeNumber && c.accessCode == body.accessCode
    ensures c.directLeader.None? <==> body.directLeader == ""
    ensures c.directLeader.Some? ==> c.directLeader.value == body.directLeader
  {
    Collaborator(id, body.fullName, body.badgeNumber, body.accessCode, defaults.accessCodeSet,
      defaults.isActive, if body.directLeader == "" then None else Some(body.directLeader), defaults.balanceHours)
  }

  /** The insert would break a unique constraint: the generated id, the badge or the code is taken. */
  predicate Clashes(cs: seq<Collaborator>, c: Collaborator) {
    exists i :: 0 <= i < |cs| && (cs[i].id == c.id || cs[i].badgeNumber == c.badgeNumber || cs[i].accessCode == c.accessCode)
  }

  lemma InsertKeepsUnique(cs: seq<Collaborator>, c: Collaborator)
    requires CollaboratorsUnique(cs) && !Clashes(cs, c)
    ensures CollaboratorsUnique(cs + [c])
  {
    var r := cs + [c];
    forall i, j | 0 <= i < j < |r|
      ensures r[i].id != r[j].id && r[i].badgeNumber != r[j].badgeNumber
      ensures r[i].accessCode != "" ==> r[i].accessCode != r[j].accessCode
    {
      if j == |cs| {
        assert r[i] == cs[i];
      }
    }
  }

  /** The name order of the list: code-point order on full names. */
  function ByFullName(): (le: (Collaborator, Collaborator) -> bool)
    ensures TotalPreorder(le)
    ensures forall a, b :: le(a, b) <==> StrLe(a.fullName, b.fullName)
  {
    var le := (a: Collaborator, b: Collaborator) => StrLe(a.fullName, b.fullName);
    forall a: Collaborator, b: Collaborator ensures le(a, b) || le(b, a) {
      StrLeTotal(a.fullName, b.fullName);
    }
    forall a: Collaborator, b: Collaborator, c: Collaborator | le(a, b) && le(b, c) ensures le(a, c) {
      StrLeTransitive(a.fullName, b.fullName, c.fullName);
    }
    le
  }

  /** GET: 401 without an admin session, otherwise every collaborator in ascending name order. */
  method ListCollaborators(db: Db, session: Option<Session>) returns (status: int, list: seq<Collaborator>)
    ensures !IsAdminSession(session) ==> status == 401 && list == []
    ensures IsAdminSession(session) ==> status == 200 && multiset(list) == multiset(db.collaborators)
    ensures forall i, j :: 0 <= i < j < |list| ==> StrLe(list[i].fullName, list[j].fullName)
  {
    if !IsAdminSession(session) {
      return 401, [];
    }
    var le := ByFullName();
    list := SortBy(db.collaborators, le);
    assert SortedBy(list, le);
    status := 200;
  }

  /**
   * POST. Guards: admin session (401), the create-collaborator permission
   * (403), name, badge and code present (400); then the insert, refused
   * with 400 and the duplicate message on a clash. `newId` is the id the
   * database generates.
   */
  method RegisterCollaborator(db: Db, session: Option<Session>, body: CollaboratorBody, newId: Id, defaults: ColumnDefaults)
    returns (status: int, error: string)
    requires db.Valid()
    modifies db`collaborators
    ensures db.Valid()
    ensures !IsAdminSession(session) ==> status == 401
    ensures IsAdminSession(session) && !Permitted(old(db.administrators), session.value, CreateCollaborator) ==> status == 403
    ensures (Authorized(old(db.administrators), session, CreateCollaborator)
      && (body.fullName == "" || body.badgeNumber == "" || body.accessCode == "")) ==> status == 400
    ensures (Authorized(old(db.administrators), session, CreateCollaborator)
      && body.fullName != "" && body.badgeNumber != "" && body.accessCode != "")
      ==> (if Clashes(old(db.collaborators), NewCollaborator(newId, body, defaults))
           then status == 400 && error == DuplicateMessage else status == 200)
    ensures status != 200 ==> db.collaborators == old(db.collaborators)
    ensures status == 200 ==> db.collaborators == old(db.collaborators) + [NewCollaborator(newId, body, defaults)]
  {
    error := "";
    if !IsAdminSession(session) {
      return 401, "Não autorizado.";
    }
    if !Permitted(db.administrators, session.value, CreateCollaborator) {
      return 403, "Você não tem permissão para criar colaboradores.";
    }
    if body.fullName == "" || body.badgeNumber == "" || body.accessCode == "" {
      return 400, "Nome completo, número do crachá e código de acesso são obrigatórios.";
    }
    var row := NewCollaborator(newId, body, defaults);
    if Clashes(db.collaborators, row) {
      return 400, DuplicateMessage;
    }
    InsertKeepsUnique(db.collaborators, row);
    db.collaborators := db.collaborators + [row];
    status := 200;
  }
}
