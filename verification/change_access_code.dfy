/**
 * POST /api/admin/change-access-code: an administrator with the "change
 * access code" permission gives a collaborator a new code, unless another
 * collaborator already holds it.
 */
module ChangeAccessCodeRoute {
  import opened Wrappers
  import opened Schema

  /** The JSON body; "" stands for an absent or empty field. */
  datatype ChangeCodeBody = ChangeCodeBody(collaboratorId: Id, newAccessCode: string)

  /** The conflict test of line 37: the row found for the code belongs to somebody else. */
  predicate TakenByOther(cs: seq<Collaborator>, body: ChangeCodeBody) {
    var holder := CollaboratorByCode(cs, body.newAccessCode);
    holder.Some? && holder.value.id != body.collaboratorId
  }

  /** With unique codes, the conflict test sees exactly the collaborators other than the target who hold the code. */
  lemma TakenByOtherExact(cs: seq<Collaborator>, body: ChangeCodeBody)
    requires CollaboratorsUnique(cs) && body.newAccessCode != ""
    ensures TakenByOther(cs, body) <==> CodeHeldByOther(cs, body.collaboratorId, body.newAccessCode)
  {
    var p := (c: Collaborator) => c.accessCode == body.newAccessCode;
    var k := FirstIndex(cs, p);
    if CodeHeldByOther(cs, body.collaboratorId, body.newAccessCode) {
      var i :| 0 <= i < |cs| && cs[i].accessCode == body.newAccessCode && cs[i].id != body.collaboratorId;
      assert p(cs[i]);
      assert k.Some?;
      assert k.value == i by {
        assert cs[k.value].accessCode == cs[i].accessCode;
      }
    }
    if TakenByOther(cs, body) {
      assert k.Some? && cs[k.value].accessCode == body.newAccessCode && cs[k.value].id != body.collaboratorId;
    }
  }

  /**
   * The handler. Guards: admin session (401), permission (403), required
   * fields (400), code held by another collaborator (409); then the code of
   * every row with the given id is replaced. An id that matches no row is
   * still answered 200, with nothing changed.
   */
  method ChangeCode(db: Db, session: Option<Session>, body: ChangeCodeBody) returns (status: int)
    requires db.Valid()
    modifies db`collaborators
    ensures db.Valid()
    ensures !IsAdminSession(session) ==> status == 401
    ensures IsAdminSession(session) && !Permitted(old(db.administrators), session.value, ChangeAccessCode) ==> status == 403
    ensures (Authorized(old(db.administrators), session, ChangeAccessCode)
      && (body.collaboratorId == "" || body.newAccessCode == "")) ==> status == 400
    ensures (Authorized(old(db.administrators), session, ChangeAccessCode)
      && body.collaboratorId != "" && body.newAccessCode != "")
      ==> status == (if CodeHeldByOther(old(db.collaborators), body.collaboratorId, body.newAccessCode) then 409 else 200)
    ensures status != 200 ==> db.collaborators == old(db.collaborators)
    ensures status == 200 ==> db.collaborators == SetAccessCode(old(db.collaborators), body.collaboratorId, body.newAccessCode)
  {
    if !IsAdminSession(session) {
      return 401;
    }
    if !Permitted(db.administrators, session.value, ChangeAccessCode) {
      return 403;
    }
    if body.collaboratorId == "" || body.newAccessCode == "" {
      return 400;
    }
    var existing := CollaboratorByCode(db.collaborators, body.newAccessCode);
    TakenByOtherExact(db.collaborators, body);
    if existing.Some? && existing.value.id != body.collaboratorId {
      return 409;
    }
    SetAccessCodeKeepsUnique(db.collaborators, body.collaboratorId, body.newAccessCode);
    db.collaborators := SetAccessCode(db.collaborators, body.collaboratorId, body.newAccessCode);
    status := 200;
  }

  /** Giving a collaborator the code it already holds is never a conflict. */
  lemma ReassignOwnCodeAllowed(cs: seq<Collaborator>, i: int)
    requires CollaboratorsUnique(cs)
    requires 0 <= i < |cs| && cs[i].accessCode != ""
    ensures !TakenByOther(cs, ChangeCodeBody(cs[i].id, cs[i].accessCode))
  {
    TakenByOtherExact(cs, ChangeCodeBody(cs[i].id, cs[i].accessCode));
  }
}
