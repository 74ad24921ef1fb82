/**
 * POST /api/collaborator/set-access-code: a collaborator registers an
 * access code for the first time. The code must be confirmed, at least four
 * characters after trimming, and can be set only while the row has none.
 */
module SetAccessCodeRoute {
  import opened Wrappers
  import opened Schema
  import opened Text

  /** The JSON body; "" stands for an absent or empty field. */
  datatype SetCodeBody = SetCodeBody(accessCode: string, confirmAccessCode: string)

  /** The shortest code accepted, counted in UTF-16 code units after trimming. */
  const MinCodeLength := 4

  /** The session createSession(userId, "collaborator") writes: the pending flag is gone. */
  function RecreatedSession(userId: Id): (s: Session)
    ensures s.userId == userId && IsCollaboratorSession(Some(s)) && s.pendingAccessCode.None?
  {
    Session(userId, CollaboratorRole, Some(CollaboratorRole), None)
  }

  /** The field checks of lines 20-30, in order; None when the body passes them. */
  function BodyError(body: SetCodeBody): (r: Option<int>)
    ensures r.None? <==> body.accessCode != "" && body.accessCode == body.confirmAccessCode && Utf16Length(Trim(body.accessCode)) >= MinCodeLength
    ensures r.Some? ==> r.value == 400
  {
    if body.accessCode == "" || body.confirmAccessCode == "" then Some(400)
    else if body.accessCode != body.confirmAccessCode then Some(400)
    else if Utf16Length(Trim(body.accessCode)) < MinCodeLength then Some(400)
    else None
  }

  /**
   * A code that passes the field checks is stored with at least four UTF-16
   * units, so at least two characters, and no outer white space.
   */
  lemma StoredCodeWellFormed(body: SetCodeBody)
    requires BodyError(body).None?
    ensures Utf16Length(Trim(body.accessCode)) >= MinCodeLength && |Trim(body.accessCode)| >= 2
    ensures Trim(Trim(body.accessCode)) == Trim(body.accessCode)
    ensures !IsSpace(Trim(body.accessCode)[0])
  {
    TrimIdempotent(body.accessCode);
  }

  /** Two characters outside the Basic Multilingual Plane make a code of four UTF-16 units, which is accepted. */
  lemma TwoAstralCharactersAccepted()
    ensures BodyError(SetCodeBody("\U{1F600}\U{1F600}", "\U{1F600}\U{1F600}")).None?
  {
    var code := "\U{1F600}\U{1F600}";
    assert !IsSpace(code[0]) && !IsSpace(code[1]);
    assert LeadingSpaces(code) == 0;
    assert TrailingSpaces(code) == 0;
    assert Trim(code) == code;
    assert Astral(code[0]) && Astral(code[1]);
    assert Utf16Length(code[1..]) == 2;
  }

  /**
   * The status the handler answers. Guards: collaborator session (401),
   * field checks (400), own row (404), set-once (409). The update is refused
   * by the table's unique constraint on access_code when another collaborator
   * already holds the trimmed code (500); otherwise it succeeds (200).
   */
  function Outcome(session: Option<Session>, rows: seq<Collaborator>, body: SetCodeBody): (status: int)
    ensures var row := if session.Some? then CollaboratorById(rows, session.value.userId) else None;
      && (!IsCollaboratorSession(session) ==> status == 401)
      && (IsCollaboratorSession(session) && BodyError(body).Some? ==> status == 400)
      && (IsCollaboratorSession(session) && BodyError(body).None? && row.None? ==> status == 404)
      && (IsCollaboratorSession(session) && BodyError(body).None? && row.Some? && row.value.accessCode != "" ==> status == 409)
      && ((IsCollaboratorSession(session) && BodyError(body).None? && row.Some? && row.value.accessCode == "")
            ==> status == (if CodeHeldByOther(rows, session.value.userId, Trim(body.accessCode)) then 500 else 200))
  {
    if !IsCollaboratorSession(session) then 401
    else if BodyError(body).Some? then BodyError(body).value
    else match CollaboratorById(rows, session.value.userId)
      case None => 404
      case Some(row) =>
        if row.accessCode != "" then 409
        else if CodeHeldByOther(rows, session.value.userId, Trim(body.accessCode)) then 500
        else 200
  }

  /**
   * Everything up to and including the update: the guards, then the trimmed
   * code stored on the session user's row and on no other.
   */
  method StoreOwnCode(db: Db, session: Option<Session>, body: SetCodeBody) returns (status: int)
    requires db.Valid()
    modifies db`collaborators
    ensures db.Valid()
    ensures status == Outcome(session, old(db.collaborators), body)
    ensures status != 200 ==> db.collaborators == old(db.collaborators)
    ensures status == 200 ==>
      db.collaborators == SetAccessCode(old(db.collaborators), session.value.userId, Trim(body.accessCode))
  {
    if !IsCollaboratorSession(session) {
      return 401;
    }
    if body.accessCode == "" || body.confirmAccessCode == "" {
      return 400;
    }
    if body.accessCode != body.confirmAccessCode {
      return 400;
    }
    var code := Trim(body.accessCode);
    if Utf16Length(code) < MinCodeLength {
      return 400;
    }
    var id := session.value.userId;
    var current := CollaboratorById(db.collaborators, id);
    if current.None? {
      return 404;
    }
    if current.value.accessCode != "" {
      return 409;
    }
    if CodeHeldByOther(db.collaborators, id, code) {
      return 500;
    }
    SetAccessCodeKeepsUnique(db.collaborators, id, code);
    db.collaborators := SetAccessCode(db.collaborators, id, code);
    status := 200;
  }

  /**
   * The handler as intended: after the update the session is recreated
   * without the pending flag. The rest of the model uses this one.
   */
  method SetOwnAccessCode(db: Db, cookie: SessionCookie, body: SetCodeBody) returns (status: int)
    requires db.Valid()
    modifies db`collaborators, cookie
    ensures db.Valid()
    ensures status == Outcome(old(cookie.value), old(db.collaborators), body)
    ensures status != 200 ==> db.collaborators == old(db.collaborators) && cookie.value == old(cookie.value)
    ensures status == 200 ==>
      var id := old(cookie.value).value.userId;
      && db.collaborators == SetAccessCode(old(db.collaborators), id, Trim(body.accessCode))
      && cookie.value == Some(RecreatedSession(id))
  {
    status := StoreOwnCode(db, cookie.value, body);
    if status == 200 {
      cookie.value := Some(RecreatedSession(cookie.value.value.userId));
    }
  }

  /**
   * The handler as the route file has it: it calls `createSession`, which
   * the session module does not define, so once the update has stored the
   * code the call throws and the catch answers 500. The code stays stored and
   * the cookie keeps its pending flag, so the request never succeeds.
   */
  method SetOwnAccessCodeAsWritten(db: Db, cookie: SessionCookie, body: SetCodeBody) returns (status: int)
    requires db.Valid()
    modifies db`collaborators
    ensures db.Valid()
    ensures status != 200
    ensures var intended := Outcome(cookie.value, old(db.collaborators), body);
      && status == (if intended == 200 then 500 else intended)
      && (intended == 200 ==>
            db.collaborators == SetAccessCode(old(db.collaborators), cookie.value.value.userId, Trim(body.accessCode)))
      && (intended != 200 ==> db.collaborators == old(db.collaborators))
  {
    status := StoreOwnCode(db, cookie.value, body);
    if status == 200 {
      status := 500;
    }
  }

  /** Set-once: a row that already has a code is refused, so a second successful call cannot follow a first. */
  lemma SetOnce(cs: seq<Collaborator>, id: Id, code: string)
    requires CollaboratorsUnique(cs)
    requires code != "" && CollaboratorById(cs, id).Some?
    ensures CollaboratorById(SetAccessCode(cs, id, code), id).Some?
    ensures CollaboratorById(SetAccessCode(cs, id, code), id).value.accessCode == code
  {
    var cs' := SetAccessCode(cs, id, code);
    SameIdsSameIndex(cs, cs', id);
    var k := CollaboratorIndex(cs, id).value;
    assert CollaboratorById(cs', id) == Some(cs'[k]);
  }

  /** The handler writes the access_code column only; access_code_set, which the login reads, is left as it was. */
  lemma AccessCodeSetUntouched(cs: seq<Collaborator>, id: Id, code: string, i: int)
    requires 0 <= i < |cs|
    ensures SetAccessCode(cs, id, code)[i].accessCodeSet == cs[i].accessCodeSet
    ensures SetAccessCode(cs, id, code)[i].balanceHours == cs[i].balanceHours
  {
  }
}
