/**
 * POST /api/collaborator/access-code-reset-request: a collaborator asks an
 * administrator for a new access code. A second request while one is still
 * pending is refused, so each collaborator has at most one pending request.
 */
module ResetRequestRoute {
  import opened Wrappers
  import opened Schema

  /** The lookup of lines 15-20: a request of this collaborator still pending. */
  function PendingRequest(rs: seq<ResetRequest>, id: Id): (r: Option<ResetRequest>)
    ensures r.Some? <==> exists i :: 0 <= i < |rs| && rs[i].collaboratorId == id && rs[i].status == Pending
  {
    First(rs, (q: ResetRequest) => q.collaboratorId == id && q.status == Pending)
  }

  /** The table invariant: no two pending requests belong to the same collaborator. */
  ghost predicate AtMostOnePending(rs: seq<ResetRequest>) {
    forall i, j :: 0 <= i < j < |rs| && rs[i].status == Pending && rs[j].status == Pending ==>
      rs[i].collaboratorId != rs[j].collaboratorId
  }

  /** Appending a pending request for a collaborator with none keeps the invariant. */
  lemma AppendKeepsAtMostOnePending(rs: seq<ResetRequest>, id: Id)
    requires AtMostOnePending(rs) && PendingRequest(rs, id).None?
    ensures AtMostOnePending(rs + [ResetRequest(id, Pending)])
  {
    var rs' := rs + [ResetRequest(id, Pending)];
    forall i, j | 0 <= i < j < |rs'| && rs'[i].status == Pending && rs'[j].status == Pending
      ensures rs'[i].collaboratorId != rs'[j].collaboratorId
    {
      if j == |rs| {
        assert rs[i].collaboratorId == rs'[i].collaboratorId;
      }
    }
  }

  /**
   * The handler. A caller without a collaborator session gets 401; one with
   * a pending request gets 409; otherwise a pending request under the
   * session user is appended. Requests of other collaborators, and answered
   * ones, do not block.
   */
  method RequestReset(db: Db, session: Option<Session>) returns (status: int)
    requires AtMostOnePending(db.resetRequests)
    modifies db`resetRequests
    ensures AtMostOnePending(db.resetRequests)
    ensures !IsCollaboratorSession(session) ==> status == 401
    ensures IsCollaboratorSession(session) ==>
      status == (if PendingRequest(old(db.resetRequests), session.value.userId).Some? then 409 else 200)
    ensures status != 200 ==> db.resetRequests == old(db.resetRequests)
    ensures status == 200 ==> db.resetRequests == old(db.resetRequests) + [ResetRequest(session.value.userId, Pending)]
  {
    if !IsCollaboratorSession(session) {
      return 401;
    }
    var existing := PendingRequest(db.resetRequests, session.value.userId);
    if existing.Some? {
      return 409;
    }
    AppendKeepsAtMostOnePending(db.resetRequests, session.value.userId);
    db.resetRequests := db.resetRequests + [ResetRequest(session.value.userId, Pending)];
    status := 200;
  }

  /** Right after a successful request, a second one by the same collaborator is refused. */
  lemma SecondRequestRefused(rs: seq<ResetRequest>, id: Id)
    ensures PendingRequest(rs + [ResetRequest(id, Pending)], id).Some?
  {
    var rs' := rs + [ResetRequest(id, Pending)];
    assert rs'[|rs|].collaboratorId == id && rs'[|rs|].status == Pending;
  }
}
