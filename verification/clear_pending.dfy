/**
 * POST /api/auth/clear-pending-access-code: when the session carries a
 * truthy pendingAccessCode key, the session is rewritten without that key;
 * otherwise it is left alone.
 */
module ClearPendingRoute {
  import opened Wrappers
  import opened Schema

  /** `session.pendingAccessCode` is truthy. */
  predicate PendingSet(s: Option<Session>) {
    s.Some? && s.value.pendingAccessCode == Some(true)
  }

  /** The session after the handler: `{ pendingAccessCode, ...rest }` drops the key when it is truthy. */
  function Cleared(s: Option<Session>): (r: Option<Session>)
    ensures !PendingSet(r)
    ensures r.Some? <==> s.Some?
    ensures r.Some? ==> r.value.userId == s.value.userId && r.value.userType == s.value.userType && r.value.role == s.value.role
    ensures !PendingSet(s) ==> r == s
    ensures PendingSet(s) ==> r.value.pendingAccessCode.None?
  {
    if PendingSet(s) then Some(s.value.(pendingAccessCode := None)) else s
  }

  /** A second call changes nothing. */
  lemma ClearIdempotent(s: Option<Session>)
    ensures Cleared(Cleared(s)) == Cleared(s)
  {
  }

  /** The handler; both branches answer 200. */
  method ClearPendingAccessCode(cookie: SessionCookie) returns (status: int)
    modifies cookie
    ensures status == 200
    ensures cookie.value == Cleared(old(cookie.value))
  {
    var session := cookie.value;
    if session.Some? && session.value.pendingAccessCode == Some(true) {
      var rest := session.value.(pendingAccessCode := None);
      cookie.value := Some(rest);
      return 200;
    }
    return 200;
  }
}
