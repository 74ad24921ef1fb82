/**
 * POST /api/admin/time-entry: an administrator with the "enter hours"
 * permission records hours for a collaborator; the entry stores the signed
 * change and the collaborator's balance moves by that same change.
 */
module TimeEntryRoute {
  import opened Wrappers
  import opened Schema

  /** The JSON body. Text fields are "" when absent or empty; hoursWorked is None when undefined. */
  datatype TimeEntryBody = TimeEntryBody(
    collaboratorId: Id, date: string, hoursWorked: Option<real>, entryType: string, description: string)

  /** `!collaborator_id || !date || hours_worked === undefined || !entry_type`: zero hours pass. */
  predicate Incomplete(body: TimeEntryBody) {
    body.collaboratorId == "" || body.date == "" || body.hoursWorked.None? || body.entryType == ""
  }

  /** The three entry types the handler accepts, by their wire names. */
  function ParseEntryType(s: string): (r: Option<EntryType>)
    ensures r.Some? <==> s in {"positive", "negative", "overtime"}
  {
    if s == "positive" then Some(Positive)
    else if s == "negative" then Some(Negative)
    else if s == "overtime" then Some(Overtime)
    else None
  }

  /** What one entry does to the ledger: overtime recorded, signed change stored, balance written. */
  datatype Posting = Posting(overtimeHours: real, balanceChange: real, newBalance: real)

  /** The specification of the branch at lines 41-57: the effect of an entry of `kind` on `oldBalance`. */
  function Post(kind: EntryType, hours: real, oldBalance: real): (p: Posting)
    ensures p.newBalance == oldBalance + p.balanceChange
    ensures p.overtimeHours == (if kind == Overtime then hours else 0.0)
    ensures p.balanceChange == (if kind == Negative then -hours else hours)
  {
    match kind
    case Positive => Posting(0.0, hours, oldBalance + hours)
    case Negative => Posting(0.0, -hours, oldBalance - hours)
    case Overtime => Posting(hours, hours, oldBalance + hours)
  }

  /** A negative entry undoes a positive entry of the same hours. */
  lemma NegativeUndoesPositive(hours: real, balance: real)
    ensures Post(Negative, hours, Post(Positive, hours, balance).newBalance).newBalance == balance
  {
  }

  /** Overtime moves the balance exactly as a positive entry does; it only differs in the overtime column. */
  lemma OvertimeCountsAsPositive(hours: real, balance: real)
    ensures Post(Overtime, hours, balance).newBalance == Post(Positive, hours, balance).newBalance
    ensures Post(Overtime, hours, balance).balanceChange == Post(Positive, hours, balance).balanceChange
  {
  }

  /** The sum of the changes stored on a collaborator's entries. */
  function LedgerTotal(entries: seq<TimeEntry>, id: Id): real {
    if entries == [] then 0.0
    else
      var last := entries[|entries| - 1];
      LedgerTotal(entries[..|entries| - 1], id) + (if last.collaboratorId == id then last.balanceHours else 0.0)
  }

  /** Appending an entry adds its change to its own collaborator's total and to no other. */
  lemma LedgerTotalAppend(entries: seq<TimeEntry>, e: TimeEntry, id: Id)
    ensures LedgerTotal(entries + [e], id) == LedgerTotal(entries, id) + (if e.collaboratorId == id then e.balanceHours else 0.0)
  {
    assert (entries + [e])[..|entries|] == entries;
  }

  /**
   * Inserting an entry whose stored change is the balance change of its
   * collaborator keeps "balance minus ledger total" fixed for everyone.
   */
  lemma EntryReconciles(rows: seq<Collaborator>, entries: seq<TimeEntry>, e: TimeEntry, newBalance: real)
    requires CollaboratorsUnique(rows)
    requires CollaboratorById(rows, e.collaboratorId).Some?
    requires newBalance == BalanceOf(rows, e.collaboratorId) + e.balanceHours
    ensures forall id :: BalanceOf(SetBalance(rows, e.collaboratorId, newBalance), id) - LedgerTotal(entries + [e], id)
                      == BalanceOf(rows, id) - LedgerTotal(entries, id)
  {
    forall id
      ensures BalanceOf(SetBalance(rows, e.collaboratorId, newBalance), id) - LedgerTotal(entries + [e], id)
           == BalanceOf(rows, id) - LedgerTotal(entries, id)
    {
      BalanceAfterSet(rows, e.collaboratorId, newBalance, id);
      LedgerTotalAppend(entries, e, id);
    }
  }

  /**
   * The handler. Guards in the source's order: session (401), permission
   * (403), required fields (400), collaborator lookup (404), entry type
   * (400); only then is the entry inserted and the balance updated.
   */
  method PostTimeEntry(db: Db, session: Option<Session>, body: TimeEntryBody) returns (status: int)
    requires db.Valid()
    modifies db`timeEntries, db`collaborators
    ensures db.Valid()
    ensures !IsAdminSession(session) ==> status == 401
    ensures IsAdminSession(session) && !Permitted(old(db.administrators), session.value, EnterHours) ==> status == 403
    ensures Authorized(old(db.administrators), session, EnterHours) && Incomplete(body) ==> status == 400
    ensures (Authorized(old(db.administrators), session, EnterHours) && !Incomplete(body)
      && CollaboratorById(old(db.collaborators), body.collaboratorId).None?) ==> status == 404
    ensures (Authorized(old(db.administrators), session, EnterHours) && !Incomplete(body)
      && CollaboratorById(old(db.collaborators), body.collaboratorId).Some?
      && ParseEntryType(body.entryType).None?) ==> status == 400
    ensures status == 200 <==>
      Authorized(old(db.administrators), session, EnterHours) && !Incomplete(body)
      && CollaboratorById(old(db.collaborators), body.collaboratorId).Some?
      && ParseEntryType(body.entryType).Some?
    ensures status != 200 ==> db.timeEntries == old(db.timeEntries) && db.collaborators == old(db.collaborators)
    ensures status == 200 ==>
      var id := body.collaboratorId;
      var hours := body.hoursWorked.value;
      var kind := ParseEntryType(body.entryType).value;
      var p := Post(kind, hours, BalanceOf(old(db.collaborators), id));
      db.timeEntries == old(db.timeEntries) + [TimeEntry(id, body.date, hours, p.overtimeHours, p.balanceChange, kind, body.description)]
      && db.collaborators == SetBalance(old(db.collaborators), id, p.newBalance)
    // the change stored on the entry is the change applied to the balance:
    // balance minus ledger total stays the same for every collaborator
    ensures forall id :: BalanceOf(db.collaborators, id) - LedgerTotal(db.timeEntries, id)
                      == BalanceOf(old(db.collaborators), id) - LedgerTotal(old(db.timeEntries), id)
  {
    if !IsAdminSession(session) {
      return 401;
    }
    if !Permitted(db.administrators, session.value, EnterHours) {
      return 403;
    }
    if Incomplete(body) {
      return 400;
    }
    var row := CollaboratorById(db.collaborators, body.collaboratorId);
    if row.None? {
      return 404;
    }
    assert BalanceOf(db.collaborators, body.collaboratorId) == row.value.balanceHours.GetOr(0.0);
    var hours := body.hoursWorked.value;
    var newBalance := row.value.balanceHours.GetOr(0.0);
    var overtimeHours := 0.0;
    var balanceHoursChange := 0.0;
    var kind: EntryType;
    if body.entryType == "positive" {
      kind := Positive;
      balanceHoursChange := hours;
      newBalance := newBalance + hours;
    } else if body.entryType == "negative" {
      kind := Negative;
      balanceHoursChange := -hours;
      newBalance := newBalance - hours;
    } else if body.entryType == "overtime" {
      kind := Overtime;
      overtimeHours := hours;
      balanceHoursChange := hours;
      newBalance := newBalance + hours;
    } else {
      return 400;
    }
    assert ParseEntryType(body.entryType) == Some(kind);
    assert Post(kind, hours, BalanceOf(db.collaborators, body.collaboratorId)) == Posting(overtimeHours, balanceHoursChange, newBalance);
    var entry := TimeEntry(body.collaboratorId, body.date, hours, overtimeHours, balanceHoursChange, kind, body.description);
    ghost var entries, rows := db.timeEntries, db.collaborators;
    db.timeEntries := db.timeEntries + [entry];
    db.collaborators := SetBalance(db.collaborators, body.collaboratorId, newBalance);
    status := 200;
    SetBalanceKeepsUnique(rows, body.collaboratorId, newBalance);
    EntryReconciles(rows, entries, entry, newBalance);
  }
}
