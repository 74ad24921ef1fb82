/**
 * The collaborator dashboard: the client-side checks and state changes of
 * the leave-request form, and the countdown it renders for the current
 * period.
 */
module CollaboratorDashboard {
  import opened Wrappers
  import Countdown

  /** The collaborator summary the page loads; only the balance matters here. */
  datatype Summary = Summary(fullName: string, badgeNumber: string, balanceHours: real)

  /** A leave request as the page lists it. */
  datatype ListedLeave = ListedLeave(id: string, startDate: string, endDate: string, status: string)

  /** The form fields, all text as typed. */
  datatype LeaveForm = LeaveForm(startDate: string, endDate: string, hoursRequested: string, reason: string)

  const EmptyForm := LeaveForm("", "", "", "")

  /** The JSON body sent to the leave-request route. */
  datatype LeaveRequestBody = LeaveRequestBody(startDate: string, endDate: string, hoursRequested: real, reason: string)

  /** How the POST ended: an ok reply, an error reply, or a thrown exception. */
  datatype Reply = Accepted | Refused | Failed

  /**
   * The client-side checks: the hours parse to a positive number (`hours`
   * is None for NaN) and, once the summary is loaded, do not exceed the
   * balance. Without a summary the balance check is skipped.
   */
  predicate HoursAcceptable(hours: Option<real>, data: Option<Summary>) {
    hours.Some? && hours.value > 0.0 && !(data.Some? && hours.value > data.value.balanceHours)
  }

  /** With the summary loaded, an accepted request asks for at most the balance. */
  lemma AcceptedWithinBalance(hours: Option<real>, data: Option<Summary>)
    requires data.Some?
    ensures HoursAcceptable(hours, data) <==> hours.Some? && 0.0 < hours.value <= data.value.balanceHours
  {
  }

  /** Without the summary any positive number of hours passes. */
  lemma BalanceCheckSkippedWithoutData(hours: Option<real>)
    ensures HoursAcceptable(hours, None) <==> hours.Some? && hours.value > 0.0
  {
  }

  /** The props the page passes to the countdown: the period's end under the name `endDate`. */
  function CountdownProps(periodEnd: int): (props: Countdown.Props)
    ensures "endDate" in props && props["endDate"] == periodEnd
  {
    map["endDate" := periodEnd]
  }

  /**
   * The page names the prop `endDate` but the component reads `targetDate`,
   * so the difference is NaN and the countdown on the dashboard always reads
   * "Período encerrado!", whatever the period and the clock.
   */
  lemma DashboardCountdownAlwaysEnded(periodEnd: int, now: int)
    ensures var difference := Countdown.Difference(Countdown.TargetDate(CountdownProps(periodEnd)), now);
      Countdown.Show(Countdown.NonZeroParts(Countdown.Parts(Countdown.CalculateTimeLeft(difference)))) == Countdown.PeriodEnded
  {
    var difference := Countdown.Difference(Countdown.TargetDate(CountdownProps(periodEnd)), now);
    assert difference.None?;
    Countdown.EndedIffUnderASecond(difference);
  }

  /** The props the page evidently means to pass: the period's end under the name the component reads. */
  function IntendedCountdownProps(periodEnd: int): (props: Countdown.Props)
    ensures Countdown.TargetDate(props) == Some(periodEnd)
  {
    map["targetDate" := periodEnd]
  }

  /** With the prop named `targetDate`, the dashboard countdown ends exactly when less than a second of the period is left. */
  lemma IntendedCountdownEndsUnderASecond(periodEnd: int, now: int)
    ensures var difference := Countdown.Difference(Countdown.TargetDate(IntendedCountdownProps(periodEnd)), now);
      (Countdown.Show(Countdown.NonZeroParts(Countdown.Parts(Countdown.CalculateTimeLeft(difference)))) == Countdown.PeriodEnded)
      <==> periodEnd - now < Countdown.MsPerSecond
  {
    var difference := Countdown.Difference(Countdown.TargetDate(IntendedCountdownProps(periodEnd)), now);
    Countdown.EndedIffUnderASecond(difference);
  }

  /** The dashboard's state that the leave-request form touches. */
  class Dashboard {
    var collaboratorData: Option<Summary>
    var leaveRequests: seq<ListedLeave>
    var loading: bool
    var leaveRequestForm: LeaveForm

    constructor ()
      ensures collaboratorData.None? && leaveRequests == [] && loading && leaveRequestForm == EmptyForm
    {
      collaboratorData, leaveRequests, loading, leaveRequestForm := None, [], true, EmptyForm;
    }

    /**
     * `handleLeaveRequestSubmit`. `hours` is the parsed hours field, `reply`
     * the outcome of the POST, and `requestsReply`/`dataReply` the bodies of
     * the two refresh fetches that answered ok. Returns the body sent, if
     * any. Loading ends false on every path; the form is reset only after an
     * ok reply.
     */
    method HandleLeaveRequestSubmit(hours: Option<real>, reply: Reply,
                                    requestsReply: Option<seq<ListedLeave>>, dataReply: Option<Summary>)
      returns (sent: Option<LeaveRequestBody>)
      modifies this
      ensures !loading
      ensures sent.Some? <==> HoursAcceptable(hours, old(collaboratorData))
      ensures sent.Some? ==> sent.value == LeaveRequestBody(old(leaveRequestForm.startDate), old(leaveRequestForm.endDate),
                                                           hours.value, old(leaveRequestForm.reason))
      ensures sent.Some? && reply == Accepted ==>
        && leaveRequestForm == EmptyForm
        && leaveRequests == requestsReply.GetOr(old(leaveRequests))
        && collaboratorData == (if dataReply.Some? then dataReply else old(collaboratorData))
      ensures !(sent.Some? && reply == Accepted) ==>
        && leaveRequestForm == old(leaveRequestForm)
        && leaveRequests == old(leaveRequests)
        && collaboratorData == old(collaboratorData)
    {
      loading := true;
      if hours.None? || hours.value <= 0.0 {
        loading := false;
        return None;
      }
      if collaboratorData.Some? && hours.value > collaboratorData.value.balanceHours {
        loading := false;
        return None;
      }
      sent := Some(LeaveRequestBody(leaveRequestForm.startDate, leaveRequestForm.endDate, hours.value, leaveRequestForm.reason));
      if reply == Accepted {
        if requestsReply.Some? {
          leaveRequests := requestsReply.value;
        }
        if dataReply.Some? {
          collaboratorData := dataReply;
        }
        leaveRequestForm := EmptyForm;
      }
      loading := false;
    }
  }
}
