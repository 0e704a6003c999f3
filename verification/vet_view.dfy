/** The veterinary control panel of views/VetDashboard.tsx: its two
    appointment lists, the accept and decline actions on requests, the
    guard in front of the diagnosis assistant, and the progress bar width. */
module VetView {
  import opened Types
  import Text
  import Queries

  /** `pendingRequests`: the requests waiting for review. */
  function PendingRequests(appts: seq<Appointment>): seq<Appointment> {
    Queries.WithStatus(appts, PENDING_APPROVAL)
  }

  /** `scheduledAppointments`: today's confirmed sessions. */
  function ScheduledAppointments(appts: seq<Appointment>): seq<Appointment> {
    Queries.WithStatus(appts, SCHEDULED)
  }

  /** The two lists hold exactly the pending and exactly the scheduled
      entries, share none, and keep the list's order. */
  lemma ListsPartition(appts: seq<Appointment>, more: seq<Appointment>)
    ensures forall a :: a in PendingRequests(appts) <==> a in appts && a.status == PENDING_APPROVAL
    ensures forall a :: a in ScheduledAppointments(appts) <==> a in appts && a.status == SCHEDULED
    ensures forall a :: a in PendingRequests(appts) ==> a !in ScheduledAppointments(appts)
    ensures PendingRequests(appts + more) == PendingRequests(appts) + PendingRequests(more)
    ensures ScheduledAppointments(appts + more) == ScheduledAppointments(appts) + ScheduledAppointments(more)
  {
    Queries.WithStatusKeepsOrder(appts, more, PENDING_APPROVAL);
    Queries.WithStatusKeepsOrder(appts, more, SCHEDULED);
  }

  /** The Accept and Decline buttons: each pending request offers
      `updateAppointmentStatus` with SCHEDULED or REJECTED. */
  predicate OffersWrite(appts: seq<Appointment>, id: string, s: Status) {
    && (s == SCHEDULED || s == REJECTED)
    && exists i :: 0 <= i < |PendingRequests(appts)| && PendingRequests(appts)[i].id == id
  }

  lemma OfferedWriteIsReview(appts: seq<Appointment>, id: string, s: Status)
    requires OffersWrite(appts, id, s)
    ensures s == SCHEDULED || s == REJECTED
    ensures exists i :: 0 <= i < |appts| && appts[i].id == id && appts[i].status == PENDING_APPROVAL
  {
    var i :| 0 <= i < |PendingRequests(appts)| && PendingRequests(appts)[i].id == id;
    var a := PendingRequests(appts)[i];
    assert a in appts;
    var j :| 0 <= j < |appts| && appts[j] == a;
  }

  const NoHistory := "None provided."

  /** What `handleAIDiagnosis` sends to the assistant: the history (or the
      placeholder when it is empty) and the observations as typed. */
  datatype DiagnosisQuery = DiagnosisQuery(history: string, observations: string)

  /** No request on observations that are white space only. */
  function DiagnosisRequest(history: string, observations: string): (r: Option<DiagnosisQuery>)
    ensures r.None? <==> Text.IsBlank(observations)
    ensures r.Some? ==> r.value.observations == observations
    ensures r.Some? ==> r.value.history != ""
    ensures r.Some? && history != "" ==> r.value.history == history
  {
    Text.TrimEmptyIffBlank(observations);
    if Text.Trim(observations) == "" then None
    else Some(DiagnosisQuery(if history == "" then NoHistory else history, observations))
  }

  /** `ProgressItem`'s bar width in percent. */
  function ProgressPercent(current: real, total: real): (r: real)
    ensures total == 0.0 ==> r == 0.0
    ensures r <= 100.0
    ensures total != 0.0 && current / total * 100.0 <= 100.0 ==> r == current / total * 100.0
    ensures total != 0.0 && current / total * 100.0 >= 100.0 ==> r == 100.0
  {
    if total == 0.0 then 0.0
    else if current / total * 100.0 < 100.0 then current / total * 100.0
    else 100.0
  }

  /** With a count between zero and a positive total, the width lies in [0, 100]. */
  lemma ProgressInRange(current: real, total: real)
    requires 0.0 <= current && 0.0 < total
    ensures 0.0 <= ProgressPercent(current, total) <= 100.0
  {
  }
}
