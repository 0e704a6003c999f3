/** The admin command centre of views/AdminDashboard.tsx: the clearance-code
    gate with its three-attempt lockout, the vet verification queue, and the
    appointment review queue with its approve and reject actions. */
module AdminView {
  import opened Types
  import Text
  import Seqs
  import Queries

  const ClearanceCode := "9876"
  const MaxAttempts := 3
  const CodeLength := 4
  const DeniedMessage := "Access Denied: Invalid Clearance Code"

  /** The gate's state: cleared or not, the typed code, the error line and the failed attempts. */
  datatype Gate = Gate(verified: bool, code: string, error: string, attempts: nat)

  /** The gate as the page opens: cleared when the session flag says so, nothing typed, no attempts. */
  function Open(cleared: bool): Gate {
    Gate(cleared, "", "", 0)
  }

  /** The code field: `maxLength` keeps the first four characters, then `\D` strips the non-digits. */
  function Sanitize(raw: string): (r: string)
    ensures Text.IsDigits(r) && |r| <= CodeLength
    ensures forall i :: 0 <= i < |r| ==> r[i] in raw
    ensures Text.IsDigits(raw) && |raw| <= CodeLength ==> r == raw
  {
    var kept := if |raw| <= CodeLength then raw else raw[..CodeLength];
    var r := Text.DigitsOnly(kept);
    assert forall i :: 0 <= i < |r| ==> r[i] in kept;
    r
  }

  /** Sanitizing what is already sanitized changes nothing. */
  lemma SanitizeIdempotent(raw: string)
    ensures Sanitize(Sanitize(raw)) == Sanitize(raw)
  {
    assert Text.IsDigits(Sanitize(raw));
  }

  predicate Locked(g: Gate) {
    g.attempts >= MaxAttempts
  }

  /** The submit button is live only on the uncleared form, with four
      characters typed and fewer than three failures. */
  predicate CanSubmit(g: Gate) {
    !g.verified && |g.code| >= CodeLength && !Locked(g)
  }

  /** `handleVerify` once the handshake delay has passed. */
  function Verify(g: Gate): (r: Gate)
    ensures g.code == ClearanceCode ==> r.verified && r.error == "" && r.attempts == g.attempts
    ensures g.code != ClearanceCode ==>
              && r.attempts == g.attempts + 1 && r.error == DeniedMessage
              && r.code == "" && r.verified == g.verified
  {
    if g.code == ClearanceCode then g.(verified := true, error := "")
    else g.(attempts := g.attempts + 1, error := DeniedMessage, code := "")
  }

  /** What the user can do at the gate: type into the field, submit, or lock the console again. */
  datatype Event = Type(raw: string) | Submit | Lock

  /** One event. Typing needs the field, which is shown on the uncleared form
      and disabled after three failures; submitting needs the live button;
      `handleLock` clears the flag. */
  function Step(g: Gate, e: Event): (r: Gate)
    ensures e == Lock ==> !r.verified && r.code == g.code && r.attempts == g.attempts && r.error == g.error
    ensures e.Type? && !g.verified && !Locked(g) ==>
              && r.code == Sanitize(e.raw) && r.verified == g.verified && r.attempts == g.attempts
              && r.error == g.error
    ensures e.Type? && (g.verified || Locked(g)) ==> r == g
    ensures e == Submit && !CanSubmit(g) ==> r == g
    ensures e == Submit && CanSubmit(g) ==> r.attempts == g.attempts + (if g.code == ClearanceCode then 0 else 1)
    ensures e == Submit && CanSubmit(g) ==> (r.verified <==> g.code == ClearanceCode)
  {
    match e
    case Type(raw) => if g.verified || Locked(g) then g else g.(code := Sanitize(raw))
    case Submit => if CanSubmit(g) then Verify(g) else g
    case Lock => g.(verified := false)
  }

  function Run(g: Gate, events: seq<Event>): Gate
    decreases |events|
  {
    if events == [] then g else Run(Step(g, events[0]), events[1..])
  }

  /** What every reachable gate satisfies: at most three failures, cleared
      only below three, and a code of at most four digits. */
  predicate Valid(g: Gate) {
    && g.attempts <= MaxAttempts
    && (g.verified ==> g.attempts < MaxAttempts)
    && Text.IsDigits(g.code) && |g.code| <= CodeLength
  }

  lemma OpenIsValid(cleared: bool)
    ensures Valid(Open(cleared))
  {
  }

  lemma StepKeepsValid(g: Gate, e: Event)
    requires Valid(g)
    ensures Valid(Step(g, e))
  {
  }

  lemma {:induction false} RunKeepsValid(g: Gate, events: seq<Event>)
    requires Valid(g)
    ensures Valid(Run(g, events))
    decreases |events|
  {
    if events != [] {
      StepKeepsValid(g, events[0]);
      RunKeepsValid(Step(g, events[0]), events[1..]);
    }
  }

  /** The gate opens only on a submission of the clearance code. */
  lemma ClearanceNeedsCode(g: Gate, e: Event)
    requires !g.verified && Step(g, e).verified
    ensures e == Submit && g.code == ClearanceCode && !Locked(g)
  {
  }

  /** Typing the clearance code and submitting it opens a gate that is not
      locked out. */
  lemma CodeOpensGate(g: Gate)
    requires !g.verified && !Locked(g)
    ensures Step(Step(g, Type(ClearanceCode)), Submit).verified
  {
    var typed := Step(g, Type(ClearanceCode));
    CodeIsDigits();
    SubmitCode(typed);
  }

  /** Two events in a row are one step after the other. */
  lemma RunTwo(g: Gate, e1: Event, e2: Event)
    ensures Run(g, [e1, e2]) == Step(Step(g, e1), e2)
  {
    var events := [e1, e2];
    assert events[1..] == [e2];
    assert [e2][1..] == [];
    assert Run(g, events) == Run(Step(g, e1), [e2]);
  }

  /** The page, opened without the session flag, can be cleared: type the
      clearance code and submit it. */
  lemma ClearanceReachable()
    ensures Run(Open(false), [Type(ClearanceCode), Submit]).verified
  {
    CodeOpensGate(Open(false));
    RunTwo(Open(false), Type(ClearanceCode), Submit);
  }

  lemma SubmitCode(g: Gate)
    requires !g.verified && !Locked(g) && g.code == ClearanceCode
    ensures Step(g, Submit).verified
  {
  }

  /** The clearance code survives the field's sanitizing. */
  lemma CodeIsDigits()
    ensures Sanitize(ClearanceCode) == ClearanceCode
  {
    assert Text.IsDigits(ClearanceCode);
  }

  /** A wrong code costs exactly one attempt and clears the field. */
  lemma WrongCodeCostsOneAttempt(g: Gate)
    requires CanSubmit(g) && g.code != ClearanceCode
    ensures Step(g, Submit).attempts == g.attempts + 1
    ensures Step(g, Submit).code == "" && !Step(g, Submit).verified
  {
  }

  /** After three failures nothing the user does changes the gate. */
  lemma {:induction false} LockoutIsFinal(g: Gate, events: seq<Event>)
    requires Valid(g) && Locked(g)
    ensures Run(g, events) == g
    decreases |events|
  {
    if events != [] {
      assert Step(g, events[0]) == g;
      LockoutIsFinal(g, events[1..]);
    }
  }

  // ---- The vet verification queue ----

  datatype Applicant = Applicant(id: string, name: string, specialty: string, status: string, date: string)

  const InitialVetQueue: seq<Applicant> := [
    Applicant("v1", "Dr. Alex Rivera", "Exotic Pets", "PENDING", "2h ago"),
    Applicant("v2", "Dr. Emily Chen", "Canine Surgery", "REVIEWING", "5h ago")
  ]

  /** `handleVetAction(id, status)`: the queue items with that id take the
      status; every other item, and every other field, stays. */
  function VetAction(queue: seq<Applicant>, id: string, status: string): (r: seq<Applicant>)
    ensures |r| == |queue|
    ensures forall i :: 0 <= i < |queue| ==> r[i].id == queue[i].id && r[i].name == queue[i].name
    ensures forall i :: 0 <= i < |queue| && queue[i].id == id ==> r[i] == queue[i].(status := status)
    ensures forall i :: 0 <= i < |queue| && queue[i].id != id ==> r[i] == queue[i]
  {
    Seqs.MapWhere((a: Applicant) => a.id == id, (a: Applicant) => a.(status := status), queue)
  }

  /** The two buttons on a queue item write APPROVED or REJECTED; so the
      queue only ever holds its initial statuses and those two. */
  predicate KnownApplicantStatus(s: string) {
    s in {"PENDING", "REVIEWING", "APPROVED", "REJECTED"}
  }

  lemma VetActionKeepsStatuses(queue: seq<Applicant>, id: string, approve: bool)
    requires forall i :: 0 <= i < |queue| ==> KnownApplicantStatus(queue[i].status)
    ensures var r := VetAction(queue, id, if approve then "APPROVED" else "REJECTED");
            forall i :: 0 <= i < |r| ==> KnownApplicantStatus(r[i].status)
  {
  }

  /** The buttons the queue offers: approve or reject one applicant. */
  datatype VetDecision = VetDecision(id: string, approve: bool)

  function DecideAll(queue: seq<Applicant>, decisions: seq<VetDecision>): seq<Applicant>
    decreases |decisions|
  {
    if decisions == [] then queue
    else DecideAll(VetAction(queue, decisions[0].id, if decisions[0].approve then "APPROVED" else "REJECTED"),
                   decisions[1..])
  }

  /** From the queue the page opens with, any clicks leave the same
      applicants in the same order, each with one of the four statuses. */
  lemma {:induction false} DecisionsKeepQueue(queue: seq<Applicant>, decisions: seq<VetDecision>)
    requires forall i :: 0 <= i < |queue| ==> KnownApplicantStatus(queue[i].status)
    ensures var r := DecideAll(queue, decisions);
            && |r| == |queue|
            && (forall i :: 0 <= i < |r| ==> r[i].id == queue[i].id && KnownApplicantStatus(r[i].status))
    decreases |decisions|
  {
    if decisions != [] {
      var d := decisions[0];
      VetActionKeepsStatuses(queue, d.id, d.approve);
      DecisionsKeepQueue(VetAction(queue, d.id, if d.approve then "APPROVED" else "REJECTED"), decisions[1..]);
    }
  }

  lemma InitialQueueKnown()
    ensures forall i :: 0 <= i < |InitialVetQueue| ==> KnownApplicantStatus(InitialVetQueue[i].status)
  {
  }

  // ---- The appointment review queue ----

  /** `pendingAppointments`: the appointments awaiting approval, in list order. */
  function ReviewQueue(appts: seq<Appointment>): (r: seq<Appointment>)
    ensures forall i :: 0 <= i < |r| ==> r[i] in appts && r[i].status == PENDING_APPROVAL
    ensures forall i :: 0 <= i < |appts| && appts[i].status == PENDING_APPROVAL ==> appts[i] in r
  {
    Queries.WithStatus(appts, PENDING_APPROVAL)
  }

  /** The review buttons: behind a cleared gate, each queue entry offers
      `updateAppointmentStatus` with SCHEDULED (approve) or REJECTED (reject). */
  predicate OffersWrite(g: Gate, appts: seq<Appointment>, id: string, s: Status) {
    && g.verified
    && (s == SCHEDULED || s == REJECTED)
    && exists i :: 0 <= i < |ReviewQueue(appts)| && ReviewQueue(appts)[i].id == id
  }

  /** An offered write names a pending appointment and is approve or reject. */
  lemma OfferedWriteIsReview(g: Gate, appts: seq<Appointment>, id: string, s: Status)
    requires OffersWrite(g, appts, id, s)
    ensures s == SCHEDULED || s == REJECTED
    ensures exists i :: 0 <= i < |appts| && appts[i].id == id && appts[i].status == PENDING_APPROVAL
  {
    var i :| 0 <= i < |ReviewQueue(appts)| && ReviewQueue(appts)[i].id == id;
    var a := ReviewQueue(appts)[i];
    assert a in appts;
    var j :| 0 <= j < |appts| && appts[j] == a;
  }
}
