/** The appointment life cycle as the views drive it. The store writes any
    status to any appointment; the only state machine there is emerges from
    which writes the screens offer:
    - a customer books (views/CustomerDashboard.tsx), always awaiting approval;
    - a veterinarian (views/VetDashboard.tsx) or a cleared administrator
      (views/AdminDashboard.tsx) approves or declines a pending request;
    - a customer cancels a pending request (views/AppointmentsView.tsx),
      which deletes it.
    No screen ever writes COMPLETED or CANCELLED. */
module Workflow {
  import opened Types
  import Text
  import Store
  import Queries
  import CustomerView
  import VetView
  import AdminView
  import AppointmentsView

  datatype Action =
    | Book(form: CustomerView.Form, now: nat)
    | VetReview(id: string, status: Status)
    | AdminReview(gate: AdminView.Gate, id: string, status: Status)
    | Cancel(id: string)

  /** Whether some screen offers the action on this state. */
  predicate Offered(st: Store.State, act: Action) {
    match act
    case Book(_, _) => true
    case VetReview(id, s) => VetView.OffersWrite(st.appointments, id, s)
    case AdminReview(g, id, s) => AdminView.OffersWrite(g, st.appointments, id, s)
    case Cancel(id) =>
      exists i :: 0 <= i < |st.appointments| && st.appointments[i].id == id
                  && AppointmentsView.OffersDelete(st.appointments[i])
  }

  /** The store call the action makes. */
  function Apply(st: Store.State, act: Action): Store.State {
    match act
    case Book(form, now) => CustomerView.Book(st, form, now).0
    case VetReview(id, s) => st.(appointments := Store.UpdateStatus(st.appointments, id, s))
    case AdminReview(_, id, s) => st.(appointments := Store.UpdateStatus(st.appointments, id, s))
    case Cancel(id) => st.(appointments := Store.Delete(st.appointments, id))
  }

  /** A session: every action the screens offer is carried out, any other is
      impossible and leaves the state as it is. */
  function Run(st: Store.State, acts: seq<Action>): Store.State
    decreases |acts|
  {
    if acts == [] then st
    else Run(if Offered(st, acts[0]) then Apply(st, acts[0]) else st, acts[1..])
  }

  /** The statuses some screen writes. */
  predicate Written(s: Status) {
    s == PENDING_APPROVAL || s == SCHEDULED || s == REJECTED
  }

  predicate OnlyWritten(appts: seq<Appointment>) {
    forall i :: 0 <= i < |appts| ==> Written(appts[i].status)
  }

  /** The seed's one appointment is scheduled. */
  lemma SeedOnlyWritten()
    ensures OnlyWritten(Store.Hydrate(Store.Nothing).appointments)
  {
    Store.FirstStart();
  }

  lemma BookKeepsWritten(st: Store.State, form: CustomerView.Form, now: nat)
    requires OnlyWritten(st.appointments)
    ensures OnlyWritten(Apply(st, Book(form, now)).appointments)
  {
    var after := Apply(st, Book(form, now)).appointments;
    if !Text.IsBlank(form.reason) {
      forall i | 0 <= i < |after| ensures Written(after[i].status) {
        if i < |st.appointments| {
          assert after[i] == after[..|st.appointments|][i];
        }
      }
    }
  }

  lemma WriteKeepsWritten(appts: seq<Appointment>, id: string, s: Status)
    requires OnlyWritten(appts) && Written(s)
    ensures OnlyWritten(Store.UpdateStatus(appts, id, s))
  {
  }

  lemma DeleteKeepsWritten(appts: seq<Appointment>, id: string)
    requires OnlyWritten(appts)
    ensures OnlyWritten(Store.Delete(appts, id))
  {
    var r := Store.Delete(appts, id);
    forall i | 0 <= i < |r| ensures Written(r[i].status) {
      var j :| 0 <= j < |appts| && appts[j] == r[i];
    }
  }

  /** An offered action keeps every status among the written ones. */
  lemma ApplyKeepsWritten(st: Store.State, act: Action)
    requires OnlyWritten(st.appointments) && Offered(st, act)
    ensures OnlyWritten(Apply(st, act).appointments)
  {
    match act
    case Book(form, now) =>
      BookKeepsWritten(st, form, now);
    case VetReview(id, s) =>
      VetView.OfferedWriteIsReview(st.appointments, id, s);
      WriteKeepsWritten(st.appointments, id, s);
    case AdminReview(g, id, s) =>
      AdminView.OfferedWriteIsReview(g, st.appointments, id, s);
      WriteKeepsWritten(st.appointments, id, s);
    case Cancel(id) =>
      DeleteKeepsWritten(st.appointments, id);
  }

  lemma {:induction false} RunKeepsWritten(st: Store.State, acts: seq<Action>)
    requires OnlyWritten(st.appointments)
    ensures OnlyWritten(Run(st, acts).appointments)
    decreases |acts|
  {
    if acts != [] {
      var next := if Offered(st, acts[0]) then Apply(st, acts[0]) else st;
      if Offered(st, acts[0]) {
        ApplyKeepsWritten(st, acts[0]);
      }
      RunKeepsWritten(next, acts[1..]);
    }
  }

  /** From the first start, whatever the users do, no appointment is ever
      completed or cancelled: every status is pending, scheduled or rejected. */
  lemma NeverCompletedOrCancelled(acts: seq<Action>)
    ensures var appts := Run(Store.Hydrate(Store.Nothing), acts).appointments;
            forall i :: 0 <= i < |appts| ==>
              appts[i].status != COMPLETED && appts[i].status != CANCELLED
  {
    SeedOnlyWritten();
    RunKeepsWritten(Store.Hydrate(Store.Nothing), acts);
  }

  /** The store itself does not guard the write: called directly it puts
      any status, COMPLETED and CANCELLED included, on any entry. */
  lemma StoreWriteIsUnconditional(appts: seq<Appointment>, j: nat, s: Status)
    requires j < |appts|
    ensures Store.UpdateStatus(appts, appts[j].id, s)[j] == appts[j].(status := s)
  {
  }

  /** A booking with a reason goes to the end of the pending queue that both
      the veterinarian and the administrator see. */
  lemma BookingJoinsQueue(st: Store.State, form: CustomerView.Form, now: nat)
    requires !Text.IsBlank(form.reason)
    ensures var after := Apply(st, Book(form, now)).appointments;
            && |after| == |st.appointments| + 1
            && VetView.PendingRequests(after) == VetView.PendingRequests(st.appointments) + [after[|st.appointments|]]
            && AdminView.ReviewQueue(after) == VetView.PendingRequests(after)
  {
    var after := Apply(st, Book(form, now)).appointments;
    assert after == st.appointments + [after[|st.appointments|]];
    Queries.WithStatusAppend(st.appointments, after[|st.appointments|], PENDING_APPROVAL);
  }

  predicate UniqueIds(appts: seq<Appointment>) {
    forall i, j :: 0 <= i < j < |appts| ==> appts[i].id != appts[j].id
  }

  /** The pending entry an offered review names. */
  lemma ReviewTarget(st: Store.State, act: Action) returns (j: nat)
    requires act.VetReview? || act.AdminReview?
    requires Offered(st, act)
    ensures j < |st.appointments| && st.appointments[j].id == act.id
    ensures st.appointments[j].status == PENDING_APPROVAL
  {
    if act.VetReview? {
      VetView.OfferedWriteIsReview(st.appointments, act.id, act.status);
    } else {
      AdminView.OfferedWriteIsReview(act.gate, st.appointments, act.id, act.status);
    }
    j :| 0 <= j < |st.appointments| && st.appointments[j].id == act.id
         && st.appointments[j].status == PENDING_APPROVAL;
  }

  /** With distinct ids, a status write to the id of entry `j` leaves every
      other entry as it was. */
  lemma WriteSparesOthers(appts: seq<Appointment>, j: nat, s: Status)
    requires UniqueIds(appts) && j < |appts|
    ensures forall i :: 0 <= i < |appts| && i != j ==> Store.UpdateStatus(appts, appts[j].id, s)[i] == appts[i]
  {
    forall i | 0 <= i < |appts| && i != j
      ensures appts[i].id != appts[j].id
    {
      if i < j {
        assert appts[i].id != appts[j].id;
      } else {
        assert appts[j].id != appts[i].id;
      }
    }
  }

  /** With distinct ids, an offered review leaves every entry that is not
      pending exactly as it was, and settles the one it names. */
  lemma ReviewTouchesOnlyPending(st: Store.State, act: Action)
    requires act.VetReview? || act.AdminReview?
    requires Offered(st, act) && UniqueIds(st.appointments)
    ensures var after := Apply(st, act).appointments;
            && |after| == |st.appointments|
            && (forall i :: 0 <= i < |after| && st.appointments[i].status != PENDING_APPROVAL ==>
                  after[i] == st.appointments[i])
            && (forall i :: 0 <= i < |after| && st.appointments[i].id == act.id ==> after[i].status == act.status)
  {
    var j := ReviewTarget(st, act);
    WriteSparesOthers(st.appointments, j, act.status);
    assert Apply(st, act).appointments == Store.UpdateStatus(st.appointments, st.appointments[j].id, act.status);
  }

  /** Ids come from the clock, so two bookings in the same millisecond get
      the same id. */
  lemma SameClockSameId(st: Store.State, f1: CustomerView.Form, f2: CustomerView.Form, now: nat)
    requires !Text.IsBlank(f1.reason) && !Text.IsBlank(f2.reason)
    ensures var twice := Apply(Apply(st, Book(f1, now)), Book(f2, now)).appointments;
            && |twice| == |st.appointments| + 2
            && twice[|st.appointments|].id == twice[|st.appointments| + 1].id
            && !UniqueIds(twice)
  {
    var once := Apply(st, Book(f1, now));
    var twice := Apply(once, Book(f2, now)).appointments;
    assert twice[..|once.appointments|] == once.appointments;
    assert twice[|st.appointments|] == once.appointments[|st.appointments|];
  }

  /** With a shared id, the review offered on a pending request also
      rewrites a declined entry: approving the one revives the other. */
  lemma SharedIdRevivesDeclined(st: Store.State, i: nat, j: nat)
    requires i < |st.appointments| && j < |st.appointments|
    requires st.appointments[i].id == st.appointments[j].id
    requires st.appointments[i].status == REJECTED && st.appointments[j].status == PENDING_APPROVAL
    ensures var approve := VetReview(st.appointments[j].id, SCHEDULED);
            && Offered(st, approve)
            && Apply(st, approve).appointments[i].status == SCHEDULED
  {
    var appts := st.appointments;
    var q := VetView.PendingRequests(appts);
    assert appts[j] in q;
    var k :| 0 <= k < |q| && q[k] == appts[j];
    assert q[k].id == appts[j].id;
  }
}
