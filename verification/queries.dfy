/** The read-side filters several views compute over the appointment list:
    the entries with one status, and the joinable calls. */
module Queries {
  import opened Types
  import Seqs

  /** The appointments with status `s`, in list order. */
  function WithStatus(appts: seq<Appointment>, s: Status): (r: seq<Appointment>)
    ensures |r| <= |appts|
    ensures forall i :: 0 <= i < |r| ==> r[i] in appts && r[i].status == s
    ensures forall i :: 0 <= i < |appts| && appts[i].status == s ==> appts[i] in r
  {
    Seqs.Filter((a: Appointment) => a.status == s, appts)
  }

  /** The selection keeps the original order: it commutes with splitting the list. */
  lemma WithStatusKeepsOrder(a: seq<Appointment>, b: seq<Appointment>, s: Status)
    ensures WithStatus(a + b, s) == WithStatus(a, s) + WithStatus(b, s)
  {
    Seqs.FilterConcat((x: Appointment) => x.status == s, a, b);
  }

  /** An appended appointment joins the selection, at its end, exactly when it has the status. */
  lemma WithStatusAppend(appts: seq<Appointment>, x: Appointment, s: Status)
    ensures WithStatus(appts + [x], s) == WithStatus(appts, s) + (if x.status == s then [x] else [])
  {
    Seqs.FilterSnoc((y: Appointment) => y.status == s, appts, x);
  }

  /** Selections by two different statuses share no entry. */
  lemma WithStatusDisjoint(appts: seq<Appointment>, s1: Status, s2: Status)
    requires s1 != s2
    ensures forall i, j :: 0 <= i < |WithStatus(appts, s1)| && 0 <= j < |WithStatus(appts, s2)| ==>
              WithStatus(appts, s1)[i] != WithStatus(appts, s2)[j]
  {
  }

  /** A list in which every entry has the status is its own selection. */
  lemma WithStatusAll(appts: seq<Appointment>, s: Status)
    requires forall i :: 0 <= i < |appts| ==> appts[i].status == s
    ensures WithStatus(appts, s) == appts
  {
    Seqs.FilterAll((a: Appointment) => a.status == s, appts);
  }

  /** A call can be joined when it is scheduled and virtual. */
  predicate Joinable(a: Appointment) {
    a.status == SCHEDULED && a.visit == VIRTUAL
  }

  /** The appointments that are scheduled and virtual, in list order. */
  function JoinableCalls(appts: seq<Appointment>): (r: seq<Appointment>)
    ensures |r| <= |appts|
    ensures forall i :: 0 <= i < |r| ==> r[i] in appts && r[i].status == SCHEDULED && r[i].visit == VIRTUAL
    ensures forall i :: 0 <= i < |appts| && Joinable(appts[i]) ==> appts[i] in r
  {
    Seqs.Filter(Joinable, appts)
  }

  /** The joinable calls are the virtual ones among the scheduled entries, in the same order. */
  lemma {:induction false} JoinableAreScheduledVirtual(appts: seq<Appointment>)
    ensures JoinableCalls(appts) == Seqs.Filter((a: Appointment) => a.visit == VIRTUAL, WithStatus(appts, SCHEDULED))
  {
    if appts != [] {
      var x := appts[0];
      assert appts == [x] + appts[1..];
      WithStatusKeepsOrder([x], appts[1..], SCHEDULED);
      assert WithStatus([x], SCHEDULED) == (if x.status == SCHEDULED then [x] else []) by {
        assert [x][1..] == [];
      }
      Seqs.FilterConcat((a: Appointment) => a.visit == VIRTUAL, WithStatus([x], SCHEDULED), WithStatus(appts[1..], SCHEDULED));
      assert Seqs.Filter((a: Appointment) => a.visit == VIRTUAL, [x]) == (if x.visit == VIRTUAL then [x] else []) by {
        assert [x][1..] == [];
      }
      JoinableAreScheduledVirtual(appts[1..]);
    }
  }
}
