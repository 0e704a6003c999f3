/** The customer home of views/CustomerDashboard.tsx: the quick add-pet and
    booking forms, the guard in front of the symptom checker, and the visit
    status labels. */
module CustomerView {
  import opened Types
  import Text
  import Store
  import AppointmentsView

  const NewPetPhoto := "https://images.unsplash.com/photo-1543466835-00a7907e9de1?auto=format&fit=crop&q=80&w=200"
  const DefaultOwner := "c1"
  const DefaultPetId := "p1"
  const DefaultVet := "v1"

  /** The dashboard's form fields. */
  datatype Form = Form(petName: string, petSpecies: string, reason: string, date: string, time: string)

  /** The pet `handleAddPet` registers: the typed name and species, everything else fixed. */
  function QuickPet(name: string, species: string): (d: PetDraft)
    ensures d.name == name && d.species == species
    ensures d.breed == "Mixed" && d.age == 1 && d.weight == 10.0 && d.ownerId == DefaultOwner
    ensures d.lastVisit.None?
  {
    PetDraft(DefaultOwner, name, species, "Mixed", 1, 10.0, NewPetPhoto, None)
  }

  /** `handleAddPet`: nothing on an empty name; otherwise one pet more and the name field cleared. */
  function AddPet(st: Store.State, form: Form, now: nat): (r: (Store.State, Form))
    ensures form.petName == "" ==> r == (st, form)
    ensures form.petName != "" ==>
              && |r.0.pets| == |st.pets| + 1
              && r.0.pets[..|st.pets|] == st.pets
              && r.0.pets[|st.pets|].Draft() == QuickPet(form.petName, form.petSpecies)
              && r.0.appointments == st.appointments && r.0.user == st.user
              && r.1 == form.(petName := "")
  {
    if form.petName == "" then (st, form)
    else (Store.AddPet(st, QuickPet(form.petName, form.petSpecies), now), form.(petName := ""))
  }

  /** `pets[0]?.id || 'p1'`: the first pet's id, unless there is no pet or its id is empty. */
  function BookingPetId(pets: seq<Pet>): (id: string)
    ensures id != ""
    ensures |pets| > 0 && pets[0].id != "" ==> id == pets[0].id
  {
    if |pets| > 0 && pets[0].id != "" then pets[0].id else DefaultPetId
  }

  /** The appointment `handleBookAppointment` requests: a virtual visit with
      the default vet, awaiting approval, for the first pet. */
  function Booking(pets: seq<Pet>, form: Form): (d: AppointmentDraft)
    ensures d.status == PENDING_APPROVAL && d.visit == VIRTUAL && d.vetId == DefaultVet
    ensures d.reason == form.reason && d.date == form.date && d.time == form.time
    ensures d.petId == BookingPetId(pets)
  {
    AppointmentDraft(BookingPetId(pets), DefaultVet, form.date, form.time, VIRTUAL, PENDING_APPROVAL, form.reason)
  }

  /** `handleBookAppointment`: nothing when the reason is white space only;
      otherwise the request is appended, with the reason as typed, and the
      reason field cleared. */
  function Book(st: Store.State, form: Form, now: nat): (r: (Store.State, Form))
    ensures Text.IsBlank(form.reason) ==> r == (st, form)
    ensures !Text.IsBlank(form.reason) ==>
              && |r.0.appointments| == |st.appointments| + 1
              && r.0.appointments[..|st.appointments|] == st.appointments
              && r.0.appointments[|st.appointments|].Draft() == Booking(st.pets, form)
              && r.0.appointments[|st.appointments|].id == Store.AppointmentId(now)
              && r.0.pets == st.pets && r.0.user == st.user
              && r.1 == form.(reason := "")
  {
    Text.TrimEmptyIffBlank(form.reason);
    if Text.Trim(form.reason) == "" then (st, form)
    else (Store.AddAppointment(st, Booking(st.pets, form), now), form.(reason := ""))
  }

  const GeneralQuery := "A general pet health query."

  /** The sentence about the first pet that goes with a symptom check. */
  function PetInfo(pets: seq<Pet>): (info: string)
    ensures pets == [] ==> info == GeneralQuery
    ensures pets != [] ==> |pets[0].name| <= |info| && info[..|pets[0].name|] == pets[0].name
    ensures pets != [] ==> |info| > 0 && info[|info| - 1] == '.'
    ensures pets != [] ==>
              var tail := " " + pets[0].breed + " " + pets[0].species + ".";
              |tail| <= |info| && info[|info| - |tail|..] == tail
  {
    if |pets| > 0 then
      var p := pets[0];
      var tail := " " + p.breed + " " + p.species + ".";
      var info := p.name + (" is a " + Text.IntText(p.age) + " year old") + tail;
      Framed(p.name, " is a " + Text.IntText(p.age) + " year old", tail);
      info
    else GeneralQuery
  }

  /** A text made of three parts starts with the first and ends with the last. */
  lemma Framed(head: string, middle: string, tail: string)
    ensures var t := head + middle + tail;
            && |head| <= |t| && t[..|head|] == head
            && |tail| <= |t| && t[|t| - |tail|..] == tail
  {
    var t := head + middle + tail;
    assert t == head + (middle + tail);
  }

  /** Only the first pet is described: the pets after it do not matter. */
  lemma PetInfoFirstPetOnly(pets: seq<Pet>, more: seq<Pet>)
    requires pets != []
    ensures PetInfo(pets + more) == PetInfo(pets[..1])
  {
    assert (pets + more)[0] == pets[..1][0];
  }

  datatype SymptomQuery = SymptomQuery(petInfo: string, symptoms: string)

  /** `handleSymptomCheck`: no request on white space; otherwise the pet
      sentence and the symptoms as typed. */
  function SymptomRequest(pets: seq<Pet>, symptoms: string): (r: Option<SymptomQuery>)
    ensures r.None? <==> Text.IsBlank(symptoms)
    ensures r.Some? ==> r.value.symptoms == symptoms
    ensures r.Some? ==> r.value.petInfo == PetInfo(pets)
  {
    Text.TrimEmptyIffBlank(symptoms);
    if Text.Trim(symptoms) == "" then None else Some(SymptomQuery(PetInfo(pets), symptoms))
  }

  /** The label under each visit. */
  function VisitLabel(s: Status): (caption: string)
    ensures caption == "Waiting for Admin" <==> s == PENDING_APPROVAL
    ensures caption == "Booking Declined" <==> s == REJECTED
    ensures caption == "Confirmed" <==> s in {SCHEDULED, COMPLETED, CANCELLED}
  {
    if s == PENDING_APPROVAL then "Waiting for Admin"
    else if s == REJECTED then "Booking Declined"
    else
      assert s == SCHEDULED || s == COMPLETED || s == CANCELLED;
      "Confirmed"
  }

  /** "Join Consultation" is offered on every scheduled visit, virtual or not. */
  predicate OffersJoin(a: Appointment) {
    a.status == SCHEDULED
  }

  /** A scheduled in-person visit is offered a video join here, though the
      appointments list offers it none. */
  lemma JoinIgnoresVisitType(a: Appointment)
    requires a.status == SCHEDULED && a.visit == IN_PERSON
    ensures OffersJoin(a) && !AppointmentsView.OffersJoin(a)
  {
  }
}
