/** The session store of App.tsx: the current user, the pets and the
    appointments, the operations the views call on it, and startup hydration
    from the three stored slots. `Date.now()` is the parameter `now`. */
module Store {
  import opened Types
  import Text
  import Seqs

  datatype State = State(user: Option<User>, pets: seq<Pet>, appointments: seq<Appointment>)

  /** The fixed accounts `login` chooses from, one per role. */
  function MockUser(role: UserRole): User {
    match role
    case CUSTOMER =>
      User("c1", "John Doe", "john@example.com", CUSTOMER, "https://picsum.photos/id/64/100/100")
    case VETERINARIAN =>
      User("v1", "Dr. Sarah Smith", "sarah@petpulse.vet", VETERINARIAN, "https://picsum.photos/id/65/100/100")
    case ADMIN =>
      User("a1", "Admin User", "admin@petpulse.com", ADMIN, "https://picsum.photos/id/66/100/100")
  }

  /** `login(role)`: the session user becomes the mock account of that role. */
  function Login(st: State, role: UserRole): (r: State)
    ensures r.user.Some? && r.user.value.role == role
    ensures r.user.value.id == (match role case CUSTOMER => "c1" case VETERINARIAN => "v1" case ADMIN => "a1")
    ensures r.pets == st.pets && r.appointments == st.appointments
  {
    st.(user := Some(MockUser(role)))
  }

  /** The three mock accounts are told apart by their ids. */
  lemma MockUsersDistinct(r1: UserRole, r2: UserRole)
    ensures MockUser(r1).id == MockUser(r2).id <==> r1 == r2
  {
  }

  const AvatarService := "https://api.dicebear.com/7.x/avataaars/svg?seed="

  /** `register(newUser)`: name, email and role are kept, the id is `u` and the
      clock, and the avatar is derived from the name whatever was supplied. */
  function Register(st: State, draft: UserDraft, now: nat): (r: State)
    ensures r.user.Some?
    ensures r.user.value.name == draft.name && r.user.value.email == draft.email
    ensures r.user.value.role == draft.role
    ensures r.user.value.id == "u" + Text.Decimal(now)
    ensures r.user.value.avatar == AvatarService + draft.name
    ensures r.pets == st.pets && r.appointments == st.appointments
  {
    st.(user := Some(User("u" + Text.Decimal(now), draft.name, draft.email, draft.role,
                          AvatarService + draft.name)))
  }

  /** The supplied avatar never reaches the registered user. */
  lemma RegisterIgnoresAvatar(st: State, d: UserDraft, avatar: string, now: nat)
    ensures Register(st, d, now) == Register(st, d.(avatar := avatar), now)
  {
  }

  /** `logout`: no current user; pets and appointments stay. */
  function Logout(st: State): (r: State)
    ensures r.user.None?
    ensures r.pets == st.pets && r.appointments == st.appointments
  {
    st.(user := None)
  }

  /** `addPet(newPet)`: the pet, with id `p` and the clock, goes after the existing ones. */
  function AddPet(st: State, draft: PetDraft, now: nat): (r: State)
    ensures |r.pets| == |st.pets| + 1
    ensures r.pets[..|st.pets|] == st.pets
    ensures r.pets[|st.pets|].Draft() == draft
    ensures r.pets[|st.pets|].id == "p" + Text.Decimal(now)
    ensures r.user == st.user && r.appointments == st.appointments
  {
    st.(pets := st.pets + [draft.WithId("p" + Text.Decimal(now))])
  }

  /** The id part of a new appointment. */
  function AppointmentId(now: nat): string {
    "a" + Text.Decimal(now)
  }

  /** `addAppointment(newAppt)`: every field is kept as given, the status
      included; the id is `a` and the clock; the record goes last. */
  function AddAppointment(st: State, draft: AppointmentDraft, now: nat): (r: State)
    ensures |r.appointments| == |st.appointments| + 1
    ensures r.appointments[..|st.appointments|] == st.appointments
    ensures r.appointments[|st.appointments|].Draft() == draft
    ensures r.appointments[|st.appointments|].status == draft.status
    ensures r.appointments[|st.appointments|].id == AppointmentId(now)
    ensures r.user == st.user && r.pets == st.pets
  {
    st.(appointments := st.appointments + [draft.WithId(AppointmentId(now))])
  }

  /** `updateAppointmentStatus(id, status)`: every appointment with that id
      gets the status, whatever it had before; nothing else changes. */
  function UpdateStatus(appts: seq<Appointment>, id: string, status: Status): (r: seq<Appointment>)
    ensures |r| == |appts|
    ensures forall i :: 0 <= i < |appts| && appts[i].id == id ==> r[i] == appts[i].(status := status)
    ensures forall i :: 0 <= i < |appts| && appts[i].id != id ==> r[i] == appts[i]
  {
    Seqs.MapWhere((a: Appointment) => a.id == id, (a: Appointment) => a.(status := status), appts)
  }

  predicate HasId(appts: seq<Appointment>, id: string) {
    exists i :: 0 <= i < |appts| && appts[i].id == id
  }

  /** An id that matches nothing leaves the list as it was. */
  lemma UpdateStatusUnknownId(appts: seq<Appointment>, id: string, status: Status)
    requires !HasId(appts, id)
    ensures UpdateStatus(appts, id, status) == appts
  {
  }

  /** The write is last-wins: a second update of the same id overrides the
      first, and repeating an update changes nothing more. */
  lemma UpdateStatusLastWins(appts: seq<Appointment>, id: string, s1: Status, s2: Status)
    ensures UpdateStatus(UpdateStatus(appts, id, s1), id, s2) == UpdateStatus(appts, id, s2)
    ensures UpdateStatus(UpdateStatus(appts, id, s1), id, s1) == UpdateStatus(appts, id, s1)
  {
  }

  /** `deleteAppointment(id)`: every appointment with that id goes, the rest stay in order. */
  function Delete(appts: seq<Appointment>, id: string): (r: seq<Appointment>)
    ensures |r| <= |appts|
    ensures forall i :: 0 <= i < |r| ==> r[i] in appts && r[i].id != id
    ensures forall i :: 0 <= i < |appts| && appts[i].id != id ==> appts[i] in r
  {
    Seqs.Filter((a: Appointment) => a.id != id, appts)
  }

  /** Deleting twice is deleting once; deleting an unknown id is a no-op. */
  lemma DeleteIdempotent(appts: seq<Appointment>, id: string)
    ensures Delete(Delete(appts, id), id) == Delete(appts, id)
    ensures !HasId(appts, id) ==> Delete(appts, id) == appts
  {
    Seqs.FilterIdempotent((a: Appointment) => a.id != id, appts);
    if !HasId(appts, id) {
      Seqs.FilterAll((a: Appointment) => a.id != id, appts);
    }
  }

  /** Deleting keeps the survivors in their order: it commutes with splitting the list. */
  lemma DeleteKeepsOrder(a: seq<Appointment>, b: seq<Appointment>, id: string)
    ensures Delete(a + b, id) == Delete(a, id) + Delete(b, id)
  {
    Seqs.FilterConcat((x: Appointment) => x.id != id, a, b);
  }

  /** Deleting an id that is present shortens the list. */
  lemma DeleteShrinks(appts: seq<Appointment>, id: string)
    requires HasId(appts, id)
    ensures |Delete(appts, id)| < |appts|
  {
    var i :| 0 <= i < |appts| && appts[i].id == id;
    var p := (x: Appointment) => x.id != id;
    assert appts == appts[..i] + [appts[i]] + appts[i + 1..];
    Seqs.FilterConcat(p, appts[..i] + [appts[i]], appts[i + 1..]);
    Seqs.FilterSnoc(p, appts[..i], appts[i]);
  }

  // ---- Persistence: the three stored slots and hydration at startup ----

  const PetPhotoBuddy := "https://images.unsplash.com/photo-1552053831-71594a27632d?auto=format&fit=crop&q=80&w=200"
  const PetPhotoLuna := "https://images.unsplash.com/photo-1514888286974-6c03e2ca1dba?auto=format&fit=crop&q=80&w=200"

  function SeedPets(): seq<Pet> {
    [ Pet("p1", "c1", "Buddy", "Dog", "Golden Retriever", 3, 32.0, PetPhotoBuddy, None),
      Pet("p2", "c1", "Luna", "Cat", "Siamese", 5, 4.5, PetPhotoLuna, None) ]
  }

  function SeedAppointments(): seq<Appointment> {
    [ Appointment("a1", "p1", "v1", "2024-05-15", "10:30 AM", VIRTUAL, SCHEDULED, "Annual Checkup") ]
  }

  /** What the three storage keys hold: `None` for an absent key. The user
      slot holds `Some(None)` once a `null` user has been written. */
  datatype Saved = Saved(user: Option<Option<User>>, pets: Option<seq<Pet>>,
                         appointments: Option<seq<Appointment>>)

  const Nothing := Saved(None, None, None)

  /** The initial state: each slot's stored value when the key is present,
      even an empty list, and the seed only when it is absent. */
  function Hydrate(saved: Saved): (r: State)
    ensures saved.pets.Some? ==> r.pets == saved.pets.value
    ensures saved.appointments.Some? ==> r.appointments == saved.appointments.value
    ensures saved.user.Some? ==> r.user == saved.user.value
    ensures saved.user.None? ==> r.user.None?
    ensures saved.pets.None? ==> r.pets == SeedPets()
    ensures saved.appointments.None? ==> r.appointments == SeedAppointments()
  {
    State(saved.user.GetOr(None), saved.pets.GetOr(SeedPets()), saved.appointments.GetOr(SeedAppointments()))
  }

  /** The slots after the store's effects have written every collection. */
  function Persist(st: State): (r: Saved)
    ensures r.user.Some? && r.pets.Some? && r.appointments.Some?
  {
    Saved(Some(st.user), Some(st.pets), Some(st.appointments))
  }

  /** Restarting restores exactly what was written. */
  lemma PersistRoundTrip(st: State)
    ensures Hydrate(Persist(st)) == st
  {
  }

  /** A first start: no user, the pets p1 and p2 of owner c1, and the one
      scheduled virtual appointment a1. */
  lemma FirstStart()
    ensures Hydrate(Nothing).user.None?
    ensures |Hydrate(Nothing).pets| == 2
    ensures Hydrate(Nothing).pets[0].id == "p1" && Hydrate(Nothing).pets[1].id == "p2"
    ensures forall i :: 0 <= i < |Hydrate(Nothing).pets| ==> Hydrate(Nothing).pets[i].ownerId == "c1"
    ensures |Hydrate(Nothing).appointments| == 1
    ensures Hydrate(Nothing).appointments[0].id == "a1"
    ensures Hydrate(Nothing).appointments[0].status == SCHEDULED
    ensures Hydrate(Nothing).appointments[0].visit == VIRTUAL
  {
  }
}
