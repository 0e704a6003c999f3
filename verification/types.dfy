/** The domain records of PetPulse: users, pets and appointments, with the
    closed role, visit-type and status unions spelled out as datatypes. */
module Types {

  /** A value that may be absent: an optional record field, a nullable slot. */
  datatype Option<+T> = None | Some(value: T) {
    function GetOr(default: T): T {
      match this
      case Some(v) => v
      case None => default
    }
  }

  datatype UserRole = CUSTOMER | VETERINARIAN | ADMIN

  datatype User = User(id: string, name: string, email: string, role: UserRole, avatar: string)

  /** A user as handed to registration: every field but the id. */
  datatype UserDraft = UserDraft(name: string, email: string, role: UserRole, avatar: string)

  /** `lastVisit` is the only optional field of a pet. */
  datatype Pet = Pet(id: string, ownerId: string, name: string, species: string, breed: string,
                     age: int, weight: real, image: string, lastVisit: Option<string>)
  {
    /** The pet without its id. */
    function Draft(): PetDraft {
      PetDraft(ownerId, name, species, breed, age, weight, image, lastVisit)
    }
  }

  /** A pet as handed to `addPet`: every field but the id. */
  datatype PetDraft = PetDraft(ownerId: string, name: string, species: string, breed: string,
                               age: int, weight: real, image: string, lastVisit: Option<string>)
  {
    function WithId(id: string): Pet {
      Pet(id, ownerId, name, species, breed, age, weight, image, lastVisit)
    }
  }

  datatype VisitType = VIRTUAL | IN_PERSON

  datatype Status = PENDING_APPROVAL | SCHEDULED | COMPLETED | CANCELLED | REJECTED

  datatype Appointment = Appointment(id: string, petId: string, vetId: string, date: string,
                                     time: string, visit: VisitType, status: Status, reason: string)
  {
    function Draft(): AppointmentDraft {
      AppointmentDraft(petId, vetId, date, time, visit, status, reason)
    }
  }

  /** An appointment as handed to `addAppointment`: every field but the id. */
  datatype AppointmentDraft = AppointmentDraft(petId: string, vetId: string, date: string,
                                               time: string, visit: VisitType, status: Status,
                                               reason: string)
  {
    function WithId(id: string): Appointment {
      Appointment(id, petId, vetId, date, time, visit, status, reason)
    }
  }

  /** Attaching an id to a draft and stripping it again are inverse. */
  lemma PetDraftRoundTrip(d: PetDraft, p: Pet, id: string)
    ensures d.WithId(id).Draft() == d
    ensures d.WithId(id).id == id
    ensures p.Draft().WithId(p.id) == p
  {
  }

  lemma AppointmentDraftRoundTrip(d: AppointmentDraft, a: Appointment, id: string)
    ensures d.WithId(id).Draft() == d
    ensures d.WithId(id).id == id
    ensures a.Draft().WithId(a.id) == a
  {
  }

  /** The wire names of the unions, as the source's string literals spell them. */
  function RoleName(r: UserRole): string {
    match r
    case CUSTOMER => "CUSTOMER"
    case VETERINARIAN => "VETERINARIAN"
    case ADMIN => "ADMIN"
  }

  function VisitName(t: VisitType): string {
    match t
    case VIRTUAL => "VIRTUAL"
    case IN_PERSON => "IN_PERSON"
  }

  function StatusName(s: Status): string {
    match s
    case PENDING_APPROVAL => "PENDING_APPROVAL"
    case SCHEDULED => "SCHEDULED"
    case COMPLETED => "COMPLETED"
    case CANCELLED => "CANCELLED"
    case REJECTED => "REJECTED"
  }

  /** Reading a role back from its name: only the three listed names are roles. */
  function ParseRole(s: string): (r: Option<UserRole>)
    ensures r.Some? ==> RoleName(r.value) == s
    ensures r.None? ==> s !in {"CUSTOMER", "VETERINARIAN", "ADMIN"}
  {
    if s == "CUSTOMER" then Some(CUSTOMER)
    else if s == "VETERINARIAN" then Some(VETERINARIAN)
    else if s == "ADMIN" then Some(ADMIN)
    else None
  }

  function ParseVisit(s: string): (r: Option<VisitType>)
    ensures r.Some? ==> VisitName(r.value) == s
    ensures r.None? ==> s !in {"VIRTUAL", "IN_PERSON"}
  {
    if s == "VIRTUAL" then Some(VIRTUAL)
    else if s == "IN_PERSON" then Some(IN_PERSON)
    else None
  }

  /** Reading a status back from its name: exactly the five listed names are statuses. */
  function ParseStatus(s: string): (r: Option<Status>)
    ensures r.Some? ==> StatusName(r.value) == s
    ensures r.None? ==> s !in {"PENDING_APPROVAL", "SCHEDULED", "COMPLETED", "CANCELLED", "REJECTED"}
  {
    if s == "PENDING_APPROVAL" then Some(PENDING_APPROVAL)
    else if s == "SCHEDULED" then Some(SCHEDULED)
    else if s == "COMPLETED" then Some(COMPLETED)
    else if s == "CANCELLED" then Some(CANCELLED)
    else if s == "REJECTED" then Some(REJECTED)
    else None
  }

  /** Every union member survives the trip through its name, so the names are distinct. */
  lemma NamesRoundTrip(r: UserRole, t: VisitType, s: Status)
    ensures ParseRole(RoleName(r)) == Some(r)
    ensures ParseVisit(VisitName(t)) == Some(t)
    ensures ParseStatus(StatusName(s)) == Some(s)
  {
  }

  lemma StatusNamesDistinct(s1: Status, s2: Status)
    ensures StatusName(s1) == StatusName(s2) <==> s1 == s2
  {
    NamesRoundTrip(CUSTOMER, VIRTUAL, s1);
    NamesRoundTrip(CUSTOMER, VIRTUAL, s2);
  }
}
