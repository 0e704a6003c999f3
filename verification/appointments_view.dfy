/** The customer's appointment list of views/AppointmentsView.tsx: the status
    filter bar, the status badge and its style, and the Join and Cancel
    buttons each row offers. */
module AppointmentsView {
  import opened Types
  import Text
  import Queries

  const ShowAll := "ALL"

  /** The filter bar's choices; CANCELLED is not among them. */
  const FilterChoices: seq<string> := ["ALL", "PENDING_APPROVAL", "SCHEDULED", "COMPLETED", "REJECTED"]

  /** `filteredAppointments`: everything under ALL, else the entries whose status name is the filter. */
  function Filtered(appts: seq<Appointment>, filter: string): (r: seq<Appointment>)
    ensures filter == ShowAll ==> r == appts
    ensures filter != ShowAll ==> forall i :: 0 <= i < |r| ==> r[i] in appts && StatusName(r[i].status) == filter
  {
    if filter == ShowAll then appts
    else
      match ParseStatus(filter)
      case Some(s) => Queries.WithStatus(appts, s)
      case None => []
  }

  /** A filter naming a status shows exactly the entries with that status, in order. */
  lemma FilterByStatus(appts: seq<Appointment>, s: Status)
    ensures Filtered(appts, StatusName(s)) == Queries.WithStatus(appts, s)
  {
    NamesRoundTrip(CUSTOMER, VIRTUAL, s);
  }

  /** A filter that names no status shows nothing. */
  lemma UnknownFilterShowsNothing(appts: seq<Appointment>, filter: string)
    requires filter != ShowAll && ParseStatus(filter).None?
    ensures Filtered(appts, filter) == []
  {
  }

  /** A cancelled appointment appears under the ALL choice only. */
  lemma CancelledOnlyUnderAll(appts: seq<Appointment>, filter: string, a: Appointment)
    requires filter in FilterChoices && a.status == CANCELLED && a in Filtered(appts, filter)
    ensures filter == ShowAll
  {
  }

  /** The class list of a badge in one colour. */
  function Palette(color: string): string {
    "bg-" + color + "-50 text-" + color + "-700 border-" + color + "-100"
  }

  /** Different colours give different class lists: the colour can be read
      back from its place after `bg-`. */
  lemma PaletteInjective(c1: string, c2: string)
    requires Palette(c1) == Palette(c2)
    ensures c1 == c2
  {
    assert |Palette(c1)| == 3 * |c1| + 28;
    assert |Palette(c2)| == 3 * |c2| + 28;
    assert Palette(c1)[3..3 + |c1|] == c1;
    assert Palette(c2)[3..3 + |c2|] == c2;
  }

  /** The colour `getStatusStyle` gives each status. */
  function StatusColor(s: Status): string {
    match s
    case SCHEDULED => "green"
    case PENDING_APPROVAL => "amber"
    case REJECTED => "red"
    case COMPLETED => "slate"
    case _ => "slate"
  }

  /** `getStatusStyle`. */
  function StatusStyle(s: Status): string {
    Palette(StatusColor(s))
  }

  /** Scheduled, pending and rejected rows are told apart; completed and
      cancelled rows look the same. */
  lemma StylesDistinguish(s1: Status, s2: Status)
    requires s1 in {SCHEDULED, PENDING_APPROVAL, REJECTED} && s1 != s2
    ensures StatusStyle(s1) != StatusStyle(s2)
    ensures StatusStyle(COMPLETED) == StatusStyle(CANCELLED)
  {
    assert StatusColor(s1)[0] != StatusColor(s2)[0];
    if StatusStyle(s1) == StatusStyle(s2) {
      PaletteInjective(StatusColor(s1), StatusColor(s2));
    }
  }

  /** The badge text: `status.replace('_', ' ')`, the first underscore only. */
  function StatusLabel(s: Status): (r: string)
    ensures |r| == |StatusName(s)|
    ensures '_' !in StatusName(s) ==> r == StatusName(s)
  {
    Text.ReplaceFirst(StatusName(s), '_', ' ')
  }

  lemma PendingNameSplits()
    ensures StatusName(PENDING_APPROVAL) == "PENDING" + ['_'] + "APPROVAL"
    ensures "PENDING" + [' '] + "APPROVAL" == "PENDING APPROVAL"
    ensures '_' !in "PENDING"
  {
  }

  /** The pending badge reads "PENDING APPROVAL". */
  lemma PendingLabel()
    ensures StatusLabel(PENDING_APPROVAL) == "PENDING APPROVAL"
  {
    PendingNameSplits();
    Text.ReplaceFirstSplit("PENDING", "APPROVAL", '_', ' ');
  }

  /** The other badges read as their status names. */
  lemma OtherLabels()
    ensures StatusLabel(SCHEDULED) == "SCHEDULED"
    ensures StatusLabel(REJECTED) == "REJECTED"
    ensures StatusLabel(COMPLETED) == "COMPLETED"
    ensures StatusLabel(CANCELLED) == "CANCELLED"
  {
    assert '_' !in StatusName(SCHEDULED);
    assert '_' !in StatusName(REJECTED);
    assert '_' !in StatusName(COMPLETED);
    assert '_' !in StatusName(CANCELLED);
  }

  /** A label keeps every underscore after the first. */
  lemma ReplaceOnlyFirst(text: string)
    requires '_' in text
    ensures var k := Text.IndexOf(text, '_').value;
            Text.ReplaceFirst(text, '_', ' ')[k] == ' ' &&
            forall i :: k < i < |text| && text[i] == '_' ==> Text.ReplaceFirst(text, '_', ' ')[i] == '_'
  {
  }

  /** "Join Now" is offered exactly on scheduled virtual visits. */
  predicate OffersJoin(a: Appointment) {
    Queries.Joinable(a)
  }

  /** "Cancel Request" (`deleteAppointment`) is offered exactly on pending entries. */
  predicate OffersDelete(a: Appointment) {
    a.status == PENDING_APPROVAL
  }

  /** No row offers both: a joinable visit is never pending. */
  lemma JoinAndDeleteExclusive(a: Appointment)
    ensures !(OffersJoin(a) && OffersDelete(a))
  {
  }
}
