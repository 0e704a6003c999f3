/** The video room of views/Consultations.tsx: the list of calls that can be
    joined, joining and hanging up, the mute and camera toggles, and the
    room label. */
module ConsultationsView {
  import opened Types
  import Text
  import Queries

  /** `isJoined`, `isMuted`, `isVideoOff` and `activeCall`. */
  datatype Room = Room(joined: bool, muted: bool, videoOff: bool, active: Option<Appointment>)

  /** The lobby as the page opens: not joined, microphone and camera on, no call. */
  const Idle := Room(false, false, false, None)

  /** `availableCalls`: the scheduled virtual appointments, in list order. */
  function AvailableCalls(appts: seq<Appointment>): seq<Appointment> {
    Queries.JoinableCalls(appts)
  }

  /** The lobby's Join Room button on one of the available calls. */
  function Join(room: Room, call: Appointment): (r: Room)
    ensures r.joined && r.active == Some(call)
    ensures r.muted == room.muted && r.videoOff == room.videoOff
  {
    room.(active := Some(call), joined := true)
  }

  /** The red button: leave the room; the last call stays remembered. */
  function HangUp(room: Room): (r: Room)
    ensures !r.joined
    ensures r.active == room.active && r.muted == room.muted && r.videoOff == room.videoOff
  {
    room.(joined := false)
  }

  function ToggleMute(room: Room): (r: Room)
    ensures r.muted == !room.muted
    ensures r.joined == room.joined && r.videoOff == room.videoOff && r.active == room.active
  {
    room.(muted := !room.muted)
  }

  function ToggleVideo(room: Room): (r: Room)
    ensures r.videoOff == !room.videoOff
    ensures r.joined == room.joined && r.muted == room.muted && r.active == room.active
  {
    room.(videoOff := !room.videoOff)
  }

  /** Each toggle undoes itself, and the two do not interfere. */
  lemma TogglesInvolutive(room: Room)
    ensures ToggleMute(ToggleMute(room)) == room
    ensures ToggleVideo(ToggleVideo(room)) == room
    ensures ToggleMute(ToggleVideo(room)) == ToggleVideo(ToggleMute(room))
  {
  }

  datatype Event = JoinCall(call: Appointment) | Mute | Camera | Leave

  /** One click. The lobby (not joined) shows only the Join buttons, one per
      available call; the room (joined) shows only the call controls. */
  function Step(appts: seq<Appointment>, room: Room, e: Event): Room {
    match e
    case JoinCall(call) => if !room.joined && call in AvailableCalls(appts) then Join(room, call) else room
    case Mute => if room.joined then ToggleMute(room) else room
    case Camera => if room.joined then ToggleVideo(room) else room
    case Leave => if room.joined then HangUp(room) else room
  }

  function Run(appts: seq<Appointment>, room: Room, events: seq<Event>): Room
    decreases |events|
  {
    if events == [] then room else Run(appts, Step(appts, room, events[0]), events[1..])
  }

  /** Whenever the room is shown there is an active call, and every call
      ever made active was a scheduled virtual appointment. */
  predicate Valid(appts: seq<Appointment>, room: Room) {
    && (room.joined ==> room.active.Some?)
    && (room.active.Some? ==> Queries.Joinable(room.active.value) && room.active.value in appts)
  }

  lemma {:induction false} RunKeepsValid(appts: seq<Appointment>, room: Room, events: seq<Event>)
    requires Valid(appts, room)
    ensures Valid(appts, Run(appts, room, events))
    decreases |events|
  {
    if events != [] {
      var next := Step(appts, room, events[0]);
      assert Valid(appts, next);
      RunKeepsValid(appts, next, events[1..]);
    }
  }

  /** From the lobby as the page opens, whatever is clicked, the room is
      shown only on a scheduled virtual appointment from the list. */
  lemma SessionFromIdle(appts: seq<Appointment>, events: seq<Event>)
    ensures var room := Run(appts, Idle, events);
            room.joined ==> room.active.Some? && Queries.Joinable(room.active.value) && room.active.value in appts
  {
    RunKeepsValid(appts, Idle, events);
  }

  /** The room label: `activeCall?.id.slice(-6)`, nothing without an active call. */
  function RoomLabel(room: Room): (r: string)
    ensures room.active.None? ==> r == ""
    ensures room.active.Some? ==> |r| == (if |room.active.value.id| < 6 then |room.active.value.id| else 6)
    ensures room.active.Some? ==> room.active.value.id == room.active.value.id[..|room.active.value.id| - |r|] + r
  {
    match room.active
    case None => ""
    case Some(call) => Text.TakeLast(call.id, 6)
  }

  /** An id of at most six characters is shown whole. */
  lemma ShortIdShownWhole(room: Room)
    requires room.active.Some? && |room.active.value.id| <= 6
    ensures RoomLabel(room) == room.active.value.id
  {
    var id := room.active.value.id;
    assert id[..0] == [];
  }
}
