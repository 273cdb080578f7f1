/**
 * The clinician's appointment list: the entry-window gate, the per-appointment
 * action table, and the component state that polling the appointment service updates.
 */
module BookingHistory {
  import opened Wrappers
  import Js

  const FifteenMinutesMs: int := 15 * 60 * 1000
  const ThirtyMinutesMs: int := 30 * 60 * 1000
  const VideoRoomPrefix: string := "/doctor/video-room/"
  const DetailsNotFound: string := "Doctor details not found"
  const FetchFailed: string := "Failed to fetch appointments"

  /** One appointment record as the service returns it. */
  datatype Appointment = Appointment(
    id: Option<string>,
    patientName: string,
    date: string,
    time: string,
    mode: Option<string>,
    meetingId: Option<string>)

  /** The browser's `new Date(text)`: an instant in milliseconds, or None for an invalid Date. */
  type DateParser = string -> Option<int>

  /** The two readings of `new Date()` taken while one action is chosen: one inside
      the window check and one for the upcoming/completed comparison. */
  datatype Clock = Clock(atWindowCheck: int, atCompare: int)

  /** The five things the action cell can show. */
  datatype Action = InPersonVisit | NoMeetingId | JoinVideoCall(to: string) | Upcoming | Completed

  /** The scheduled instant of an appointment, as the component parses it. */
  function Scheduled(a: Appointment, parse: DateParser): Option<int>
  {
    parse(a.date + "T" + a.time)
  }

  /** `isAppointmentTime`: entry is open from 15 minutes before the start through
      30 minutes after, both bounds included; an unparseable date never opens. */
  function IsAppointmentTime(date: string, time: string, parse: DateParser, now: int): (open: bool)
    ensures open <==> parse(date + "T" + time).Some? &&
                      parse(date + "T" + time).value - FifteenMinutesMs <= now <= parse(date + "T" + time).value + ThirtyMinutesMs
  {
    var at := Js.DateValue(parse(date + "T" + time));
    Js.AtLeast(Js.Finite(now), Js.Minus(at, FifteenMinutesMs)) &&
    Js.AtMost(Js.Finite(now), Js.Plus(at, ThirtyMinutesMs))
  }

  /** The exact bounds belong to the window; one millisecond beyond either does not. */
  lemma WindowBoundsInclusive(date: string, time: string, parse: DateParser, t: int)
    requires parse(date + "T" + time) == Some(t)
    ensures IsAppointmentTime(date, time, parse, t - FifteenMinutesMs)
    ensures IsAppointmentTime(date, time, parse, t + ThirtyMinutesMs)
    ensures !IsAppointmentTime(date, time, parse, t - FifteenMinutesMs - 1)
    ensures !IsAppointmentTime(date, time, parse, t + ThirtyMinutesMs + 1)
  {
  }

  /** An invalid date keeps the window closed whatever the time. */
  lemma WindowFailsClosed(date: string, time: string, parse: DateParser, now: int)
    requires parse(date + "T" + time).None?
    ensures !IsAppointmentTime(date, time, parse, now)
  {
  }

  /** `renderAppointmentAction`. */
  function RenderAppointmentAction(a: Appointment, parse: DateParser, clock: Clock): (act: Action)
    ensures a.mode != Some("Online") ==> act == InPersonVisit
    ensures a.mode == Some("Online") && !Js.Truthy(a.meetingId) ==> act == NoMeetingId
    ensures act.JoinVideoCall? <==>
              a.mode == Some("Online") && Js.Truthy(a.meetingId) &&
              IsAppointmentTime(a.date, a.time, parse, clock.atWindowCheck)
    ensures act.JoinVideoCall? ==> act.to == VideoRoomPrefix + a.meetingId.value
    ensures act.Upcoming? <==>
              a.mode == Some("Online") && Js.Truthy(a.meetingId) &&
              !IsAppointmentTime(a.date, a.time, parse, clock.atWindowCheck) &&
              Scheduled(a, parse).Some? && clock.atCompare < Scheduled(a, parse).value
    ensures act.Completed? <==>
              a.mode == Some("Online") && Js.Truthy(a.meetingId) &&
              !IsAppointmentTime(a.date, a.time, parse, clock.atWindowCheck) &&
              (Scheduled(a, parse).None? || clock.atCompare >= Scheduled(a, parse).value)
  {
    if a.mode.None? || a.mode.value == "" || a.mode != Some("Online") then
      InPersonVisit
    else if !Js.Truthy(a.meetingId) then
      NoMeetingId
    else if IsAppointmentTime(a.date, a.time, parse, clock.atWindowCheck) then
      JoinVideoCall(VideoRoomPrefix + a.meetingId.value)
    else if Js.Below(Js.Finite(clock.atCompare), Js.DateValue(Scheduled(a, parse))) then
      Upcoming
    else
      Completed
  }

  /** The action read off a timeline around the scheduled instant: the reference
      that the decision table is checked against. */
  function Timeline(a: Appointment, scheduled: Option<int>, now: int): Action
  {
    if a.mode != Some("Online") then InPersonVisit
    else if !Js.Truthy(a.meetingId) then NoMeetingId
    else match scheduled
      case None => Completed
      case Some(t) =>
        if now < t - FifteenMinutesMs then Upcoming
        else if now <= t + ThirtyMinutesMs then JoinVideoCall(VideoRoomPrefix + a.meetingId.value)
        else Completed
  }

  /** With both clock readings equal, the table partitions time into
      before-window (Upcoming), window (join link) and after-window (Completed). */
  lemma ActionFollowsTimeline(a: Appointment, parse: DateParser, now: int)
    ensures RenderAppointmentAction(a, parse, Clock(now, now)) == Timeline(a, Scheduled(a, parse), now)
  {
  }

  /** Upcoming means the first reading is more than 15 minutes before the start,
      provided the clock does not run backwards between the two readings. */
  lemma UpcomingIsBeforeWindow(a: Appointment, parse: DateParser, clock: Clock)
    requires clock.atWindowCheck <= clock.atCompare
    requires RenderAppointmentAction(a, parse, clock) == Upcoming
    ensures Scheduled(a, parse).Some?
    ensures clock.atWindowCheck < Scheduled(a, parse).value - FifteenMinutesMs
  {
  }

  /** Completed means the date is unparseable or the window has passed,
      when both readings agree. */
  lemma CompletedIsAfterWindow(a: Appointment, parse: DateParser, now: int)
    requires RenderAppointmentAction(a, parse, Clock(now, now)) == Completed
    ensures Scheduled(a, parse).None? || now > Scheduled(a, parse).value + ThirtyMinutesMs
  {
  }

  /** Within one render the two readings are close: as long as less than 15 minutes
      separate them, Completed still means an unparseable date or a first reading
      more than 30 minutes past the start. */
  lemma CompletedIsAfterWindowForCloseReadings(a: Appointment, parse: DateParser, clock: Clock)
    requires clock.atWindowCheck <= clock.atCompare <= clock.atWindowCheck + FifteenMinutesMs
    requires RenderAppointmentAction(a, parse, clock) == Completed
    ensures Scheduled(a, parse).None? || clock.atWindowCheck > Scheduled(a, parse).value + ThirtyMinutesMs
  {
  }

  /** If more than 15 minutes pass between the two readings, a reading before the
      window followed by one at the start instant shows Completed for an
      appointment that is just beginning. */
  lemma ReadingsApartShowCompletedEarly(a: Appointment)
    requires a.mode == Some("Online") && Js.Truthy(a.meetingId)
    ensures RenderAppointmentAction(a, _ => Some(0), Clock(-FifteenMinutesMs - 1, 0)) == Completed
    ensures IsAppointmentTime(a.date, a.time, _ => Some(0), 0)
  {
  }

  /** One row of the appointments table. */
  datatype Row = Row(key: Option<string>, patientName: string, date: string, time: string,
                     modeLabel: string, action: Action)

  /** `appointment.mode || 'In-person'`. */
  function ModeLabel(mode: Option<string>): (shown: string)
    ensures shown != ""
    ensures shown == "In-person" || Some(shown) == mode
    ensures Js.Truthy(mode) ==> shown == mode.value
  {
    if Js.Truthy(mode) then mode.value else "In-person"
  }

  function RenderRow(a: Appointment, parse: DateParser, clock: Clock): Row
  {
    Row(a.id, a.patientName, a.date, a.time, ModeLabel(a.mode), RenderAppointmentAction(a, parse, clock))
  }

  /** `appointments.map(...)`: one row per appointment, in order. */
  function RenderRows(appointments: seq<Appointment>, parse: DateParser, clock: Clock): (rows: seq<Row>)
    ensures |rows| == |appointments|
    ensures forall i :: 0 <= i < |appointments| ==> rows[i] == RenderRow(appointments[i], parse, clock)
  {
    if appointments == [] then []
    else [RenderRow(appointments[0], parse, clock)] + RenderRows(appointments[1..], parse, clock)
  }

  /** What `JSON.parse(localStorage.getItem('doctorDetails'))` produced: nothing or a falsy
      value, a syntax error with its message, or a record with an optional `id`. */
  datatype StoredDetails = NoDetails | Malformed(syntaxError: string) | Details(id: Option<string>)

  /** The body of a completed response, as `response.json()` reads it. */
  datatype Body = Json(data: seq<Appointment>) | BadJson(message: string)

  /** What `fetch` settled with: a rejection with its message, or a response. */
  datatype Reply = Rejected(message: string) | Response(ok: bool, body: Body)

  predicate HasDoctorId(stored: StoredDetails)
  {
    stored.Details? && Js.Truthy(stored.id)
  }

  /** The `try` block of `fetchAppointments` as a value: the appointments it stores,
      or the message of the error it throws. */
  function FetchResult(stored: StoredDetails, reply: Reply): (r: Result<seq<Appointment>, string>)
    ensures (stored.NoDetails? || (stored.Details? && !Js.Truthy(stored.id))) ==> r == Failure(DetailsNotFound)
    ensures stored.Malformed? ==> r == Failure(stored.syntaxError)
    ensures HasDoctorId(stored) && reply.Response? && !reply.ok ==> r == Failure(FetchFailed)
    ensures r.Success? <==> HasDoctorId(stored) && reply.Response? && reply.ok && reply.body.Json?
    ensures r.Success? ==> r.value == reply.body.data
    ensures HasDoctorId(stored) && reply.Rejected? ==> r == Failure(reply.message)
    ensures HasDoctorId(stored) && reply.Response? && reply.ok && reply.body.BadJson? ==> r == Failure(reply.body.message)
  {
    match stored
    case Malformed(m) => Failure(m)
    case NoDetails => Failure(DetailsNotFound)
    case Details(id) =>
      if !Js.Truthy(id) then Failure(DetailsNotFound)
      else match reply
        case Rejected(m) => Failure(m)
        case Response(ok, body) =>
          if !ok then Failure(FetchFailed)
          else match body
            case BadJson(m) => Failure(m)
            case Json(data) => Success(data)
  }

  /** What the component renders. */
  datatype Screen = LoadingAppointments | ErrorMessage(message: string) | AppointmentsTable(rows: seq<Row>)

  /** The render body over the three pieces of state: loading first, then a
      truthy error, then the table. */
  function Render(isLoading: bool, error: Option<string>, appointments: seq<Appointment>,
                  parse: DateParser, clock: Clock): (s: Screen)
    ensures isLoading ==> s == LoadingAppointments
    ensures !isLoading && Js.Truthy(error) ==> s == ErrorMessage(error.value)
    ensures !isLoading && !Js.Truthy(error) ==> s == AppointmentsTable(RenderRows(appointments, parse, clock))
  {
    if isLoading then LoadingAppointments
    else if Js.Truthy(error) then ErrorMessage(error.value)
    else AppointmentsTable(RenderRows(appointments, parse, clock))
  }

  /** The `DoctorBookingHistory` component's state. */
  class DoctorBookingHistory {
    var appointments: seq<Appointment>
    var isLoading: bool
    var error: Option<string>
    /** The doctor ids the appointment service was asked about, oldest first. */
    ghost var requests: seq<string>

    constructor ()
      ensures appointments == [] && isLoading && error == None && requests == []
    {
      appointments := [];
      isLoading := true;
      error := None;
      requests := [];
    }

    /** `fetchAppointments`, run on mount and again by every poll.  The service is
        asked only once a doctor id is known; a success keeps an earlier error. */
    method FetchAppointments(stored: StoredDetails, reply: Reply)
      modifies this
      ensures !isLoading
      ensures requests == old(requests) + (if HasDoctorId(stored) then [stored.id.value] else [])
      ensures FetchResult(stored, reply).Success? ==>
                appointments == FetchResult(stored, reply).value && error == old(error)
      ensures FetchResult(stored, reply).Failure? ==>
                appointments == old(appointments) && error == Some(FetchResult(stored, reply).error)
    {
      var thrown: Option<string> := None;
      if stored.Malformed? {
        thrown := Some(stored.syntaxError);
      } else if stored.NoDetails? || !Js.Truthy(stored.id) {
        thrown := Some(DetailsNotFound);
      } else {
        requests := requests + [stored.id.value];
        if reply.Rejected? {
          thrown := Some(reply.message);
        } else if !reply.ok {
          thrown := Some(FetchFailed);
        } else if reply.body.BadJson? {
          thrown := Some(reply.body.message);
        } else {
          appointments := reply.body.data;
        }
      }
      if thrown.Some? {
        error := thrown;
      }
      isLoading := false;
    }

    function View(parse: DateParser, clock: Clock): Screen
      reads this
    {
      Render(isLoading, error, appointments, parse, clock)
    }
  }

  /** The screen after any fetch, from the state it moves to: missing details or a
      doctor record without an id show the "not found" error, a non-ok response the
      "failed" error, a success the new rows unless an earlier error is still set,
      and the spinner never. */
  lemma ScreenAfterFetch(stored: StoredDetails, reply: Reply, before: seq<Appointment>,
                         previous: Option<string>, parse: DateParser, clock: Clock)
    ensures var r := FetchResult(stored, reply);
            var s := Render(false, if r.Failure? then Some(r.error) else previous,
                            if r.Success? then r.value else before, parse, clock);
            && s != LoadingAppointments
            && (!HasDoctorId(stored) && !stored.Malformed? ==> s == ErrorMessage(DetailsNotFound))
            && (HasDoctorId(stored) && reply.Response? && !reply.ok ==> s == ErrorMessage(FetchFailed))
            && (r.Success? && !Js.Truthy(previous) ==> s == AppointmentsTable(RenderRows(reply.body.data, parse, clock)))
            && (r.Success? && Js.Truthy(previous) ==> s == ErrorMessage(previous.value))
  {
  }
}
