# Telehealth front end: appointment gate, route guards and video-room media lifecycle

This project models the decision logic of a clinician-facing React front end for
telehealth appointments, and proves properties of that logic in Dafny.

- **Appointment list** (`booking_history.dfy`, module `BookingHistory`). This covers
  the entry-window gate `isAppointmentTime` and the five-way action table
  `renderAppointmentAction`: in-person visit, no meeting id, join link, upcoming, or
  completed. It also covers the table rows and the component state that
  `fetchAppointments` updates, which are the appointments list, `isLoading` and
  `error`. The render precedence is loading, then error, then table.
- **Route guards** (`protected_route.dfy`, `app.dfy`). `ProtectedRoute` redirects to
  `/doctor-login` unless both the `jwt_token` cookie and the stored `doctorDetails`
  are truthy. `App` has its own `isAuthenticated` check and a `Switch` of seven
  routes in which the first match wins.
- **Video room** (`video_room.dfy`, module `VideoRoomComponent`). This covers:
  - the meeting-id guard of the mount effect;
  - acquiring local media;
  - stopping every local track on cleanup and on "End Call";
  - the choice of the page that end-call returns to.

`js.dfy` holds the JavaScript semantics these rely on:
- truthiness of optional strings (`undefined`, `null` and `""` are falsy);
- numbers that may be NaN, where every comparison with NaN is false;
- `String.prototype.includes`.

`wrappers.dfy` holds `Option` and `Result`.

Values the source takes from its surroundings are parameters of the model:
- the browser's date parser is a `DateParser` (`string -> Option<int>`), where `None` is an invalid Date;
- the readings of `new Date()` are a `Clock`;
- the `jwt_token` cookie and the stored `doctorDetails` are `Option<string>`;
- what local storage yielded after `JSON.parse` is a `StoredDetails`;
- the fetch reply is a `Reply`;
- the settlement of `getUserMedia` is a `MediaOutcome`;
- `window.location.pathname` is a `string`.

Some behaviours of the code as written, each proved:
- `renderAppointmentAction` reads the clock twice, on lines 51 and 83. When both
  readings agree, the actions split time into three intervals: Upcoming, then the
  inclusive window with the join link, then Completed. The same holds for Completed
  while less than 15 minutes pass between the readings
  (`CompletedIsAfterWindowForCloseReadings`). Only if more than 15 minutes pass
  between them can an appointment that is just starting show Completed
  (`ReadingsApartShowCompletedEarly`).
- A successful fetch does not clear an earlier error (`ScreenAfterFetch`); a later
  failure replaces it with its own message.
- If the component unmounts before `getUserMedia` has settled, its cleanup finds no
  stream and stops nothing. The stream that arrives later is stored with its
  tracks still live (`UnmountBeforeMediaSettles`).
- `App.js` does not use `ProtectedRoute`. Its own check admits exactly the same
  pairs of credentials (`GatesAgree`).

## Model

| member | source | states |
|---|---|---|
| `BookingHistory.IsAppointmentTime` | src/components/DoctorBookingHistory/index.js:49-59 | open iff the date parses and `start - 15 min <= now <= start + 30 min`; computed with NaN-aware arithmetic, so an unparseable date is never open |
| `BookingHistory.WindowBoundsInclusive` | src/components/DoctorBookingHistory/index.js:53-58 | both window bounds are inside the window, and one millisecond beyond either bound is outside |
| `BookingHistory.WindowFailsClosed` | src/components/DoctorBookingHistory/index.js:50-58 | an invalid date keeps the window closed at every instant |
| `BookingHistory.RenderAppointmentAction` | src/components/DoctorBookingHistory/index.js:61-90 | a mode other than exactly "Online" gives In-person; Online without a truthy meeting id gives No meeting ID; join link iff Online, id present and window open, with target `/doctor/video-room/` + id; otherwise Upcoming iff the date parses and the second clock reading is before it, else Completed |
| `BookingHistory.ActionFollowsTimeline` | src/components/DoctorBookingHistory/index.js:61-90 | when both clock readings are equal, the action equals an independent timeline classification: Upcoming before the window, the join link inside it, and Completed after it or for an unparseable date |
| `BookingHistory.UpcomingIsBeforeWindow` | src/components/DoctorBookingHistory/index.js:82-89 | with a clock that does not run backwards, Upcoming implies a parseable date and a first reading more than 15 minutes before the start |
| `BookingHistory.CompletedIsAfterWindow` | src/components/DoctorBookingHistory/index.js:82-89 | with equal readings, Completed implies an unparseable date or more than 30 minutes past the start |
| `BookingHistory.CompletedIsAfterWindowForCloseReadings` | src/components/DoctorBookingHistory/index.js:49-89 | when the second reading is at most 15 minutes after the first, Completed implies an unparseable date or a first reading more than 30 minutes past the start |
| `BookingHistory.ReadingsApartShowCompletedEarly` | src/components/DoctorBookingHistory/index.js:49-89 | when more than 15 minutes separate the readings, a first reading before the window and a second one at the start instant give Completed, although the window is open at the second reading |
| `BookingHistory.ModeLabel` | src/components/DoctorBookingHistory/index.js:121-123 | the mode cell is never blank: a truthy mode is shown as it is, and a missing or empty mode shows "In-person" |
| `BookingHistory.RenderRows` | src/components/DoctorBookingHistory/index.js:115-129 | exactly one row per appointment, in order, each with that appointment's fields, its mode label and its action |
| `BookingHistory.FetchResult` | src/components/DoctorBookingHistory/index.js:12-34 | absent or falsy details, or details without an id, throw "Doctor details not found"; a non-ok response throws "Failed to fetch appointments"; a rejected fetch, malformed stored JSON or a malformed ok body each fails with that error's own message; success iff the id is present, the reply is ok and the body parses, and the data is then the body |
| `BookingHistory.DoctorBookingHistory.constructor` | src/components/DoctorBookingHistory/index.js:7-9 | starts with no appointments, loading, no error and no requests |
| `BookingHistory.DoctorBookingHistory.FetchAppointments` | src/components/DoctorBookingHistory/index.js:11-41 | `isLoading` always ends false; the service is asked for the doctor's id only when one is present; success stores the data and keeps the old error; failure keeps the old appointments and sets the error to the result's message |
| `BookingHistory.Render` | src/components/DoctorBookingHistory/index.js:92-100 | loading wins over everything, then a truthy error, then the table of rendered rows |
| `BookingHistory.ScreenAfterFetch` | src/components/DoctorBookingHistory/index.js:11-100 | after any fetch the spinner is gone; missing details show "Doctor details not found"; a non-ok reply shows "Failed to fetch appointments"; a success shows the new rows, or the earlier error if one is still set |
| `ProtectedRoute.Render` | src/components/ProtectedRoute/index.js:9-19 | a falsy token or falsy details redirect to `/doctor-login`; when both are truthy, the wrapped component renders with the route props unchanged |
| `ProtectedRoute.DecisionIgnoresProps` | src/components/ProtectedRoute/index.js:5-20 | whether the route renders or redirects does not depend on the route props |
| `App.IsAuthenticated` | src/App.js:13-17 | the value of `jwtToken && doctorDetails` is truthy iff both are truthy, and it is one of the two operands |
| `App.GatesAgree` | src/App.js:13-17 | `isAuthenticated` admits exactly the pairs of token and details that `ProtectedRoute` admits |
| `App.Segment` | src/App.js:61 | the `:meeting_id` parameter is the longest leading run without '/', and it ends at a '/' or at the end of the path |
| `App.Match` | src/App.js:23-64 | an exact route matches its literal, and nothing further from it than one trailing '/', binding no parameters; the video-room route binds exactly `meeting_id`, to a non-empty value without '/' that follows the prefix and ends at a '/' or at the end of the path, and it matches whenever the prefix is followed by a character other than '/'; `*` matches everything |
| `App.FirstMatch` | src/App.js:21-72 | the `Switch` picks the first route that matches; no route matches only when none of them does |
| `App.Evaluate` | src/App.js:23-71 | a redirect route redirects to its target; a gated route renders its page iff authenticated and otherwise redirects to `/doctor-login`; a public route always renders its page with the bound parameters; only the `*` route shows 404 |
| `App.Resolve` | src/App.js:19-74 | some route always matches, the result is the first matching route's element evaluated with its parameters and the current authentication, every redirect goes to `/doctor-login`, and 404 shows iff the first match is the `*` route |
| `App.SwitchIsTotal` | src/App.js:63-71 | the `*` route makes some route match every path |
| `App.RootRedirectsToLogin` | src/App.js:23-25 | exact `/` redirects to `/doctor-login` in every authentication state |
| `App.LoginIsPublic` | src/App.js:28 | `/doctor-login` renders the login page in every authentication state |
| `App.GatedPageIffAuthenticated` | src/App.js:31-59 | each of `/doctor-dashboard`, `/doctor-booking-history` and `/doctor-profile` renders its page iff authenticated, and otherwise redirects to `/doctor-login`, with or without one trailing '/' |
| `App.NoGatedPageWithoutAuthentication` | src/App.js:21-72 | no path renders the dashboard, booking history or profile unless both token and details are truthy |
| `App.VideoRoomIsPublic` | src/App.js:61 | `/doctor/video-room/` followed by a non-empty segment renders the video room in every authentication state, with that segment as `meeting_id` |
| `App.UnmatchedPathIsNotFound` | src/App.js:63-71 | a path that none of the first six routes matches renders the 404 page |
| `App.LinkPathname` | src/components/DoctorBookingHistory/index.js:73-74 | the pathname of a `<Link to>` string is the longest prefix without '?' or '#', and it ends at one of those or at the end of the string |
| `App.EmptyMeetingSegmentIsNotFound` | src/App.js:61-71 | `/doctor/video-room/` followed by nothing or by '/' shows the 404 page |
| `App.JoinLinkOpensVideoRoom` | src/App.js:61 | following a join link opens the video room in every authentication state, with `meeting_id` the meeting id cut at its first '?', '#' or '/'; when nothing is left, the 404 page shows |
| `App.PlainMeetingIdReachesVideoRoom` | src/App.js:61 | a meeting id without '/', '?' or '#' reaches the video room unchanged |
| `VideoRoomComponent.EndCallTarget` | src/components/VideoRoom/index.js:27-28 | end-call navigates to one of the two appointment lists |
| `VideoRoomComponent.EndCallTargetIff` | src/components/VideoRoom/index.js:27-28 | the target is `/doctor-booking-history` iff "/doctor/" occurs in the pathname at some index, and `/booking-history` otherwise |
| `VideoRoomComponent.VideoRoomReturnsToDoctorList` | src/components/VideoRoom/index.js:27-28 | from every `/doctor/video-room/...` path, end-call returns to `/doctor-booking-history` |
| `VideoRoomComponent.StopTracks` | src/components/VideoRoom/index.js:53 | after the `forEach`, every track of the stream is stopped, and nothing but its tracks is changed |
| `VideoRoomComponent.VideoRoom.constructor` | src/components/VideoRoom/index.js:8-18 | no error, not connected, no local stream, no navigation and no media request |
| `VideoRoomComponent.VideoRoom.Mount` | src/components/VideoRoom/index.js:57-69 | without a truthy meeting id the error becomes "Invalid meeting ID" and no media is requested or cleanup registered; otherwise one media request is issued and the cleanup is registered |
| `VideoRoomComponent.VideoRoom.SettleMedia` | src/components/VideoRoom/index.js:31-49 | a granted stream becomes the local stream; a refusal sets "Could not access camera and microphone" and stores no stream |
| `VideoRoomComponent.VideoRoom.CleanupCall` | src/components/VideoRoom/index.js:51-55 | every track of the local stream is stopped; without a stream nothing may change |
| `VideoRoomComponent.VideoRoom.Unmount` | src/components/VideoRoom/index.js:65-68 | a registered cleanup stops every track of the stream held at that moment |
| `VideoRoomComponent.VideoRoom.HandleEndCall` | src/components/VideoRoom/index.js:20-29 | stops every local track, then pushes exactly `EndCallTarget(pathname)` onto the history; no other state changes |
| `VideoRoomComponent.VideoRoom.View` | src/components/VideoRoom/index.js:71-109 | the waiting banner shows iff not connected; End Call is the control; the error overlay appears iff the error is set, and End Call is its only action |
| `VideoRoomComponent.ValidRoomView` | src/components/VideoRoom/index.js:13 | in every reachable state, with `isConnected` never set, the waiting banner is shown and any error comes with its overlay |
| `VideoRoomComponent.UnmountBeforeMediaSettles` | src/components/VideoRoom/index.js:31-68 | mount, then unmount, then a granted stream leaves that stream stored with a live track |

## Left out

- Peer-to-peer signaling, offer/answer negotiation, ICE candidate queuing, room pairing, mute and video toggles, and reconnection: no file of this front end implements them, and `VideoRoom` only acquires and releases local media.
- `DoctorLogin`, `UserLogin`, `UserDashboard`, `UserProfile`, `DoctorProfile`, `DoctorDashboard` and `VideoConsultation`: form posts, storage writes, display of stored records and small guards of their own (a double-submit guard and the choice of error text in `DoctorLogin`, redirects to a login page when the token or the doctor's details are missing in `DoctorDashboard`, `DoctorProfile` and `UserDashboard`), none of which is modelled. `VideoConsultation` is not routed from `App`.
- Browser date parsing, the system clock, cookies, local storage, `fetch`, `response.json()` and `getUserMedia` are parameters, not implementations.
- The 60-second `setInterval` polling and its `clearInterval`: each poll is one more call of `FetchAppointments`. Overlapping fetches that settle out of order are not modelled.
- `RenderRows`: all rows share one `Clock`, although each row's render reads `new Date()` itself.
- JSON fields (`mode`, `meeting_id`, `id`) are modelled as optional strings. Non-string JSON values, such as a numeric id of 0, are not modelled.
- `App.JoinLinkOpensVideoRoom`: the router decodes percent-escapes in the pathname, so a meeting id containing '%' may reach the video room decoded; URI decoding is not modelled.
- An ok reply whose JSON is not an array of appointment records, such as `null`, an object, or an array holding `null`, cannot be expressed by `Body`. The source stores such data and its render then throws in `appointments.map` or at `appointment.id`; that crash is not modelled.
- `App.Match`: react-router's matching is modelled without case-insensitivity and without URL decoding of the parameter. An exact route accepts its literal with or without one trailing '/'.
- The effect's re-run when `meeting_id` changes on a mounted component: a room's meeting id is fixed at construction.
- Assigning the stream to the local `<video>` element's `srcObject`, the dates' `toLocaleDateString()` formatting, console logging, CSS and JSX layout.
