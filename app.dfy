/** `App`: the authentication check and the first-match route table. */
module App {
  import opened Wrappers
  import Js
  import ProtectedRoute
  import BookingHistory

  /** `isAuthenticated()`: `jwtToken && doctorDetails`, a JavaScript value that is
      the token when it is falsy and the details otherwise. */
  function IsAuthenticated(jwtToken: Option<string>, doctorDetails: Option<string>): (v: Option<string>)
    ensures Js.Truthy(v) <==> Js.Truthy(jwtToken) && Js.Truthy(doctorDetails)
    ensures v == jwtToken || v == doctorDetails
  {
    if !Js.Truthy(jwtToken) then jwtToken else doctorDetails
  }

  /** The app's check admits exactly the (token, details) pairs `ProtectedRoute` admits. */
  lemma GatesAgree<C, P>(component: C, props: P, jwtToken: Option<string>, doctorDetails: Option<string>)
    ensures Js.Truthy(IsAuthenticated(jwtToken, doctorDetails)) <==>
            ProtectedRoute.Render(component, props, jwtToken, doctorDetails).RenderComponent?
  {
  }

  datatype Page = DoctorLogin | DoctorDashboard | DoctorBookingHistory | DoctorProfile | VideoRoom

  /** A route's `path`: an exact literal, a literal prefix followed by one named
      segment (matched non-exactly), or `*`. */
  datatype Pattern = Exact(literal: string) | WithParam(prefix: string, name: string) | Anything

  /** What a matched route shows. */
  datatype Element = RedirectTo(target: string) | Public(page: Page) | Gated(page: Page) | NotFound

  datatype Route = Route(pattern: Pattern, element: Element)

  type Params = map<string, string>

  datatype Rendered = Redirect(to: string) | Render(page: Page, params: Params) | NotFoundPage

  /** The `Switch` of `App`, in source order. */
  const Routes: seq<Route> := [
    Route(Exact("/"), RedirectTo(ProtectedRoute.LoginPath)),
    Route(Exact(ProtectedRoute.LoginPath), Public(DoctorLogin)),
    Route(Exact("/doctor-dashboard"), Gated(DoctorDashboard)),
    Route(Exact("/doctor-booking-history"), Gated(DoctorBookingHistory)),
    Route(Exact("/doctor-profile"), Gated(DoctorProfile)),
    Route(WithParam(BookingHistory.VideoRoomPrefix, "meeting_id"), Public(VideoRoom)),
    Route(Anything, NotFound)
  ]

  /** The leading path segment: the longest prefix without a '/'. */
  function Segment(s: string): (seg: string)
    ensures |seg| <= |s| && seg == s[..|seg|]
    ensures '/' !in seg
    ensures |seg| < |s| ==> s[|seg|] == '/'
  {
    if s == [] || s[0] == '/' then [] else [s[0]] + Segment(s[1..])
  }

  /** A literal with its trailing '/' removed; an exact route also accepts one trailing '/'. */
  function Base(literal: string): string
  {
    if |literal| > 0 && literal[|literal| - 1] == '/' then literal[..|literal| - 1] else literal
  }

  /** Whether `pattern` matches `path`, and the parameters it binds. */
  function Match(pattern: Pattern, path: string): (m: Option<Params>)
    ensures pattern.Exact? && m.Some? ==>
              m.value == map[] &&
              (path == pattern.literal || path == pattern.literal + "/" || path + "/" == pattern.literal)
    ensures pattern.Exact? && path == pattern.literal ==> m.Some?
    ensures pattern.Exact? && (path == Base(pattern.literal) || path == Base(pattern.literal) + "/") ==> m.Some?
    ensures pattern.WithParam? && m.Some? ==>
              var prefix, name := pattern.prefix, pattern.name;
              && m.value.Keys == {name}
              && m.value[name] != "" && '/' !in m.value[name]
              && Js.StartsWith(path, prefix + m.value[name])
              && (|path| == |prefix + m.value[name]| || path[|prefix + m.value[name]|] == '/')
    ensures (pattern.WithParam? && Js.StartsWith(path, pattern.prefix) &&
             |path| > |pattern.prefix| && path[|pattern.prefix|] != '/') ==> m.Some?
    ensures pattern.Anything? ==> m == Some(map[])
  {
    match pattern
    case Exact(literal) =>
      if path == Base(literal) || path == Base(literal) + "/" then Some(map[]) else None
    case WithParam(prefix, name) =>
      if Js.StartsWith(path, prefix) && Segment(path[|prefix|..]) != "" then
        Some(map[name := Segment(path[|prefix|..])])
      else None
    case Anything => Some(map[])
  }

  predicate Matches(route: Route, path: string)
  {
    Match(route.pattern, path).Some?
  }

  /** The `Switch` rule: the index of the first route that matches, if any. */
  function FirstMatch(routes: seq<Route>, path: string): (k: Option<nat>)
    ensures k.Some? ==> k.value < |routes| && Matches(routes[k.value], path)
    ensures k.Some? ==> forall j :: 0 <= j < k.value ==> !Matches(routes[j], path)
    ensures k.None? <==> forall j :: 0 <= j < |routes| ==> !Matches(routes[j], path)
  {
    if routes == [] then None
    else if Matches(routes[0], path) then Some(0)
    else match FirstMatch(routes[1..], path)
      case None => None
      case Some(i) => Some(i + 1)
  }

  /** What one route shows once it matched; gated pages check authentication at render time. */
  function Evaluate(element: Element, params: Params, authenticated: bool): (r: Rendered)
    ensures element.RedirectTo? ==> r == Redirect(element.target)
    ensures element.Gated? ==> (r.Render? <==> authenticated)
    ensures element.Gated? && !authenticated ==> r == Redirect(ProtectedRoute.LoginPath)
    ensures element.Public? ==> r.Render?
    ensures r.Render? ==> (element.Public? || element.Gated?) && r.page == element.page && r.params == params
    ensures r.NotFoundPage? <==> element.NotFound?
  {
    match element
    case RedirectTo(target) => Redirect(target)
    case Public(page) => Render(page, params)
    case Gated(page) => if authenticated then Render(page, params) else Redirect(ProtectedRoute.LoginPath)
    case NotFound => NotFoundPage
  }

  /** What the app shows at `path` for the stored token and doctor details: the
      first matching route, evaluated with its bound parameters; every redirect
      in the table leads to the login page. */
  function Resolve(path: string, jwtToken: Option<string>, doctorDetails: Option<string>): (r: Rendered)
    ensures FirstMatch(Routes, path).Some?
    ensures var k := FirstMatch(Routes, path).value;
            r == Evaluate(Routes[k].element, Match(Routes[k].pattern, path).value,
                          Js.Truthy(IsAuthenticated(jwtToken, doctorDetails)))
    ensures r.Redirect? ==> r.to == ProtectedRoute.LoginPath
    ensures r.NotFoundPage? <==> FirstMatch(Routes, path) == Some(6)
  {
    assert Matches(Routes[6], path);
    match FirstMatch(Routes, path)
    case Some(k) =>
      Evaluate(Routes[k].element, Match(Routes[k].pattern, path).value,
               Js.Truthy(IsAuthenticated(jwtToken, doctorDetails)))
  }

  /** The fallback `*` route makes the table total: some route always matches. */
  lemma SwitchIsTotal(path: string)
    ensures FirstMatch(Routes, path).Some?
  {
    assert Matches(Routes[6], path);
  }

  /** Exact `/` always redirects to the login page, whatever the authentication state. */
  lemma RootRedirectsToLogin(jwtToken: Option<string>, doctorDetails: Option<string>)
    ensures Resolve("/", jwtToken, doctorDetails) == Redirect(ProtectedRoute.LoginPath)
  {
  }

  /** The login page is public. */
  lemma LoginIsPublic(jwtToken: Option<string>, doctorDetails: Option<string>)
    ensures Resolve(ProtectedRoute.LoginPath, jwtToken, doctorDetails) == Render(DoctorLogin, map[])
  {
    assert !Matches(Routes[0], ProtectedRoute.LoginPath);
    assert Matches(Routes[1], ProtectedRoute.LoginPath);
  }

  /** Each of the three gated pages renders iff the doctor is authenticated, and
      otherwise redirects to the login page; with or without one trailing '/'. */
  lemma GatedPageIffAuthenticated(literal: string, path: string, page: Page,
                                  jwtToken: Option<string>, doctorDetails: Option<string>)
    requires (literal == "/doctor-dashboard" && page == DoctorDashboard) ||
             (literal == "/doctor-booking-history" && page == DoctorBookingHistory) ||
             (literal == "/doctor-profile" && page == DoctorProfile)
    requires path == literal || path == literal + "/"
    ensures Resolve(path, jwtToken, doctorDetails) ==
            if Js.Truthy(IsAuthenticated(jwtToken, doctorDetails)) then Render(page, map[]) else Redirect(ProtectedRoute.LoginPath)
  {
    var k := if page == DoctorDashboard then 2 else if page == DoctorBookingHistory then 3 else 4;
    forall j | 0 <= j < k
      ensures !Matches(Routes[j], path)
    {
      var other := Routes[j].pattern.literal;
      if j == 0 {
        assert Base(other) == "";
      } else {
        assert Base(other) == other;
        assert |other| != |path| && |other| + 1 != |path|;
      }
    }
    assert Base(Routes[k].pattern.literal) == literal;
    assert Matches(Routes[k], path);
    assert FirstMatch(Routes, path) == Some(k);
  }

  /** No path at all renders a gated page to a visitor who is not authenticated. */
  lemma NoGatedPageWithoutAuthentication(path: string, jwtToken: Option<string>, doctorDetails: Option<string>)
    requires Resolve(path, jwtToken, doctorDetails).Render?
    requires Resolve(path, jwtToken, doctorDetails).page in {DoctorDashboard, DoctorBookingHistory, DoctorProfile}
    ensures Js.Truthy(jwtToken) && Js.Truthy(doctorDetails)
  {
  }

  lemma VideoRoomPathMissesExactRoutes(id: string, j: nat)
    requires j < 5
    ensures !Matches(Routes[j], BookingHistory.VideoRoomPrefix + id)
  {
    var path := BookingHistory.VideoRoomPrefix + id;
    assert path[7] == '/';
    var literal := Routes[j].pattern.literal;
    if j > 0 {
      assert Base(literal) == literal;
      assert literal[7] == '-';
    }
  }

  /** The video room is public: under its prefix it renders for anyone, with the
      leading segment after the prefix as `meeting_id`. */
  lemma VideoRoomIsPublic(id: string, jwtToken: Option<string>, doctorDetails: Option<string>)
    requires Segment(id) != ""
    ensures Resolve(BookingHistory.VideoRoomPrefix + id, jwtToken, doctorDetails) == Render(VideoRoom, map["meeting_id" := Segment(id)])
  {
    var path := BookingHistory.VideoRoomPrefix + id;
    forall j | 0 <= j < 5
      ensures !Matches(Routes[j], path)
    {
      VideoRoomPathMissesExactRoutes(id, j);
    }
    assert path[..|BookingHistory.VideoRoomPrefix|] == BookingHistory.VideoRoomPrefix;
    assert path[|BookingHistory.VideoRoomPrefix|..] == id;
    assert Matches(Routes[5], path);
  }

  /** A path that none of the first six routes matches shows the 404 page. */
  lemma UnmatchedPathIsNotFound(path: string, jwtToken: Option<string>, doctorDetails: Option<string>)
    requires forall j :: 0 <= j < 6 ==> !Matches(Routes[j], path)
    ensures Resolve(path, jwtToken, doctorDetails) == NotFoundPage
  {
  }

  /** The pathname react-router takes from a `<Link to>` string: everything before
      the first '?' (search) or '#' (hash). */
  function LinkPathname(to: string): (p: string)
    ensures |p| <= |to| && p == to[..|p|]
    ensures '?' !in p && '#' !in p
    ensures |p| < |to| ==> to[|p|] == '?' || to[|p|] == '#'
  {
    if to == [] || to[0] == '?' || to[0] == '#' then [] else [to[0]] + LinkPathname(to[1..])
  }

  lemma {:induction false} LinkPathnameOfPrefix(prefix: string, rest: string)
    requires '?' !in prefix && '#' !in prefix
    ensures LinkPathname(prefix + rest) == prefix + LinkPathname(rest)
  {
    if prefix == [] {
      assert prefix + rest == rest;
    } else {
      var to := prefix + rest;
      assert prefix[0] in prefix;
      assert to[0] == prefix[0] && to[1..] == prefix[1..] + rest;
      LinkPathnameOfPrefix(prefix[1..], rest);
      calc {
        LinkPathname(to);
        [prefix[0]] + LinkPathname(prefix[1..] + rest);
        [prefix[0]] + (prefix[1..] + LinkPathname(rest));
        { assert [prefix[0]] + prefix[1..] == prefix; }
        prefix + LinkPathname(rest);
      }
    }
  }

  /** A video-room path whose segment is empty matches only the 404 route. */
  lemma EmptyMeetingSegmentIsNotFound(id: string, jwtToken: Option<string>, doctorDetails: Option<string>)
    requires Segment(id) == ""
    ensures Resolve(BookingHistory.VideoRoomPrefix + id, jwtToken, doctorDetails) == NotFoundPage
  {
    var path := BookingHistory.VideoRoomPrefix + id;
    forall j | 0 <= j < 5
      ensures !Matches(Routes[j], path)
    {
      VideoRoomPathMissesExactRoutes(id, j);
    }
    assert path[|BookingHistory.VideoRoomPrefix|..] == id;
    assert !Matches(Routes[5], path);
  }

  /** Following an appointment's join link opens the video room, signed in or not,
      with `meeting_id` the meeting id cut at its first '?', '#' or '/'; when that
      leaves nothing, the 404 page shows instead. */
  lemma JoinLinkOpensVideoRoom(a: BookingHistory.Appointment, parse: BookingHistory.DateParser,
                               clock: BookingHistory.Clock, jwtToken: Option<string>, doctorDetails: Option<string>)
    requires BookingHistory.RenderAppointmentAction(a, parse, clock).JoinVideoCall?
    ensures var to := BookingHistory.RenderAppointmentAction(a, parse, clock).to;
            var seg := Segment(LinkPathname(a.meetingId.value));
            Resolve(LinkPathname(to), jwtToken, doctorDetails) ==
              if seg != "" then Render(VideoRoom, map["meeting_id" := seg]) else NotFoundPage
  {
    var id := a.meetingId.value;
    LinkPathnameOfPrefix(BookingHistory.VideoRoomPrefix, id);
    if Segment(LinkPathname(id)) != "" {
      VideoRoomIsPublic(LinkPathname(id), jwtToken, doctorDetails);
    } else {
      EmptyMeetingSegmentIsNotFound(LinkPathname(id), jwtToken, doctorDetails);
    }
  }

  /** A meeting id without '/', '?' or '#' reaches the video room unchanged. */
  lemma PlainMeetingIdReachesVideoRoom(a: BookingHistory.Appointment, parse: BookingHistory.DateParser,
                                       clock: BookingHistory.Clock, jwtToken: Option<string>, doctorDetails: Option<string>)
    requires BookingHistory.RenderAppointmentAction(a, parse, clock).JoinVideoCall?
    requires '/' !in a.meetingId.value && '?' !in a.meetingId.value && '#' !in a.meetingId.value
    ensures Resolve(LinkPathname(BookingHistory.RenderAppointmentAction(a, parse, clock).to), jwtToken, doctorDetails) ==
            Render(VideoRoom, map["meeting_id" := a.meetingId.value])
  {
    var id := a.meetingId.value;
    assert LinkPathname(id) == id;
    assert Segment(id) == id;
    JoinLinkOpensVideoRoom(a, parse, clock, jwtToken, doctorDetails);
  }
}
