/**
 * `VideoRoom`: acquires the local camera and microphone for a meeting, stops
 * them again on unmount or on "End Call", and returns to the appointment list.
 */
module VideoRoomComponent {
  import opened Wrappers
  import Js
  import BookingHistory

  const InvalidMeetingId: string := "Invalid meeting ID"
  const MediaAccessError: string := "Could not access camera and microphone"
  const DoctorHistoryPath: string := "/doctor-booking-history"
  const PatientHistoryPath: string := "/booking-history"

  datatype TrackKind = Audio | Video

  /** A local media track; `Stop` releases the device and cannot be undone. */
  class MediaTrack {
    const kind: TrackKind
    var stopped: bool

    constructor (kind: TrackKind)
      ensures this.kind == kind && !stopped
    {
      this.kind := kind;
      stopped := false;
    }

    method Stop()
      modifies this
      ensures stopped
    {
      stopped := true;
    }
  }

  /** A stream as `getUserMedia` hands it over; `getTracks()` lists `tracks`. */
  class MediaStream {
    const tracks: seq<MediaTrack>

    constructor (tracks: seq<MediaTrack>)
      ensures this.tracks == tracks
    {
      this.tracks := tracks;
    }

    ghost function Footprint(): set<MediaTrack>
    {
      set t | t in tracks
    }

    ghost predicate AllStopped()
      reads Footprint()
    {
      forall t :: t in tracks ==> t.stopped
    }
  }

  /** How the platform settles the media request. */
  datatype MediaOutcome = Granted(stream: MediaStream) | Denied

  /** `handleEndCall`'s choice of where to go: the clinician's list when the
      current path contains "/doctor/", the patient's list otherwise. */
  function EndCallTarget(pathname: string): (target: string)
    ensures target == DoctorHistoryPath || target == PatientHistoryPath
  {
    if Js.Includes(pathname, "/doctor/") then DoctorHistoryPath else PatientHistoryPath
  }

  /** End-call goes to the clinician's list exactly when "/doctor/" occurs in the path. */
  lemma EndCallTargetIff(pathname: string)
    ensures EndCallTarget(pathname) == DoctorHistoryPath <==> exists i :: Js.OccursAt(pathname, "/doctor/", i)
  {
    Js.IncludesIff(pathname, "/doctor/");
  }

  /** From every path under the lowercase `/doctor/video-room/` prefix, end-call returns to the
      clinician's list. */
  lemma VideoRoomReturnsToDoctorList(id: string)
    ensures EndCallTarget(BookingHistory.VideoRoomPrefix + id) == DoctorHistoryPath
  {
  }

  /** The only control the error overlay offers. */
  datatype Control = EndCall

  datatype Overlay = ErrorOverlay(message: string, action: Control)

  datatype RoomView = RoomView(waitingBanner: bool, controls: seq<Control>, overlay: Option<Overlay>)

  /** Stops every track of `stream`, one after another. */
  method StopTracks(stream: MediaStream)
    modifies stream.Footprint()
    ensures stream.AllStopped()
  {
    var i := 0;
    while i < |stream.tracks|
      invariant 0 <= i <= |stream.tracks|
      invariant forall j :: 0 <= j < i ==> stream.tracks[j].stopped
    {
      stream.tracks[i].Stop();
      i := i + 1;
    }
  }

  class VideoRoom {
    /** `meeting_id` from the route parameters. */
    const meetingId: Option<string>
    var error: Option<string>
    var isConnected: bool
    /** The `localStream` ref. */
    var localStream: MediaStream?
    /** Whether the mount effect returned its cleanup function. */
    var cleanupRegistered: bool
    /** The paths pushed onto the browser history, oldest first. */
    var history: seq<string>
    ghost var mediaRequests: nat
    ghost var pendingRequest: bool

    /** Nothing connects the call, the only errors are the two the component sets,
        and without a meeting id no media is ever requested or held. */
    ghost predicate Valid()
      reads this
    {
      && !isConnected
      && (error.Some? ==> error.value == InvalidMeetingId || error.value == MediaAccessError)
      && (pendingRequest ==> Js.Truthy(meetingId))
      && (!Js.Truthy(meetingId) ==> localStream == null && mediaRequests == 0 && !pendingRequest)
    }

    ghost function LocalTracks(): set<MediaTrack>
      reads this
    {
      if localStream == null then {} else localStream.Footprint()
    }

    constructor (meetingId: Option<string>)
      ensures Valid()
      ensures this.meetingId == meetingId && error == None && !isConnected && localStream == null
      ensures !cleanupRegistered && history == [] && mediaRequests == 0 && !pendingRequest
    {
      this.meetingId := meetingId;
      error := None;
      isConnected := false;
      localStream := null;
      cleanupRegistered := false;
      history := [];
      mediaRequests := 0;
      pendingRequest := false;
    }

    /** The mount effect: a missing meeting id sets the error and requests nothing;
        otherwise `initializeCall` asks for camera and microphone and the cleanup is registered. */
    method Mount()
      requires Valid()
      modifies this
      ensures Valid()
      ensures !Js.Truthy(meetingId) ==>
                error == Some(InvalidMeetingId) && mediaRequests == old(mediaRequests) &&
                pendingRequest == old(pendingRequest) && cleanupRegistered == old(cleanupRegistered)
      ensures Js.Truthy(meetingId) ==>
                error == old(error) && mediaRequests == old(mediaRequests) + 1 &&
                pendingRequest && cleanupRegistered
      ensures localStream == old(localStream) && isConnected == old(isConnected) && history == old(history)
    {
      if !Js.Truthy(meetingId) {
        error := Some(InvalidMeetingId);
        return;
      }
      mediaRequests := mediaRequests + 1;
      pendingRequest := true;
      cleanupRegistered := true;
    }

    /** The awaited `getUserMedia` settles: a granted stream becomes the local
        stream; a refusal sets the error and stores nothing. */
    method SettleMedia(outcome: MediaOutcome)
      requires Valid() && pendingRequest
      modifies this
      ensures Valid() && !pendingRequest
      ensures outcome.Granted? ==> localStream == outcome.stream && error == old(error)
      ensures outcome.Denied? ==> localStream == old(localStream) && error == Some(MediaAccessError)
      ensures isConnected == old(isConnected) && history == old(history) && cleanupRegistered == old(cleanupRegistered)
      ensures mediaRequests == old(mediaRequests)
    {
      pendingRequest := false;
      match outcome
      case Granted(stream) =>
        localStream := stream;
      case Denied =>
        error := Some(MediaAccessError);
    }

    /** `cleanupCall`: stops every track of the local stream; without one nothing changes. */
    method CleanupCall()
      modifies LocalTracks()
      ensures localStream != null ==> localStream.AllStopped()
    {
      if localStream != null {
        StopTracks(localStream);
      }
    }

    /** Unmounting runs the cleanup the effect registered, if it registered one. */
    method Unmount()
      modifies LocalTracks()
      ensures cleanupRegistered && localStream != null ==> localStream.AllStopped()
    {
      if cleanupRegistered {
        CleanupCall();
      }
    }

    /** `handleEndCall`: stops every local track, then pushes the list to return to. */
    method HandleEndCall(pathname: string)
      requires Valid()
      modifies this, LocalTracks()
      ensures Valid()
      ensures localStream == old(localStream) && (localStream != null ==> localStream.AllStopped())
      ensures history == old(history) + [EndCallTarget(pathname)]
      ensures error == old(error) && isConnected == old(isConnected) && cleanupRegistered == old(cleanupRegistered)
      ensures mediaRequests == old(mediaRequests) && pendingRequest == old(pendingRequest)
    {
      CleanupCall();
      history := history + [EndCallTarget(pathname)];
    }

    /** The render: the waiting banner while not connected, the End Call control,
        and the error overlay exactly when the error is set. */
    function View(): (v: RoomView)
      reads this
      ensures v.waitingBanner <==> !isConnected
      ensures v.controls == [EndCall]
      ensures v.overlay.Some? <==> Js.Truthy(error)
      ensures v.overlay.Some? ==> v.overlay.value == ErrorOverlay(error.value, EndCall)
    {
      RoomView(!isConnected, [EndCall], if Js.Truthy(error) then Some(ErrorOverlay(error.value, EndCall)) else None)
    }
  }

  /** In every reachable state the waiting banner shows, and any error comes with its overlay. */
  lemma ValidRoomView(room: VideoRoom)
    requires room.Valid()
    ensures room.View().waitingBanner
    ensures room.error.Some? ==> room.View().overlay == Some(ErrorOverlay(room.error.value, EndCall))
  {
  }

  /** Unmounting while the media request is still pending stops nothing: the stream
      that arrives afterwards is stored with its tracks still live. */
  method UnmountBeforeMediaSettles() returns (room: VideoRoom, track: MediaTrack)
    ensures room.localStream != null && track in room.localStream.tracks && !track.stopped
  {
    room := new VideoRoom(Some("abc123"));
    room.Mount();
    room.Unmount();
    track := new MediaTrack(Video);
    var stream := new MediaStream([track]);
    room.SettleMedia(Granted(stream));
  }
}
