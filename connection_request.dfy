/**
 * The offerer side of ConnectionRequestActivity: the permission gate, the
 * start-up sequence on the peer connection and capturer, the outbound
 * publishing of its offer and ICE candidates, and the inbound dispatcher.
 * The calls into the transport engine, the capturer and the relay store that
 * these steps order are recorded, in order, as events of the activity's
 * trace; the listener registration, the capturer's initialisation and the
 * creation of the video source and track are not.
 */
module ConnectionRequest {
  import opened Wrappers
  import opened Signaling

  /** The request code the screen-capture intent is started with. */
  const ScreenCaptureRequestCode: int := 100
  /** Android's Activity.RESULT_OK. */
  const ResultOk: int := -1
  /** The capture format requested from the screen capturer. */
  const CaptureWidth: int := 720
  const CaptureHeight: int := 1280
  const CaptureFrameRate: int := 30

  /** One foreign call the activity makes. */
  datatype Event =
    | PeerConnectionCreated                                // factory.createPeerConnection
    | CaptureStarted(width: int, height: int, fps: int)    // capturer.startCapture
    | TrackAdded                                           // peerConnection.addTrack
    | OfferRequested                                       // peerConnection.createOffer
    | LocalDescriptionSet(sdp: string)                     // peerConnection.setLocalDescription
    | EntryPushed(address: string, entry: Entry)           // signalingRef.child(address).push().setValue
    | ActionApplied(action: Action)                        // setRemoteDescription / addIceCandidate

  /** The calls made when the capture permission is granted, in order. */
  const StartupEvents: seq<Event> :=
    [PeerConnectionCreated, CaptureStarted(CaptureWidth, CaptureHeight, CaptureFrameRate), TrackAdded, OfferRequested]

  /** The exceptions the inbound handler can raise. */
  datatype ListenerFault = Malformed(error: DecodeError) | NullPeerConnection

  /** A published entry is an offer: its "type" field is the string "offer". */
  predicate IsOfferEntry(e: Entry) {
    TypeIs(e, "offer")
  }

  /** The gate of onActivityResult: the capture intent came back granted and with data. */
  predicate CaptureGranted(reqCode: int, resultCode: int, hasData: bool) {
    reqCode == ScreenCaptureRequestCode && resultCode == ResultOk && hasData
  }

  /** The first call creates the peer connection. */
  ghost predicate StartsWithConnection(t: seq<Event>) {
    t != [] ==> t[0] == PeerConnectionCreated
  }

  /** Every offer request comes right after connection creation, capture start and track addition. */
  ghost predicate OfferAfterTrack(t: seq<Event>) {
    forall i :: 0 <= i < |t| && t[i] == OfferRequested ==>
      3 <= i && t[i - 1] == TrackAdded && t[i - 2] == StartupEvents[1] && t[i - 3] == PeerConnectionCreated
  }

  /** A local description is set only after an offer was requested. */
  ghost predicate DescriptionAfterOffer(t: seq<Event>) {
    forall i :: 0 <= i < |t| && t[i].LocalDescriptionSet? ==> OfferRequested in t[..i]
  }

  /** Every entry is published under the remote address. */
  ghost predicate PublishedToRemote(t: seq<Event>, remoteId: string) {
    forall i :: 0 <= i < |t| && t[i].EntryPushed? ==> t[i].address == remoteId
  }

  /** An offer entry is published right after the local description it carries was set. */
  ghost predicate OfferAfterDescription(t: seq<Event>) {
    forall i :: 0 <= i < |t| && t[i].EntryPushed? && IsOfferEntry(t[i].entry) ==>
      1 <= i && t[i - 1].LocalDescriptionSet? && t[i].entry == OfferEntry(t[i - 1].sdp)
  }

  /** The orderings the activity's calls always respect. */
  ghost predicate WellOrdered(t: seq<Event>, remoteId: string) {
    && StartsWithConnection(t)
    && OfferAfterTrack(t)
    && DescriptionAfterOffer(t)
    && PublishedToRemote(t, remoteId)
    && OfferAfterDescription(t)
  }

  lemma OfferAfterTrackAppend(t: seq<Event>, e: Event)
    requires OfferAfterTrack(t)
    requires e == OfferRequested ==>
               |t| >= 3 && t[|t| - 1] == TrackAdded && t[|t| - 2] == StartupEvents[1] && t[|t| - 3] == PeerConnectionCreated
    ensures OfferAfterTrack(t + [e])
  {
  }

  lemma DescriptionAfterOfferAppend(t: seq<Event>, e: Event)
    requires DescriptionAfterOffer(t)
    requires e.LocalDescriptionSet? ==> OfferRequested in t
    ensures DescriptionAfterOffer(t + [e])
  {
    var u := t + [e];
    forall i | 0 <= i < |u| && u[i].LocalDescriptionSet?
      ensures OfferRequested in u[..i]
    {
      if i < |t| {
        assert u[..i] == t[..i];
        assert t[i].LocalDescriptionSet?;
      } else {
        assert u[..i] == t;
      }
    }
  }

  lemma PublishedToRemoteAppend(t: seq<Event>, remoteId: string, e: Event)
    requires PublishedToRemote(t, remoteId)
    requires e.EntryPushed? ==> e.address == remoteId
    ensures PublishedToRemote(t + [e], remoteId)
  {
  }

  lemma OfferAfterDescriptionAppend(t: seq<Event>, e: Event)
    requires OfferAfterDescription(t)
    requires e.EntryPushed? && IsOfferEntry(e.entry) ==>
               t != [] && t[|t| - 1].LocalDescriptionSet? && e.entry == OfferEntry(t[|t| - 1].sdp)
    ensures OfferAfterDescription(t + [e])
  {
  }

  /** The conditions under which one more call keeps a trace well ordered. */
  lemma WellOrderedAppend(t: seq<Event>, remoteId: string, e: Event)
    requires WellOrdered(t, remoteId)
    requires t == [] ==> e == PeerConnectionCreated
    requires e == OfferRequested ==>
               |t| >= 3 && t[|t| - 1] == TrackAdded && t[|t| - 2] == StartupEvents[1] && t[|t| - 3] == PeerConnectionCreated
    requires e.LocalDescriptionSet? ==> OfferRequested in t
    requires e.EntryPushed? ==> e.address == remoteId
    requires e.EntryPushed? && IsOfferEntry(e.entry) ==>
               t != [] && t[|t| - 1].LocalDescriptionSet? && e.entry == OfferEntry(t[|t| - 1].sdp)
    ensures WellOrdered(t + [e], remoteId)
  {
    OfferAfterTrackAppend(t, e);
    DescriptionAfterOfferAppend(t, e);
    PublishedToRemoteAppend(t, remoteId, e);
    OfferAfterDescriptionAppend(t, e);
  }

  /**
   * In a trace with the orderings of WellOrdered, a published offer goes to
   * the remote address and was preceded, in this order, by peer-connection
   * creation, capture start, track addition and the offer request, and
   * immediately by setting the same description locally.
   */
  lemma OfferPublishedAfterStartup(t: seq<Event>, remoteId: string, i: nat)
    requires OfferAfterTrack(t) && DescriptionAfterOffer(t)
    requires PublishedToRemote(t, remoteId) && OfferAfterDescription(t)
    requires i < |t| && t[i].EntryPushed? && IsOfferEntry(t[i].entry)
    ensures t[i].address == remoteId
    ensures 1 <= i && t[i - 1].LocalDescriptionSet? && t[i].entry == OfferEntry(t[i - 1].sdp)
    ensures exists j :: 3 <= j < i - 1 && t[j] == OfferRequested && t[j - 1] == TrackAdded &&
                        t[j - 2].CaptureStarted? && t[j - 3] == PeerConnectionCreated
  {
    assert 1 <= i && t[i - 1].LocalDescriptionSet?;
    var prefix := t[..i - 1];
    assert OfferRequested in prefix;
    var j :| 0 <= j < |prefix| && prefix[j] == OfferRequested;
    assert t[j] == OfferRequested;
    assert 3 <= j && t[j - 1] == TrackAdded && t[j - 2] == StartupEvents[1] && t[j - 3] == PeerConnectionCreated;
    assert StartupEvents[1].CaptureStarted?;
  }

  class ConnectionRequestActivity {
    /** The signed-in user's id: the address entries are read from. */
    const localId: string
    /** The peer's id: the address entries are published to. */
    const remoteId: string
    /** Whether the peerConnection field is non-null. */
    var hasPeerConnection: bool
    /** The foreign calls made so far, oldest first. */
    var trace: seq<Event>

    ghost predicate Valid()
      reads this
    {
      && (hasPeerConnection <==> trace != [])
      && WellOrdered(trace, remoteId)
    }

    /** onCreate: identities read and listener registered; no traced call made yet. */
    constructor (localId: string, remoteId: string)
      ensures Valid()
      ensures this.localId == localId && this.remoteId == remoteId
      ensures !hasPeerConnection && trace == []
    {
      this.localId := localId;
      this.remoteId := remoteId;
      hasPeerConnection := false;
      trace := [];
    }

    /**
     * The activity reads from localId and publishes to remoteId, so unless
     * the two coincide it never appends an entry under its own address.
     */
    lemma NothingPublishedLocally()
      requires Valid() && localId != remoteId
      ensures forall i :: 0 <= i < |trace| && trace[i].EntryPushed? ==> trace[i].address != localId
    {
    }

    /**
     * onActivityResult: only a granted capture with data opens the start-up
     * sequence; any other result makes no call.
     */
    method OnActivityResult(reqCode: int, resultCode: int, hasData: bool)
      requires Valid()
      modifies this
      ensures Valid()
      ensures CaptureGranted(reqCode, resultCode, hasData) ==>
                hasPeerConnection && trace == old(trace) + StartupEvents
      ensures !CaptureGranted(reqCode, resultCode, hasData) ==>
                hasPeerConnection == old(hasPeerConnection) && trace == old(trace)
    {
      if CaptureGranted(reqCode, resultCode, hasData) {
        CreatePeerConnection();
        StartStreaming();
      }
    }

    /** createPeerConnection: the connection (and its observer) now exists. */
    method CreatePeerConnection()
      requires Valid()
      modifies this
      ensures Valid()
      ensures hasPeerConnection && trace == old(trace) + [PeerConnectionCreated]
    {
      WellOrderedAppend(trace, remoteId, PeerConnectionCreated);
      hasPeerConnection := true;
      trace := trace + [PeerConnectionCreated];
    }

    /**
     * startStreaming: start the capture, add the video track, then ask for
     * an offer, whose success callback arrives later as OnCreateSuccess.
     */
    method StartStreaming()
      requires Valid() && hasPeerConnection && trace[|trace| - 1] == PeerConnectionCreated
      modifies this
      ensures Valid() && hasPeerConnection
      ensures trace == old(trace) + StartupEvents[1..]
    {
      var capture := CaptureStarted(CaptureWidth, CaptureHeight, CaptureFrameRate);
      WellOrderedAppend(trace, remoteId, capture);
      trace := trace + [capture];
      WellOrderedAppend(trace, remoteId, TrackAdded);
      trace := trace + [TrackAdded];
      WellOrderedAppend(trace, remoteId, OfferRequested);
      trace := trace + [OfferRequested];
    }

    /**
     * The observer's onIceCandidate: build the entry field by field and push
     * it under the peer's address.
     */
    method OnIceCandidate(candidate: IceCandidate)
      requires Valid() && hasPeerConnection
      modifies this
      ensures Valid() && hasPeerConnection
      ensures trace == old(trace) + [EntryPushed(remoteId, IceEntry(candidate))]
      ensures var e := IceEntry(candidate);
              && e.Keys == {"type", "sdpMid", "sdpMLineIndex", "candidate"}
              && e["type"] == Text("ice") && e["sdpMid"] == Text(candidate.sdpMid)
              && e["sdpMLineIndex"] == Number(candidate.sdpMLineIndex as int)
              && e["candidate"] == Text(candidate.sdp)
    {
      var entry: Entry := map[];
      entry := entry["type" := Text("ice")];
      entry := entry["sdpMid" := Text(candidate.sdpMid)];
      entry := entry["sdpMLineIndex" := Number(candidate.sdpMLineIndex as int)];
      entry := entry["candidate" := Text(candidate.sdp)];
      assert entry == IceEntry(candidate);
      WellOrderedAppend(trace, remoteId, EntryPushed(remoteId, entry));
      trace := trace + [EntryPushed(remoteId, entry)];
    }

    /**
     * The offer's onCreateSuccess: set the description locally, then build
     * the offer entry and push it under the peer's address.
     */
    method OnCreateSuccess(sdp: string)
      requires Valid() && OfferRequested in trace
      modifies this
      ensures Valid() && hasPeerConnection
      ensures trace == old(trace) + [LocalDescriptionSet(sdp), EntryPushed(remoteId, OfferEntry(sdp))]
    {
      WellOrderedAppend(trace, remoteId, LocalDescriptionSet(sdp));
      trace := trace + [LocalDescriptionSet(sdp)];
      var offer: Entry := map[];
      offer := offer["type" := Text("offer")];
      offer := offer["sdp" := Text(sdp)];
      assert offer == OfferEntry(sdp);
      WellOrderedAppend(trace, remoteId, EntryPushed(remoteId, offer));
      trace := trace + [EntryPushed(remoteId, offer)];
    }

    /**
     * onChildAdded for an entry read from the local address: a malformed
     * entry raises its exception, an ignored one makes no call, and an
     * action is applied to the peer connection, which raises
     * NullPointerException when no connection has been created yet.
     */
    method OnChildAdded(snapshot: Snapshot) returns (r: Result<Option<Action>, ListenerFault>)
      requires Valid()
      modifies this
      ensures Valid() && hasPeerConnection == old(hasPeerConnection)
      ensures Dispatch(snapshot).Err? ==> r == Err(Malformed(Dispatch(snapshot).error))
      ensures Dispatch(snapshot) == Ok(None) ==> r == Ok(None)
      ensures Dispatch(snapshot).Ok? && Dispatch(snapshot).value.Some? ==>
                r == (if hasPeerConnection then Ok(Dispatch(snapshot).value) else Err(NullPeerConnection))
      ensures trace == if r.Ok? && r.value.Some? then old(trace) + [ActionApplied(r.value.value)] else old(trace)
    {
      match Dispatch(snapshot)
      case Err(e) =>
        r := Err(Malformed(e));
      case Ok(None) =>
        r := Ok(None);
      case Ok(Some(action)) =>
        if !hasPeerConnection {
          r := Err(NullPeerConnection);
        } else {
          WellOrderedAppend(trace, remoteId, ActionApplied(action));
          trace := trace + [ActionApplied(action)];
          r := Ok(Some(action));
        }
    }
  }
}
