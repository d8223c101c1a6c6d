# Offerer signaling of ConnectionRequestActivity

This project is a Dafny model of the screen-sharing offerer in
`ConnectionRequestActivity.java`. It covers four things:

- the permission gate in `onActivityResult`;
- the start-up sequence: create the peer connection, start the capture, add
  the video track, request an offer;
- the entries published to the relay store for the peer: an ICE candidate
  entry and an offer entry, both appended under `remoteId`;
- the `onChildAdded` dispatcher for entries read from `localId`. It turns an
  entry into at most one call on the peer connection, or raises.

Modules:

- `Wrappers` (wrappers.dfy): `Option` (None stands for Java's null) and `Result`.
- `Decimal` (decimal.dfy): `Integer.parseInt` in radix 10 as `ParseInt`,
  over Java's 32-bit `int` (`int32`). Its partner is `FormatInt`, the decimal
  text `Integer.toString` gives. They are tied by the lemma `ParseFormatInt`
  one way and by `ParseIntCanonical` the other way: any accepted spelling
  formats back to its canonical form (no '+', no leading zeros, no "-0").
- `Signaling` (signaling.dfy): the wire format.
  - A relay entry is a flat map from field names to `Value`s (`Text` or `Number`).
  - A child snapshot is `Null`, a bare `Scalar` or an `Object` entry.
  - `Dispatch` is the handler's decision: ignore, one `Action`, or a `DecodeError`.
  - `IceEntry` and `OfferEntry` are the entries the offerer writes.
- `ConnectionRequest` (connection_request.dfy): the class
  `ConnectionRequestActivity`. The calls whose order matters are appended to
  its `trace` as `Event`s: `createPeerConnection`, `startCapture`, `addTrack`,
  `createOffer`, `setLocalDescription`, `setRemoteDescription`,
  `addIceCandidate` and every `push().setValue`. Not traced are
  `addChildEventListener` (ConnectionRequestActivity.java:143),
  `createVideoSource` (:125), `capturer.initialize` (:126) and
  `createVideoTrack` (:129).
  Its invariant `Valid()` ties `hasPeerConnection` to the trace. It also
  requires the trace to be `WellOrdered`:
  - the first call creates the peer connection;
  - each offer request directly follows connection creation, capture start
    and track addition;
  - a local description is set only after an offer request;
  - every entry goes to `remoteId`;
  - an offer entry directly follows setting the same description locally
    (with each callback treated as atomic; see "## Left out").

How values are read matters for the ICE index:

- The handler casts the snapshot to `Map<String, String>` without a check.
  A field that holds a number therefore raises `ClassCastException` where it
  is used as a string. The model follows this: `Get` reads a `Number` field
  as `ClassCast(key)`.
- The offerer writes `sdpMLineIndex` as a number
  (ConnectionRequestActivity.java:105).
- So its own ICE entry, read back as written, is rejected
  (`NumericIndexRaisesClassCast`).
- The round trip holds when the index travels as its decimal text
  (`AsText`, `IceRoundTrip`).
- Which encoding the peer application uses is not part of this model.

A missing key reads as null. The model carries it as `None` into the
action, as Java passes the null on to the `SessionDescription` or
`IceCandidate` constructor. `parseInt(null)` is a `NumberFormatException`.

The listener is registered in `onCreate`, but the peer connection exists
only after the gate has passed. `OnChildAdded` therefore reports
`NullPeerConnection` when an entry that leads to an action arrives before
that. A malformed entry still raises its own exception first, because the
arguments are evaluated before the call on the null field.

## Model

| member | source | states |
|---|---|---|
| `Decimal.ParseInt` | ConnectionRequestActivity.java:154 | null raises NumberFormatException; a raised exception carries the rejected input; success implies the text is an optional sign followed by at least one digit, and a negative result implies a leading '-' |
| `Decimal.ParseFormatInt` | ConnectionRequestActivity.java:154 | the decimal text of any integer parses back to that integer exactly when it fits in 32 bits, and is rejected otherwise |
| `Decimal.ParseIntCanonical` | ConnectionRequestActivity.java:154 | every decimal literal is accepted exactly when its value fits in 32 bits, and the accepted value formats back to the literal's canonical spelling (sign '+' dropped, leading zeros dropped, "-0" read as 0) |
| `Decimal.ParseIntAccepts` | ConnectionRequestActivity.java:154 | "007" and "+7" parse to 7, "-0" to 0 and "-12" to -12 |
| `Decimal.ParseIntRejects` | ConnectionRequestActivity.java:154 | the empty string, a lone sign, a trailing non-digit, a leading space and a doubled sign are all rejected |
| `Signaling.Dispatch` | ConnectionRequestActivity.java:144-157 | a null snapshot, an entry without "type" and an entry whose type is any other string all give no action; a snapshot that is not a map raises ClassCastException, and so does a "type" that is not a string; a SetRemoteDescription comes only from an "answer" entry and is of kind ANSWER; an AddIceCandidate comes only from an "ice" entry |
| `Signaling.AnswerDispatched` | ConnectionRequestActivity.java:149-151 | an "answer" entry produces exactly one SetRemoteDescription of kind ANSWER carrying the entry's "sdp" (null if absent); a non-string "sdp" raises ClassCastException |
| `Signaling.IceDispatched` | ConnectionRequestActivity.java:152-155 | an "ice" entry whose sdpMid, sdpMLineIndex and candidate fields are strings or absent produces exactly one AddIceCandidate with mid and candidate copied and the index parsed as decimal; when the index does not parse, NumberFormatException is raised rather than the entry skipped |
| `Signaling.NonNumericIndexRejected` | ConnectionRequestActivity.java:153-154 | an "ice" entry whose sdpMid is a string or absent, and whose index is absent or text that is not a decimal integer, raises NumberFormatException and produces no action |
| `Signaling.OfferEntryIgnored` | ConnectionRequestActivity.java:149-156 | an "offer" entry, as written or with its values as text, produces no action |
| `Signaling.IceRoundTrip` | ConnectionRequestActivity.java:102-106 | an ICE entry whose index travels as its decimal text dispatches to AddIceCandidate with the candidate's own mid, index and candidate line |
| `Signaling.NumericIndexRaisesClassCast` | ConnectionRequestActivity.java:105 | the ICE entry exactly as written stores the index as a number, so the dispatcher raises ClassCastException on it |
| `ConnectionRequest.OfferPublishedAfterStartup` | ConnectionRequestActivity.java:127-137 | in every well-ordered trace (callbacks treated as atomic), a published offer goes to remoteId and directly follows setting the same description locally; before that come, in this order, connection creation, capture start, track addition and the offer request |
| `ConnectionRequest.ConnectionRequestActivity.constructor` | ConnectionRequestActivity.java:37-46 | after onCreate no peer connection exists and no traced call has been made (the listener registration and the factory initialisation are not traced) |
| `ConnectionRequest.ConnectionRequestActivity.NothingPublishedLocally` | ConnectionRequestActivity.java:137-143 | entries are read from localId and published under remoteId, so when the two differ no entry is ever published under the activity's own address |
| `ConnectionRequest.ConnectionRequestActivity.OnActivityResult` | ConnectionRequestActivity.java:86-94 | only request code 100 with RESULT_OK and non-null data leads to any call; the calls are then connection creation, capture start at 720x1280 and 30 fps, track addition and the offer request, in this order; the invariant is kept |
| `ConnectionRequest.ConnectionRequestActivity.CreatePeerConnection` | ConnectionRequestActivity.java:96-119 | the peer connection exists afterwards and its creation is the one call recorded |
| `ConnectionRequest.ConnectionRequestActivity.StartStreaming` | ConnectionRequestActivity.java:121-140 | given a fresh connection: capture start, track addition and the offer request are recorded, in this order |
| `ConnectionRequest.ConnectionRequestActivity.OnIceCandidate` | ConnectionRequestActivity.java:101-108 | exactly one entry is pushed, under remoteId. It has exactly the keys type, sdpMid, sdpMLineIndex and candidate, with type "ice" and the other fields copied from the candidate |
| `ConnectionRequest.ConnectionRequestActivity.OnCreateSuccess` | ConnectionRequestActivity.java:132-138 | the local description is set, and then the offer entry (type "offer", sdp the same description) is pushed under remoteId; nothing else is recorded |
| `ConnectionRequest.ConnectionRequestActivity.OnChildAdded` | ConnectionRequestActivity.java:144-157 | a malformed entry raises its decode exception; an ignored entry makes no call; an action is applied to the connection exactly once, or raises NullPointerException when no connection exists yet |

## Left out

- Firebase: the database reference, `push()` key generation, listener threading and `FirebaseAuth` are external. Publishing is the abstract event `EntryPushed(address, entry)`, and an inbound entry is a parameter of `OnChildAdded`.
- The relay's own storage is not modelled. An entry the offerer publishes is not delivered back to `OnChildAdded`, even when `remoteId == localId`; the source does not guard against that case.
- WebRTC internals are not modelled: `PeerConnectionFactory`, `EglBase`, `SurfaceTextureHelper`, the video source and track objects, the screen capturer and SDP contents (ConnectionRequestActivity.java:53-63, 122-129, 166-168). Of the engine's calls, only `createPeerConnection`, `startCapture`, `addTrack`, `createOffer`, `setLocalDescription`, `setRemoteDescription` and `addIceCandidate` appear, as events; `createVideoSource`, `capturer.initialize` and `createVideoTrack` (ConnectionRequestActivity.java:125-129) and the listener registration `addChildEventListener` (ConnectionRequestActivity.java:143) are not recorded.
- The completion callbacks of `setLocalDescription` and `setRemoteDescription` are not modelled. Nor is `createOffer` failure: `SdpAdapter` is not part of this model, and a failed offer simply never reaches `OnCreateSuccess`.
- The Android UI and consent flow are not modelled: the dialog, the toasts (including the "Permission denied" toast of the gate's else branch), `startActivityForResult`, `finish` and `super.onActivityResult` (ConnectionRequestActivity.java:65-83, 91, 93).
- Concurrency: the model treats each callback as atomic, running to completion before the next one. The source does not serialise them: Firebase delivers `onChildAdded` on the main thread, while the transport engine calls `onCreateSuccess` and `onIceCandidate` on its own signaling thread. In the source an applied action can therefore fall between `setLocalDescription` (ConnectionRequestActivity.java:133) and the offer push (ConnectionRequestActivity.java:137), which `OfferAfterDescription` does not allow for.
- `ConnectionRequest.ConnectionRequestActivity.OnCreateSuccess`: requires an earlier offer request. It does not model that the engine calls it at most once per request.
- `ConnectionRequest.ConnectionRequestActivity.OnIceCandidate`: requires an existing peer connection, because the observer only exists once one is created. Local candidates have non-null `sdpMid` and `sdp`.
- `Decimal.ParseInt`: accepts only the ASCII digits '0' to '9'. Java's `Character.digit` also accepts other Unicode decimal digits.
- Values in entries are only strings or numbers. Booleans, lists and nested maps would raise the same `ClassCastException` as a number.
- Null or absent `localId` and `remoteId` (no signed-in user, no intent extra) are not modelled.
- RegisterActivity.kt and HomeActivity.java are sign-in and menu UI with no signaling logic.
