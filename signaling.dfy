/**
 * The signaling wire format of the offerer: the flat key/value entries it
 * appends to the relay store for its peer, and the dispatcher that turns an
 * entry read from its own address into one call on the peer connection.
 */
module Signaling {
  import opened Wrappers
  import opened Decimal

  /** A value stored in a relay entry: a string or a number. */
  datatype Value = Text(text: string) | Number(number: int)

  /** One relay entry: a flat map from field names to values. */
  type Entry = map<string, Value>

  /** What a child snapshot of the relay holds: nothing, a bare value, or an entry. */
  datatype Snapshot = Null | Scalar(value: Value) | Object(entry: Entry)

  /** The kind of a session description (only ANSWER is ever built from an entry). */
  datatype SdpType = Offer | Answer

  /** A locally gathered ICE candidate, as the transport engine reports it. */
  datatype IceCandidate = IceCandidate(sdpMid: string, sdpMLineIndex: int32, sdp: string)

  /**
   * The single peer-connection call an inbound entry leads to. String fields
   * are None where the entry lacks the key (Java passes null on).
   */
  datatype Action =
    | SetRemoteDescription(kind: SdpType, sdp: Option<string>)
    | AddIceCandidate(sdpMid: Option<string>, sdpMLineIndex: int32, candidate: Option<string>)

  /** The exceptions the dispatcher can raise on a malformed entry. */
  datatype DecodeError =
    | NotAMap                          // the snapshot's value is not a map
    | ClassCast(key: string)           // a field read as String holds a non-string
    | NumberFormat(cause: NumberFormatException)  // Integer.parseInt rejected the index

  /** The entry's "type" field is the string t. */
  predicate TypeIs(e: Entry, t: string) {
    "type" in e && e["type"] == Text(t)
  }

  /** The field is absent or a string, so reading it as a String cannot fail. */
  predicate TextOrAbsent(e: Entry, key: string) {
    key in e ==> e[key].Text?
  }

  /** The string in a field that is a string, None where the key is absent. */
  function TextOf(e: Entry, key: string): Option<string>
    requires TextOrAbsent(e, key)
  {
    if key in e then Some(e[key].text) else None
  }

  /**
   * map.get(key) on the entry seen as a Map<String, String>: null for a
   * missing key, and a ClassCastException where the stored value is not a
   * string, raised when the value is used as one.
   */
  function Get(e: Entry, key: string): Result<Option<string>, DecodeError> {
    if key !in e then Ok(None)
    else match e[key]
      case Text(s) => Ok(Some(s))
      case Number(_) => Err(ClassCast(key))
  }

  /**
   * The onChildAdded handler's decision for one entry read from the local
   * address: no action, one action, or the exception it raises. The fields
   * of an ICE entry are read left to right, as Java evaluates arguments.
   */
  function Dispatch(snapshot: Snapshot): (r: Result<Option<Action>, DecodeError>)
    ensures snapshot.Null? ==> r == Ok(None)
    ensures snapshot.Scalar? ==> r == Err(NotAMap)
    ensures snapshot.Object? && "type" !in snapshot.entry ==> r == Ok(None)
    ensures (snapshot.Object? && "type" in snapshot.entry && snapshot.entry["type"].Text? &&
             !TypeIs(snapshot.entry, "answer") && !TypeIs(snapshot.entry, "ice")) ==> r == Ok(None)
    ensures (snapshot.Object? && "type" in snapshot.entry && !snapshot.entry["type"].Text?) ==>
              r == Err(ClassCast("type"))
    ensures r.Ok? && r.value.Some? && r.value.value.SetRemoteDescription? ==>
              snapshot.Object? && TypeIs(snapshot.entry, "answer") && r.value.value.kind == Answer
    ensures r.Ok? && r.value.Some? && r.value.value.AddIceCandidate? ==>
              snapshot.Object? && TypeIs(snapshot.entry, "ice")
  {
    match snapshot
    case Null => Ok(None)
    case Scalar(_) => Err(NotAMap)
    case Object(e) =>
      if "type" !in e then Ok(None)
      else
        var kind :- Get(e, "type");
        if kind == Some("answer") then
          var sdp :- Get(e, "sdp");
          Ok(Some(SetRemoteDescription(Answer, sdp)))
        else if kind == Some("ice") then
          var mid :- Get(e, "sdpMid");
          var indexText :- Get(e, "sdpMLineIndex");
          match ParseInt(indexText)
          case Err(x) => Err(NumberFormat(x))
          case Ok(index) =>
            var candidate :- Get(e, "candidate");
            Ok(Some(AddIceCandidate(mid, index, candidate)))
        else Ok(None)
  }

  /** The entry the offerer publishes for a locally gathered ICE candidate. */
  function IceEntry(c: IceCandidate): Entry {
    map["type" := Text("ice"), "sdpMid" := Text(c.sdpMid),
        "sdpMLineIndex" := Number(c.sdpMLineIndex as int), "candidate" := Text(c.sdp)]
  }

  /** The entry the offerer publishes for its local offer. */
  function OfferEntry(sdp: string): Entry {
    map["type" := Text("offer"), "sdp" := Text(sdp)]
  }

  /** The decimal text of a value, as a relay that stores every value as a string delivers it. */
  function ValueText(v: Value): string {
    match v
    case Text(s) => s
    case Number(n) => FormatInt(n)
  }

  /** An entry with every value carried as its text. */
  function AsText(e: Entry): Entry {
    map k | k in e :: Text(ValueText(e[k]))
  }

  /**
   * An "answer" entry leads to exactly one SetRemoteDescription of kind
   * ANSWER carrying the entry's "sdp" (null when absent); an "sdp" that is
   * not a string raises ClassCastException.
   */
  lemma AnswerDispatched(e: Entry)
    requires TypeIs(e, "answer")
    ensures TextOrAbsent(e, "sdp") ==> Dispatch(Object(e)) == Ok(Some(SetRemoteDescription(Answer, TextOf(e, "sdp"))))
    ensures !TextOrAbsent(e, "sdp") ==> Dispatch(Object(e)) == Err(ClassCast("sdp"))
  {
  }

  /**
   * An "ice" entry whose string fields read cleanly leads to exactly one
   * AddIceCandidate with mid and candidate copied and the index parsed as
   * decimal; an index that does not parse raises NumberFormatException
   * rather than being skipped.
   */
  lemma IceDispatched(e: Entry)
    requires TypeIs(e, "ice")
    requires TextOrAbsent(e, "sdpMid") && TextOrAbsent(e, "sdpMLineIndex") && TextOrAbsent(e, "candidate")
    ensures ParseInt(TextOf(e, "sdpMLineIndex")).Ok? ==>
              Dispatch(Object(e)) == Ok(Some(AddIceCandidate(TextOf(e, "sdpMid"),
                                                             ParseInt(TextOf(e, "sdpMLineIndex")).value,
                                                             TextOf(e, "candidate"))))
    ensures ParseInt(TextOf(e, "sdpMLineIndex")).Err? ==>
              Dispatch(Object(e)) == Err(NumberFormat(NumberFormatException(TextOf(e, "sdpMLineIndex"))))
  {
  }

  /** An "ice" entry whose index is missing or not a decimal integer is an error, never an action. */
  lemma NonNumericIndexRejected(e: Entry)
    requires TypeIs(e, "ice") && TextOrAbsent(e, "sdpMid")
    requires "sdpMLineIndex" in e ==> e["sdpMLineIndex"].Text? && !IsDecimal(e["sdpMLineIndex"].text)
    ensures Dispatch(Object(e)) == Err(NumberFormat(NumberFormatException(TextOf(e, "sdpMLineIndex"))))
  {
  }

  /** The offerer's own offer entry, read back, leads to no action. */
  lemma OfferEntryIgnored(sdp: string)
    ensures Dispatch(Object(OfferEntry(sdp))) == Ok(None)
    ensures Dispatch(Object(AsText(OfferEntry(sdp)))) == Ok(None)
  {
    assert AsText(OfferEntry(sdp))["type"] == Text("offer");
  }

  /**
   * Round trip: an ICE entry whose index travels as its decimal text
   * dispatches to AddIceCandidate with the candidate's own mid, index and
   * candidate line.
   */
  lemma IceRoundTrip(c: IceCandidate)
    ensures Dispatch(Object(AsText(IceEntry(c))))
         == Ok(Some(AddIceCandidate(Some(c.sdpMid), c.sdpMLineIndex, Some(c.sdp))))
  {
    var e := AsText(IceEntry(c));
    assert e["type"] == Text("ice");
    assert e["sdpMid"] == Text(c.sdpMid);
    assert e["sdpMLineIndex"] == Text(FormatInt(c.sdpMLineIndex as int));
    assert e["candidate"] == Text(c.sdp);
    ParseFormatInt(c.sdpMLineIndex as int);
  }

  /**
   * The ICE entry exactly as the offerer writes it stores the index as a
   * number, so the dispatcher's String read of it raises ClassCastException.
   */
  lemma NumericIndexRaisesClassCast(c: IceCandidate)
    ensures Dispatch(Object(IceEntry(c))) == Err(ClassCast("sdpMLineIndex"))
  {
  }
}
