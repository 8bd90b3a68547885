/** The shared vocabulary of the connection code: the W3C WebRTC connection
    state enumerations (`RTCPeerConnectionState`, `RTCIceConnectionState`),
    which of their values count as connected or failed, the room status record
    and the candidate record carried through the signalling store. */
module WebRtcTypes {
  import opened Common

  /** `RTCPeerConnectionState`. */
  datatype ConnectionState = New | Connecting | Connected | Disconnected | Failed | Closed {
    function Name(): string {
      match this
      case New => "new"
      case Connecting => "connecting"
      case Connected => "connected"
      case Disconnected => "disconnected"
      case Failed => "failed"
      case Closed => "closed"
    }
  }

  /** `RTCIceConnectionState`. */
  datatype IceConnectionState = New | Checking | Connected | Completed | Failed | Disconnected | Closed {
    function Name(): string {
      match this
      case New => "new"
      case Checking => "checking"
      case Connected => "connected"
      case Completed => "completed"
      case Failed => "failed"
      case Disconnected => "disconnected"
      case Closed => "closed"
    }
  }

  const AllConnectionStates: seq<ConnectionState> := [
    ConnectionState.New, ConnectionState.Connecting, ConnectionState.Connected,
    ConnectionState.Disconnected, ConnectionState.Failed, ConnectionState.Closed]

  const AllIceConnectionStates: seq<IceConnectionState> := [
    IceConnectionState.New, IceConnectionState.Checking, IceConnectionState.Connected,
    IceConnectionState.Completed, IceConnectionState.Failed,
    IceConnectionState.Disconnected, IceConnectionState.Closed]

  /** States that indicate success. */
  const ConnectedStates: seq<ConnectionState> := [ConnectionState.Connected]
  const ConnectedIceStates: seq<IceConnectionState> :=
    [IceConnectionState.Connected, IceConnectionState.Completed]

  /** States that indicate failure. */
  const FailedStates: seq<ConnectionState> :=
    [ConnectionState.Failed, ConnectionState.Closed, ConnectionState.Disconnected]
  const FailedIceStates: seq<IceConnectionState> :=
    [IceConnectionState.Failed, IceConnectionState.Closed, IceConnectionState.Disconnected]

  /** `RoomStatus`: only the existence flag is always present. */
  datatype RoomStatus = RoomStatus(
    roomExists: bool,
    hasOffer: Option<bool>,
    hasAnswer: Option<bool>,
    callerCandidatesCount: Option<nat>,
    calleeCandidatesCount: Option<nat>)

  /** `RTCSdpType` and `RTCSessionDescriptionInit` (type and SDP body). */
  datatype SdpType = Offer | Answer | Pranswer | Rollback
  datatype SessionDescription = SessionDescription(sdpType: SdpType, sdp: string)

  /** `RoomData`: the fields of a room document. */
  datatype RoomData = RoomData(offer: Option<SessionDescription>, answer: Option<SessionDescription>)

  /** `RTCIceCandidateInit`. */
  datatype IceCandidateInit = IceCandidateInit(
    candidate: string,
    sdpMid: Option<string>,
    sdpMLineIndex: Option<nat>,
    usernameFragment: Option<string>)

  /** `ICECandidateWithId`: a candidate as read back from the store, with the
      store's document id and the optional save timestamp. */
  datatype IceCandidateWithId = IceCandidateWithId(
    init: IceCandidateInit,
    id: string,
    timestamp: Option<int>)

  predicate Distinct<T(==)>(s: seq<T>) {
    forall i, j :: 0 <= i < j < |s| ==> s[i] != s[j]
  }

  /** Each enumeration lists every value exactly once: six connection states,
      seven ICE connection states, with distinct W3C names. */
  lemma EnumerationsAreComplete()
    ensures |AllConnectionStates| == 6 && Distinct(AllConnectionStates)
    ensures forall s: ConnectionState :: s in AllConnectionStates
    ensures |AllIceConnectionStates| == 7 && Distinct(AllIceConnectionStates)
    ensures forall s: IceConnectionState :: s in AllIceConnectionStates
    ensures forall s: ConnectionState, t: ConnectionState :: s.Name() == t.Name() ==> s == t
    ensures forall s: IceConnectionState, t: IceConnectionState :: s.Name() == t.Name() ==> s == t
  {
    forall s: ConnectionState ensures s in AllConnectionStates {
      match s
      case New => case Connecting => case Connected =>
      case Disconnected => case Failed => case Closed =>
    }
    forall s: IceConnectionState ensures s in AllIceConnectionStates {
      match s
      case New => case Checking => case Connected => case Completed =>
      case Failed => case Disconnected => case Closed =>
    }
  }

  /** The connected and failed lists: exactly the values the W3C vocabulary
      names, disjoint, and leaving out the states of a connection in progress. */
  lemma StateListsPartition()
    ensures forall s: ConnectionState :: s in ConnectedStates <==> s == ConnectionState.Connected
    ensures forall s: IceConnectionState :: s in ConnectedIceStates <==>
      s == IceConnectionState.Connected || s == IceConnectionState.Completed
    ensures forall s: ConnectionState :: s in FailedStates <==>
      s.Name() in {"failed", "closed", "disconnected"}
    ensures forall s: IceConnectionState :: s in FailedIceStates <==>
      s.Name() in {"failed", "closed", "disconnected"}
    ensures forall s: ConnectionState :: !(s in ConnectedStates && s in FailedStates)
    ensures forall s: IceConnectionState :: !(s in ConnectedIceStates && s in FailedIceStates)
    ensures ConnectionState.New !in ConnectedStates + FailedStates
    ensures ConnectionState.Connecting !in ConnectedStates + FailedStates
    ensures IceConnectionState.New !in ConnectedIceStates + FailedIceStates
    ensures IceConnectionState.Checking !in ConnectedIceStates + FailedIceStates
  {
  }
}
