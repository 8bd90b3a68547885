/** The browser objects the connection code drives, reduced to what it reads
    and changes: a peer connection (`RTCPeerConnection`) as its two states, its
    descriptions and the candidates handed to it, and a data channel
    (`RTCDataChannel`) as its ready state and the messages sent on it. What
    the transport itself decides (whether a description is accepted, when a
    state changes) enters as method parameters. */
module Platform {
  import opened Common
  import opened WebRtcTypes
  import opened WebRtcHelpers

  /** What an installed `onicecandidate` handler captured: the room and the
      side whose collection it saves local candidates to. */
  datatype LocalHandler = LocalHandler(roomId: string, isCaller: bool)

  class Peer {
    var connectionState: ConnectionState
    var iceConnectionState: IceConnectionState
    var localDescription: Option<SessionDescription>
    /** Stands for both `remoteDescription` and `currentRemoteDescription`. */
    var remoteDescription: Option<SessionDescription>
    /** Every `addIceCandidate` call, in order (its outcome is never used). */
    var added: seq<IceCandidateInit>
    var iceRestarts: nat
    /** Whether `setRemoteDescription` is currently replaced by the hook's
        wrapper, which flushes buffered candidates after the real call. */
    var wrapped: bool
    /** The `onicecandidate` handler, or None while none is installed; a
        local candidate the peer surfaces with no handler is lost. */
    var onIceCandidate: Option<LocalHandler>

    constructor()
      ensures connectionState == ConnectionState.New
      ensures iceConnectionState == IceConnectionState.New
      ensures localDescription == None && remoteDescription == None
      ensures added == [] && iceRestarts == 0 && !wrapped && onIceCandidate == None
    {
      connectionState := ConnectionState.New;
      iceConnectionState := IceConnectionState.New;
      localDescription := None;
      remoteDescription := None;
      added := [];
      iceRestarts := 0;
      wrapped := false;
      onIceCandidate := None;
    }

    predicate Connected()
      reads this
    {
      IsConnected(connectionState, iceConnectionState)
    }

    predicate Failed()
      reads this
    {
      IsFailed(connectionState, iceConnectionState)
    }

    method SetLocalDescription(d: SessionDescription)
      modifies this`localDescription
      ensures localDescription == Some(d)
    {
      localDescription := Some(d);
    }

    /** The platform's own `setRemoteDescription`; `accepted` is the
        transport's verdict on the description. */
    method SetRemoteDescription(d: SessionDescription, accepted: bool) returns (ok: bool)
      modifies this`remoteDescription
      ensures ok == accepted
      ensures remoteDescription == if accepted then Some(d) else old(remoteDescription)
    {
      ok := accepted;
      if accepted {
        remoteDescription := Some(d);
      }
    }

    method AddIceCandidate(c: IceCandidateInit)
      modifies this`added
      ensures added == old(added) + [c]
    {
      added := added + [c];
    }

    method RestartIce()
      modifies this`iceRestarts
      ensures iceRestarts == old(iceRestarts) + 1
    {
      iceRestarts := iceRestarts + 1;
    }

    /** `close()`: both states become "closed". */
    method Close()
      modifies this`connectionState, this`iceConnectionState
      ensures connectionState == ConnectionState.Closed
      ensures iceConnectionState == IceConnectionState.Closed
    {
      connectionState := ConnectionState.Closed;
      iceConnectionState := IceConnectionState.Closed;
    }

    /** The transport moves to new states on its own. */
    method Transition(cs: ConnectionState, ice: IceConnectionState)
      modifies this`connectionState, this`iceConnectionState
      ensures connectionState == cs && iceConnectionState == ice
    {
      connectionState := cs;
      iceConnectionState := ice;
    }
  }

  /** `RTCDataChannelState`. */
  datatype ChannelState = Connecting | Open | Closing | Closed

  class DataChannel {
    const config: DataChannelConfig
    var readyState: ChannelState
    var sent: seq<string>

    constructor(config: DataChannelConfig)
      ensures this.config == config
      ensures readyState == ChannelState.Connecting && sent == []
    {
      this.config := config;
      readyState := ChannelState.Connecting;
      sent := [];
    }

    /** `send` is only legal on an open channel. */
    method Send(msg: string)
      requires readyState == ChannelState.Open
      modifies this`sent
      ensures sent == old(sent) + [msg]
    {
      sent := sent + [msg];
    }

    /** `close()` starts closing a channel that is not already closing or closed. */
    method Close()
      modifies this`readyState
      ensures readyState == if old(readyState) in {ChannelState.Closing, ChannelState.Closed} then old(readyState) else ChannelState.Closing
    {
      if readyState !in {ChannelState.Closing, ChannelState.Closed} {
        readyState := ChannelState.Closing;
      }
    }

    /** The transport moves the channel to a new state on its own. */
    method Transition(s: ChannelState)
      modifies this`readyState
      ensures readyState == s
    {
      readyState := s;
    }
  }
}
