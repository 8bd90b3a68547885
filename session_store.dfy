/** The application's session store: the current room id, peer connection,
    data channel and selected file, and a connected flag, with one setter per
    field, a bulk `setConnection`, and a `reset` that closes what it holds. */
module SessionStore {
  import opened Common
  import opened WebRtcTypes
  import opened WebRtcHelpers
  import opened Platform

  /** A `File` the user picked; its contents never enter the store's logic. */
  datatype FileInfo = FileInfo(name: string, mimeType: string, size: nat)

  /** The flag `setConnection` stores, from whether a peer is given and its
      two states. Unlike `IsConnected`, an ICE state of "completed" alone does
      not count. */
  function StoreConnectedFlag(hasPeer: bool, cs: ConnectionState, ice: IceConnectionState): (r: bool)
    ensures r <==> hasPeer && (cs == ConnectionState.Connected || ice == IceConnectionState.Connected)
  {
    hasPeer && (cs.Name() == "connected" || ice.Name() == "connected")
  }

  /** The store's flag and the hook's `isConnected` disagree on a present peer
      exactly when the ICE state is "completed" and the connection state is
      not "connected"; in that case the store says not connected. */
  lemma StoreFlagVersusIsConnected(cs: ConnectionState, ice: IceConnectionState)
    ensures StoreConnectedFlag(true, cs, ice) != IsConnected(cs, ice) <==>
      ice == IceConnectionState.Completed && cs != ConnectionState.Connected
    ensures StoreConnectedFlag(true, cs, ice) ==> IsConnected(cs, ice)
  {
  }

  class Session {
    var roomId: Option<string>
    var pc: Peer?
    var dataChannel: DataChannel?
    var file: Option<FileInfo>
    var isConnected: bool

    /** `initialState`: everything null and not connected. */
    predicate IsInitial()
      reads this
    {
      roomId == None && pc == null && dataChannel == null && file == None && !isConnected
    }

    constructor()
      ensures IsInitial()
    {
      roomId := None;
      pc := null;
      dataChannel := null;
      file := None;
      isConnected := false;
    }

    method SetPc(pc: Peer?)
      modifies this`pc
      ensures this.pc == pc
    {
      this.pc := pc;
    }

    method SetDataChannel(dataChannel: DataChannel?)
      modifies this`dataChannel
      ensures this.dataChannel == dataChannel
    {
      this.dataChannel := dataChannel;
    }

    method SetFile(file: Option<FileInfo>)
      modifies this`file
      ensures this.file == file
    {
      this.file := file;
    }

    method SetRoomId(roomId: Option<string>)
      modifies this`roomId
      ensures this.roomId == roomId
    {
      this.roomId := roomId;
    }

    method SetConnected(connected: bool)
      modifies this`isConnected
      ensures isConnected == connected
    {
      isConnected := connected;
    }

    /** `setConnection`: peer, channel and room id together, and the flag
      derived from the peer's states at that moment; the file is kept. */
    method SetConnection(pc: Peer?, dataChannel: DataChannel?, roomId: string)
      modifies this`pc, this`dataChannel, this`roomId, this`isConnected
      ensures this.pc == pc && this.dataChannel == dataChannel && this.roomId == Some(roomId)
      ensures isConnected == (pc != null && StoreConnectedFlag(true, pc.connectionState, pc.iceConnectionState))
    {
      this.pc := pc;
      this.dataChannel := dataChannel;
      this.roomId := Some(roomId);
      isConnected := pc != null &&
        (pc.connectionState == ConnectionState.Connected || pc.iceConnectionState == IceConnectionState.Connected);
    }

    /** `reset`: close the held channel and peer, if any, then restore the
      initial state. Nothing else is touched, so a reset of an initial store
      closes nothing and changes nothing. */
    method Reset()
      modifies this
      modifies (if dataChannel == null then {} else {dataChannel})`readyState
      modifies (if pc == null then {} else {pc})`connectionState, (if pc == null then {} else {pc})`iceConnectionState
      ensures IsInitial()
      ensures old(dataChannel) != null ==>
        old(dataChannel).readyState ==
          if old(dataChannel.readyState) in {ChannelState.Closing, ChannelState.Closed}
          then old(dataChannel.readyState) else ChannelState.Closing
      ensures old(pc) != null ==>
        old(pc).connectionState == ConnectionState.Closed && old(pc).iceConnectionState == IceConnectionState.Closed
      ensures old(IsInitial()) ==> unchanged(this)
    {
      if dataChannel != null {
        dataChannel.Close();
      }
      if pc != null {
        pc.Close();
      }
      roomId := None;
      pc := null;
      dataChannel := null;
      file := None;
      isConnected := false;
    }
  }
}
