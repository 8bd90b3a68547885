/** The signalling store operations: rooms held in a document store, each a
    document with an optional offer and answer plus two candidate
    sub-collections, one per direction. The store is a map from room id to
    room; the pure functions below say what each operation reads or leaves
    behind, and `RoomStore` performs them on its map. */
module Actions {
  import opened Common
  import opened WebRtcTypes
  import opened WebRtcHelpers

  /** A candidate document: its store-assigned id, the candidate fields and
      the save time. */
  datatype StoredCandidate = StoredCandidate(docId: string, data: IceCandidateInit, timestamp: int)

  /** A room: the document (absent until written) and its two
      sub-collections, which exist independently of the document. */
  datatype Room = Room(
    doc: Option<RoomData>,
    callerCandidates: seq<StoredCandidate>,
    calleeCandidates: seq<StoredCandidate>)
  {
    function Collection(c: CandidateCollection): seq<StoredCandidate> {
      match c
      case CallerCandidates => callerCandidates
      case CalleeCandidates => calleeCandidates
    }
  }

  const EmptyRoom := Room(None, [], [])

  type Rooms = map<string, Room>

  function RoomAt(rooms: Rooms, roomId: string): Room {
    if roomId in rooms then rooms[roomId] else EmptyRoom
  }

  /** The collection `saveIceCandidate` and `countIceCandidates` use for a side. */
  function OwnCollection(isCaller: bool): CandidateCollection {
    if isCaller then CallerCandidates else CalleeCandidates
  }

  /** The collection `getRemoteIceCandidates` reads for a side. */
  function RemoteCollection(isCaller: bool): CandidateCollection {
    if isCaller then CalleeCandidates else CallerCandidates
  }

  /** The store's inline collection choices agree with `getCandidatesCollection`. */
  lemma CollectionChoicesAgree(isCaller: bool)
    ensures OwnCollection(isCaller) == GetCandidatesCollection(isCaller, false)
    ensures RemoteCollection(isCaller) == GetCandidatesCollection(isCaller, true)
    ensures RemoteCollection(isCaller) == OwnCollection(!isCaller)
  {
  }

  datatype StoreError = RoomNotFound

  /** What `fetchOffer` returns: the stored offer field, which may be absent,
      and the room id. */
  datatype FetchedOffer = FetchedOffer(offer: Option<SessionDescription>, roomId: string)

  // ---------------------------------------------------------------------------
  // What each operation does to, or reads from, the room map

  /** `createRoom`: the document is (re)written to hold just the offer's type
      and SDP; a plain `setDoc` replaces the document's fields but leaves its
      sub-collections in place. */
  function WithRoomCreated(rooms: Rooms, roomId: string, offer: SessionDescription): (r: Rooms)
    ensures r.Keys == rooms.Keys + {roomId}
  {
    rooms[roomId := RoomAt(rooms, roomId).(doc := Some(RoomData(Some(offer), None)))]
  }

  /** `fetchOffer`: fails exactly when the room document does not exist, and
      otherwise returns whatever offer field it holds, present or not. */
  function OfferOf(rooms: Rooms, roomId: string): (r: Result<FetchedOffer, StoreError>)
    ensures r.Err? <==> RoomAt(rooms, roomId).doc.None?
    ensures r.Ok? ==> r.value == FetchedOffer(RoomAt(rooms, roomId).doc.value.offer, roomId)
  {
    match RoomAt(rooms, roomId).doc
    case None => Err(RoomNotFound)
    case Some(data) => Ok(FetchedOffer(data.offer, roomId))
  }

  /** `saveAnswer`: a merging write. It sets the answer field, keeps the offer
      field, and creates the document when it is missing. */
  function WithAnswer(rooms: Rooms, roomId: string, answer: SessionDescription): (r: Rooms)
    ensures r.Keys == rooms.Keys + {roomId}
  {
    var room := RoomAt(rooms, roomId);
    var offer := if room.doc.Some? then room.doc.value.offer else None;
    rooms[roomId := room.(doc := Some(RoomData(offer, Some(answer))))]
  }

  /** `checkRoom`: existence, and for an existing room whether it holds an answer. */
  function RoomCheck(rooms: Rooms, roomId: string): (r: RoomStatus)
    ensures r.roomExists <==> RoomAt(rooms, roomId).doc.Some?
    ensures r.hasOffer.None? && r.callerCandidatesCount.None? && r.calleeCandidatesCount.None?
    ensures r.hasAnswer.Some? <==> r.roomExists
    ensures r.roomExists ==> r.hasAnswer.value == RoomAt(rooms, roomId).doc.value.answer.Some?
  {
    match RoomAt(rooms, roomId).doc
    case None => RoomStatus(false, None, None, None, None)
    case Some(data) => RoomStatus(true, None, Some(data.answer.Some?), None, None)
  }

  /** `saveIceCandidate`: one new document, holding the candidate and the save
      time, in the side's own collection. This model lists a collection in
      insertion order, so the new document comes last. */
  function WithCandidate(rooms: Rooms, roomId: string, c: IceCandidateInit, isCaller: bool,
                         docId: string, now: int): (r: Rooms)
    ensures r.Keys == rooms.Keys + {roomId}
    ensures forall id :: id in rooms && id != roomId ==> r[id] == rooms[id]
    ensures RoomAt(r, roomId).doc == RoomAt(rooms, roomId).doc
  {
    var room := RoomAt(rooms, roomId);
    var entry := StoredCandidate(docId, c, now);
    if isCaller then rooms[roomId := room.(callerCandidates := room.callerCandidates + [entry])]
    else rooms[roomId := room.(calleeCandidates := room.calleeCandidates + [entry])]
  }

  /** The record `getRemoteIceCandidates` builds from one document: its
      fields, with the document id as `_id`. */
  function WithId(s: StoredCandidate): IceCandidateWithId {
    IceCandidateWithId(s.data, s.docId, Some(s.timestamp))
  }

  /** `getRemoteIceCandidates`: the other side's collection, in store order,
      every entry carrying its document id. */
  function RemoteCandidates(rooms: Rooms, roomId: string, isCaller: bool): (r: seq<IceCandidateWithId>)
    ensures var docs := RoomAt(rooms, roomId).Collection(RemoteCollection(isCaller));
      |r| == |docs| &&
      forall i :: 0 <= i < |r| ==>
        r[i].id == docs[i].docId && r[i].init == docs[i].data && r[i].timestamp == Some(docs[i].timestamp)
  {
    var docs := RoomAt(rooms, roomId).Collection(RemoteCollection(isCaller));
    seq(|docs|, i requires 0 <= i < |docs| => WithId(docs[i]))
  }

  /** `getRemoteAnswer`: null for a missing room or a room without an
      answer, otherwise the stored answer. */
  function RemoteAnswer(rooms: Rooms, roomId: string): (r: Option<SessionDescription>)
    ensures r.Some? <==> RoomAt(rooms, roomId).doc.Some? && RoomAt(rooms, roomId).doc.value.answer.Some?
    ensures r.Some? ==> r == RoomAt(rooms, roomId).doc.value.answer
  {
    match RoomAt(rooms, roomId).doc
    case None => None
    case Some(data) => data.answer
  }

  /** `countIceCandidates`: the size of the side's own collection. */
  function CandidateCount(rooms: Rooms, roomId: string, isCaller: bool): (n: nat)
    ensures n == |RoomAt(rooms, roomId).Collection(GetCandidatesCollection(isCaller, false))|
  {
    |RoomAt(rooms, roomId).Collection(OwnCollection(isCaller))|
  }

  /** `checkStatus`: `{exists: false}` for a missing room; otherwise whether
      offer and answer are present, and the sizes of both collections. */
  function Status(rooms: Rooms, roomId: string): (r: RoomStatus)
    ensures var room := RoomAt(rooms, roomId);
      if room.doc.None? then r == RoomStatus(false, None, None, None, None)
      else r == RoomStatus(true, Some(room.doc.value.offer.Some?), Some(room.doc.value.answer.Some?),
                           Some(|room.callerCandidates|), Some(|room.calleeCandidates|))
  {
    match RoomAt(rooms, roomId).doc
    case None => RoomStatus(false, None, None, None, None)
    case Some(data) =>
      RoomStatus(true, Some(data.offer.Some?), Some(data.answer.Some?),
                 Some(CandidateCount(rooms, roomId, true)), Some(CandidateCount(rooms, roomId, false)))
  }

  // ---------------------------------------------------------------------------
  // Properties of the operations

  /** A created room returns its own offer, with the same type and SDP. */
  lemma CreateThenFetchOffer(rooms: Rooms, roomId: string, offer: SessionDescription)
    ensures OfferOf(WithRoomCreated(rooms, roomId, offer), roomId) == Ok(FetchedOffer(Some(offer), roomId))
    ensures RemoteAnswer(WithRoomCreated(rooms, roomId, offer), roomId) == None
  {
  }

  /** A room created under a fresh id holds the offer and nothing else. */
  lemma CreatedRoomIsFresh(rooms: Rooms, roomId: string, offer: SessionDescription)
    requires roomId !in rooms
    ensures Status(WithRoomCreated(rooms, roomId, offer), roomId)
         == RoomStatus(true, Some(true), Some(false), Some(0), Some(0))
  {
  }

  /** Merging an answer keeps the offer and both collections, sets the answer
      that `getRemoteAnswer` then returns, and touches no other room. */
  lemma SaveAnswerKeepsOffer(rooms: Rooms, roomId: string, answer: SessionDescription, other: string)
    requires other != roomId
    ensures var before := RoomAt(rooms, roomId);
      var after := RoomAt(WithAnswer(rooms, roomId, answer), roomId);
      && after.doc.Some?
      && after.doc.value.offer == (if before.doc.Some? then before.doc.value.offer else None)
      && after.callerCandidates == before.callerCandidates
      && after.calleeCandidates == before.calleeCandidates
    ensures RemoteAnswer(WithAnswer(rooms, roomId, answer), roomId) == Some(answer)
    ensures RoomAt(WithAnswer(rooms, roomId, answer), other) == RoomAt(rooms, other)
  {
  }

  /** The offer/answer round trip of one negotiation: the caller's offer is
      what the callee fetches, and the callee's answer what the caller polls,
      with the offer still in place. */
  lemma OfferAnswerRoundTrip(rooms: Rooms, roomId: string, offer: SessionDescription, answer: SessionDescription)
    ensures var created := WithRoomCreated(rooms, roomId, offer);
      var answered := WithAnswer(created, roomId, answer);
      && OfferOf(created, roomId) == Ok(FetchedOffer(Some(offer), roomId))
      && RemoteAnswer(answered, roomId) == Some(answer)
      && OfferOf(answered, roomId) == Ok(FetchedOffer(Some(offer), roomId))
  {
  }

  /** `saveIceCandidate` appends exactly one entry to the side's own
      collection, leaving every existing entry and the other collection as
      they were. */
  lemma SaveCandidateAppendsOne(rooms: Rooms, roomId: string, c: IceCandidateInit, isCaller: bool,
                                docId: string, now: int)
    ensures var before := RoomAt(rooms, roomId);
      var after := RoomAt(WithCandidate(rooms, roomId, c, isCaller, docId, now), roomId);
      var own := OwnCollection(isCaller);
      && after.Collection(own) == before.Collection(own) + [StoredCandidate(docId, c, now)]
      && after.Collection(RemoteCollection(isCaller)) == before.Collection(RemoteCollection(isCaller))
      && after.doc == before.doc
  {
  }

  /** A candidate saved by one side is what the other side's next
      `getRemoteIceCandidates` finds under its document id, last in the
      insertion order this model lists by; the saving side's own poll does
      not see it. */
  lemma {:induction false} SavedCandidateReachesOtherSide(rooms: Rooms, roomId: string, c: IceCandidateInit,
                                        isCaller: bool, docId: string, now: int)
    ensures var after := WithCandidate(rooms, roomId, c, isCaller, docId, now);
      && RemoteCandidates(after, roomId, !isCaller)
         == RemoteCandidates(rooms, roomId, !isCaller) + [IceCandidateWithId(c, docId, Some(now))]
      && RemoteCandidates(after, roomId, isCaller) == RemoteCandidates(rooms, roomId, isCaller)
  {
    var after := WithCandidate(rooms, roomId, c, isCaller, docId, now);
    SaveCandidateAppendsOne(rooms, roomId, c, isCaller, docId, now);
    var seen := RemoteCandidates(after, roomId, !isCaller);
    var expected := RemoteCandidates(rooms, roomId, !isCaller) + [IceCandidateWithId(c, docId, Some(now))];
    assert |seen| == |expected|;
    forall i | 0 <= i < |seen| ensures seen[i] == expected[i] {
    }
  }

  /** After a save, `checkStatus` on an existing room counts one more
      candidate on the saving side and the same number on the other. */
  lemma StatusCountsFollowSaves(rooms: Rooms, roomId: string, c: IceCandidateInit, isCaller: bool,
                                docId: string, now: int)
    requires RoomAt(rooms, roomId).doc.Some?
    ensures var before := Status(rooms, roomId);
      var after := Status(WithCandidate(rooms, roomId, c, isCaller, docId, now), roomId);
      && after.roomExists
      && (isCaller ==> after.callerCandidatesCount.value == before.callerCandidatesCount.value + 1
                       && after.calleeCandidatesCount == before.calleeCandidatesCount)
      && (!isCaller ==> after.calleeCandidatesCount.value == before.calleeCandidatesCount.value + 1
                        && after.callerCandidatesCount == before.callerCandidatesCount)
  {
  }

  // ---------------------------------------------------------------------------
  // The store

  class RoomStore {
    var rooms: Rooms

    constructor()
      ensures rooms == map[]
    {
      rooms := map[];
    }

    /** `createRoom(offer)`; `newId` is the id the store generates for the
        new document. */
    method CreateRoom(offer: SessionDescription, newId: string) returns (roomId: string)
      modifies this
      ensures roomId == newId
      ensures rooms == WithRoomCreated(old(rooms), newId, offer)
    {
      roomId := newId;
      var room := RoomAt(rooms, newId);
      rooms := rooms[newId := room.(doc := Some(RoomData(Some(offer), None)))];
    }

    method FetchOffer(roomId: string) returns (r: Result<FetchedOffer, StoreError>)
      ensures r.Err? <==> RoomAt(rooms, roomId).doc.None?
      ensures r.Ok? ==> r.value.offer == RoomAt(rooms, roomId).doc.value.offer && r.value.roomId == roomId
    {
      if roomId !in rooms || rooms[roomId].doc.None? {
        return Err(RoomNotFound);
      }
      r := Ok(FetchedOffer(rooms[roomId].doc.value.offer, roomId));
    }

    method SaveAnswer(roomId: string, answer: SessionDescription)
      modifies this
      ensures rooms == WithAnswer(old(rooms), roomId, answer)
    {
      var room := RoomAt(rooms, roomId);
      var offer := if room.doc.Some? then room.doc.value.offer else None;
      rooms := rooms[roomId := room.(doc := Some(RoomData(offer, Some(answer))))];
    }

    method CheckRoom(roomId: string) returns (r: RoomStatus)
      ensures r.roomExists <==> RoomAt(rooms, roomId).doc.Some?
      ensures r.roomExists ==> r.hasAnswer == Some(RoomAt(rooms, roomId).doc.value.answer.Some?)
      ensures !r.roomExists ==> r == RoomStatus(false, None, None, None, None)
    {
      if roomId !in rooms || rooms[roomId].doc.None? {
        return RoomStatus(false, None, None, None, None);
      }
      r := RoomStatus(true, None, Some(rooms[roomId].doc.value.answer.Some?), None, None);
    }

    /** `saveIceCandidate`; `docId` is the id the store generates and `now`
        the value of `Date.now()`. */
    method SaveIceCandidate(roomId: string, c: IceCandidateInit, isCaller: bool, docId: string, now: int)
      modifies this
      ensures rooms == WithCandidate(old(rooms), roomId, c, isCaller, docId, now)
    {
      var room := RoomAt(rooms, roomId);
      var entry := StoredCandidate(docId, c, now);
      if isCaller {
        rooms := rooms[roomId := room.(callerCandidates := room.callerCandidates + [entry])];
      } else {
        rooms := rooms[roomId := room.(calleeCandidates := room.calleeCandidates + [entry])];
      }
    }

    /** `getRemoteIceCandidates`, with the loop that maps each document to a
        record carrying its id. */
    method GetRemoteIceCandidates(roomId: string, isCaller: bool) returns (r: seq<IceCandidateWithId>)
      ensures var docs := RoomAt(rooms, roomId).Collection(GetCandidatesCollection(isCaller, true));
        |r| == |docs| && forall i :: 0 <= i < |r| ==> r[i] == WithId(docs[i])
    {
      var room := RoomAt(rooms, roomId);
      var docs := if isCaller then room.calleeCandidates else room.callerCandidates;
      r := [];
      for i := 0 to |docs|
        invariant |r| == i
        invariant forall k :: 0 <= k < i ==> r[k] == WithId(docs[k])
      {
        r := r + [WithId(docs[i])];
      }
    }

    method GetRemoteAnswer(roomId: string) returns (r: Option<SessionDescription>)
      ensures r.Some? <==> RoomAt(rooms, roomId).doc.Some? && RoomAt(rooms, roomId).doc.value.answer.Some?
      ensures r.Some? ==> r == RoomAt(rooms, roomId).doc.value.answer
    {
      if roomId !in rooms || rooms[roomId].doc.None? {
        return None;
      }
      r := rooms[roomId].doc.value.answer;
    }

    method CheckStatus(roomId: string) returns (r: RoomStatus)
      ensures !RoomAt(rooms, roomId).doc.Some? ==> r == RoomStatus(false, None, None, None, None)
      ensures RoomAt(rooms, roomId).doc.Some? ==>
        && r.roomExists
        && r.hasOffer == Some(RoomAt(rooms, roomId).doc.value.offer.Some?)
        && r.hasAnswer == Some(RoomAt(rooms, roomId).doc.value.answer.Some?)
        && r.callerCandidatesCount == Some(|RoomAt(rooms, roomId).callerCandidates|)
        && r.calleeCandidatesCount == Some(|RoomAt(rooms, roomId).calleeCandidates|)
    {
      if roomId !in rooms || rooms[roomId].doc.None? {
        return RoomStatus(false, None, None, None, None);
      }
      var data := rooms[roomId].doc.value;
      var callerCount := CountIceCandidates(roomId, true);
      var calleeCount := CountIceCandidates(roomId, false);
      r := RoomStatus(true, Some(data.offer.Some?), Some(data.answer.Some?), Some(callerCount), Some(calleeCount));
    }

    method CountIceCandidates(roomId: string, isCaller: bool) returns (n: nat)
      ensures n == |RoomAt(rooms, roomId).Collection(GetCandidatesCollection(isCaller, false))|
    {
      var room := RoomAt(rooms, roomId);
      n := if isCaller then |room.callerCandidates| else |room.calleeCandidates|;
    }
  }
}
