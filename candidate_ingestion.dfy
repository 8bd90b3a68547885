/** What the connection hook does with remote ICE candidates, as functions on
    a value: the set of candidate ids already processed, the buffer of
    candidates that arrived before a remote description was set, and the
    candidates handed to the peer connection. `IceHandling` in module UseWebRtc
    performs these steps in place and is specified by them. */
module CandidateIngestion {
  import opened Common
  import opened WebRtcTypes

  datatype Ingestion = Ingestion(
    processed: set<string>,
    buffer: seq<IceCandidateWithId>,
    applied: seq<IceCandidateWithId>)

  /** `new RTCIceCandidate(init)` throws a TypeError when both `sdpMid` and
      `sdpMLineIndex` are null. */
  predicate Constructible(c: IceCandidateInit) {
    c.sdpMid.Some? || c.sdpMLineIndex.Some?
  }

  function IdSet(cs: seq<IceCandidateWithId>): set<string> {
    set c | c in cs :: c.id
  }

  predicate DistinctIds(cs: seq<IceCandidateWithId>) {
    forall i, j :: 0 <= i < j < |cs| ==> cs[i].id != cs[j].id
  }

  /** The ingestion invariant: everything applied or buffered was marked
      processed, and no id occurs twice among them, so no candidate is ever
      handed to the peer twice. */
  ghost predicate Inv(s: Ingestion) {
    && DistinctIds(s.applied + s.buffer)
    && forall c :: c in s.applied + s.buffer ==> c.id in s.processed
  }

  /** One fetched candidate, as the body of the loop in
      `processRemoteIceCandidates` handles it. The boolean is false when
      building the candidate threw, which abandons the rest of the poll. */
  function Step(s: Ingestion, remoteSet: bool, c: IceCandidateWithId): (r: (Ingestion, bool))
    ensures r.0.processed == s.processed + {c.id}
    ensures !r.1 <==> c.id !in s.processed && !Constructible(c.init)
    ensures var taken := c.id !in s.processed && Constructible(c.init);
      && r.0.applied == s.applied + (if taken && remoteSet then [c] else [])
      && r.0.buffer == s.buffer + (if taken && !remoteSet then [c] else [])
  {
    if c.id in s.processed then (s, true)
    else
      var marked := s.(processed := s.processed + {c.id});
      if !Constructible(c.init) then (marked, false)
      else if remoteSet then (marked.(applied := marked.applied + [c]), true)
      else (marked.(buffer := marked.buffer + [c]), true)
  }

  /** The loop over one poll's candidates, front to back, stopping at a
      candidate that cannot be built. */
  function Process(s: Ingestion, remoteSet: bool, fetched: seq<IceCandidateWithId>): (r: (Ingestion, bool))
    ensures s.processed <= r.0.processed
    ensures s.applied <= r.0.applied && s.buffer <= r.0.buffer
    ensures remoteSet ==> r.0.buffer == s.buffer
    ensures !remoteSet ==> r.0.applied == s.applied
    decreases |fetched|
  {
    if fetched == [] then (s, true)
    else
      var (next, ok) := Step(s, remoteSet, fetched[0]);
      if !ok then (next, false) else Process(next, remoteSet, fetched[1..])
  }

  /** One step of the loop: a poll is its first candidate's step followed,
      unless that step abandoned the poll, by the poll of the rest. */
  lemma ProcessUnfold(s: Ingestion, remoteSet: bool, fetched: seq<IceCandidateWithId>)
    requires fetched != []
    ensures var (next, ok) := Step(s, remoteSet, fetched[0]);
      Process(s, remoteSet, fetched) == if ok then Process(next, remoteSet, fetched[1..]) else (next, false)
  {
  }

  /** `processBufferedCandidates`: with a remote description set and a
      non-empty buffer, every buffered candidate is handed to the peer in
      order and the buffer is emptied, whether or not the peer accepts them. */
  function Flush(s: Ingestion, remoteSet: bool): (r: Ingestion)
    ensures r.processed == s.processed && r.applied + r.buffer == s.applied + s.buffer
    ensures remoteSet ==> r.buffer == []
    ensures !remoteSet ==> r == s
  {
    if |s.buffer| > 0 && remoteSet then s.(applied := s.applied + s.buffer, buffer := [])
    else s
  }

  /** A reference definition of the candidates a poll brings in, built from
      the back: those whose id is neither already processed nor seen earlier
      in the same list. */
  function FirstSeen(processed: set<string>, fetched: seq<IceCandidateWithId>): seq<IceCandidateWithId>
    decreases |fetched|
  {
    if fetched == [] then []
    else
      var prefix := fetched[..|fetched| - 1];
      var last := fetched[|fetched| - 1];
      if last.id in processed || last.id in IdSet(prefix) then FirstSeen(processed, prefix)
      else FirstSeen(processed, prefix) + [last]
  }

  predicate AllConstructible(fetched: seq<IceCandidateWithId>) {
    forall i :: 0 <= i < |fetched| ==> Constructible(fetched[i].init)
  }

  // ---------------------------------------------------------------------------

  lemma StepKeepsInv(s: Ingestion, remoteSet: bool, c: IceCandidateWithId)
    requires Inv(s)
    ensures Inv(Step(s, remoteSet, c).0)
  {
    var r := Step(s, remoteSet, c).0;
    if c.id !in s.processed && Constructible(c.init) {
      var all := s.applied + s.buffer;
      assert forall k :: 0 <= k < |all| ==> all[k].id != c.id by {
        forall k | 0 <= k < |all| ensures all[k].id != c.id {
          assert all[k] in all;
        }
      }
      if remoteSet {
        assert r.applied + r.buffer == s.applied + [c] + s.buffer;
        assert multiset(r.applied + r.buffer) == multiset(all + [c]);
        forall i, j | 0 <= i < j < |r.applied + r.buffer|
          ensures (r.applied + r.buffer)[i].id != (r.applied + r.buffer)[j].id
        {
          var rs := r.applied + r.buffer;
          var n := |s.applied|;
          if i < n && j < n {
            assert rs[i] == all[i] && rs[j] == all[j];
          } else if i < n && j == n {
            assert rs[i] == all[i] && rs[j] == c;
          } else if i < n {
            assert rs[i] == all[i] && rs[j] == all[j - 1];
          } else if i == n {
            assert rs[i] == c && rs[j] == all[j - 1];
          } else {
            assert rs[i] == all[i - 1] && rs[j] == all[j - 1];
          }
        }
      } else {
        assert r.applied + r.buffer == all + [c];
      }
    }
  }

  /** Processing a poll keeps the invariant: a candidate is never applied or
      buffered twice, however often the same ids come back. */
  lemma {:induction false} ProcessKeepsInv(s: Ingestion, remoteSet: bool, fetched: seq<IceCandidateWithId>)
    requires Inv(s)
    ensures Inv(Process(s, remoteSet, fetched).0)
    decreases |fetched|
  {
    if fetched != [] {
      StepKeepsInv(s, remoteSet, fetched[0]);
      var (next, ok) := Step(s, remoteSet, fetched[0]);
      if ok {
        ProcessKeepsInv(next, remoteSet, fetched[1..]);
      }
    }
  }

  /** Flushing keeps the invariant: it only moves buffered candidates, in
      order, to the end of the applied ones. */
  lemma FlushKeepsInv(s: Ingestion, remoteSet: bool)
    requires Inv(s)
    ensures Inv(Flush(s, remoteSet))
  {
    if |s.buffer| > 0 && remoteSet {
      assert Flush(s, remoteSet).applied + Flush(s, remoteSet).buffer == s.applied + s.buffer;
    }
  }

  /** A candidate whose id is already processed is neither applied nor
      buffered again: a poll that finds only known ids changes nothing. */
  lemma {:induction false} KnownIdsAreSkipped(s: Ingestion, remoteSet: bool, fetched: seq<IceCandidateWithId>)
    requires forall i :: 0 <= i < |fetched| ==> fetched[i].id in s.processed
    ensures Process(s, remoteSet, fetched) == (s, true)
    decreases |fetched|
  {
    if fetched != [] {
      KnownIdsAreSkipped(s, remoteSet, fetched[1..]);
    }
  }

  /** A new id is marked processed before the candidate is built, so a
      candidate that cannot be built is dropped for good: never applied, never
      buffered, and the rest of that poll is abandoned. */
  lemma UnbuildableCandidateIsDropped(s: Ingestion, remoteSet: bool, c: IceCandidateWithId,
                                      rest: seq<IceCandidateWithId>)
    requires c.id !in s.processed && !Constructible(c.init)
    ensures Process(s, remoteSet, [c] + rest) == (s.(processed := s.processed + {c.id}), false)
    ensures Process(Process(s, remoteSet, [c] + rest).0, remoteSet, [c]) == (s.(processed := s.processed + {c.id}), true)
  {
    assert ([c] + rest)[0] == c;
  }

  lemma {:induction false} ProcessSnoc(s: Ingestion, remoteSet: bool, fetched: seq<IceCandidateWithId>,
                                       c: IceCandidateWithId)
    ensures var (r, ok) := Process(s, remoteSet, fetched);
      Process(s, remoteSet, fetched + [c]) == if ok then Step(r, remoteSet, c) else (r, ok)
    decreases |fetched|
  {
    if fetched == [] {
      assert ([] + [c])[1..] == [];
    } else {
      assert (fetched + [c])[0] == fetched[0];
      assert (fetched + [c])[1..] == fetched[1..] + [c];
      var (next, ok) := Step(s, remoteSet, fetched[0]);
      if ok {
        ProcessSnoc(next, remoteSet, fetched[1..], c);
      }
    }
  }

  /** When every candidate of a poll can be built, the poll completes, marks
      every fetched id as processed, and adds exactly the new candidates
      (`FirstSeen`), in arrival order: to the applied ones when a remote
      description is set, to the end of the buffer otherwise. */
  lemma FirstSeenSnoc(processed: set<string>, prefix: seq<IceCandidateWithId>, last: IceCandidateWithId)
    ensures IdSet(prefix + [last]) == IdSet(prefix) + {last.id}
    ensures FirstSeen(processed, prefix + [last]) ==
      if last.id in processed || last.id in IdSet(prefix) then FirstSeen(processed, prefix)
      else FirstSeen(processed, prefix) + [last]
  {
    var f := prefix + [last];
    assert f[..|f| - 1] == prefix && f[|f| - 1] == last;
    assert forall c :: c in f <==> c in prefix || c == last;
  }

  lemma {:induction false} ProcessInArrivalOrder(s: Ingestion, remoteSet: bool, fetched: seq<IceCandidateWithId>)
    requires AllConstructible(fetched)
    ensures Process(s, remoteSet, fetched).1
    ensures Process(s, remoteSet, fetched).0.processed == s.processed + IdSet(fetched)
    ensures remoteSet ==> Process(s, remoteSet, fetched).0.buffer == s.buffer
    ensures remoteSet ==> Process(s, remoteSet, fetched).0.applied == s.applied + FirstSeen(s.processed, fetched)
    ensures !remoteSet ==> Process(s, remoteSet, fetched).0.applied == s.applied
    ensures !remoteSet ==> Process(s, remoteSet, fetched).0.buffer == s.buffer + FirstSeen(s.processed, fetched)
    decreases |fetched|
  {
    if fetched == [] {
      assert IdSet(fetched) == {};
    } else {
      var prefix := fetched[..|fetched| - 1];
      var last := fetched[|fetched| - 1];
      assert fetched == prefix + [last];
      assert AllConstructible(prefix) by {
        forall i | 0 <= i < |prefix| ensures Constructible(prefix[i].init) {
          assert prefix[i] == fetched[i];
        }
      }
      ProcessInArrivalOrder(s, remoteSet, prefix);
      ProcessSnoc(s, remoteSet, prefix, last);
      assert Constructible(last.init) by {
        assert last == fetched[|fetched| - 1];
      }
      ArrivalStep(s, remoteSet, Process(s, remoteSet, prefix).0, prefix, last);
    }
  }

  /** The inductive step of `ProcessInArrivalOrder`: one more buildable
      candidate at the end of the poll. */
  lemma ArrivalStep(s: Ingestion, remoteSet: bool, p: Ingestion,
                    prefix: seq<IceCandidateWithId>, last: IceCandidateWithId)
    requires Constructible(last.init)
    requires p.processed == s.processed + IdSet(prefix)
    requires remoteSet ==> p.buffer == s.buffer && p.applied == s.applied + FirstSeen(s.processed, prefix)
    requires !remoteSet ==> p.applied == s.applied && p.buffer == s.buffer + FirstSeen(s.processed, prefix)
    ensures var (r, ok) := Step(p, remoteSet, last);
      && ok
      && r.processed == s.processed + IdSet(prefix + [last])
      && (remoteSet ==> r.buffer == s.buffer && r.applied == s.applied + FirstSeen(s.processed, prefix + [last]))
      && (!remoteSet ==> r.applied == s.applied && r.buffer == s.buffer + FirstSeen(s.processed, prefix + [last]))
  {
    FirstSeenSnoc(s.processed, prefix, last);
  }

  /** A repeated poll of the same list is idempotent: nothing is applied or
      buffered a second time. */
  lemma RepeatedPollChangesNothing(s: Ingestion, remoteSet: bool, fetched: seq<IceCandidateWithId>)
    requires AllConstructible(fetched)
    ensures var r := Process(s, remoteSet, fetched).0;
      Process(r, remoteSet, fetched) == (r, true)
  {
    ProcessInArrivalOrder(s, remoteSet, fetched);
    var r := Process(s, remoteSet, fetched).0;
    forall i | 0 <= i < |fetched| ensures fetched[i].id in r.processed {
      assert fetched[i] in fetched;
    }
    KnownIdsAreSkipped(r, remoteSet, fetched);
  }

  /** The buffering rule end to end: candidates polled before a remote
      description exists are buffered; once it is set, the flush applies
      them after those applied before, in arrival order, each exactly once,
      and leaves the buffer empty. */
  lemma BufferedCandidatesAppliedOnceInOrder(s: Ingestion, fetched: seq<IceCandidateWithId>)
    requires Inv(s) && AllConstructible(fetched)
    ensures var r := Flush(Process(s, false, fetched).0, true);
      && r.buffer == []
      && (|s.buffer + FirstSeen(s.processed, fetched)| > 0 ==>
            r.applied == s.applied + s.buffer + FirstSeen(s.processed, fetched))
      && DistinctIds(r.applied)
  {
    ProcessInArrivalOrder(s, false, fetched);
    ProcessKeepsInv(s, false, fetched);
    var p := Process(s, false, fetched).0;
    FlushKeepsInv(p, true);
    var r := Flush(p, true);
    assert r.applied + r.buffer == r.applied;
  }

  /** Flushing twice is flushing once, and a flush with nothing buffered or
      without a remote description does nothing. */
  lemma FlushIsIdempotent(s: Ingestion, remoteSet: bool)
    ensures Flush(Flush(s, remoteSet), remoteSet) == Flush(s, remoteSet)
    ensures (s.buffer == [] || !remoteSet) ==> Flush(s, remoteSet) == s
  {
  }
}
