/** The sending end of a lane. */
module OutboundLanes {
  import opened Prelude
  import opened LaneTypes
  import opened RelayerQueue

  datatype ReceptionConfirmationError =
    | FailedToConfirmFutureMessages
    | EmptyUnrewardedRelayerEntry
    | NonConsecutiveUnrewardedRelayerEntries
    | TryingToConfirmMoreMessagesThanExpected

  /** First complaint about the queue, if any, where `expected` is the nonce at which the first
      entry must begin. */
  function RelayersComplaint(relayers: seq<UnrewardedRelayer>, expected: Option<nat>, latest: nat): Option<ReceptionConfirmationError> {
    if relayers == [] then None
    else
      var m := relayers[0].messages;
      if m.end < m.begin then Some(EmptyUnrewardedRelayerEntry)
      else if expected != Some(m.begin) then Some(NonConsecutiveUnrewardedRelayerEntries)
      else if m.end > latest then Some(FailedToConfirmFutureMessages)
      else RelayersComplaint(relayers[1..], if m.end < NONCE_MAX then Some(m.end + 1) else None, latest)
  }

  function FirstBegin(relayers: seq<UnrewardedRelayer>): Option<nat> {
    if relayers == [] then None else Some(relayers[0].messages.begin)
  }

  method EnsureUnrewardedRelayersAreCorrect(latest: nat, relayers: seq<UnrewardedRelayer>)
    returns (complaint: Option<ReceptionConfirmationError>)
    ensures complaint == RelayersComplaint(relayers, FirstBegin(relayers), latest)
  {
    var expected := FirstBegin(relayers);
    for i := 0 to |relayers|
      invariant RelayersComplaint(relayers[i..], expected, latest) == RelayersComplaint(relayers, FirstBegin(relayers), latest)
    {
      var m := relayers[i].messages;
      if m.end < m.begin { return Some(EmptyUnrewardedRelayerEntry); }
      if expected != Some(m.begin) { return Some(NonConsecutiveUnrewardedRelayerEntries); }
      if m.end > latest { return Some(FailedToConfirmFutureMessages); }
      expected := if m.end < NONCE_MAX then Some(m.end + 1) else None;
      assert relayers[i..][1..] == relayers[i + 1..];
    }
    return None;
  }

  ghost predicate Follows(a: DeliveredMessages, b: DeliveredMessages) {
    a.end < NONCE_MAX && b.begin == a.end + 1
  }

  /** Non-empty runs without gaps between them, all ended by `latest`. */
  ghost predicate GapFree(relayers: seq<UnrewardedRelayer>, latest: nat) {
    && (forall i | 0 <= i < |relayers| :: relayers[i].messages.begin <= relayers[i].messages.end <= latest)
    && (forall i, j | 0 <= i < j < |relayers| && j == i + 1 :: Follows(relayers[i].messages, relayers[j].messages))
  }

  /** The checker accepts exactly the gap-free queues that begin where expected. */
  lemma {:induction false} NoComplaintIff(relayers: seq<UnrewardedRelayer>, expected: Option<nat>, latest: nat)
    ensures RelayersComplaint(relayers, expected, latest) == None <==>
            (relayers != [] ==> expected == FirstBegin(relayers)) && GapFree(relayers, latest)
    decreases |relayers|
  {
    if relayers != [] {
      var m, rest := relayers[0].messages, relayers[1..];
      var next := if m.end < NONCE_MAX then Some(m.end + 1) else None;
      NoComplaintIff(rest, next, latest);
      assert forall i | 0 < i < |relayers| :: relayers[i] == rest[i - 1];
      if RelayersComplaint(rest, next, latest) == None {
        assert |relayers| > 1 ==> Follows(relayers[0].messages, relayers[1].messages);
        if m.begin <= m.end <= latest {
          forall i, j | 0 <= i < j < |relayers| && j == i + 1
            ensures Follows(relayers[i].messages, relayers[j].messages)
          {
            if i > 0 { assert Follows(rest[i - 1].messages, rest[j - 1].messages); }
          }
          assert GapFree(relayers, latest);
        }
      }
      if GapFree(relayers, latest) {
        forall i, j | 0 <= i < j < |rest| && j == i + 1
          ensures Follows(rest[i].messages, rest[j].messages)
        {
          assert Follows(relayers[i + 1].messages, relayers[j + 1].messages);
        }
        assert GapFree(rest, latest);
        assert |relayers| > 1 ==> Follows(relayers[0].messages, relayers[1].messages);
      }
    }
  }

  /** What is wrong with entry `k`, if anything, given that the first entry must begin at `expected`. */
  ghost function EntryComplaint(relayers: seq<UnrewardedRelayer>, expected: Option<nat>, latest: nat, k: nat): Option<ReceptionConfirmationError>
    requires k < |relayers|
  {
    var m := relayers[k].messages;
    if m.begin > m.end then Some(EmptyUnrewardedRelayerEntry)
    else if k == 0 && expected != Some(m.begin) then Some(NonConsecutiveUnrewardedRelayerEntries)
    else if k > 0 && !Follows(relayers[k - 1].messages, m) then Some(NonConsecutiveUnrewardedRelayerEntries)
    else if latest < m.end then Some(FailedToConfirmFutureMessages)
    else None
  }

  ghost predicate FirstComplaint(relayers: seq<UnrewardedRelayer>, expected: Option<nat>, latest: nat, k: nat, e: ReceptionConfirmationError) {
    && k < |relayers| && EntryComplaint(relayers, expected, latest, k) == Some(e)
    && forall j: nat | j < k :: EntryComplaint(relayers, expected, latest, j) == None
  }

  /** A complaint is the one about the first offending entry. */
  lemma {:induction false} ComplaintIsFirst(relayers: seq<UnrewardedRelayer>, expected: Option<nat>, latest: nat, e: ReceptionConfirmationError)
    requires RelayersComplaint(relayers, expected, latest) == Some(e)
    ensures exists k: nat :: FirstComplaint(relayers, expected, latest, k, e)
    decreases |relayers|
  {
    var m, rest := relayers[0].messages, relayers[1..];
    var next := if m.end < NONCE_MAX then Some(m.end + 1) else None;
    if EntryComplaint(relayers, expected, latest, 0) == None {
      ComplaintIsFirst(rest, next, latest, e);
      var k: nat :| FirstComplaint(rest, next, latest, k, e);
      forall j: nat | j < |rest|
        ensures EntryComplaint(relayers, expected, latest, j + 1) == EntryComplaint(rest, next, latest, j)
      {
        assert relayers[j + 1] == rest[j];
        if j > 0 {
          assert relayers[j] == rest[j - 1];
        }
      }
      forall j: nat | j < k + 1
        ensures EntryComplaint(relayers, expected, latest, j) == None
      {
        if j > 0 {
          assert EntryComplaint(rest, next, latest, j - 1) == None;
          assert EntryComplaint(relayers, expected, latest, (j - 1) + 1) == None;
        }
      }
      assert FirstComplaint(relayers, expected, latest, k + 1, e);
    } else {
      assert FirstComplaint(relayers, expected, latest, 0, e);
    }
  }

  /** A canonical queue is never complained about. */
  lemma EncodeHasNoComplaint(base: nat, list: seq<Relayer>, latest: nat)
    requires base + |list| <= latest <= NONCE_MAX
    ensures RelayersComplaint(Encode(base, list), FirstBegin(Encode(base, list)), latest) == None
  {
    var q := Encode(base, list);
    EncodeRepresents(base, list);
    forall i, j | 0 <= i < j < |q| && j == i + 1
      ensures Follows(q[i].messages, q[j].messages)
    {
    }
    NoComplaintIff(q, FirstBegin(q), latest);
  }

  /** The nonce is raised without a check, so that it wraps in 64 bits. */
  function Sent(d: OutboundLaneData): OutboundLaneData {
    d.(latestGenerated := if d.latestGenerated == NONCE_MAX then 0 else d.latestGenerated + 1)
  }

  /** Sending counts modulo 2 to the 64th and touches nothing else. */
  lemma SentCounts(d: OutboundLaneData)
    requires d.latestGenerated <= NONCE_MAX
    ensures Sent(d) == d.(latestGenerated := (d.latestGenerated + 1) % 0x1_0000_0000_0000_0000)
  {
  }

  /** Outcome of `confirm_delivery`, in the order in which the source checks. */
  function ConfirmOutcome(d: OutboundLaneData, maxAllowed: nat, latestDelivered: nat, relayers: seq<UnrewardedRelayer>)
    : Result<Option<DeliveredMessages>, ReceptionConfirmationError>
  {
    var confirmed := DeliveredMessages(SaturatingInc(d.latestReceived), latestDelivered);
    if confirmed.TotalMessages() == 0 then Ok(None)
    else if latestDelivered > d.latestGenerated then Err(FailedToConfirmFutureMessages)
    else if confirmed.TotalMessages() > maxAllowed then Err(TryingToConfirmMoreMessagesThanExpected)
    else match RelayersComplaint(relayers, FirstBegin(relayers), latestDelivered)
         case Some(e) => Err(e)
         case None => Ok(Some(confirmed))
  }

  function Confirmed(d: OutboundLaneData, latestDelivered: nat): OutboundLaneData {
    d.(latestReceived := latestDelivered, oldestUnpruned := SaturatingInc(latestDelivered))
  }

  /** What becomes of a confirmation, for any declared queue: the nonces from the one after the latest confirmed one on
      are confirmed if they were all sent, are no more than allowed and the queue is gap-free; nothing is if there are
      none; and otherwise the first of these checks that fails names the error. */
  lemma ConfirmOutcomeIs(d: OutboundLaneData, maxAllowed: nat, delivered: nat, relayers: seq<UnrewardedRelayer>)
    requires delivered <= NONCE_MAX
    ensures var o, begin := ConfirmOutcome(d, maxAllowed, delivered, relayers), Min(d.latestReceived + 1, NONCE_MAX);
            var news, sent := begin <= delivered, delivered <= d.latestGenerated;
            && (o == Ok(None) <==> !news)
            && (o == Ok(Some(DeliveredMessages(begin, delivered))) <==>
                  news && sent && delivered + 1 - begin <= maxAllowed && GapFree(relayers, delivered))
            && (o.Ok? && o.value.Some? ==> o.value.value == DeliveredMessages(begin, delivered))
            && (news && !sent ==> o == Err(FailedToConfirmFutureMessages))
            && (o == Err(TryingToConfirmMoreMessagesThanExpected) <==> news && sent && delivered + 1 - begin > maxAllowed)
            && (news && sent && delivered + 1 - begin <= maxAllowed && !GapFree(relayers, delivered) ==>
                  o.Err? && RelayersComplaint(relayers, FirstBegin(relayers), delivered) == Some(o.error))
  {
    var complaint := RelayersComplaint(relayers, FirstBegin(relayers), delivered);
    NoComplaintIff(relayers, FirstBegin(relayers), delivered);
    if complaint.Some? {
      ComplaintIsFirst(relayers, FirstBegin(relayers), delivered, complaint.value);
    }
  }

  /** Confirming the same delivery a second time has no effect, except that the saturating nonce
      arithmetic confirms the very last 64-bit nonce again and again. */
  lemma ReconfirmIsNoopIff(d: OutboundLaneData, maxAllowed: nat, latestDelivered: nat, relayers: seq<UnrewardedRelayer>)
    requires d.latestGenerated <= NONCE_MAX
    requires var o := ConfirmOutcome(d, maxAllowed, latestDelivered, relayers); o.Ok? && o.value.Some?
    ensures ConfirmOutcome(Confirmed(d, latestDelivered), maxAllowed, latestDelivered, relayers) == Ok(None)
            <==> latestDelivered < NONCE_MAX
  {
  }

  /** At the largest nonce the same range is confirmed a second time. */
  lemma LastNonceIsConfirmedTwice(relayer: Relayer)
    ensures var d := OutboundLaneData(NONCE_MAX, NONCE_MAX - 1, NONCE_MAX, Opened);
            var last := DeliveredMessages(NONCE_MAX, NONCE_MAX);
            var relayers := [UnrewardedRelayer(relayer, last)];
            && ConfirmOutcome(d, 1, NONCE_MAX, relayers) == Ok(Some(last))
            && ConfirmOutcome(Confirmed(d, NONCE_MAX), 1, NONCE_MAX, relayers) == Ok(Some(last))
  {
    var relayers := [UnrewardedRelayer(relayer, DeliveredMessages(NONCE_MAX, NONCE_MAX))];
    NoComplaintIff(relayers, FirstBegin(relayers), NONCE_MAX);
  }

  class OutboundLane {
    const storage: ChainStorage
    const laneId: LaneId
    var cachedData: OutboundLaneData

    ghost predicate Valid()
      reads this, storage
    {
      laneId in storage.outboundLanes && storage.outboundLanes[laneId] == cachedData
    }

    constructor (storage: ChainStorage, laneId: LaneId)
      requires laneId in storage.outboundLanes
      ensures this.storage == storage && this.laneId == laneId
      ensures Valid() && cachedData == storage.outboundLanes[laneId]
    {
      this.storage, this.laneId := storage, laneId;
      cachedData := storage.outboundLanes[laneId];
    }

    method SetData(data: OutboundLaneData)
      requires Valid()
      modifies this`cachedData, storage`outboundLanes
      ensures Valid() && cachedData == data
      ensures storage.outboundLanes == old(storage.outboundLanes)[laneId := data]
    {
      cachedData := data;
      storage.outboundLanes := storage.outboundLanes[laneId := data];
    }

    method SendMessage(payload: Payload) returns (nonce: nat)
      requires Valid()
      modifies this`cachedData, storage`outboundLanes, storage`outboundMessages
      ensures Valid() && cachedData == Sent(old(cachedData)) && nonce == cachedData.latestGenerated
      ensures storage.outboundLanes == old(storage.outboundLanes)[laneId := cachedData]
      ensures storage.outboundMessages == old(storage.outboundMessages)[MessageKey(laneId, nonce) := payload]
    {
      var data := cachedData;
      nonce := if data.latestGenerated == NONCE_MAX then 0 else data.latestGenerated + 1;
      storage.outboundMessages := storage.outboundMessages[MessageKey(laneId, nonce) := payload];
      SetData(data.(latestGenerated := nonce));
    }

    method ConfirmDelivery(maxAllowed: nat, latestDelivered: nat, relayers: seq<UnrewardedRelayer>)
      returns (r: Result<Option<DeliveredMessages>, ReceptionConfirmationError>)
      requires Valid()
      modifies this`cachedData, storage`outboundLanes, storage`outboundMessages
      ensures Valid() && r == ConfirmOutcome(old(cachedData), maxAllowed, latestDelivered, relayers)
      ensures storage.outboundLanes == old(storage.outboundLanes)[laneId := cachedData]
      ensures cachedData == (if r.Ok? && r.value.Some? then Confirmed(old(cachedData), latestDelivered) else old(cachedData))
      ensures forall k :: k in storage.outboundMessages <==>
                k in old(storage.outboundMessages) &&
                !(r.Ok? && r.value.Some? && k.lane == laneId && r.value.value.begin <= k.nonce <= r.value.value.end)
      ensures forall k | k in storage.outboundMessages :: storage.outboundMessages[k] == old(storage.outboundMessages)[k]
    {
      var data := cachedData;
      assert storage.outboundLanes == storage.outboundLanes[laneId := cachedData];
      var confirmed := DeliveredMessages(SaturatingInc(data.latestReceived), latestDelivered);
      if confirmed.TotalMessages() == 0 { return Ok(None); }
      if confirmed.end > data.latestGenerated { return Err(FailedToConfirmFutureMessages); }
      if confirmed.TotalMessages() > maxAllowed { return Err(TryingToConfirmMoreMessagesThanExpected); }
      var complaint := EnsureUnrewardedRelayersAreCorrect(confirmed.end, relayers);
      if complaint.Some? { return Err(complaint.value); }
      for nonce := confirmed.begin to confirmed.end + 1
        invariant cachedData == old(cachedData) && storage.outboundLanes == old(storage.outboundLanes)
        invariant forall k :: k in storage.outboundMessages <==>
                    k in old(storage.outboundMessages) && !(k.lane == laneId && confirmed.begin <= k.nonce < nonce)
        invariant forall k | k in storage.outboundMessages :: storage.outboundMessages[k] == old(storage.outboundMessages)[k]
      {
        storage.outboundMessages := storage.outboundMessages - {MessageKey(laneId, nonce)};
      }
      SetData(data.(latestReceived := confirmed.end, oldestUnpruned := SaturatingInc(confirmed.end)));
      return Ok(Some(confirmed));
    }
  }
}
