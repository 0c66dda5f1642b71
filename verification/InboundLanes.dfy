/** The receiving end of a lane. */
module InboundLanes {
  import opened Prelude
  import opened LaneTypes
  import opened RelayerQueue

  datatype ReceptionResult =
    | Dispatched(unspent: Weight)
    | InvalidNonce
    | TooManyUnrewardedRelayers
    | TooManyUnconfirmedMessages

  datatype LanesManagerError = UnknownInboundLane | ClosedInboundLane | LaneDispatcherInactive

  /** Effect of a state update that reports `received` as confirmed by the sending end. */
  function StateUpdated(d: InboundLaneData, received: nat): InboundLaneData {
    if received > d.LastDelivered() || received <= d.lastConfirmed then d
    else d.(relayers := TrimFront(PopConfirmed(d.relayers, received), received), lastConfirmed := received)
  }

  /** Verdict on a message, in the order in which the source checks. */
  function Verdict(limits: Limits, d: InboundLaneData, nonce: nat, unspent: Weight): ReceptionResult {
    if d.LastDelivered() >= NONCE_MAX || nonce != d.LastDelivered() + 1 then InvalidNonce
    else if |d.relayers| >= limits.maxRelayerEntries then TooManyUnrewardedRelayers
    else if SaturatingSub(nonce, d.lastConfirmed) > limits.maxUnconfirmed then TooManyUnconfirmedMessages
    else Dispatched(unspent)
  }

  function Received(limits: Limits, d: InboundLaneData, relayer: Relayer, nonce: nat): InboundLaneData {
    if Verdict(limits, d, nonce, ZERO_WEIGHT).Dispatched? then d.(relayers := Delivered(d.relayers, relayer, nonce)) else d
  }

  /** The lane data says: nonces up to `lastConfirmed` are settled, the nonces after it were
      delivered, in order, by `list`. */
  ghost predicate Describes(d: InboundLaneData, list: seq<Relayer>) {
    d.relayers == Encode(d.lastConfirmed, list)
  }

  lemma LastDeliveredIs(d: InboundLaneData, list: seq<Relayer>)
    requires Describes(d, list)
    ensures d.LastDelivered() == d.lastConfirmed + |list|
  {
    EncodeRepresents(d.lastConfirmed, list);
  }

  /** The verdict on a message, in terms of who delivered the unconfirmed nonces: it must be the next one, the queue must
      have room for an entry, and there must be room for one more unconfirmed message, in this order. */
  lemma VerdictIs(limits: Limits, d: InboundLaneData, list: seq<Relayer>, nonce: nat, unspent: Weight)
    requires Describes(d, list)
    ensures var v, last := Verdict(limits, d, nonce, unspent), d.lastConfirmed + |list|;
            var next, entry, room := nonce == last + 1 <= NONCE_MAX, |Encode(d.lastConfirmed, list)| < limits.maxRelayerEntries, |list| < limits.maxUnconfirmed;
            && (v == InvalidNonce <==> !next)
            && (v == TooManyUnrewardedRelayers <==> next && !entry)
            && (v == TooManyUnconfirmedMessages <==> next && entry && !room)
            && (v == Dispatched(unspent) <==> next && entry && room)
  {
    LastDeliveredIs(d, list);
  }

  /** The oldest entry covers the first nonces that one relayer delivered, all of them. */
  lemma OldestEntry(q: seq<UnrewardedRelayer>, base: nat, list: seq<Relayer>)
    requires Represents(q, base, list) && list != []
    ensures var n := q[0].messages.end - base;
            && q[0].messages.begin == base + 1 && 0 < n <= |list|
            && (forall i | 0 <= i < n :: list[i] == list[0])
            && (n < |list| ==> list[n] != list[0])
  {
    assert IsRun(q[0], base, list);
    var n := q[0].messages.end - base;
    forall i | 0 <= i < n
      ensures list[i] == q[0].relayer
    {
      assert q[0].messages.begin <= base + i + 1 <= q[0].messages.end;
    }
    if n < |list| {
      assert |q| > 1 && Adjoins(q[0], q[1]) && IsRun(q[1], base, list);
      assert q[1].messages.begin <= base + n + 1 <= q[1].messages.end;
    }
  }

  /** The declared summary of a queue, in terms of the list: its entries, the messages of its oldest entry (the first
      ones by one relayer), all its messages and the last delivered nonce. */
  lemma RelayersStateIs(d: InboundLaneData, list: seq<Relayer>)
    requires Describes(d, list) && d.lastConfirmed + |list| <= NONCE_MAX
    ensures var st := RelayersStateOf(d);
            && st.entries == |Encode(d.lastConfirmed, list)| && st.totalMessages == |list|
            && st.lastDelivered == d.lastConfirmed + |list|
            && (list == [] ==> st.messagesInOldestEntry == 0)
            && (list != [] ==>
                  && 0 < st.messagesInOldestEntry <= |list|
                  && (forall i | 0 <= i < st.messagesInOldestEntry :: list[i] == list[0])
                  && (st.messagesInOldestEntry < |list| ==> list[st.messagesInOldestEntry] != list[0]))
  {
    LastDeliveredIs(d, list);
    EncodeRepresents(d.lastConfirmed, list);
    if list != [] {
      OldestEntry(d.relayers, d.lastConfirmed, list);
    }
  }

  /** A state update drops the confirmed prefix of the list and keeps the last delivered nonce;
      it does nothing exactly when it brings no news or claims an undelivered nonce. */
  lemma StateUpdateDropsPrefix(d: InboundLaneData, list: seq<Relayer>, received: nat)
    requires Describes(d, list)
    ensures var d' := StateUpdated(d, received);
            && d'.LastDelivered() == d.LastDelivered()
            && d'.state == d.state
            && (if d.lastConfirmed < received <= d.lastConfirmed + |list|
                then d'.lastConfirmed == received && Describes(d', list[received - d.lastConfirmed..])
                else d' == d)
  {
    LastDeliveredIs(d, list);
    if d.lastConfirmed < received <= d.LastDelivered() {
      var d', rest := StateUpdated(d, received), list[received - d.lastConfirmed..];
      EncodeRepresents(d.lastConfirmed, list);
      ConfirmDropsPrefix(d.relayers, d.lastConfirmed, list, received);
      RepresentsIffEncode(d'.relayers, received, rest);
      LastDeliveredIs(d', rest);
    }
  }

  /** A dispatched message appends its deliverer to the list; a rejected one changes nothing. */
  lemma ReceivedAppends(limits: Limits, d: InboundLaneData, list: seq<Relayer>, relayer: Relayer, nonce: nat)
    requires Describes(d, list)
    ensures var d' := Received(limits, d, relayer, nonce);
            && d'.lastConfirmed == d.lastConfirmed
            && d'.state == d.state
            && (if Verdict(limits, d, nonce, ZERO_WEIGHT).Dispatched?
                then Describes(d', list + [relayer]) && nonce == d.lastConfirmed + |list| + 1
                else d' == d)
  {
    LastDeliveredIs(d, list);
    assert (list + [relayer])[..|list|] == list;
  }

  /** Dispatching keeps both size limits. */
  lemma ReceivedKeepsLimits(limits: Limits, d: InboundLaneData, list: seq<Relayer>, relayer: Relayer, nonce: nat)
    requires Describes(d, list)
    requires Verdict(limits, d, nonce, ZERO_WEIGHT).Dispatched?
    ensures |list| + 1 <= limits.maxUnconfirmed
    ensures |Received(limits, d, relayer, nonce).relayers| <= limits.maxRelayerEntries
  {
    LastDeliveredIs(d, list);
  }

  /** The receiving end as the source holds it: a cached copy of the lane data that is written
      through to the storage map on every change. */
  class InboundLane {
    const storage: ChainStorage
    const laneId: LaneId
    var cachedData: InboundLaneData

    ghost predicate Valid()
      reads this, storage
    {
      laneId in storage.inboundLanes && storage.inboundLanes[laneId] == cachedData
    }

    constructor (storage: ChainStorage, laneId: LaneId)
      requires laneId in storage.inboundLanes
      ensures this.storage == storage && this.laneId == laneId
      ensures Valid() && cachedData == storage.inboundLanes[laneId]
    {
      this.storage, this.laneId := storage, laneId;
      cachedData := storage.inboundLanes[laneId];
    }

    /** `from_lane_id(lane_id, check_active = true)`. */
    static method Active(storage: ChainStorage, laneId: LaneId, dispatcherActive: bool)
      returns (r: Result<InboundLane, LanesManagerError>)
      ensures r.Ok? <==> laneId in storage.inboundLanes && storage.inboundLanes[laneId].state == Opened && dispatcherActive
      ensures r.Ok? ==> fresh(r.value) && r.value.Valid() && r.value.storage == storage && r.value.laneId == laneId
      ensures r.Err? ==> r.error == (if laneId !in storage.inboundLanes then UnknownInboundLane
                                     else if storage.inboundLanes[laneId].state == Closed then ClosedInboundLane
                                     else LaneDispatcherInactive)
    {
      if laneId !in storage.inboundLanes { return Err(UnknownInboundLane); }
      if storage.inboundLanes[laneId].state != Opened { return Err(ClosedInboundLane); }
      if !dispatcherActive { return Err(LaneDispatcherInactive); }
      var lane := new InboundLane(storage, laneId);
      return Ok(lane);
    }

    method SetData(data: InboundLaneData)
      requires Valid()
      modifies this`cachedData, storage`inboundLanes
      ensures Valid() && cachedData == data
      ensures storage.inboundLanes == old(storage.inboundLanes)[laneId := data]
    {
      cachedData := data;
      storage.inboundLanes := storage.inboundLanes[laneId := data];
    }

    method ReceiveStateUpdate(outbound: OutboundLaneData) returns (confirmed: Option<nat>)
      requires Valid()
      modifies this`cachedData, storage`inboundLanes
      ensures Valid() && cachedData == StateUpdated(old(cachedData), outbound.latestReceived)
      ensures storage.inboundLanes == old(storage.inboundLanes)[laneId := cachedData]
      ensures confirmed == (if old(cachedData).lastConfirmed < outbound.latestReceived <= old(cachedData).LastDelivered()
                            then Some(outbound.latestReceived) else None)
    {
      var data := cachedData;
      var lastDelivered := data.LastDelivered();
      if outbound.latestReceived > lastDelivered {
        assert storage.inboundLanes == storage.inboundLanes[laneId := cachedData];
        return None;
      }
      if outbound.latestReceived <= data.lastConfirmed {
        assert storage.inboundLanes == storage.inboundLanes[laneId := cachedData];
        return None;
      }
      var newConfirmed := outbound.latestReceived;
      var relayers := data.relayers;
      while relayers != [] && relayers[0].messages.end <= newConfirmed
        invariant PopConfirmed(relayers, newConfirmed) == PopConfirmed(data.relayers, newConfirmed)
        decreases |relayers|
      {
        relayers := relayers[1..];
      }
      if relayers != [] && relayers[0].messages.begin <= newConfirmed {
        relayers := relayers[0 := UnrewardedRelayer(relayers[0].relayer, DeliveredMessages(newConfirmed + 1, relayers[0].messages.end))];
      }
      SetData(InboundLaneData(relayers, newConfirmed, data.state));
      return Some(newConfirmed);
    }

    /** `unspent` is what the dispatcher reports if the message gets that far. */
    method ReceiveMessage(limits: Limits, relayer: Relayer, message: Message, unspent: Weight) returns (r: ReceptionResult)
      requires Valid()
      modifies this`cachedData, storage`inboundLanes, storage`dispatched
      ensures Valid() && r == Verdict(limits, old(cachedData), message.nonce, unspent)
      ensures cachedData == Received(limits, old(cachedData), relayer, message.nonce)
      ensures storage.inboundLanes == old(storage.inboundLanes)[laneId := cachedData]
      ensures storage.dispatched == old(storage.dispatched) + (if r.Dispatched? then [(laneId, message)] else [])
    {
      var data := cachedData;
      assert storage.inboundLanes == storage.inboundLanes[laneId := cachedData];
      if data.LastDelivered() >= NONCE_MAX || message.nonce != data.LastDelivered() + 1 {
        return InvalidNonce;
      }
      if |data.relayers| >= limits.maxRelayerEntries {
        return TooManyUnrewardedRelayers;
      }
      var unconfirmed := SaturatingSub(message.nonce, data.lastConfirmed);
      if unconfirmed > limits.maxUnconfirmed {
        return TooManyUnconfirmedMessages;
      }
      storage.dispatched := storage.dispatched + [(laneId, message)];
      var relayers := data.relayers;
      var last := |relayers| - 1;
      if relayers != [] && relayers[last].relayer == relayer {
        var messages := relayers[last].messages;
        relayers := relayers[last := UnrewardedRelayer(relayer, DeliveredMessages(messages.begin, messages.end + 1))];
      } else {
        relayers := relayers + [UnrewardedRelayer(relayer, DeliveredMessages(message.nonce, message.nonce))];
      }
      SetData(data.(relayers := relayers));
      return Dispatched(unspent);
    }
  }
}
