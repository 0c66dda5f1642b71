/** Data shared by both ends of a bridge message lane: nonces, lane data, relayer entries,
    two-component weights, and the storage items of the messages pallet. */
module LaneTypes {
  import opened Prelude

  type Relayer(==,!new)
  type Payload(==,!new)
  type LaneId(==,!new)

  /** Nonces are 64-bit: every place where the source saturates or checks is spelled out. */
  const NONCE_MAX: nat := 0xFFFF_FFFF_FFFF_FFFF

  function SaturatingInc(n: nat): nat {
    if n < NONCE_MAX then n + 1 else NONCE_MAX
  }

  /** `saturating_len` of the inclusive range `begin..=end`. */
  function SaturatingLen(begin: nat, end: nat): nat {
    if end < begin then 0 else Min(end - begin + 1, NONCE_MAX)
  }

  datatype LaneState = Opened | Closed

  datatype DeliveredMessages = DeliveredMessages(begin: nat, end: nat) {
    function TotalMessages(): nat {
      SaturatingLen(begin, end)
    }
  }

  datatype UnrewardedRelayer = UnrewardedRelayer(relayer: Relayer, messages: DeliveredMessages)

  datatype InboundLaneData = InboundLaneData(relayers: seq<UnrewardedRelayer>, lastConfirmed: nat, state: LaneState) {
    function LastDelivered(): nat {
      if relayers == [] then lastConfirmed else relayers[|relayers| - 1].messages.end
    }

    function TotalUnrewarded(): nat {
      if relayers == [] then 0
      else SaturatingLen(relayers[0].messages.begin, relayers[|relayers| - 1].messages.end)
    }
  }

  datatype OutboundLaneData = OutboundLaneData(
    oldestUnpruned: nat, latestReceived: nat, latestGenerated: nat, state: LaneState)

  const OPENED_INBOUND := InboundLaneData([], 0, Opened)
  const OPENED_OUTBOUND := OutboundLaneData(1, 0, 0, Opened)

  /** The gist of the relayer queue that a confirmation transaction has to declare. */
  datatype UnrewardedRelayersState = UnrewardedRelayersState(
    entries: nat, messagesInOldestEntry: nat, totalMessages: nat, lastDelivered: nat)

  function RelayersStateOf(d: InboundLaneData): UnrewardedRelayersState {
    UnrewardedRelayersState(
      |d.relayers|,
      if d.relayers == [] then 0 else d.relayers[0].messages.TotalMessages(),
      d.TotalUnrewarded(),
      d.LastDelivered())
  }

  datatype Message = Message(nonce: nat, payload: Payload)
  datatype MessageKey = MessageKey(lane: LaneId, nonce: nat)

  /** Per-lane limits that the bridged chain configures. */
  datatype Limits = Limits(maxRelayerEntries: nat, maxUnconfirmed: nat)

  /** The storage maps of the messages pallet on one chain, for all lanes. `dispatched` logs the
      calls made to the message dispatcher. */
  class ChainStorage {
    var inboundLanes: map<LaneId, InboundLaneData>
    var outboundLanes: map<LaneId, OutboundLaneData>
    var outboundMessages: map<MessageKey, Payload>
    var dispatched: seq<(LaneId, Message)>

    constructor ()
      ensures inboundLanes == map[] && outboundLanes == map[] && outboundMessages == map[] && dispatched == []
    {
      inboundLanes, outboundLanes, outboundMessages, dispatched := map[], map[], map[], [];
    }
  }
}
