/** The pallet calls of two chains, executed on their storage, take exactly the steps of the lane
    protocol, so that everything proved of runs holds of the stored lanes. */
module Bridge {
  import opened Prelude
  import opened LaneTypes
  import opened OutboundLanes
  import opened MessagesPallet
  import opened LaneProtocol
  import opened RelayerRewards

  /** `view` is the part of the queued messages that belongs to one lane. */
  ghost predicate IsLaneView(messages: map<MessageKey, Payload>, lane: LaneId, view: map<nat, Payload>) {
    && (forall n :: n in view <==> MessageKey(lane, n) in messages)
    && (forall n | n in view :: view[n] == messages[MessageKey(lane, n)])
  }

  /** The storage maps of both chains hold what `s` says about `lane`. */
  ghost predicate StoredAs(outbound: map<LaneId, OutboundLaneData>, messages: map<MessageKey, Payload>,
                           inbound: map<LaneId, InboundLaneData>, lane: LaneId, s: System)
  {
    && lane in outbound && outbound[lane] == s.source.lane
    && IsLaneView(messages, lane, s.source.messages)
    && lane in inbound && inbound[lane] == s.target
  }

  /** Nothing but the entry of `lane` differs. */
  ghost predicate SameElsewhere<V>(lane: LaneId, before: map<LaneId, V>, after: map<LaneId, V>) {
    forall l | l != lane :: (l in after <==> l in before) && (l in before && l in after ==> after[l] == before[l])
  }

  ghost predicate SameMessagesElsewhere(lane: LaneId, before: map<MessageKey, Payload>, after: map<MessageKey, Payload>) {
    forall k: MessageKey | k.lane != lane :: (k in after <==> k in before) && (k in before && k in after ==> after[k] == before[k])
  }

  /** What happens on one lane leaves the state of every other lane alone. */
  lemma StoredElsewhere(lane: LaneId, other: LaneId, s: System,
                        outbound: map<LaneId, OutboundLaneData>, messages: map<MessageKey, Payload>, inbound: map<LaneId, InboundLaneData>,
                        outbound': map<LaneId, OutboundLaneData>, messages': map<MessageKey, Payload>, inbound': map<LaneId, InboundLaneData>)
    requires other != lane && StoredAs(outbound, messages, inbound, other, s)
    requires SameElsewhere(lane, outbound, outbound') && SameElsewhere(lane, inbound, inbound')
    requires SameMessagesElsewhere(lane, messages, messages')
    ensures StoredAs(outbound', messages', inbound', other, s)
  {
  }

  /** The messages that were dispatched on one lane. */
  function OnLane(log: seq<(LaneId, Message)>, lane: LaneId): seq<Message> {
    if log == [] then []
    else OnLane(log[..|log| - 1], lane) + (if log[|log| - 1].0 == lane then [log[|log| - 1].1] else [])
  }

  lemma {:induction false} OnLaneTagged(log: seq<(LaneId, Message)>, tag: LaneId, messages: seq<Message>, lane: LaneId)
    ensures OnLane(log + Tagged(tag, messages), lane) == OnLane(log, lane) + (if tag == lane then messages else [])
  {
    if messages == [] {
      assert log + Tagged(tag, messages) == log;
    } else {
      var front, m := messages[..|messages| - 1], messages[|messages| - 1];
      OnLaneTagged(log, tag, front, lane);
      var longer := log + Tagged(tag, messages);
      assert longer[..|longer| - 1] == log + Tagged(tag, front);
      assert messages == front + [m];
    }
  }

  /** What a delivery on one lane logs does not show on another. */
  lemma LogElsewhere(log: seq<(LaneId, Message)>, lane: LaneId, r: Result<Delivery, Error>, other: LaneId)
    requires other != lane
    ensures OnLane(log + (if r.Ok? then Tagged(lane, r.value.dispatched) else []), other) == OnLane(log, other)
  {
    if r.Ok? {
      OnLaneTagged(log, lane, r.value.dispatched, other);
    } else {
      assert log + [] == log;
    }
  }

  lemma SendRefines(limits: Limits, outbound: map<LaneId, OutboundLaneData>, outbound': map<LaneId, OutboundLaneData>,
                    messages: map<MessageKey, Payload>, messages': map<MessageKey, Payload>,
                    inbound: map<LaneId, InboundLaneData>, lane: LaneId, s: System, payload: Payload)
    requires StoredAs(outbound, messages, inbound, lane, s) && s.source.lane.latestGenerated < NONCE_MAX
    requires lane in outbound' && outbound'[lane] == Sent(outbound[lane])
    requires messages' == messages[MessageKey(lane, outbound'[lane].latestGenerated) := payload]
    ensures StoredAs(outbound', messages', inbound, lane, Apply(limits, s, Step.Send(payload)))
  {
  }

  lemma ConfirmRefines(outbound: map<LaneId, OutboundLaneData>, messages: map<MessageKey, Payload>, pruned: map<MessageKey, Payload>,
                       inbound: map<LaneId, InboundLaneData>, lane: LaneId, s: System, queue: seq<UnrewardedRelayer>, range: DeliveredMessages)
    requires StoredAs(outbound, messages, inbound, lane, s)
    requires forall k :: k in pruned <==> k in messages && !(k.lane == lane && range.begin <= k.nonce <= range.end)
    requires forall k | k in pruned :: pruned[k] == messages[k]
    ensures StoredAs(outbound[lane := Confirmed(outbound[lane], range.end)], pruned, inbound, lane, AfterConfirmation(s, queue, range))
  {
  }

  lemma RunIsCurrent(limits: Limits, steps: seq<Step>)
    requires |Run(limits, steps).sent| < NONCE_MAX
    ensures Run(limits, steps).source.lane.latestGenerated == |Run(limits, steps).sent|
    ensures Run(limits, steps).target.state == Opened
  {
    RunKeeps(limits, steps);
  }

  lemma RunSnoc(limits: Limits, steps: seq<Step>, step: Step)
    ensures Run(limits, steps + [step]) == Apply(limits, Run(limits, steps), step)
  {
    assert (steps + [step])[..|steps|] == steps;
  }

  const MAX_MESSAGES_ITERATION: nat := 16

  /** The stored messages among the last seventeen nonces that should have been pruned. */
  method UnprunedNonces(storage: ChainStorage, lane: LaneId) returns (unpruned: seq<nat>)
    requires lane in storage.outboundLanes
    ensures var oldest := storage.outboundLanes[lane].oldestUnpruned;
            forall n: nat :: n in unpruned <==>
              SaturatingSub(oldest, MAX_MESSAGES_ITERATION + 1) <= n < oldest && MessageKey(lane, n) in storage.outboundMessages
  {
    unpruned := [];
    var oldest := storage.outboundLanes[lane].oldestUnpruned;
    if oldest == 0 {
      return;
    }
    var start := SaturatingSub(oldest - 1, MAX_MESSAGES_ITERATION);
    var current := start;
    while current <= oldest - 1
      invariant start <= current <= oldest
      invariant forall n: nat :: n in unpruned <==>
                  start <= n < current && MessageKey(lane, n) in storage.outboundMessages
    {
      if MessageKey(lane, current) in storage.outboundMessages {
        unpruned := unpruned + [current];
      }
      current := current + 1;
    }
  }

  /** A message that should be gone is still stored, among the last seventeen such nonces. */
  ghost predicate HasLeftover(storage: ChainStorage, lane: LaneId)
    requires lane in storage.outboundLanes
    reads storage
  {
    var oldest := storage.outboundLanes[lane].oldestUnpruned;
    exists n: nat :: SaturatingSub(oldest, MAX_MESSAGES_ITERATION + 1) <= n < oldest && MessageKey(lane, n) in storage.outboundMessages
  }

  /** The storage check over all outbound lanes: exactly those with a leftover message are found. */
  method UnprunedLanes(storage: ChainStorage) returns (found: set<LaneId>)
    ensures forall l :: l in found <==> l in storage.outboundLanes && HasLeftover(storage, l)
  {
    found := {};
    var left := storage.outboundLanes.Keys;
    while left != {}
      invariant left <= storage.outboundLanes.Keys
      invariant forall l :: l in found <==> l in storage.outboundLanes && l !in left && HasLeftover(storage, l)
      decreases left
    {
      var l :| l in left;
      var unpruned := UnprunedNonces(storage, l);
      EmptyOrHasMember(unpruned);
      assert HasLeftover(storage, l) <==> unpruned != [];
      if unpruned != [] {
        found := found + {l};
      }
      left := left - {l};
    }
  }

  class TwoChains {
    const source: ChainStorage
    const target: ChainStorage
    const lane: LaneId
    const limits: Limits
    ghost var steps: seq<Step>

    /** The protocol state after the steps taken so far. */
    ghost function System(): System
      reads this
    {
      Run(limits, steps)
    }

    ghost predicate Valid()
      reads this, source, target
    {
      && source != target
      && StoredAs(source.outboundLanes, source.outboundMessages, target.inboundLanes, lane, System())
      && OnLane(target.dispatched, lane) == System().dispatched
      && |System().sent| < NONCE_MAX
    }

    /** Both ends of a freshly opened lane. */
    constructor (source: ChainStorage, target: ChainStorage, lane: LaneId, limits: Limits)
      requires source != target
      requires lane in source.outboundLanes && source.outboundLanes[lane] == OPENED_OUTBOUND
      requires forall k | k in source.outboundMessages :: k.lane != lane
      requires lane in target.inboundLanes && target.inboundLanes[lane] == OPENED_INBOUND
      requires OnLane(target.dispatched, lane) == []
      ensures this.source == source && this.target == target && this.lane == lane && this.limits == limits
      ensures Valid() && steps == []
    {
      this.source, this.target, this.lane, this.limits := source, target, lane, limits;
      steps := [];
    }

    method Send(payload: Payload) returns (nonce: nat)
      requires Valid() && |System().sent| + 1 < NONCE_MAX
      modifies this`steps, source`outboundLanes, source`outboundMessages
      ensures Valid() && steps == old(steps) + [Step.Send(payload)] && nonce == |System().sent|
      ensures SameElsewhere(lane, old(source.outboundLanes), source.outboundLanes)
      ensures SameMessagesElsewhere(lane, old(source.outboundMessages), source.outboundMessages)
    {
      ghost var s, step := System(), Step.Send(payload);
      RunIsCurrent(limits, steps);
      ghost var lanes, messages := source.outboundLanes, source.outboundMessages;
      var outbound := new OutboundLane(source, lane);
      nonce := outbound.SendMessage(payload);
      SendRefines(limits, lanes, source.outboundLanes, messages, source.outboundMessages, target.inboundLanes, lane, s, payload);
      RunSnoc(limits, steps, step);
      steps := steps + [step];
    }

    /** The proof is built from the `snapshot`-th state of the sending lane. */
    method Deliver(relayer: Relayer, ghost snapshot: nat, proof: MessagesProof, count: nat, budget: Weight, declared: Weight, rt: Runtime)
      returns (r: Result<Delivery, Error>)
      requires Valid() && rt.limits == limits
      requires snapshot < |System().sources| && proof.state == System().sources[snapshot]
      modifies this`steps, target`inboundLanes, target`dispatched
      ensures Valid() && steps == old(steps) + [Step.Deliver(relayer, snapshot, proof, count, budget, declared, rt)]
      ensures r == SnapshotOutcome(limits, old(System()), steps[|steps| - 1])
      ensures target.dispatched == old(target.dispatched) + (if r.Ok? then Tagged(lane, r.value.dispatched) else [])
      ensures SameElsewhere(lane, old(target.inboundLanes), target.inboundLanes)
    {
      ghost var s, step := System(), Step.Deliver(relayer, snapshot, proof, count, budget, declared, rt);
      RunIsCurrent(limits, steps);
      r := ReceiveMessagesProof(target, rt, true, lane, relayer, proof, count, budget, declared);
      assert r == SnapshotOutcome(limits, s, step);
      if r.Ok? {
        OnLaneTagged(old(target.dispatched), lane, r.value.dispatched, lane);
      }
      assert StoredAs(source.outboundLanes, source.outboundMessages, target.inboundLanes, lane, Apply(limits, s, step));
      RunSnoc(limits, steps, step);
      steps := steps + [step];
    }

    /** The proof opens the `snapshot`-th state of the receiving lane. */
    method Confirm(ghost snapshot: nat, proved: InboundLaneData, relayersState: UnrewardedRelayersState)
      returns (r: Result<Option<DeliveredMessages>, Error>, rewards: map<Relayer, nat>)
      requires Valid()
      requires snapshot < |System().targets| && proved == System().targets[snapshot]
      modifies this`steps, source`outboundLanes, source`outboundMessages
      ensures Valid() && steps == old(steps) + [Step.Confirm(snapshot, relayersState)]
      ensures relayersState == RelayersStateOf(proved) ==> r.Ok?
      ensures forall x :: Paid(System().payouts, x) == Paid(old(System()).payouts, x) + RewardOf(rewards, x)
      ensures SameElsewhere(lane, old(source.outboundLanes), source.outboundLanes)
      ensures SameMessagesElsewhere(lane, old(source.outboundMessages), source.outboundMessages)
    {
      ghost var s, step := System(), Step.Confirm(snapshot, relayersState);
      ghost var lanes, messages := source.outboundLanes, source.outboundMessages;
      r, rewards := ReceiveMessagesDeliveryProof(source, lane, Some(proved), relayersState);
      assert relayersState == RelayersStateOf(proved) ==> ConfirmSnapshot(s, step).Ok? by {
        if relayersState == RelayersStateOf(proved) { HonestConfirmationAccepted(limits, steps, step); }
      }
      if r.Ok? && r.value.Some? {
        ConfirmRefines(lanes, messages, source.outboundMessages, target.inboundLanes, lane, s, proved.relayers, r.value.value);
      }
      assert StoredAs(source.outboundLanes, source.outboundMessages, target.inboundLanes, lane, Apply(limits, s, step));
      assert forall x :: Paid(Apply(limits, s, step).payouts, x) == Paid(s.payouts, x) + RewardOf(rewards, x) by {
        if r.Ok? && r.value.Some? { assert (s.payouts + [(proved.relayers, r.value.value)])[..|s.payouts|] == s.payouts; }
      }
      RunSnoc(limits, steps, step);
      steps := steps + [step];
    }

    /** The storage check never finds this lane. */
    method TryState() returns (found: set<LaneId>)
      requires Valid()
      ensures forall l :: l in found <==> l in source.outboundLanes && HasLeftover(source, l)
      ensures lane !in found
    {
      StorageIsExact(limits, steps);
      found := UnprunedLanes(source);
    }
  }

  /** Any number of lanes between the same two chains. */
  class Lanes {
    const source: ChainStorage
    const target: ChainStorage
    const links: map<LaneId, TwoChains>

    ghost predicate Valid()
      reads this, source, target, links.Values
    {
      forall l | l in links :: links[l].lane == l && links[l].source == source && links[l].target == target && links[l].Valid()
    }

    constructor (source: ChainStorage, target: ChainStorage, links: map<LaneId, TwoChains>)
      requires forall l | l in links :: links[l].lane == l && links[l].source == source && links[l].target == target && links[l].Valid()
      ensures Valid() && this.source == source && this.target == target && this.links == links
    {
      this.source, this.target, this.links := source, target, links;
    }

    function Link(lane: LaneId): TwoChains
      requires lane in links
    {
      links[lane]
    }

    /** The other lanes keep their run, their storage and their dispatch log. */
    method Send(lane: LaneId, payload: Payload) returns (nonce: nat)
      requires Valid() && lane in links && |Link(lane).System().sent| + 1 < NONCE_MAX
      modifies Link(lane)`steps, source`outboundLanes, source`outboundMessages
      ensures Valid() && Link(lane).steps == old(Link(lane).steps) + [Step.Send(payload)] && nonce == |Link(lane).System().sent|
      ensures forall l | l in links && l != lane :: links[l].steps == old(links[l].steps)
    {
      ghost var lanes, messages := source.outboundLanes, source.outboundMessages;
      nonce := Link(lane).Send(payload);
      forall l | l in links && l != lane
        ensures links[l].Valid()
      {
        StoredElsewhere(lane, l, links[l].System(), lanes, messages, target.inboundLanes,
                        source.outboundLanes, source.outboundMessages, target.inboundLanes);
      }
    }

    method Deliver(lane: LaneId, relayer: Relayer, ghost snapshot: nat, proof: MessagesProof, count: nat, budget: Weight, declared: Weight, rt: Runtime)
      returns (r: Result<Delivery, Error>)
      requires Valid() && lane in links && rt.limits == Link(lane).limits
      requires snapshot < |Link(lane).System().sources| && proof.state == Link(lane).System().sources[snapshot]
      modifies Link(lane)`steps, target`inboundLanes, target`dispatched
      ensures Valid() && Link(lane).steps == old(Link(lane).steps) + [Step.Deliver(relayer, snapshot, proof, count, budget, declared, rt)]
      ensures forall l | l in links && l != lane :: links[l].steps == old(links[l].steps)
    {
      ghost var inbound, log := target.inboundLanes, target.dispatched;
      r := Link(lane).Deliver(relayer, snapshot, proof, count, budget, declared, rt);
      forall l | l in links && l != lane
        ensures links[l].Valid()
      {
        StoredElsewhere(lane, l, links[l].System(), source.outboundLanes, source.outboundMessages, inbound,
                        source.outboundLanes, source.outboundMessages, target.inboundLanes);
        LogElsewhere(log, lane, r, l);
      }
    }

    method Confirm(lane: LaneId, ghost snapshot: nat, proved: InboundLaneData, relayersState: UnrewardedRelayersState)
      returns (r: Result<Option<DeliveredMessages>, Error>, rewards: map<Relayer, nat>)
      requires Valid() && lane in links
      requires snapshot < |Link(lane).System().targets| && proved == Link(lane).System().targets[snapshot]
      modifies Link(lane)`steps, source`outboundLanes, source`outboundMessages
      ensures Valid() && Link(lane).steps == old(Link(lane).steps) + [Step.Confirm(snapshot, relayersState)]
      ensures relayersState == RelayersStateOf(proved) ==> r.Ok?
      ensures forall l | l in links && l != lane :: links[l].steps == old(links[l].steps)
    {
      ghost var lanes, messages := source.outboundLanes, source.outboundMessages;
      r, rewards := Link(lane).Confirm(snapshot, proved, relayersState);
      forall l | l in links && l != lane
        ensures links[l].Valid()
      {
        StoredElsewhere(lane, l, links[l].System(), lanes, messages, target.inboundLanes,
                        source.outboundLanes, source.outboundMessages, target.inboundLanes);
      }
    }
  }
}
