/** The calls of the messages pallet: receiving a batch of proved messages under a weight budget,
    and receiving a delivery proof that settles messages and pays relayers. */
module MessagesPallet {
  import opened Prelude
  import opened LaneTypes
  import opened RelayerQueue
  import opened InboundLanes
  import opened OutboundLanes
  import RelayerRewards

  datatype VerificationError =
    HeaderChain | MessagesCountMismatch | MessageStorage | OutboundLaneStorage | EmptyMessageProof | StorageProof

  datatype Error =
    | TooManyMessagesInTheProof
    | InvalidMessagesProof
    | LanesManager(inner: LanesManagerError)
    | InsufficientDispatchWeight
    | InvalidMessagesDeliveryProof
    | InvalidUnrewardedRelayersState
    | UnknownOutboundLane
    | ReceptionConfirmation(reason: ReceptionConfirmationError)

  /** One lane of the sending chain, as a state that the chain really had. */
  datatype SourceState = SourceState(lane: OutboundLaneData, messages: map<nat, Payload>)

  /** A storage proof: which keys of `state` it opens, and whether the value of the lane key decodes. */
  datatype MessagesProof = MessagesProof(
    noncesStart: nat, noncesEnd: nat, headerImported: bool, messageKeys: set<nat>,
    opensLaneData: bool, laneDataDecodes: bool, state: SourceState)

  datatype ProvedMessages = ProvedMessages(laneState: Option<OutboundLaneData>, messages: seq<Message>)

  predicate OpensAllMessages(p: MessagesProof) {
    forall n | p.noncesStart <= n <= p.noncesEnd :: n in p.messageKeys && n in p.state.messages
  }

  function OpenedMessages(p: MessagesProof): seq<Message>
    requires OpensAllMessages(p)
  {
    seq(Max(0, p.noncesEnd - p.noncesStart + 1), i requires 0 <= i < Max(0, p.noncesEnd - p.noncesStart + 1) =>
      Message(p.noncesStart + i, p.state.messages[p.noncesStart + i]))
  }

  /** What a proof yields: exactly the stored payloads of the declared nonce range. */
  function Verified(p: MessagesProof, count: nat): Result<ProvedMessages, VerificationError> {
    if !p.headerImported then Err(HeaderChain)
    else if SaturatingLen(p.noncesStart, p.noncesEnd) != count then Err(MessagesCountMismatch)
    else if !OpensAllMessages(p) then Err(MessageStorage)
    else if p.opensLaneData && !p.laneDataDecodes then Err(OutboundLaneStorage)
    else if !p.opensLaneData && p.noncesEnd < p.noncesStart then Err(EmptyMessageProof)
    else if exists n | n in p.messageKeys :: !(p.noncesStart <= n <= p.noncesEnd) then Err(StorageProof)
    else Ok(ProvedMessages(if p.opensLaneData then Some(p.state.lane) else None, OpenedMessages(p)))
  }

  method VerifyMessagesProof(p: MessagesProof, count: nat) returns (r: Result<ProvedMessages, VerificationError>)
    ensures r == Verified(p, count)
  {
    if !p.headerImported { return Err(HeaderChain); }
    if SaturatingLen(p.noncesStart, p.noncesEnd) != count { return Err(MessagesCountMismatch); }
    var messages: seq<Message> := [];
    var untouched := p.messageKeys;
    var nonce := p.noncesStart;
    while nonce <= p.noncesEnd
      invariant p.noncesStart <= nonce <= Max(p.noncesStart, p.noncesEnd + 1)
      invariant forall n | p.noncesStart <= n < nonce :: n in p.messageKeys && n in p.state.messages
      invariant |messages| == nonce - p.noncesStart
      invariant forall i | 0 <= i < |messages| :: messages[i] == Message(p.noncesStart + i, p.state.messages[p.noncesStart + i])
      invariant forall n :: n in untouched <==> n in p.messageKeys && !(p.noncesStart <= n < nonce)
    {
      if nonce !in p.messageKeys || nonce !in p.state.messages {
        assert !OpensAllMessages(p);
        return Err(MessageStorage);
      }
      messages := messages + [Message(nonce, p.state.messages[nonce])];
      untouched := untouched - {nonce};
      nonce := nonce + 1;
    }
    assert OpensAllMessages(p) && messages == OpenedMessages(p);
    if p.opensLaneData && !p.laneDataDecodes { return Err(OutboundLaneStorage); }
    var laneState := if p.opensLaneData then Some(p.state.lane) else None;
    if laneState == None && messages == [] { return Err(EmptyMessageProof); }
    if untouched != {} {
      var n :| n in untouched;
      assert n in p.messageKeys && !(p.noncesStart <= n <= p.noncesEnd);
      return Err(StorageProof);
    }
    assert forall n | n in p.messageKeys :: n !in untouched;
    return Ok(ProvedMessages(laneState, messages));
  }

  /** The message dispatcher as seen by the pallet: an upper bound for the weight of a message and
      what is left of it after dispatch. `sizeHint` is the encoded size of a relayer queue. */
  datatype Runtime = Runtime(
    limits: Limits, weigh: Message -> Weight, unspent: Message -> Weight, sizeHint: nat -> nat)

  datatype Delivery = Delivery(
    data: InboundLaneData, left: Weight, actual: Weight, dispatched: seq<Message>)

  /** One round of the delivery loop; `None` is a failed call. */
  function DeliverOne(rt: Runtime, relayer: Relayer, s: Delivery, m: Message): Option<Delivery> {
    var w := rt.weigh(m);
    if w.AnyGt(s.left) then None
    else
      var result := Verdict(rt.limits, s.data, m.nonce, rt.unspent(m));
      var refund := if result.Dispatched? then result.unspent.Least(w) else w;
      Some(Delivery(
             Received(rt.limits, s.data, relayer, m.nonce),
             s.left.Minus(w.Minus(refund)),
             s.actual.SaturatingMinus(refund),
             if result.Dispatched? then s.dispatched + [m] else s.dispatched))
  }

  function DeliverAll(rt: Runtime, relayer: Relayer, s: Delivery, messages: seq<Message>): Option<Delivery>
    decreases |messages|
  {
    if messages == [] then Some(s)
    else match DeliverOne(rt, relayer, s, messages[0])
         case None => None
         case Some(s') => DeliverAll(rt, relayer, s', messages[1..])
  }

  /** Declared weight, less the proof bytes that the actual queue does not need. */
  function ActualBase(rt: Runtime, declared: Weight, d: InboundLaneData): Weight {
    var extra := SaturatingSub(rt.sizeHint(rt.limits.maxRelayerEntries), rt.sizeHint(|d.relayers|));
    declared.(proofSize := SaturatingSub(declared.proofSize, extra))
  }

  function AfterStateUpdate(d: InboundLaneData, proved: ProvedMessages): InboundLaneData {
    match proved.laneState
    case None => d
    case Some(outbound) => StateUpdated(d, outbound.latestReceived)
  }

  /** The whole delivery call on the data of an active lane. */
  function DeliveryOutcome(rt: Runtime, d: InboundLaneData, relayer: Relayer, p: MessagesProof, count: nat, budget: Weight, declared: Weight)
    : Result<Delivery, Error>
  {
    if count > rt.limits.maxUnconfirmed then Err(TooManyMessagesInTheProof)
    else match Verified(p, count)
         case Err(_) => Err(InvalidMessagesProof)
         case Ok(proved) =>
           match DeliverAll(rt, relayer, Delivery(AfterStateUpdate(d, proved), budget, ActualBase(rt, declared, d), []), proved.messages)
           case None => Err(InsufficientDispatchWeight)
           case Some(s) => Ok(s)
  }

  function Tagged(lane: LaneId, messages: seq<Message>): seq<(LaneId, Message)> {
    seq(|messages|, i requires 0 <= i < |messages| => (lane, messages[i]))
  }

  /** The body of the delivery loop: weigh the message, receive it, settle its weight. */
  method DeliverMessage(lane: InboundLane, rt: Runtime, relayer: Relayer, m: Message, s: Delivery) returns (r: Option<Delivery>)
    requires lane.Valid() && lane.cachedData == s.data
    modifies lane`cachedData, lane.storage`inboundLanes, lane.storage`dispatched
    ensures lane.Valid() && r == DeliverOne(rt, relayer, s, m)
    ensures r.Some? ==> lane.cachedData == r.value.data
    ensures r.Some? ==> lane.storage.inboundLanes == old(lane.storage.inboundLanes)[lane.laneId := r.value.data]
    ensures r.Some? ==> lane.storage.dispatched == old(lane.storage.dispatched) + Tagged(lane.laneId, r.value.dispatched[|s.dispatched|..])
  {
    var w := rt.weigh(m);
    if w.AnyGt(s.left) { return None; }
    var result := lane.ReceiveMessage(rt.limits, relayer, m, rt.unspent(m));
    var unspent := w;
    var dispatched := s.dispatched;
    if result.Dispatched? {
      unspent := result.unspent;
      dispatched := dispatched + [m];
      assert dispatched[|s.dispatched|..] == [m];
    }
    unspent := unspent.Least(w);
    assert Tagged(lane.laneId, dispatched[|s.dispatched|..]) == if result.Dispatched? then [(lane.laneId, m)] else [];
    return Some(Delivery(lane.cachedData, s.left.Minus(w.Minus(unspent)), s.actual.SaturatingMinus(unspent), dispatched));
  }

  lemma TaggedConcat(log: seq<(LaneId, Message)>, lane: LaneId, a: seq<Message>, b: seq<Message>)
    requires a <= b
    ensures (log + Tagged(lane, a)) + Tagged(lane, b[|a|..]) == log + Tagged(lane, b)
  {
    assert Tagged(lane, a) + Tagged(lane, b[|a|..]) == Tagged(lane, b);
  }

  lemma DeliverOneExtends(rt: Runtime, relayer: Relayer, s: Delivery, m: Message)
    requires DeliverOne(rt, relayer, s, m).Some?
    ensures s.dispatched <= DeliverOne(rt, relayer, s, m).value.dispatched
  {
  }

  lemma OverwrittenTwice<K, V>(m: map<K, V>, k: K, v: V, w: V)
    ensures m[k := v][k := w] == m[k := w]
  {
  }

  lemma DeliverAllStep(rt: Runtime, relayer: Relayer, s: Delivery, messages: seq<Message>, i: nat)
    requires i < |messages|
    ensures DeliverAll(rt, relayer, s, messages[i..]) ==
            match DeliverOne(rt, relayer, s, messages[i])
            case None => None
            case Some(s') => DeliverAll(rt, relayer, s', messages[i + 1..])
  {
    assert messages[i..][1..] == messages[i + 1..];
  }

  /** The delivery loop; `None` is a failed call, whose writes the caller drops. */
  method DeliverMessages(lane: InboundLane, rt: Runtime, relayer: Relayer, messages: seq<Message>, start: Delivery) returns (r: Option<Delivery>)
    requires lane.Valid() && lane.cachedData == start.data && start.dispatched == []
    modifies lane`cachedData, lane.storage`inboundLanes, lane.storage`dispatched
    ensures r == DeliverAll(rt, relayer, start, messages)
    ensures r.Some? ==> lane.storage.inboundLanes == old(lane.storage.inboundLanes)[lane.laneId := r.value.data]
    ensures r.Some? ==> lane.storage.dispatched == old(lane.storage.dispatched) + Tagged(lane.laneId, r.value.dispatched)
  {
    var s := start;
    assert lane.storage.inboundLanes == lane.storage.inboundLanes[lane.laneId := s.data];
    for i := 0 to |messages|
      invariant lane.Valid() && lane.cachedData == s.data
      invariant DeliverAll(rt, relayer, s, messages[i..]) == DeliverAll(rt, relayer, start, messages)
      invariant lane.storage.inboundLanes == old(lane.storage.inboundLanes)[lane.laneId := s.data]
      invariant lane.storage.dispatched == old(lane.storage.dispatched) + Tagged(lane.laneId, s.dispatched)
    {
      DeliverAllStep(rt, relayer, s, messages, i);
      var next := DeliverMessage(lane, rt, relayer, messages[i], s);
      if next.None? { return None; }
      DeliverOneExtends(rt, relayer, s, messages[i]);
      TaggedConcat(old(lane.storage.dispatched), lane.laneId, s.dispatched, next.value.dispatched);
      OverwrittenTwice(old(lane.storage.inboundLanes), lane.laneId, s.data, next.value.data);
      s := next.value;
    }
    return Some(s);
  }

  /** `receive_messages_proof`. A failed call leaves no trace: the storage layer drops its writes. */
  method ReceiveMessagesProof(chain: ChainStorage, rt: Runtime, dispatcherActive: bool, laneId: LaneId, relayer: Relayer,
                              proof: MessagesProof, count: nat, budget: Weight, declared: Weight)
    returns (r: Result<Delivery, Error>)
    modifies chain`inboundLanes, chain`dispatched
    ensures r.Ok? ==> laneId in old(chain.inboundLanes) && old(chain.inboundLanes)[laneId].state == Opened && dispatcherActive
    ensures laneId in old(chain.inboundLanes) && old(chain.inboundLanes)[laneId].state == Opened && dispatcherActive ==>
              r == DeliveryOutcome(rt, old(chain.inboundLanes)[laneId], relayer, proof, count, budget, declared)
    ensures laneId !in old(chain.inboundLanes) || old(chain.inboundLanes)[laneId].state != Opened || !dispatcherActive ==>
              r == Err(if count > rt.limits.maxUnconfirmed then TooManyMessagesInTheProof
                       else if Verified(proof, count).Err? then InvalidMessagesProof
                       else if laneId !in old(chain.inboundLanes) then LanesManager(UnknownInboundLane)
                       else if old(chain.inboundLanes)[laneId].state != Opened then LanesManager(ClosedInboundLane)
                       else LanesManager(LaneDispatcherInactive))
    ensures r.Err? ==> chain.inboundLanes == old(chain.inboundLanes) && chain.dispatched == old(chain.dispatched)
    ensures r.Ok? ==> chain.inboundLanes == old(chain.inboundLanes)[laneId := r.value.data]
    ensures r.Ok? ==> chain.dispatched == old(chain.dispatched) + Tagged(laneId, r.value.dispatched)
  {
    if count > rt.limits.maxUnconfirmed { return Err(TooManyMessagesInTheProof); }
    var verified := VerifyMessagesProof(proof, count);
    if verified.Err? { return Err(InvalidMessagesProof); }
    var proved := verified.value;
    var active := InboundLane.Active(chain, laneId, dispatcherActive);
    if active.Err? { return Err(LanesManager(active.error)); }
    var lane := active.value;
    var committedLanes, committedLog := chain.inboundLanes, chain.dispatched;
    var actual := ActualBase(rt, declared, lane.cachedData);
    if proved.laneState.Some? {
      var _ := lane.ReceiveStateUpdate(proved.laneState.value);
    }
    var delivered := DeliverMessages(lane, rt, relayer, proved.messages, Delivery(lane.cachedData, budget, actual, []));
    if delivered.None? {
      chain.inboundLanes, chain.dispatched := committedLanes, committedLog;
      return Err(InsufficientDispatchWeight);
    }
    return Ok(delivered.value);
  }

  /** How many consecutive messages from one relayer still fit. */
  function Room(limits: Limits, d: InboundLaneData, relayer: Relayer): nat {
    var unconfirmed := SaturatingSub(d.lastConfirmed + limits.maxUnconfirmed, d.LastDelivered());
    var n := |d.relayers|;
    if n >= limits.maxRelayerEntries then 0
    else if (n > 0 && d.relayers[n - 1].relayer == relayer) || n + 1 < limits.maxRelayerEntries then unconfirmed
    else Min(1, unconfirmed)
  }

  /** How many of the nonces `start .. start + len - 1` get dispatched. */
  function Accepted(limits: Limits, d: InboundLaneData, relayer: Relayer, start: nat, len: nat): nat {
    if start <= d.LastDelivered() + 1 < start + len
    then Min(start + len - 1 - d.LastDelivered(), Room(limits, d, relayer)) else 0
  }

  ghost predicate Contiguous(messages: seq<Message>, start: nat) {
    forall i | 0 <= i < |messages| :: messages[i].nonce == start + i
  }

  function Repeat(r: Relayer, n: nat): seq<Relayer> {
    seq(n, _ => r)
  }

  /** A delivered message uses up one unit of room. */
  lemma RoomShrinks(limits: Limits, d: InboundLaneData, list: seq<Relayer>, relayer: Relayer, nonce: nat)
    requires Describes(d, list)
    ensures var ok := Verdict(limits, d, nonce, ZERO_WEIGHT).Dispatched?;
            && (ok <==> nonce == d.LastDelivered() + 1 <= NONCE_MAX && Room(limits, d, relayer) > 0)
            && (ok ==> Room(limits, Received(limits, d, relayer, nonce), relayer) == Room(limits, d, relayer) - 1)
  {
    LastDeliveredIs(d, list);
    ReceivedAppends(limits, d, list, relayer, nonce);
    if Verdict(limits, d, nonce, ZERO_WEIGHT).Dispatched? {
      LastDeliveredIs(Received(limits, d, relayer, nonce), list + [relayer]);
    }
  }

  /** What the first message of a bundle does to the number of messages that will be accepted. */
  lemma AcceptedSteps(limits: Limits, d: InboundLaneData, list: seq<Relayer>, relayer: Relayer, start: nat, len: nat)
    requires Describes(d, list)
    requires 0 < len && start + len <= NONCE_MAX + 1
    ensures var d1 := Received(limits, d, relayer, start);
            var k, k1 := Accepted(limits, d, relayer, start, len), Accepted(limits, d1, relayer, start + 1, len - 1);
            if Verdict(limits, d, start, ZERO_WEIGHT).Dispatched?
            then k1 == k - 1 && start == d.LastDelivered() + 1 && d1.LastDelivered() == start && Describes(d1, list + [relayer])
            else k1 == k && d1 == d && (k > 0 ==> start <= d.LastDelivered())
  {
    ReceivedAppends(limits, d, list, relayer, start);
    RoomShrinks(limits, d, list, relayer, start);
    LastDeliveredIs(d, list);
    if Verdict(limits, d, start, ZERO_WEIGHT).Dispatched? {
      LastDeliveredIs(Received(limits, d, relayer, start), list + [relayer]);
    }
  }

  lemma ContiguousTail(messages: seq<Message>, start: nat)
    requires Contiguous(messages, start) && messages != []
    ensures messages[0].nonce == start && Contiguous(messages[1..], start + 1)
  {
    assert forall i | 0 <= i < |messages[1..]| :: messages[1..][i] == messages[i + 1];
  }

  /** Closed form of a successful delivery loop: of the bundled nonces, those already delivered are
      skipped and then as many are dispatched as the limits leave room for. */
  lemma {:induction false} DeliveryClosedForm(rt: Runtime, relayer: Relayer, s: Delivery, list: seq<Relayer>, messages: seq<Message>, start: nat, s': Delivery)
    requires Describes(s.data, list)
    requires Contiguous(messages, start) && start + |messages| <= NONCE_MAX + 1
    requires DeliverAll(rt, relayer, s, messages) == Some(s')
    ensures |s'.dispatched| == |s.dispatched| + Accepted(rt.limits, s.data, relayer, start, |messages|)
    decreases |messages|
  {
    if messages != [] {
      ContiguousTail(messages, start);
      AcceptedSteps(rt.limits, s.data, list, relayer, start, |messages|);
      var s1 := DeliverOne(rt, relayer, s, messages[0]).value;
      DeliveryClosedForm(rt, relayer, s1, if Verdict(rt.limits, s.data, start, ZERO_WEIGHT).Dispatched? then list + [relayer] else list,
                         messages[1..], start + 1, s');
    }
  }

  /** Halfway through a delivery by `relayer` to lane data with `base` confirmed and `list`
      delivered: what was dispatched are messages of `pool`, their nonces continue the delivered ones
      one by one, all are credited to `relayer`, and both size limits hold. */
  ghost predicate Underway(limits: Limits, relayer: Relayer, base: nat, list: seq<Relayer>, pool: seq<Message>, s: Delivery) {
    && s.data.lastConfirmed == base
    && Describes(s.data, list + Repeat(relayer, |s.dispatched|))
    && |s.data.relayers| <= limits.maxRelayerEntries
    && |list| + |s.dispatched| <= limits.maxUnconfirmed
    && (forall i | 0 <= i < |s.dispatched| :: s.dispatched[i] in pool && s.dispatched[i].nonce == base + |list| + i + 1)
  }

  lemma UnderwayDispatched(limits: Limits, relayer: Relayer, base: nat, list: seq<Relayer>, pool: seq<Message>, s: Delivery, m: Message, s1: Delivery)
    requires Underway(limits, relayer, base, list, pool, s) && m in pool
    requires Verdict(limits, s.data, m.nonce, ZERO_WEIGHT).Dispatched?
    requires s1.data == Received(limits, s.data, relayer, m.nonce) && s1.dispatched == s.dispatched + [m]
    ensures Underway(limits, relayer, base, list, pool, s1)
  {
    var n := |s.dispatched|;
    var current := list + Repeat(relayer, n);
    ReceivedAppends(limits, s.data, current, relayer, m.nonce);
    ReceivedKeepsLimits(limits, s.data, current, relayer, m.nonce);
    assert current + [relayer] == list + Repeat(relayer, n + 1);
  }

  lemma UnderwayOne(rt: Runtime, relayer: Relayer, base: nat, list: seq<Relayer>, pool: seq<Message>, s: Delivery, m: Message)
    requires Underway(rt.limits, relayer, base, list, pool, s) && m in pool
    requires DeliverOne(rt, relayer, s, m).Some?
    ensures var s1 := DeliverOne(rt, relayer, s, m).value;
            Underway(rt.limits, relayer, base, list, pool, s1) && s1.data.state == s.data.state
  {
    if Verdict(rt.limits, s.data, m.nonce, ZERO_WEIGHT).Dispatched? {
      UnderwayDispatched(rt.limits, relayer, base, list, pool, s, m, DeliverOne(rt, relayer, s, m).value);
    }
  }

  /** The delivery loop keeps this up to its end. */
  lemma {:induction false} DeliveryUnderway(rt: Runtime, relayer: Relayer, base: nat, list: seq<Relayer>, pool: seq<Message>,
                                            s: Delivery, messages: seq<Message>, s': Delivery)
    requires Underway(rt.limits, relayer, base, list, pool, s)
    requires forall m | m in messages :: m in pool
    requires DeliverAll(rt, relayer, s, messages) == Some(s')
    ensures Underway(rt.limits, relayer, base, list, pool, s') && s'.data.state == s.data.state
    decreases |messages|
  {
    if messages != [] {
      UnderwayOne(rt, relayer, base, list, pool, s, messages[0]);
      DeliveryUnderway(rt, relayer, base, list, pool, DeliverOne(rt, relayer, s, messages[0]).value, messages[1..], s');
    }
  }

  /** A message of a contiguous bundle is found by its nonce. */
  lemma FoundByNonce(messages: seq<Message>, start: nat, m: Message)
    requires Contiguous(messages, start) && m in messages
    ensures StandsAt(messages, m.nonce - start, m)
  {
    var k :| 0 <= k < |messages| && messages[k] == m;
  }

  /** What a delivery has dispatched so far is a slice of a contiguous bundle. */
  lemma UnderwayIsSlice(limits: Limits, relayer: Relayer, base: nat, list: seq<Relayer>, messages: seq<Message>, s: Delivery, start: nat)
    requires Underway(limits, relayer, base, list, messages, s) && Contiguous(messages, start)
    ensures IsSlice(s.dispatched, messages, base + |list| + 1 - start)
  {
    var offset := base + |list| + 1 - start;
    forall i | 0 <= i < |s.dispatched|
      ensures StandsAt(messages, offset + i, s.dispatched[i])
    {
      FoundByNonce(messages, start, s.dispatched[i]);
    }
  }

  /** `part` stands in `messages` from `offset` on. */
  ghost predicate IsSlice(part: seq<Message>, messages: seq<Message>, offset: int) {
    forall i | 0 <= i < |part| :: StandsAt(messages, offset + i, part[i])
  }

  predicate StandsAt(messages: seq<Message>, k: int, m: Message) {
    0 <= k < |messages| && messages[k] == m
  }

  /** The whole closed form: the bundle from the first undelivered nonce on is dispatched as far as there is
      room, in order and unaltered, and the queue is the run-length form of the longer list of deliverers. */
  lemma DeliveryIsClosedForm(rt: Runtime, relayer: Relayer, s: Delivery, list: seq<Relayer>, messages: seq<Message>, start: nat, s': Delivery)
    requires Underway(rt.limits, relayer, s.data.lastConfirmed, list, messages, s) && s.dispatched == []
    requires Contiguous(messages, start) && start + |messages| <= NONCE_MAX + 1
    requires DeliverAll(rt, relayer, s, messages) == Some(s')
    ensures var n := Accepted(rt.limits, s.data, relayer, start, |messages|);
            && |s'.dispatched| == n
            && IsSlice(s'.dispatched, messages, s.data.LastDelivered() + 1 - start)
            && s'.data == s.data.(relayers := Encode(s.data.lastConfirmed, list + Repeat(relayer, n)))
  {
    assert list + Repeat(relayer, 0) == list;
    LastDeliveredIs(s.data, list);
    DeliveryClosedForm(rt, relayer, s, list, messages, start, s');
    DeliveryUnderway(rt, relayer, s.data.lastConfirmed, list, messages, s, messages, s');
    UnderwayIsSlice(rt.limits, relayer, s.data.lastConfirmed, list, messages, s', start);
  }

  /** Weight used by dispatching `messages`. */
  function Spent(rt: Runtime, messages: seq<Message>): Weight {
    if messages == [] then ZERO_WEIGHT
    else Spent(rt, messages[..|messages| - 1]).Plus(
           rt.weigh(messages[|messages| - 1]).Minus(rt.unspent(messages[|messages| - 1]).Least(rt.weigh(messages[|messages| - 1]))))
  }

  function TotalWeight(rt: Runtime, messages: seq<Message>): Weight {
    if messages == [] then ZERO_WEIGHT else rt.weigh(messages[0]).Plus(TotalWeight(rt, messages[1..]))
  }

  /** From `s` to `s'`: what was spent plus what is left is the budget in both components, and
      everything else that the messages were weighed at is refunded. */
  ghost predicate Accounted(rt: Runtime, s: Delivery, messages: seq<Message>, s': Delivery, refund: Weight) {
    && s.left.Plus(Spent(rt, s.dispatched)) == s'.left.Plus(Spent(rt, s'.dispatched))
    && refund.Plus(Spent(rt, s'.dispatched)) == TotalWeight(rt, messages).Plus(Spent(rt, s.dispatched))
    && s'.actual == s.actual.SaturatingMinus(refund)
  }

  lemma AccountedOne(rt: Runtime, relayer: Relayer, s: Delivery, m: Message) returns (refund: Weight)
    requires DeliverOne(rt, relayer, s, m).Some?
    ensures var s1 := DeliverOne(rt, relayer, s, m).value;
            && s.left.Plus(Spent(rt, s.dispatched)) == s1.left.Plus(Spent(rt, s1.dispatched))
            && refund.Plus(Spent(rt, s1.dispatched)) == rt.weigh(m).Plus(Spent(rt, s.dispatched))
            && s1.actual == s.actual.SaturatingMinus(refund)
  {
    var s1 := DeliverOne(rt, relayer, s, m).value;
    if Verdict(rt.limits, s.data, m.nonce, rt.unspent(m)).Dispatched? {
      refund := rt.unspent(m).Least(rt.weigh(m));
      assert s1.dispatched[..|s1.dispatched| - 1] == s.dispatched;
    } else {
      refund := rt.weigh(m);
    }
  }

  lemma SaturatingMinusTwice(w: Weight, a: Weight, b: Weight)
    ensures w.SaturatingMinus(a).SaturatingMinus(b) == w.SaturatingMinus(a.Plus(b))
  {
  }

  lemma {:induction false} WeightIsConserved(rt: Runtime, relayer: Relayer, s: Delivery, messages: seq<Message>) returns (refund: Weight)
    requires DeliverAll(rt, relayer, s, messages).Some?
    ensures Accounted(rt, s, messages, DeliverAll(rt, relayer, s, messages).value, refund)
    decreases |messages|
  {
    if messages == [] {
      refund := ZERO_WEIGHT;
    } else {
      var s1 := DeliverOne(rt, relayer, s, messages[0]).value;
      var refund0 := AccountedOne(rt, relayer, s, messages[0]);
      var refund1 := WeightIsConserved(rt, relayer, s1, messages[1..]);
      SaturatingMinusTwice(s.actual, refund0, refund1);
      refund := refund0.Plus(refund1);
    }
  }

  /** `receive_messages_delivery_proof`: `proved` is the receiving end's lane data that the proof
      opens. On success the confirmed range is settled and the returned rewards are paid. */
  method ReceiveMessagesDeliveryProof(chain: ChainStorage, laneId: LaneId, proved: Option<InboundLaneData>, relayersState: UnrewardedRelayersState)
    returns (r: Result<Option<DeliveredMessages>, Error>, rewards: map<Relayer, nat>)
    modifies chain`outboundLanes, chain`outboundMessages
    ensures r.Ok? ==> proved.Some? && relayersState == RelayersStateOf(proved.value) && laneId in old(chain.outboundLanes)
    ensures proved.None? ==> r == Err(InvalidMessagesDeliveryProof)
    ensures proved.Some? && relayersState != RelayersStateOf(proved.value) ==> r == Err(InvalidUnrewardedRelayersState)
    ensures proved.Some? && relayersState == RelayersStateOf(proved.value) && laneId !in old(chain.outboundLanes) ==>
              r == Err(UnknownOutboundLane)
    ensures proved.Some? && relayersState == RelayersStateOf(proved.value) && laneId in old(chain.outboundLanes) ==>
              match ConfirmOutcome(old(chain.outboundLanes)[laneId], relayersState.totalMessages, proved.value.LastDelivered(), proved.value.relayers)
              case Err(e) => r == Err(ReceptionConfirmation(e))
              case Ok(range) => r == Ok(range)
    ensures r.Err? ==> chain.outboundLanes == old(chain.outboundLanes) && chain.outboundMessages == old(chain.outboundMessages)
    ensures !(r.Ok? && r.value.Some?) ==> rewards == map[]
    ensures r == Ok(None) ==> chain.outboundLanes == old(chain.outboundLanes) && chain.outboundMessages == old(chain.outboundMessages)
    ensures r.Ok? && r.value.Some? ==>
              && chain.outboundLanes == old(chain.outboundLanes)[laneId := Confirmed(old(chain.outboundLanes)[laneId], r.value.value.end)]
              && (forall k :: k in chain.outboundMessages <==>
                    k in old(chain.outboundMessages) && !(k.lane == laneId && r.value.value.begin <= k.nonce <= r.value.value.end))
              && (forall k | k in chain.outboundMessages :: chain.outboundMessages[k] == old(chain.outboundMessages)[k])
              && (forall x :: RelayerRewards.RewardOf(rewards, x) ==
                    Min(NONCE_MAX, RelayerRewards.TotalReward(proved.value.relayers, r.value.value.begin, r.value.value.end, x)))
  {
    rewards := map[];
    if proved.None? { return Err(InvalidMessagesDeliveryProof), rewards; }
    if relayersState != RelayersStateOf(proved.value) { return Err(InvalidUnrewardedRelayersState), rewards; }
    if laneId !in chain.outboundLanes { return Err(UnknownOutboundLane), rewards; }
    var lane := new OutboundLane(chain, laneId);
    assert chain.outboundLanes == chain.outboundLanes[laneId := lane.cachedData];
    var confirmed := lane.ConfirmDelivery(relayersState.totalMessages, proved.value.LastDelivered(), proved.value.relayers);
    if confirmed.Err? {
      assert chain.outboundMessages == old(chain.outboundMessages);
      return Err(ReceptionConfirmation(confirmed.error)), rewards;
    }
    if confirmed.value.Some? {
      rewards := RelayerRewards.CalcRelayersRewards(proved.value.relayers, confirmed.value.value.begin, confirmed.value.value.end);
    } else {
      assert chain.outboundMessages == old(chain.outboundMessages);
    }
    return Ok(confirmed.value), rewards;
  }

  /** At the largest nonce, the same delivery proof is paid for twice. */
  method LastNonceIsPaidTwice(chain: ChainStorage, laneId: LaneId, relayer: Relayer)
    returns (first: map<Relayer, nat>, second: map<Relayer, nat>)
    requires laneId in chain.outboundLanes
    requires chain.outboundLanes[laneId] == OutboundLaneData(NONCE_MAX, NONCE_MAX - 1, NONCE_MAX, Opened)
    modifies chain`outboundLanes, chain`outboundMessages
    ensures RelayerRewards.RewardOf(first, relayer) == 1 && RelayerRewards.RewardOf(second, relayer) == 1
  {
    LastNonceIsConfirmedTwice(relayer);
    var last := DeliveredMessages(NONCE_MAX, NONCE_MAX);
    var proved := InboundLaneData([UnrewardedRelayer(relayer, last)], NONCE_MAX - 1, Opened);
    assert RelayerRewards.TotalReward(proved.relayers, NONCE_MAX, NONCE_MAX, relayer) == 1;
    var r0, rewards0 := ReceiveMessagesDeliveryProof(chain, laneId, Some(proved), RelayersStateOf(proved));
    var r1, rewards1 := ReceiveMessagesDeliveryProof(chain, laneId, Some(proved), RelayersStateOf(proved));
    return rewards0, rewards1;
  }
}
