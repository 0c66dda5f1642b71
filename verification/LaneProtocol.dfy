/** Both ends of a lane, connected by relayers who carry proofs of any past state of the other
    chain. Everything below holds in every run of sends, deliveries and confirmations. */
module LaneProtocol {
  import opened Prelude
  import opened LaneTypes
  import opened RelayerQueue
  import opened InboundLanes
  import opened OutboundLanes
  import opened MessagesPallet
  import opened RelayerRewards

  /** The two current lane states, every state either end has had so far, and logs: payloads sent,
      messages dispatched, who delivered each nonce, ranges confirmed, and the queue and range by
      which each confirmation paid the relayers. */
  datatype System = System(
    source: SourceState,
    target: InboundLaneData,
    sources: seq<SourceState>,
    targets: seq<InboundLaneData>,
    sent: seq<Payload>,
    dispatched: seq<Message>,
    deliverers: seq<Relayer>,
    confirmed: seq<DeliveredMessages>,
    payouts: seq<(seq<UnrewardedRelayer>, DeliveredMessages)>)

  /** `Deliver` proves nonces from the `snapshot`-th state of the source, `Confirm` carries the
      `snapshot`-th state of the target. */
  datatype Step =
    | Send(payload: Payload)
    | Deliver(relayer: Relayer, snapshot: nat, proof: MessagesProof, count: nat, budget: Weight, declared: Weight, rt: Runtime)
    | Confirm(snapshot: nat, relayersState: UnrewardedRelayersState)

  const OPENED := SourceState(OPENED_OUTBOUND, map[])

  const GENESIS := System(OPENED, OPENED_INBOUND, [OPENED], [OPENED_INBOUND], [], [], [], [], [])

  function AfterSend(s: System, payload: Payload): System {
    var source := SourceState(Sent(s.source.lane), s.source.messages[s.source.lane.latestGenerated + 1 := payload]);
    s.(source := source, sources := s.sources + [source], sent := s.sent + [payload])
  }

  function AfterDelivery(s: System, relayer: Relayer, d: Delivery): System {
    s.(target := d.data,
       targets := s.targets + [d.data],
       dispatched := s.dispatched + d.dispatched,
       deliverers := s.deliverers + Repeat(relayer, |d.dispatched|))
  }

  function AfterConfirmation(s: System, queue: seq<UnrewardedRelayer>, range: DeliveredMessages): System {
    var pruned := map n | n in s.source.messages && !(range.begin <= n <= range.end) :: s.source.messages[n];
    var source := SourceState(Confirmed(s.source.lane, range.end), pruned);
    s.(source := source, sources := s.sources + [source], confirmed := s.confirmed + [range], payouts := s.payouts + [(queue, range)])
  }

  function SnapshotOutcome(limits: Limits, s: System, step: Step): Result<Delivery, Error>
    requires step.Deliver? && step.snapshot < |s.sources|
  {
    DeliveryOutcome(step.rt.(limits := limits), s.target, step.relayer,
                    step.proof.(state := s.sources[step.snapshot]), step.count, step.budget, step.declared)
  }

  function ConfirmSnapshot(s: System, step: Step): Result<Option<DeliveredMessages>, ReceptionConfirmationError>
    requires step.Confirm? && step.snapshot < |s.targets|
  {
    var t := s.targets[step.snapshot];
    ConfirmOutcome(s.source.lane, step.relayersState.totalMessages, t.LastDelivered(), t.relayers)
  }

  /** One step. Calls that fail, or that no chain could have proved, change nothing. */
  function Apply(limits: Limits, s: System, step: Step): System {
    match step
    case Send(payload) =>
      if s.source.lane.latestGenerated < NONCE_MAX then AfterSend(s, payload) else s
    case Deliver(relayer, snapshot, _, _, _, _, _) =>
      if snapshot >= |s.sources| then s
      else
        var outcome := SnapshotOutcome(limits, s, step);
        if outcome.Ok? then AfterDelivery(s, relayer, outcome.value) else s
    case Confirm(snapshot, relayersState) =>
      if snapshot >= |s.targets| || relayersState != RelayersStateOf(s.targets[snapshot]) then s
      else
        var outcome := ConfirmSnapshot(s, step);
        if outcome.Ok? && outcome.value.Some?
        then AfterConfirmation(s, s.targets[snapshot].relayers, outcome.value.value) else s
  }

  function Run(limits: Limits, steps: seq<Step>): System {
    if steps == [] then GENESIS else Apply(limits, Run(limits, steps[..|steps| - 1]), steps[|steps| - 1])
  }

  /** Total paid to `r` over all confirmations. */
  function Paid(payouts: seq<(seq<UnrewardedRelayer>, DeliveredMessages)>, r: Relayer): nat {
    if payouts == [] then 0
    else
      var (queue, range) := payouts[|payouts| - 1];
      Paid(payouts[..|payouts| - 1], r) + Min(NONCE_MAX, TotalReward(queue, range.begin, range.end, r))
  }

  // ---------------------------------------------------------------- invariant

  /** A state of the source stores exactly the unconfirmed nonces, with the payloads sent. */
  ghost predicate SourceOk(x: SourceState, sent: seq<Payload>) {
    && x.lane.latestReceived <= x.lane.latestGenerated <= |sent|
    && x.lane.oldestUnpruned == x.lane.latestReceived + 1
    && (forall n :: n in x.messages <==> x.lane.latestReceived < n <= x.lane.latestGenerated)
    && (forall n | n in x.messages :: x.messages[n] == sent[n - 1])
  }

  /** A state of the target describes who delivered the nonces that it holds as unconfirmed. */
  ghost predicate TargetOk(limits: Limits, t: InboundLaneData, deliverers: seq<Relayer>) {
    && t.lastConfirmed <= t.LastDelivered() <= |deliverers|
    && Describes(t, deliverers[t.lastConfirmed..t.LastDelivered()])
    && t.LastDelivered() - t.lastConfirmed <= limits.maxUnconfirmed
    && |t.relayers| <= limits.maxRelayerEntries
  }

  ghost predicate SnapshotsOk(limits: Limits, s: System) {
    && (forall i | 0 <= i < |s.sources| ::
          SourceOk(s.sources[i], s.sent) && s.sources[i].lane.latestReceived <= s.source.lane.latestReceived)
    && (forall i | 0 <= i < |s.targets| ::
          TargetOk(limits, s.targets[i], s.deliverers) && s.targets[i].lastConfirmed <= s.source.lane.latestReceived)
  }

  /** Every message dispatched so far is the next one sent. */
  ghost predicate InOrder(s: System) {
    && |s.dispatched| == |s.deliverers| <= |s.sent|
    && (forall i | 0 <= i < |s.dispatched| :: s.dispatched[i] == Message(i + 1, s.sent[i]))
  }

  /** Confirmed ranges are non-empty, follow each other, and cover `1 ..= received`. */
  ghost predicate RangesCover(confirmed: seq<DeliveredMessages>, received: nat) {
    && (confirmed == [] ==> received == 0)
    && (confirmed != [] ==> confirmed[0].begin == 1 && confirmed[|confirmed| - 1].end == received)
    && (forall i | 0 <= i < |confirmed| :: confirmed[i].begin <= confirmed[i].end <= received)
    && (forall i, j | 0 <= i < j < |confirmed| && j == i + 1 :: confirmed[j].begin == confirmed[i].end + 1)
  }

  /** The queue that paid for `range` names the real deliverer of each of its nonces. */
  ghost predicate PayoutOk(payout: (seq<UnrewardedRelayer>, DeliveredMessages), deliverers: seq<Relayer>) {
    exists base: nat ::
      base < payout.1.begin <= payout.1.end <= |deliverers| && payout.0 == Encode(base, deliverers[base..payout.1.end])
  }

  ghost predicate PayoutsOk(s: System) {
    && |s.payouts| == |s.confirmed|
    && (forall i | 0 <= i < |s.payouts| :: s.payouts[i].1 == s.confirmed[i] && PayoutOk(s.payouts[i], s.deliverers))
  }

  ghost predicate RewardsOk(s: System) {
    && s.source.lane.latestReceived <= |s.deliverers|
    && (forall r :: Paid(s.payouts, r) == Count(s.deliverers[..s.source.lane.latestReceived], r))
  }

  ghost predicate Current(s: System) {
    && s.sources != [] && s.sources[|s.sources| - 1] == s.source
    && s.targets != [] && s.targets[|s.targets| - 1] == s.target
    && s.source.lane.latestGenerated == |s.sent| < NONCE_MAX
    && s.target.LastDelivered() == |s.deliverers|
    && s.source.lane.state == Opened && s.target.state == Opened
  }

  ghost predicate Inv(limits: Limits, s: System) {
    && Current(s)
    && SnapshotsOk(limits, s)
    && InOrder(s)
    && RangesCover(s.confirmed, s.source.lane.latestReceived)
    && PayoutsOk(s)
    && RewardsOk(s)
  }

  // ---------------------------------------------------------------- sending

  lemma SourceOkGrows(x: SourceState, sent: seq<Payload>, more: seq<Payload>)
    requires SourceOk(x, sent)
    ensures SourceOk(x, sent + more)
  {
  }

  lemma TargetOkGrows(limits: Limits, t: InboundLaneData, deliverers: seq<Relayer>, more: seq<Relayer>)
    requires TargetOk(limits, t, deliverers)
    ensures TargetOk(limits, t, deliverers + more)
  {
    assert (deliverers + more)[t.lastConfirmed..t.LastDelivered()] == deliverers[t.lastConfirmed..t.LastDelivered()];
  }

  lemma SendKeeps(limits: Limits, s: System, payload: Payload)
    requires Inv(limits, s) && |s.sent| + 1 < NONCE_MAX
    ensures Inv(limits, AfterSend(s, payload))
  {
    var s' := AfterSend(s, payload);
    forall i | 0 <= i < |s'.sources|
      ensures SourceOk(s'.sources[i], s'.sent) && s'.sources[i].lane.latestReceived <= s'.source.lane.latestReceived
    {
      if i < |s.sources| {
        SourceOkGrows(s.sources[i], s.sent, [payload]);
      } else {
        assert SourceOk(s.sources[|s.sources| - 1], s.sent);
      }
    }
  }

  // ---------------------------------------------------------------- delivering

  lemma UpdateKeepsTarget(limits: Limits, t: InboundLaneData, deliverers: seq<Relayer>, received: nat)
    requires TargetOk(limits, t, deliverers) && received <= t.LastDelivered()
    ensures var t' := StateUpdated(t, received);
            && TargetOk(limits, t', deliverers)
            && t'.LastDelivered() == t.LastDelivered() && t'.state == t.state
            && t'.lastConfirmed == Max(t.lastConfirmed, received)
  {
    var list := deliverers[t.lastConfirmed..t.LastDelivered()];
    StateUpdateDropsPrefix(t, list, received);
    if t.lastConfirmed < received {
      assert list[received - t.lastConfirmed..] == deliverers[received..t.LastDelivered()];
      EncodeNoLonger(t.lastConfirmed, list, received);
    }
  }

  /** A source snapshot never claims an undelivered nonce: the branch of `receive_state_update`
      that "should never happen" is unreachable, and the update drops a confirmed prefix. */
  lemma StateUpdateFromSnapshot(limits: Limits, s: System, i: nat)
    requires Inv(limits, s) && i < |s.sources|
    ensures s.sources[i].lane.latestReceived <= s.target.LastDelivered()
    ensures var t := StateUpdated(s.target, s.sources[i].lane.latestReceived);
            && TargetOk(limits, t, s.deliverers)
            && t.LastDelivered() == |s.deliverers|
            && t.lastConfirmed == Max(s.target.lastConfirmed, s.sources[i].lane.latestReceived)
            && t.state == Opened
  {
    assert TargetOk(limits, s.targets[|s.targets| - 1], s.deliverers);
    UpdateKeepsTarget(limits, s.target, s.deliverers, s.sources[i].lane.latestReceived);
  }

  /** Confirming a prefix does not lengthen the queue. */
  lemma EncodeNoLonger(base: nat, list: seq<Relayer>, n: nat)
    requires base <= n <= base + |list|
    ensures |Encode(n, list[n - base..])| <= |Encode(base, list)|
  {
    var q := Encode(base, list);
    EncodeRepresents(base, list);
    ConfirmDropsPrefix(q, base, list, n);
    RepresentsIffEncode(TrimFront(PopConfirmed(q, n), n), n, list[n - base..]);
    PopNoLonger(q, n);
  }

  lemma {:induction false} PopNoLonger(q: seq<UnrewardedRelayer>, n: nat)
    ensures |PopConfirmed(q, n)| <= |q|
    decreases |q|
  {
    if q != [] && q[0].messages.end <= n { PopNoLonger(q[1..], n); }
  }

  /** `m` is what was sent under its nonce. */
  ghost predicate WasSent(m: Message, sent: seq<Payload>) {
    0 < m.nonce <= |sent| && m.payload == sent[m.nonce - 1]
  }

  /** What a source snapshot proves about nonce `n` is what was sent as `n`. */
  lemma SnapshotMessages(limits: Limits, s: System, p: MessagesProof, count: nat, i: nat)
    requires Inv(limits, s) && i < |s.sources| && p.state == s.sources[i]
    requires Verified(p, count).Ok?
    ensures Contiguous(Verified(p, count).value.messages, p.noncesStart)
    ensures forall m | m in Verified(p, count).value.messages :: WasSent(m, s.sent)
  {
    assert SourceOk(s.sources[i], s.sent);
    var messages := OpenedMessages(p);
    forall k | 0 <= k < |messages|
      ensures WasSent(messages[k], s.sent)
    {
      assert p.noncesStart + k in p.state.messages;
    }
  }

  /** The target, after the state update that a verified proof may bring. */
  lemma UpdatedTarget(limits: Limits, s: System, p: MessagesProof, count: nat, i: nat)
    requires Inv(limits, s) && i < |s.sources| && p.state == s.sources[i]
    requires Verified(p, count).Ok?
    ensures var t := AfterStateUpdate(s.target, Verified(p, count).value);
            TargetOk(limits, t, s.deliverers) && t.LastDelivered() == |s.deliverers| && t.state == Opened && t.lastConfirmed <= s.source.lane.latestReceived
  {
    StateUpdateFromSnapshot(limits, s, i);
    assert TargetOk(limits, s.targets[|s.targets| - 1], s.deliverers);
  }

  /** `batch` continues the log of `n` dispatched messages with the next ones of `sent`. */
  ghost predicate Continues(batch: seq<Message>, n: nat, sent: seq<Payload>) {
    && n + |batch| <= |sent|
    && (forall i | 0 <= i < |batch| :: batch[i] == Message(n + i + 1, sent[n + i]))
  }

  /** The loop over messages that were sent, from a target that has delivered `deliverers`. */
  lemma LoopEffect(rt: Runtime, relayer: Relayer, begin: Delivery, sent: seq<Payload>, deliverers: seq<Relayer>, messages: seq<Message>, d: Delivery)
    requires TargetOk(rt.limits, begin.data, deliverers) && begin.data.LastDelivered() == |deliverers| <= |sent| && begin.dispatched == []
    requires forall m | m in messages :: WasSent(m, sent)
    requires DeliverAll(rt, relayer, begin, messages) == Some(d)
    ensures Continues(d.dispatched, |deliverers|, sent)
    ensures TargetOk(rt.limits, d.data, deliverers + Repeat(relayer, |d.dispatched|))
    ensures d.data.LastDelivered() == |deliverers| + |d.dispatched|
    ensures d.data.lastConfirmed == begin.data.lastConfirmed && d.data.state == begin.data.state
  {
    var base := begin.data.lastConfirmed;
    var list := deliverers[base..|deliverers|];
    assert list + Repeat(relayer, 0) == list;
    DeliveryUnderway(rt, relayer, base, list, messages, begin, messages, d);
    UnderwayEnds(rt.limits, relayer, base, deliverers, messages, sent, d);
  }

  lemma UnderwayEnds(limits: Limits, relayer: Relayer, base: nat, deliverers: seq<Relayer>, pool: seq<Message>, sent: seq<Payload>, d: Delivery)
    requires base <= |deliverers| <= |sent|
    requires Underway(limits, relayer, base, deliverers[base..|deliverers|], pool, d)
    requires forall m | m in pool :: WasSent(m, sent)
    ensures Continues(d.dispatched, |deliverers|, sent)
    ensures TargetOk(limits, d.data, deliverers + Repeat(relayer, |d.dispatched|))
    ensures d.data.LastDelivered() == |deliverers| + |d.dispatched|
  {
    var list, n := deliverers[base..|deliverers|], |d.dispatched|;
    LastDeliveredIs(d.data, list + Repeat(relayer, n));
    assert list + Repeat(relayer, n) == (deliverers + Repeat(relayer, n))[base..|deliverers| + n];
    assert forall i | 0 <= i < n :: WasSent(d.dispatched[i], sent);
    if n > 0 { assert d.dispatched[n - 1].nonce == |deliverers| + n; }
  }

  /** A successful delivery dispatches the next messages of the lane and credits its relayer. */
  lemma DeliveryEffect(limits: Limits, s: System, step: Step, d: Delivery)
    requires Inv(limits, s)
    requires step.Deliver? && step.snapshot < |s.sources| && SnapshotOutcome(limits, s, step) == Ok(d)
    ensures Continues(d.dispatched, |s.deliverers|, s.sent)
    ensures TargetOk(limits, d.data, s.deliverers + Repeat(step.relayer, |d.dispatched|))
    ensures d.data.LastDelivered() == |s.deliverers| + |d.dispatched|
    ensures d.data.lastConfirmed <= s.source.lane.latestReceived && d.data.state == Opened
  {
    var rt := step.rt.(limits := limits);
    var p := step.proof.(state := s.sources[step.snapshot]);
    var proved := Verified(p, step.count).value;
    SnapshotMessages(limits, s, p, step.count, step.snapshot);
    UpdatedTarget(limits, s, p, step.count, step.snapshot);
    var begin := Delivery(AfterStateUpdate(s.target, proved), step.budget, ActualBase(rt, step.declared, s.target), []);
    LoopEffect(rt, step.relayer, begin, s.sent, s.deliverers, proved.messages, d);
  }

  lemma SnapshotsAfterDelivery(limits: Limits, s: System, relayer: Relayer, d: Delivery)
    requires SnapshotsOk(limits, s)
    requires TargetOk(limits, d.data, s.deliverers + Repeat(relayer, |d.dispatched|)) && d.data.lastConfirmed <= s.source.lane.latestReceived
    ensures SnapshotsOk(limits, AfterDelivery(s, relayer, d))
  {
    var s' := AfterDelivery(s, relayer, d);
    forall i | 0 <= i < |s'.targets|
      ensures TargetOk(limits, s'.targets[i], s'.deliverers) && s'.targets[i].lastConfirmed <= s'.source.lane.latestReceived
    {
      if i < |s.targets| { TargetOkGrows(limits, s.targets[i], s.deliverers, Repeat(relayer, |d.dispatched|)); }
    }
  }

  lemma OrderAfterDelivery(s: System, relayer: Relayer, d: Delivery)
    requires InOrder(s) && Current(s)
    requires Continues(d.dispatched, |s.deliverers|, s.sent)
    requires d.data.LastDelivered() == |s.deliverers| + |d.dispatched| && d.data.state == Opened
    ensures InOrder(AfterDelivery(s, relayer, d)) && Current(AfterDelivery(s, relayer, d))
  {
    var s', n := AfterDelivery(s, relayer, d), |s.dispatched|;
    forall i | 0 <= i < |s'.dispatched|
      ensures s'.dispatched[i] == Message(i + 1, s.sent[i])
    {
      assert s'.dispatched[i] == if i < n then s.dispatched[i] else d.dispatched[i - n];
    }
  }

  lemma SettledAfterDelivery(s: System, relayer: Relayer, d: Delivery)
    requires PayoutsOk(s) && RewardsOk(s)
    ensures PayoutsOk(AfterDelivery(s, relayer, d)) && RewardsOk(AfterDelivery(s, relayer, d))
  {
    var s' := AfterDelivery(s, relayer, d);
    forall i | 0 <= i < |s.payouts|
      ensures PayoutOk(s.payouts[i], s'.deliverers)
    {
      PayoutOkGrows(s.payouts[i], s.deliverers, Repeat(relayer, |d.dispatched|));
    }
    assert s'.deliverers[..s.source.lane.latestReceived] == s.deliverers[..s.source.lane.latestReceived];
  }

  lemma DeliverKeeps(limits: Limits, s: System, step: Step, d: Delivery)
    requires Inv(limits, s)
    requires step.Deliver? && step.snapshot < |s.sources| && SnapshotOutcome(limits, s, step) == Ok(d)
    ensures Inv(limits, AfterDelivery(s, step.relayer, d))
  {
    DeliveryEffect(limits, s, step, d);
    OrderAfterDelivery(s, step.relayer, d);
    SnapshotsAfterDelivery(limits, s, step.relayer, d);
    SettledAfterDelivery(s, step.relayer, d);
  }

  lemma PayoutOkGrows(payout: (seq<UnrewardedRelayer>, DeliveredMessages), deliverers: seq<Relayer>, more: seq<Relayer>)
    requires PayoutOk(payout, deliverers)
    ensures PayoutOk(payout, deliverers + more)
  {
    var base: nat :| base < payout.1.begin <= payout.1.end <= |deliverers| && payout.0 == Encode(base, deliverers[base..payout.1.end]);
    assert (deliverers + more)[base..payout.1.end] == deliverers[base..payout.1.end];
  }

  // ---------------------------------------------------------------- confirming

  /** A proof of any past target state, declared truthfully, is never refused: it either confirms
      everything up to that state's last delivered nonce or brings nothing new. */
  lemma ConfirmationNeverFails(limits: Limits, s: System, step: Step)
    requires Inv(limits, s)
    requires step.Confirm? && step.snapshot < |s.targets| && step.relayersState == RelayersStateOf(s.targets[step.snapshot])
    ensures var t, received := s.targets[step.snapshot], s.source.lane.latestReceived;
            ConfirmSnapshot(s, step) ==
            Ok(if t.LastDelivered() <= received then None else Some(DeliveredMessages(received + 1, t.LastDelivered())))
  {
    var t := s.targets[step.snapshot];
    assert TargetOk(limits, t, s.deliverers);
    var list := s.deliverers[t.lastConfirmed..t.LastDelivered()];
    EncodeRepresents(t.lastConfirmed, list);
    EncodeHasNoComplaint(t.lastConfirmed, list, t.LastDelivered());
  }

  lemma ConfirmationPays(limits: Limits, s: System, t: InboundLaneData, r: Relayer)
    requires TargetOk(limits, t, s.deliverers) && |s.deliverers| < NONCE_MAX
    requires t.lastConfirmed <= s.source.lane.latestReceived < t.LastDelivered()
    ensures var received := s.source.lane.latestReceived;
            Min(NONCE_MAX, TotalReward(t.relayers, received + 1, t.LastDelivered(), r)) == Count(s.deliverers[received..t.LastDelivered()], r)
  {
    var received, end := s.source.lane.latestReceived, t.LastDelivered();
    EncodedWindowPays(s.deliverers, t.lastConfirmed, received, end, r);
    CountAtMost(s.deliverers[received..end], r);
  }

  lemma EncodedWindowPays(deliverers: seq<Relayer>, base: nat, received: nat, end: nat, r: Relayer)
    requires base <= received < end <= |deliverers| < NONCE_MAX
    ensures TotalReward(Encode(base, deliverers[base..end]), received + 1, end, r) == Count(deliverers[received..end], r)
  {
    var list := deliverers[base..end];
    assert Window(base, list, received + 1, end) == deliverers[received..end];
    TotalRewardIsCount(base, list, received + 1, end, r);
  }

  lemma {:induction false} CountAtMost(list: seq<Relayer>, r: Relayer)
    ensures Count(list, r) <= |list|
  {
    if list != [] { CountAtMost(list[..|list| - 1], r); }
  }

  lemma SnapshotsAfterConfirmation(limits: Limits, s: System, queue: seq<UnrewardedRelayer>, range: DeliveredMessages)
    requires SnapshotsOk(limits, s) && Current(s)
    requires range.begin == s.source.lane.latestReceived + 1 <= range.end <= |s.sent|
    ensures SnapshotsOk(limits, AfterConfirmation(s, queue, range))
  {
    var s' := AfterConfirmation(s, queue, range);
    assert SourceOk(s.sources[|s.sources| - 1], s.sent);
    assert SourceOk(s'.source, s.sent);
  }

  lemma PayoutsAfterConfirmation(limits: Limits, s: System, t: InboundLaneData, range: DeliveredMessages)
    requires PayoutsOk(s) && TargetOk(limits, t, s.deliverers)
    requires t.lastConfirmed < range.begin <= range.end == t.LastDelivered()
    ensures PayoutsOk(AfterConfirmation(s, t.relayers, range))
  {
    assert PayoutOk((t.relayers, range), s.deliverers) by {
      assert t.relayers == Encode(t.lastConfirmed, s.deliverers[t.lastConfirmed..range.end]);
    }
  }

  lemma PaidOnce(payouts: seq<(seq<UnrewardedRelayer>, DeliveredMessages)>, queue: seq<UnrewardedRelayer>, range: DeliveredMessages, r: Relayer)
    ensures Paid(payouts + [(queue, range)], r) ==
            Paid(payouts, r) + Min(NONCE_MAX, TotalReward(queue, range.begin, range.end, r))
  {
    assert (payouts + [(queue, range)])[..|payouts|] == payouts;
  }

  lemma CountSplits(list: seq<Relayer>, i: nat, j: nat, r: Relayer)
    requires i <= j <= |list|
    ensures Count(list[..j], r) == Count(list[..i], r) + Count(list[i..j], r)
  {
    assert list[..j] == list[..i] + list[i..j];
    CountConcat(list[..i], list[i..j], r);
  }

  lemma PaidAfterConfirmation(limits: Limits, s: System, t: InboundLaneData, r: Relayer)
    requires RewardsOk(s) && TargetOk(limits, t, s.deliverers) && |s.deliverers| < NONCE_MAX
    requires t.lastConfirmed <= s.source.lane.latestReceived < t.LastDelivered()
    ensures var range := DeliveredMessages(s.source.lane.latestReceived + 1, t.LastDelivered());
            Paid(s.payouts + [(t.relayers, range)], r) == Count(s.deliverers[..range.end], r)
  {
    var received, end := s.source.lane.latestReceived, t.LastDelivered();
    PaidOnce(s.payouts, t.relayers, DeliveredMessages(received + 1, end), r);
    ConfirmationPays(limits, s, t, r);
    CountSplits(s.deliverers, received, end, r);
  }

  lemma RewardsAfterConfirmation(limits: Limits, s: System, t: InboundLaneData)
    requires RewardsOk(s) && TargetOk(limits, t, s.deliverers) && |s.deliverers| < NONCE_MAX
    requires t.lastConfirmed <= s.source.lane.latestReceived < t.LastDelivered()
    ensures RewardsOk(AfterConfirmation(s, t.relayers, DeliveredMessages(s.source.lane.latestReceived + 1, t.LastDelivered())))
  {
    var s' := AfterConfirmation(s, t.relayers, DeliveredMessages(s.source.lane.latestReceived + 1, t.LastDelivered()));
    forall r
      ensures Paid(s'.payouts, r) == Count(s'.deliverers[..s'.source.lane.latestReceived], r)
    {
      PaidAfterConfirmation(limits, s, t, r);
    }
  }

  lemma OrderAfterConfirmation(s: System, queue: seq<UnrewardedRelayer>, range: DeliveredMessages)
    requires Current(s) && InOrder(s)
    ensures var s' := AfterConfirmation(s, queue, range); Current(s') && InOrder(s')
  {
  }

  lemma RangesAfterConfirmation(confirmed: seq<DeliveredMessages>, received: nat, range: DeliveredMessages)
    requires RangesCover(confirmed, received) && range.begin == received + 1 <= range.end
    ensures RangesCover(confirmed + [range], range.end)
  {
  }

  lemma ConfirmKeeps(limits: Limits, s: System, t: InboundLaneData)
    requires Inv(limits, s)
    requires TargetOk(limits, t, s.deliverers)
    requires t.lastConfirmed <= s.source.lane.latestReceived < t.LastDelivered()
    ensures Inv(limits, AfterConfirmation(s, t.relayers, DeliveredMessages(s.source.lane.latestReceived + 1, t.LastDelivered())))
  {
    var range := DeliveredMessages(s.source.lane.latestReceived + 1, t.LastDelivered());
    SnapshotsAfterConfirmation(limits, s, t.relayers, range);
    OrderAfterConfirmation(s, t.relayers, range);
    RangesAfterConfirmation(s.confirmed, s.source.lane.latestReceived, range);
    PayoutsAfterConfirmation(limits, s, t, range);
    RewardsAfterConfirmation(limits, s, t);
  }

  // ---------------------------------------------------------------- whole runs

  lemma ApplyKeeps(limits: Limits, s: System, step: Step)
    requires Inv(limits, s) && |Apply(limits, s, step).sent| < NONCE_MAX
    ensures Inv(limits, Apply(limits, s, step))
  {
    match step
    case Send(payload) => SendKeeps(limits, s, payload);
    case Deliver(relayer, snapshot, _, _, _, _, _) =>
      if snapshot < |s.sources| && SnapshotOutcome(limits, s, step).Ok? {
        DeliverKeeps(limits, s, step, SnapshotOutcome(limits, s, step).value);
      }
    case Confirm(snapshot, relayersState) =>
      if snapshot < |s.targets| && relayersState == RelayersStateOf(s.targets[snapshot]) {
        ConfirmationNeverFails(limits, s, step);
        if s.source.lane.latestReceived < s.targets[snapshot].LastDelivered() {
          ConfirmKeeps(limits, s, s.targets[snapshot]);
        }
      }
  }

  /** Everything above, in every run that stays within 64-bit nonces. */
  lemma {:induction false} RunKeeps(limits: Limits, steps: seq<Step>)
    requires |Run(limits, steps).sent| < NONCE_MAX
    ensures Inv(limits, Run(limits, steps))
  {
    if steps == [] {
      assert Run(limits, steps) == GENESIS;
      assert Encode(0, []) == [];
      assert SourceOk(OPENED, []) && TargetOk(limits, OPENED_INBOUND, []);
    } else {
      RunKeeps(limits, steps[..|steps| - 1]);
      ApplyKeeps(limits, Run(limits, steps[..|steps| - 1]), steps[|steps| - 1]);
    }
  }

  // ---------------------------------------------------------------- what a user of the lane gets

  /** Nothing is duplicated, skipped, reordered or altered: the dispatched messages are, nonce by
      nonce, a prefix of the messages sent. */
  lemma ExactlyOnceInOrder(limits: Limits, steps: seq<Step>)
    requires |Run(limits, steps).sent| < NONCE_MAX
    ensures var s := Run(limits, steps);
            && |s.dispatched| <= |s.sent|
            && forall i | 0 <= i < |s.dispatched| :: s.dispatched[i] == Message(i + 1, s.sent[i])
  {
    RunKeeps(limits, steps);
  }

  /** The four counters are ordered, also between either end and every past state of the other. */
  lemma CountersOrdered(limits: Limits, steps: seq<Step>)
    requires |Run(limits, steps).sent| < NONCE_MAX
    ensures var s := Run(limits, steps);
            && s.target.lastConfirmed <= s.source.lane.latestReceived <= s.target.LastDelivered() <= s.source.lane.latestGenerated
            && (forall i | 0 <= i < |s.sources| :: s.sources[i].lane.latestReceived <= s.target.LastDelivered())
            && (forall i | 0 <= i < |s.targets| ::
                  s.targets[i].lastConfirmed <= s.source.lane.latestReceived && s.targets[i].LastDelivered() <= s.source.lane.latestGenerated)
  {
    RunKeeps(limits, steps);
    var s := Run(limits, steps);
    assert s.targets[|s.targets| - 1].lastConfirmed <= s.source.lane.latestReceived;
    forall i | 0 <= i < |s.targets|
      ensures s.targets[i].lastConfirmed <= s.source.lane.latestReceived && s.targets[i].LastDelivered() <= s.source.lane.latestGenerated
    {
      assert TargetOk(limits, s.targets[i], s.deliverers);
    }
  }

  /** The relayer queue is always the run-length form of who delivered the unconfirmed nonces, and
      both limits on it hold. */
  lemma QueueIsCanonical(limits: Limits, steps: seq<Step>)
    requires |Run(limits, steps).sent| < NONCE_MAX
    ensures var s := Run(limits, steps);
            && s.target.lastConfirmed <= |s.deliverers|
            && s.target.relayers == Encode(s.target.lastConfirmed, s.deliverers[s.target.lastConfirmed..])
            && |s.target.relayers| <= limits.maxRelayerEntries
            && s.target.LastDelivered() - s.target.lastConfirmed <= limits.maxUnconfirmed
  {
    RunKeeps(limits, steps);
    var s := Run(limits, steps);
    assert TargetOk(limits, s.targets[|s.targets| - 1], s.deliverers);
    assert s.deliverers[s.target.lastConfirmed..|s.deliverers|] == s.deliverers[s.target.lastConfirmed..];
  }

  /** The source stores exactly the unconfirmed messages: nothing undelivered is ever pruned, and
      nothing at or below the last pruned nonce is left over. */
  lemma StorageIsExact(limits: Limits, steps: seq<Step>)
    requires |Run(limits, steps).sent| < NONCE_MAX
    ensures var x := Run(limits, steps).source;
            && x.lane.oldestUnpruned == x.lane.latestReceived + 1
            && (forall n :: n in x.messages <==> x.lane.latestReceived < n <= x.lane.latestGenerated)
            && (forall n | n in x.messages :: WasSent(Message(n, x.messages[n]), Run(limits, steps).sent))
  {
    RunKeeps(limits, steps);
    var s := Run(limits, steps);
    assert SourceOk(s.sources[|s.sources| - 1], s.sent);
  }

  /** Confirmations never fail on honest proofs, however stale. */
  lemma HonestConfirmationAccepted(limits: Limits, steps: seq<Step>, step: Step)
    requires |Run(limits, steps).sent| < NONCE_MAX
    requires step.Confirm? && step.snapshot < |Run(limits, steps).targets|
    requires step.relayersState == RelayersStateOf(Run(limits, steps).targets[step.snapshot])
    ensures ConfirmSnapshot(Run(limits, steps), step).Ok?
  {
    RunKeeps(limits, steps);
    ConfirmationNeverFails(limits, Run(limits, steps), step);
  }

  /** The confirmed ranges follow each other and cover `1 ..= latestReceived`, and each confirmed nonce
      lies in exactly one entry of the queue that paid for it, an entry of its real deliverer. */
  lemma SettlementIsExact(limits: Limits, steps: seq<Step>)
    requires |Run(limits, steps).sent| < NONCE_MAX
    ensures var s := Run(limits, steps);
            && RangesCover(s.confirmed, s.source.lane.latestReceived)
            && |s.payouts| == |s.confirmed|
            && (forall i | 0 <= i < |s.payouts| :: s.payouts[i].1 == s.confirmed[i] && CreditsDeliverers(s.payouts[i], s.deliverers))
  {
    RunKeeps(limits, steps);
    var s := Run(limits, steps);
    forall i | 0 <= i < |s.payouts|
      ensures CreditsDeliverers(s.payouts[i], s.deliverers)
    {
      forall n | s.payouts[i].1.begin <= n <= s.payouts[i].1.end
        ensures CreditedOnce(s.payouts[i].0, n, s.deliverers)
      {
        PayoutCredits(s.payouts[i], s.deliverers, n);
      }
    }
  }

  ghost predicate Holds(entry: UnrewardedRelayer, n: nat) {
    entry.messages.begin <= n <= entry.messages.end
  }

  /** Exactly one entry of `queue` holds `n`, and it names the deliverer of `n`. */
  ghost predicate CreditedOnce(queue: seq<UnrewardedRelayer>, n: nat, deliverers: seq<Relayer>) {
    && 0 < n <= |deliverers|
    && exists i | 0 <= i < |queue| ::
         Holds(queue[i], n) && queue[i].relayer == deliverers[n - 1] && forall j | 0 <= j < |queue| && Holds(queue[j], n) :: j == i
  }

  ghost predicate CreditsDeliverers(payout: (seq<UnrewardedRelayer>, DeliveredMessages), deliverers: seq<Relayer>) {
    forall n | payout.1.begin <= n <= payout.1.end :: CreditedOnce(payout.0, n, deliverers)
  }

  lemma PayoutCredits(payout: (seq<UnrewardedRelayer>, DeliveredMessages), deliverers: seq<Relayer>, n: nat)
    requires PayoutOk(payout, deliverers)
    requires payout.1.begin <= n <= payout.1.end
    ensures CreditedOnce(payout.0, n, deliverers)
  {
    var base: nat :| base < payout.1.begin <= payout.1.end <= |deliverers| && payout.0 == Encode(base, deliverers[base..payout.1.end]);
    var list := deliverers[base..payout.1.end];
    EncodeRepresents(base, list);
    var i := EntryHolding(payout.0, base, list, n);
  }

  /** Some entry of a queue holds each nonce that the queue covers, and only one. */
  lemma EntryHolding(q: seq<UnrewardedRelayer>, base: nat, list: seq<Relayer>, n: nat) returns (i: nat)
    requires Represents(q, base, list)
    requires base < n <= base + |list|
    ensures i < |q| && Holds(q[i], n) && q[i].relayer == list[n - base - 1]
    ensures forall j | 0 <= j < |q| && Holds(q[j], n) :: j == i
  {
    i := FindEntry(q, base, list, n, |q| - 1);
    assert IsRun(q[i], base, list);
    assert q[i].messages.begin <= base + (n - base - 1) + 1 <= q[i].messages.end;
    forall j | 0 <= j < |q| && Holds(q[j], n)
      ensures j == i
    {
      if j < i { EndsIncrease(q, base, list, j, i); }
      if i < j { EndsIncrease(q, base, list, i, j); }
    }
  }

  lemma {:induction false} FindEntry(q: seq<UnrewardedRelayer>, base: nat, list: seq<Relayer>, n: nat, last: nat) returns (i: nat)
    requires Represents(q, base, list)
    requires last < |q| && base < n <= q[last].messages.end
    ensures i < |q| && Holds(q[i], n)
    decreases last
  {
    if q[last].messages.begin <= n {
      i := last;
    } else {
      assert Adjoins(q[last - 1], q[last]);
      i := FindEntry(q, base, list, n, last - 1);
    }
  }

  /** Over the whole run, every relayer was paid once for each confirmed message it delivered. */
  lemma PaidExactlyOnce(limits: Limits, steps: seq<Step>, r: Relayer)
    requires |Run(limits, steps).sent| < NONCE_MAX
    ensures var s := Run(limits, steps);
            s.source.lane.latestReceived <= |s.deliverers| && Paid(s.payouts, r) == Count(s.deliverers[..s.source.lane.latestReceived], r)
  {
    RunKeeps(limits, steps);
  }

  // ---------------------------------------------------------------- progress

  /** A delivery of the single nonce `n`, proved from the current state of the source. */
  function NextDelivery(s: System, relayer: Relayer, rt: Runtime, declared: Weight): Step {
    var n := |s.deliverers| + 1;
    var weight := if n in s.source.messages then rt.weigh(Message(n, s.source.messages[n])) else ZERO_WEIGHT;
    Deliver(relayer, Max(0, |s.sources| - 1), MessagesProof(n, n, true, {n}, true, true, s.source), 1, weight, declared, rt)
  }

  function ConfirmCurrent(s: System): Step {
    Confirm(Max(0, |s.targets| - 1), RelayersStateOf(s.target))
  }

  lemma SingleProof(x: SourceState, n: nat)
    requires n in x.messages
    ensures Verified(MessagesProof(n, n, true, {n}, true, true, x), 1) == Ok(ProvedMessages(Some(x.lane), [Message(n, x.messages[n])]))
  {
    var p := MessagesProof(n, n, true, {n}, true, true, x);
    assert OpensAllMessages(p) && OpenedMessages(p) == [Message(n, x.messages[n])];
  }

  /** An idle target accepts the next message at its own weight. */
  lemma SingleDelivery(rt: Runtime, relayer: Relayer, t: InboundLaneData, m: Message, actual: Weight)
    requires t.relayers == [] && m.nonce == t.lastConfirmed + 1 <= NONCE_MAX
    requires rt.limits.maxRelayerEntries > 0 && rt.limits.maxUnconfirmed > 0
    ensures var r := DeliverAll(rt, relayer, Delivery(t, rt.weigh(m), actual, []), [m]);
            r.Some? && r.value.dispatched == [m]
  {
    assert [m][1..] == [];
  }

  lemma IdleTarget(limits: Limits, t: InboundLaneData, deliverers: seq<Relayer>)
    requires TargetOk(limits, t, deliverers) && t.lastConfirmed == t.LastDelivered()
    ensures t.relayers == []
  {
    assert deliverers[t.lastConfirmed..t.LastDelivered()] == [];
  }

  /** A fully confirmed target has an empty queue once it learns so. */
  lemma ConfirmedTargetIsIdle(limits: Limits, s: System)
    requires Inv(limits, s) && s.source.lane.latestReceived == |s.deliverers|
    ensures var t := StateUpdated(s.target, s.source.lane.latestReceived);
            t.relayers == [] && t.lastConfirmed == |s.deliverers|
  {
    StateUpdateFromSnapshot(limits, s, |s.sources| - 1);
    IdleTarget(limits, StateUpdated(s.target, s.source.lane.latestReceived), s.deliverers);
  }

  /** What makes the next delivery succeed. */
  ghost predicate ReadyForNext(s: System) {
    var n, t := |s.deliverers| + 1, StateUpdated(s.target, s.source.lane.latestReceived);
    && s.sources != [] && s.sources[|s.sources| - 1] == s.source
    && n in s.source.messages && n <= NONCE_MAX
    && t.relayers == [] && t.lastConfirmed == |s.deliverers|
  }

  lemma ConfirmedIsReady(limits: Limits, s: System)
    requires Inv(limits, s) && s.source.lane.latestReceived == |s.deliverers| < |s.sent|
    ensures ReadyForNext(s)
  {
    assert SourceOk(s.sources[|s.sources| - 1], s.sent);
    ConfirmedTargetIsIdle(limits, s);
  }

  lemma ReadyIsDelivered(limits: Limits, s: System, relayer: Relayer, rt: Runtime, declared: Weight)
    requires ReadyForNext(s) && limits.maxRelayerEntries > 0 && limits.maxUnconfirmed > 0
    ensures |Apply(limits, s, NextDelivery(s, relayer, rt, declared)).dispatched| == |s.dispatched| + 1
  {
    var n, rt', step := |s.deliverers| + 1, rt.(limits := limits), NextDelivery(s, relayer, rt, declared);
    var m := Message(n, s.source.messages[n]);
    SingleProof(s.source, n);
    SingleDelivery(rt', relayer, StateUpdated(s.target, s.source.lane.latestReceived), m, ActualBase(rt', declared, s.target));
    assert step.proof.(state := s.sources[step.snapshot]) == step.proof;
    assert SnapshotOutcome(limits, s, step).Ok? && SnapshotOutcome(limits, s, step).value.dispatched == [m];
  }

  /** Once everything delivered is confirmed, the next message can be delivered. */
  lemma NextIsDelivered(limits: Limits, s: System, relayer: Relayer, rt: Runtime, declared: Weight)
    requires Inv(limits, s) && limits.maxRelayerEntries > 0 && limits.maxUnconfirmed > 0
    requires s.source.lane.latestReceived == |s.deliverers| < |s.sent|
    ensures |Apply(limits, s, NextDelivery(s, relayer, rt, declared)).dispatched| == |s.dispatched| + 1
  {
    ConfirmedIsReady(limits, s);
    ReadyIsDelivered(limits, s, relayer, rt, declared);
  }

  /** Confirming the current target state settles everything delivered, and changes nothing else. */
  lemma ConfirmCurrentSettles(limits: Limits, s: System)
    requires Inv(limits, s)
    ensures var s' := Apply(limits, s, ConfirmCurrent(s));
            && Inv(limits, s') && s'.source.lane.latestReceived == |s.deliverers|
            && s'.sent == s.sent && s'.deliverers == s.deliverers && s'.dispatched == s.dispatched
  {
    var step := ConfirmCurrent(s);
    assert s.targets[step.snapshot] == s.target;
    ConfirmationNeverFails(limits, s, step);
    ApplyKeeps(limits, s, step);
  }

  /** The lane never gets stuck: from every reachable state with an undelivered message, confirming
      the current target state and then proving the next message delivers it, whatever the relayer
      queue and the unconfirmed messages are. */
  lemma LaneNeverStuck(limits: Limits, steps: seq<Step>, relayer: Relayer, rt: Runtime, declared: Weight)
    requires |Run(limits, steps).sent| < NONCE_MAX
    requires limits.maxRelayerEntries > 0 && limits.maxUnconfirmed > 0
    requires |Run(limits, steps).dispatched| < |Run(limits, steps).sent|
    ensures var s := Run(limits, steps);
            var s1 := Apply(limits, s, ConfirmCurrent(s));
            |Apply(limits, s1, NextDelivery(s1, relayer, rt, declared)).dispatched| == |s.dispatched| + 1
  {
    RunKeeps(limits, steps);
    ConfirmCurrentSettles(limits, Run(limits, steps));
    NextIsDelivered(limits, Apply(limits, Run(limits, steps), ConfirmCurrent(Run(limits, steps))), relayer, rt, declared);
  }
}
