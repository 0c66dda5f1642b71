/** What a single delivery of a run achieves and costs, and that every run can be completed. */
module LaneCompletion {
  import opened Prelude
  import opened LaneTypes
  import opened RelayerQueue
  import opened MessagesPallet
  import opened DeliveryBudget
  import opened LaneProtocol

  // ---------------------------------------------------------------- what a delivery achieves

  /** The bundle that a delivery step proves. */
  function Bundle(s: System, step: Step): Result<ProvedMessages, VerificationError>
    requires step.Deliver? && step.snapshot < |s.sources|
  {
    Verified(step.proof.(state := s.sources[step.snapshot]), step.count)
  }

  lemma OutcomeHasBundle(limits: Limits, s: System, step: Step, d: Delivery)
    requires step.Deliver? && step.snapshot < |s.sources| && SnapshotOutcome(limits, s, step) == Ok(d)
    ensures Bundle(s, step).Ok?
  {
  }

  /** What the delivery loop may rely on in a run. */
  ghost predicate LoopReady(limits: Limits, s: System, step: Step, proved: ProvedMessages)
    requires step.Deliver?
  {
    var t := AfterStateUpdate(s.target, proved);
    && TargetOk(limits, t, s.deliverers) && t.LastDelivered() == |s.deliverers| == |s.dispatched|
    && Contiguous(proved.messages, step.proof.noncesStart)
    && (proved.messages != [] ==> step.proof.noncesStart + |proved.messages| <= NONCE_MAX)
  }

  lemma BundleIsReady(limits: Limits, s: System, step: Step, proved: ProvedMessages)
    requires Inv(limits, s) && step.Deliver? && step.snapshot < |s.sources| && Bundle(s, step) == Ok(proved)
    ensures LoopReady(limits, s, step, proved)
  {
    var p := step.proof.(state := s.sources[step.snapshot]);
    UpdatedTarget(limits, s, p, step.count, step.snapshot);
    SnapshotMessages(limits, s, p, step.count, step.snapshot);
    if proved.messages != [] {
      assert proved.messages[|proved.messages| - 1] in proved.messages;
    }
  }

  /** The delivery loop from a target that describes `deliverers`. */
  lemma LoopIsExact(rt: Runtime, relayer: Relayer, begin: Delivery, deliverers: seq<Relayer>, messages: seq<Message>, start: nat, d: Delivery)
    requires TargetOk(rt.limits, begin.data, deliverers) && begin.data.LastDelivered() == |deliverers| && begin.dispatched == []
    requires Contiguous(messages, start) && (messages != [] ==> start + |messages| <= NONCE_MAX)
    requires DeliverAll(rt, relayer, begin, messages) == Some(d)
    ensures |d.dispatched| == Accepted(rt.limits, begin.data, relayer, start, |messages|)
    ensures IsSlice(d.dispatched, messages, |deliverers| + 1 - start)
  {
    var list := deliverers[begin.data.lastConfirmed..|deliverers|];
    if messages != [] {
      assert list + Repeat(relayer, 0) == list;
      assert Underway(rt.limits, relayer, begin.data.lastConfirmed, list, messages, begin);
      DeliveryIsClosedForm(rt, relayer, begin, list, messages, start, d);
    }
  }

  /** The delivery dispatches the new part of its bundle, as far as the limits leave room, in order. */
  ghost predicate DispatchesExactly(limits: Limits, s: System, step: Step, d: Delivery)
    requires step.Deliver? && step.snapshot < |s.sources|
  {
    && Bundle(s, step).Ok?
    && var proved := Bundle(s, step).value;
    && |d.dispatched| == Accepted(limits, AfterStateUpdate(s.target, proved), step.relayer, step.proof.noncesStart, |proved.messages|)
    && IsSlice(d.dispatched, proved.messages, |s.dispatched| + 1 - step.proof.noncesStart)
  }

  /** What was spent and what is left make up the budget, in both components of weight. */
  ghost predicate SpendsWithin(limits: Limits, step: Step, d: Delivery)
    requires step.Deliver?
  {
    var spent := Spent(step.rt.(limits := limits), d.dispatched);
    spent.refTime + d.left.refTime == step.budget.refTime && spent.proofSize + d.left.proofSize == step.budget.proofSize
  }

  /** Every successful delivery of every run: it dispatches exactly as much of its bundle as is new and as the limits
      leave room for, in order, and spends no more on it than its budget, in either component of weight. */
  lemma DeliveryIsExact(limits: Limits, steps: seq<Step>, step: Step, d: Delivery)
    requires |Run(limits, steps).sent| < NONCE_MAX
    requires step.Deliver? && step.snapshot < |Run(limits, steps).sources|
    requires SnapshotOutcome(limits, Run(limits, steps), step) == Ok(d)
    ensures DispatchesExactly(limits, Run(limits, steps), step, d)
    ensures SpendsWithin(limits, step, d)
  {
    var s := Run(limits, steps);
    RunKeeps(limits, steps);
    DispatchIsExact(limits, s, step, d);
    SpendingIsExact(limits, s, step, d);
  }

  lemma OutcomeIsExact(limits: Limits, s: System, step: Step, proved: ProvedMessages, d: Delivery)
    requires step.Deliver? && step.snapshot < |s.sources| && Bundle(s, step) == Ok(proved)
    requires SnapshotOutcome(limits, s, step) == Ok(d) && LoopReady(limits, s, step, proved)
    ensures DispatchesExactly(limits, s, step, d)
  {
    var rt := step.rt.(limits := limits);
    var begin := Delivery(AfterStateUpdate(s.target, proved), step.budget, ActualBase(rt, step.declared, s.target), []);
    LoopIsExact(rt, step.relayer, begin, s.deliverers, proved.messages, step.proof.noncesStart, d);
  }

  lemma DispatchIsExact(limits: Limits, s: System, step: Step, d: Delivery)
    requires Inv(limits, s)
    requires step.Deliver? && step.snapshot < |s.sources| && SnapshotOutcome(limits, s, step) == Ok(d)
    ensures DispatchesExactly(limits, s, step, d)
  {
    OutcomeHasBundle(limits, s, step, d);
    BundleIsReady(limits, s, step, Bundle(s, step).value);
    OutcomeIsExact(limits, s, step, Bundle(s, step).value, d);
  }

  lemma SpendingIsExact(limits: Limits, s: System, step: Step, d: Delivery)
    requires step.Deliver? && step.snapshot < |s.sources| && SnapshotOutcome(limits, s, step) == Ok(d)
    ensures SpendsWithin(limits, step, d)
  {
    var rt, proved := step.rt.(limits := limits), Bundle(s, step).value;
    var begin := Delivery(AfterStateUpdate(s.target, proved), step.budget, ActualBase(rt, step.declared, s.target), []);
    assert DeliverAll(rt, step.relayer, begin, proved.messages) == Some(d);
    var refund := WeightIsConserved(rt, step.relayer, begin, proved.messages);
  }

  // ---------------------------------------------------------------- when a delivery succeeds

  /** In a run, what the lane takes of the first `i` messages of a bundle is the part that is new and has room. */
  ghost predicate TakesExactly(limits: Limits, s: System, step: Step, proved: ProvedMessages, i: nat)
    requires step.Deliver? && i <= |proved.messages|
  {
    var t := AfterStateUpdate(s.target, proved);
    var taken := Taken(limits, step.relayer, t, proved.messages[..i]);
    && |taken| == Accepted(limits, t, step.relayer, step.proof.noncesStart, i)
    && IsSlice(taken, proved.messages, |s.dispatched| + 1 - step.proof.noncesStart)
  }

  lemma ReadyTakesExactly(limits: Limits, s: System, step: Step, proved: ProvedMessages, i: nat)
    requires step.Deliver? && LoopReady(limits, s, step, proved) && i <= |proved.messages|
    ensures TakesExactly(limits, s, step, proved, i)
  {
    var t, part := AfterStateUpdate(s.target, proved), proved.messages[..i];
    var list := s.deliverers[t.lastConfirmed..t.LastDelivered()];
    if i > 0 {
      TakenIsSlice(limits, step.relayer, t, list, part, step.proof.noncesStart);
      var taken, offset := Taken(limits, step.relayer, t, part), |s.dispatched| + 1 - step.proof.noncesStart;
      forall k | 0 <= k < |taken|
        ensures StandsAt(proved.messages, offset + k, taken[k])
      {
        assert StandsAt(part, offset + k, taken[k]);
      }
    }
  }

  /** A delivery of a run succeeds if and only if it declares no more messages than allowed, its proof is accepted, and
      its budget covers each message on top of what the messages dispatched before it used up; these are, for every
      message, the ones before it that are new and have room. */
  lemma DeliverySucceedsIff(limits: Limits, steps: seq<Step>, step: Step)
    requires |Run(limits, steps).sent| < NONCE_MAX
    requires step.Deliver? && step.snapshot < |Run(limits, steps).sources|
    ensures var s, rt := Run(limits, steps), step.rt.(limits := limits);
            && (SnapshotOutcome(limits, s, step).Ok? <==>
                  (step.count <= limits.maxUnconfirmed && Bundle(s, step).Ok? &&
                   Funded(rt, step.relayer, AfterStateUpdate(s.target, Bundle(s, step).value), Bundle(s, step).value.messages, step.budget)))
            && (Bundle(s, step).Ok? ==>
                  forall i: nat | i <= |Bundle(s, step).value.messages| :: TakesExactly(limits, s, step, Bundle(s, step).value, i))
  {
    var s, rt := Run(limits, steps), step.rt.(limits := limits);
    CallSucceedsIff(rt, s.target, step.relayer, step.proof.(state := s.sources[step.snapshot]), step.count, step.budget, step.declared);
    if Bundle(s, step).Ok? {
      RunKeeps(limits, steps);
      BundleIsReady(limits, s, step, Bundle(s, step).value);
      forall i: nat | i <= |Bundle(s, step).value.messages|
        ensures TakesExactly(limits, s, step, Bundle(s, step).value, i)
      {
        ReadyTakesExactly(limits, s, step, Bundle(s, step).value, i);
      }
    }
  }

  /** A proof of an imported header that opens exactly the messages from `first` to `last`, and possibly the lane. */
  ghost predicate Opens(p: MessagesProof, first: nat, last: nat) {
    && p.headerImported && p.noncesStart == first && p.noncesEnd == last
    && (forall n: nat :: n in p.messageKeys <==> first <= n <= last)
    && (p.opensLaneData ==> p.laneDataDecodes)
  }

  /** The messages from `first` to `last`, as they were sent. */
  function SentRange(sent: seq<Payload>, first: nat, last: nat): seq<Message>
    requires 0 < first <= last <= |sent|
  {
    seq(last - first + 1, i requires 0 <= i <= last - first => Message(first + i, sent[first + i - 1]))
  }

  /** What an honest proof of a past state yields. */
  lemma HonestBundle(s: System, step: Step, first: nat, last: nat)
    requires step.Deliver? && step.snapshot < |s.sources| && SourceOk(s.sources[step.snapshot], s.sent) && |s.sent| <= NONCE_MAX
    requires var lane := s.sources[step.snapshot].lane; lane.latestReceived < first <= last <= lane.latestGenerated
    requires Opens(step.proof, first, last) && step.count == last - first + 1
    ensures Bundle(s, step).Ok? && Bundle(s, step).value.messages == SentRange(s.sent, first, last)
  {
    ProofAcceptedIff(step.proof.(state := s.sources[step.snapshot]), step.count);
  }

  /** Any messages that some past state of the source still stored can be delivered with a proof of that state, if they
      are not too many and the budget covers their weight. */
  lemma HonestDeliveryAccepted(limits: Limits, steps: seq<Step>, step: Step, first: nat, last: nat)
    requires |Run(limits, steps).sent| < NONCE_MAX
    requires step.Deliver? && step.snapshot < |Run(limits, steps).sources|
    requires var lane := Run(limits, steps).sources[step.snapshot].lane;
             0 <= lane.latestReceived < first <= last <= lane.latestGenerated <= |Run(limits, steps).sent|
    requires Opens(step.proof, first, last) && step.count == last - first + 1 <= limits.maxUnconfirmed
    requires Within(TotalWeight(step.rt, SentRange(Run(limits, steps).sent, first, last)), step.budget)
    ensures SnapshotOutcome(limits, Run(limits, steps), step).Ok?
  {
    var s, rt := Run(limits, steps), step.rt.(limits := limits);
    RunKeeps(limits, steps);
    HonestBundle(s, step, first, last);
    var proved := Bundle(s, step).value;
    SameTotalWeight(step.rt, rt, proved.messages);
    FullBudgetSuffices(rt, step.relayer,
                       Delivery(AfterStateUpdate(s.target, proved), step.budget, ActualBase(rt, step.declared, s.target), []), proved.messages);
  }

  lemma {:induction false} SameTotalWeight(rt: Runtime, rt': Runtime, messages: seq<Message>)
    requires rt.weigh == rt'.weigh
    ensures TotalWeight(rt, messages) == TotalWeight(rt', messages)
  {
    if messages != [] {
      SameTotalWeight(rt, rt', messages[1..]);
    }
  }

  // ---------------------------------------------------------------- every run can be completed

  /** A delivery never touches what was sent. */
  lemma DeliverySendsNothing(limits: Limits, s: System, step: Step)
    requires step.Deliver?
    ensures Apply(limits, s, step).sent == s.sent
  {
  }

  /** Confirm, then deliver the next message. */
  lemma OneRound(limits: Limits, s: System, relayer: Relayer, rt: Runtime, declared: Weight) returns (s2: System, round: seq<Step>)
    requires Inv(limits, s) && limits.maxRelayerEntries > 0 && limits.maxUnconfirmed > 0 && |s.dispatched| < |s.sent|
    ensures |round| == 2 && s2 == Apply(limits, Apply(limits, s, round[0]), round[1])
    ensures Inv(limits, s2) && s2.sent == s.sent && |s2.dispatched| == |s.dispatched| + 1
  {
    ConfirmCurrentSettles(limits, s);
    var s1 := Apply(limits, s, ConfirmCurrent(s));
    var next := NextDelivery(s1, relayer, rt, declared);
    NextIsDelivered(limits, s1, relayer, rt, declared);
    DeliverySendsNothing(limits, s1, next);
    ApplyKeeps(limits, s1, next);
    s2, round := Apply(limits, s1, next), [ConfirmCurrent(s), next];
  }

  /** Taking further steps. */
  function Continue(limits: Limits, s: System, more: seq<Step>): System
    decreases |more|
  {
    if more == [] then s else Continue(limits, Apply(limits, s, more[0]), more[1..])
  }

  lemma ContinueTwo(limits: Limits, s: System, a: Step, b: Step, rest: seq<Step>)
    ensures Continue(limits, s, [a]) == Apply(limits, s, a)
    ensures Continue(limits, s, [a, b] + rest) == Continue(limits, Apply(limits, Apply(limits, s, a), b), rest)
  {
    var more := [a, b] + rest;
    assert more[1..] == [b] + rest && more[1..][1..] == rest;
    assert [a][1..] == [];
  }

  lemma {:induction false} RunContinues(limits: Limits, steps: seq<Step>, more: seq<Step>)
    ensures Run(limits, steps + more) == Continue(limits, Run(limits, steps), more)
    decreases |more|
  {
    if more == [] {
      assert steps + more == steps;
    } else {
      assert (steps + [more[0]]) + more[1..] == steps + more;
      assert (steps + [more[0]])[..|steps|] == steps;
      RunContinues(limits, steps + [more[0]], more[1..]);
    }
  }

  /** Everything sent was dispatched and confirmed. */
  ghost predicate Completed(s: System) {
    |s.dispatched| == |s.sent| && s.source.lane.latestReceived == |s.sent|
  }

  lemma {:induction false} StateCompletes(limits: Limits, s: System, relayer: Relayer, rt: Runtime, declared: Weight)
      returns (more: seq<Step>)
    requires Inv(limits, s) && limits.maxRelayerEntries > 0 && limits.maxUnconfirmed > 0
    ensures var s' := Continue(limits, s, more); Inv(limits, s') && s'.sent == s.sent && Completed(s')
    decreases |s.sent| - |s.dispatched|
  {
    if |s.dispatched| == |s.sent| {
      ConfirmCurrentSettles(limits, s);
      more := [ConfirmCurrent(s)];
      ContinueTwo(limits, s, more[0], more[0], []);
    } else {
      var s2, round := OneRound(limits, s, relayer, rt, declared);
      var rest := StateCompletes(limits, s2, relayer, rt, declared);
      more := [round[0], round[1]] + rest;
      ContinueTwo(limits, s, round[0], round[1], rest);
    }
  }

  /** Every run has a continuation, without further sends, after which every message sent has been dispatched, in
      order, and every relayer has been paid for each message it delivered. */
  lemma EveryRunCompletes(limits: Limits, steps: seq<Step>, relayer: Relayer, rt: Runtime, declared: Weight)
      returns (more: seq<Step>)
    requires |Run(limits, steps).sent| < NONCE_MAX
    requires limits.maxRelayerEntries > 0 && limits.maxUnconfirmed > 0
    ensures var s, s' := Run(limits, steps), Run(limits, steps + more);
            && s'.sent == s.sent && |s'.dispatched| == |s'.deliverers| == |s.sent|
            && (forall i | 0 <= i < |s.sent| :: s'.dispatched[i] == Message(i + 1, s.sent[i]))
            && (forall r :: Paid(s'.payouts, r) == Count(s'.deliverers, r))
  {
    RunKeeps(limits, steps);
    more := StateCompletes(limits, Run(limits, steps), relayer, rt, declared);
    RunContinues(limits, steps, more);
    var s' := Run(limits, steps + more);
    assert s'.deliverers[..s'.source.lane.latestReceived] == s'.deliverers;
  }

  /** The limits are what it takes: without room for an entry or for a message nothing is ever dispatched. */
  lemma {:induction false} NoRoomNoDelivery(limits: Limits, steps: seq<Step>)
    requires |Run(limits, steps).sent| < NONCE_MAX
    requires limits.maxRelayerEntries == 0 || limits.maxUnconfirmed == 0
    ensures Run(limits, steps).dispatched == []
  {
    if steps != [] {
      var front, step := steps[..|steps| - 1], steps[|steps| - 1];
      var s := Run(limits, front);
      NoRoomNoDelivery(limits, front);
      RunKeeps(limits, front);
      if step.Deliver? && step.snapshot < |s.sources| && SnapshotOutcome(limits, s, step).Ok? {
        var d := SnapshotOutcome(limits, s, step).value;
        DeliveryEffect(limits, s, step, d);
        assert d.data.LastDelivered() == d.data.lastConfirmed by {
          EncodeRepresents(d.data.lastConfirmed, (s.deliverers + Repeat(step.relayer, |d.dispatched|))[d.data.lastConfirmed..d.data.LastDelivered()]);
        }
      }
    }
  }
}
