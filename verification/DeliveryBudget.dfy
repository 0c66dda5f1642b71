/** When a delivery call succeeds: the exact budget it takes. */
module DeliveryBudget {
  import opened Prelude
  import opened LaneTypes
  import opened InboundLanes
  import opened MessagesPallet

  /** What a lane takes of a bundle, whatever the messages weigh. */
  function Taken(limits: Limits, relayer: Relayer, d: InboundLaneData, messages: seq<Message>): seq<Message>
    decreases |messages|
  {
    if messages == [] then []
    else
      var m := messages[0];
      (if Verdict(limits, d, m.nonce, ZERO_WEIGHT).Dispatched? then [m] else [])
      + Taken(limits, relayer, Received(limits, d, relayer, m.nonce), messages[1..])
  }

  /** Both components are within the budget. */
  predicate Within(w: Weight, budget: Weight) {
    w.refTime <= budget.refTime && w.proofSize <= budget.proofSize
  }

  /** Message `i` at its full weight, on top of what the messages taken before it used up. */
  function NeededFor(rt: Runtime, relayer: Relayer, d: InboundLaneData, messages: seq<Message>, i: nat): Weight
    requires i < |messages|
  {
    rt.weigh(messages[i]).Plus(Spent(rt, Taken(rt.limits, relayer, d, messages[..i])))
  }

  /** The budget covers every message when its turn comes. */
  ghost predicate Funded(rt: Runtime, relayer: Relayer, d: InboundLaneData, messages: seq<Message>, budget: Weight) {
    forall i: nat | i < |messages| :: Within(NeededFor(rt, relayer, d, messages, i), budget)
  }

  function CostOf(rt: Runtime, m: Message): Weight {
    rt.weigh(m).Minus(rt.unspent(m).Least(rt.weigh(m)))
  }

  lemma {:induction false} SpentCons(rt: Runtime, m: Message, rest: seq<Message>)
    ensures Spent(rt, [m] + rest) == CostOf(rt, m).Plus(Spent(rt, rest))
  {
    var all := [m] + rest;
    if rest == [] {
      assert all[..0] == [];
    } else {
      var front := rest[..|rest| - 1];
      assert all[..|all| - 1] == [m] + front;
      SpentCons(rt, m, front);
    }
  }

  /** The first round: what it takes, what it costs and what is left. */
  lemma FirstRound(rt: Runtime, relayer: Relayer, s: Delivery, m: Message)
    ensures var r, taken := DeliverOne(rt, relayer, s, m), Verdict(rt.limits, s.data, m.nonce, ZERO_WEIGHT).Dispatched?;
            && (r.Some? <==> Within(rt.weigh(m), s.left))
            && (r.Some? ==>
                  && r.value.data == Received(rt.limits, s.data, relayer, m.nonce)
                  && r.value.dispatched == s.dispatched + (if taken then [m] else [])
                  && s.left == r.value.left.Plus(if taken then CostOf(rt, m) else ZERO_WEIGHT))
  {
  }

  lemma NeededShifts(rt: Runtime, relayer: Relayer, d: InboundLaneData, messages: seq<Message>, i: nat)
    requires i + 1 < |messages|
    ensures var m, d1 := messages[0], Received(rt.limits, d, relayer, messages[0].nonce);
            var cost := if Verdict(rt.limits, d, m.nonce, ZERO_WEIGHT).Dispatched? then CostOf(rt, m) else ZERO_WEIGHT;
            NeededFor(rt, relayer, d, messages, i + 1) == cost.Plus(NeededFor(rt, relayer, d1, messages[1..], i))
  {
    var m, d1 := messages[0], Received(rt.limits, d, relayer, messages[0].nonce);
    var rest := Taken(rt.limits, relayer, d1, messages[1..][..i]);
    assert messages[..i + 1][1..] == messages[1..][..i];
    SpentCons(rt, m, rest);
    assert [] + rest == rest;
  }

  lemma FundedShifts(rt: Runtime, relayer: Relayer, d: InboundLaneData, messages: seq<Message>, budget: Weight, left: Weight)
    requires messages != []
    requires var m := messages[0];
             budget == left.Plus(if Verdict(rt.limits, d, m.nonce, ZERO_WEIGHT).Dispatched? then CostOf(rt, m) else ZERO_WEIGHT)
    ensures Funded(rt, relayer, d, messages, budget) <==>
              Within(rt.weigh(messages[0]), budget) && Funded(rt, relayer, Received(rt.limits, d, relayer, messages[0].nonce), messages[1..], left)
  {
    var d1, rest := Received(rt.limits, d, relayer, messages[0].nonce), messages[1..];
    assert NeededFor(rt, relayer, d, messages, 0) == rt.weigh(messages[0]) by {
      assert messages[..0] == [];
    }
    forall i: nat | i < |rest|
      ensures Within(NeededFor(rt, relayer, d, messages, i + 1), budget) <==> Within(NeededFor(rt, relayer, d1, rest, i), left)
    {
      NeededShifts(rt, relayer, d, messages, i);
    }
    if Funded(rt, relayer, d, messages, budget) {
      forall i: nat | i < |rest|
        ensures Within(NeededFor(rt, relayer, d1, rest, i), left)
      {
        assert Within(NeededFor(rt, relayer, d, messages, i + 1), budget);
      }
    }
    if Within(rt.weigh(messages[0]), budget) && Funded(rt, relayer, d1, rest, left) {
      forall i: nat | i < |messages|
        ensures Within(NeededFor(rt, relayer, d, messages, i), budget)
      {
        if i > 0 {
          assert Within(NeededFor(rt, relayer, d1, rest, i - 1), left);
          assert Within(NeededFor(rt, relayer, d, messages, (i - 1) + 1), budget);
        }
      }
    }
  }

  lemma FirstUnfunded(rt: Runtime, relayer: Relayer, d: InboundLaneData, messages: seq<Message>, budget: Weight)
    requires messages != [] && !Within(rt.weigh(messages[0]), budget)
    ensures !Funded(rt, relayer, d, messages, budget)
  {
    assert NeededFor(rt, relayer, d, messages, 0) == rt.weigh(messages[0]) by {
      assert messages[..0] == [];
    }
  }

  /** The loop succeeds if and only if, at its turn, each message weighs no more than the budget less what the messages
      dispatched before it used up. */
  lemma {:induction false} LoopSucceedsIff(rt: Runtime, relayer: Relayer, s: Delivery, messages: seq<Message>)
    ensures DeliverAll(rt, relayer, s, messages).Some? <==> Funded(rt, relayer, s.data, messages, s.left)
    decreases |messages|
  {
    if messages != [] {
      FirstRound(rt, relayer, s, messages[0]);
      var r := DeliverOne(rt, relayer, s, messages[0]);
      if r.Some? {
        LoopSucceedsIff(rt, relayer, r.value, messages[1..]);
        FundedShifts(rt, relayer, s.data, messages, s.left, r.value.left);
      } else {
        FirstUnfunded(rt, relayer, s.data, messages, s.left);
      }
    }
  }

  lemma Associates(x: seq<Message>, y: seq<Message>, z: seq<Message>)
    ensures (x + y) + z == x + (y + z)
  {
  }

  /** A successful loop dispatches what the lane takes, whatever the messages weigh. */
  lemma {:induction false} LoopDispatchesTaken(rt: Runtime, relayer: Relayer, s: Delivery, messages: seq<Message>, s': Delivery)
    requires DeliverAll(rt, relayer, s, messages) == Some(s')
    ensures s'.dispatched == s.dispatched + Taken(rt.limits, relayer, s.data, messages)
    decreases |messages|
  {
    if messages == [] {
      assert s.dispatched + [] == s.dispatched;
    } else {
      var m := messages[0];
      var s1 := DeliverOne(rt, relayer, s, m).value;
      FirstRound(rt, relayer, s, m);
      LoopDispatchesTaken(rt, relayer, s1, messages[1..], s');
      var head := if Verdict(rt.limits, s.data, m.nonce, ZERO_WEIGHT).Dispatched? then [m] else [];
      Associates(s.dispatched, head, Taken(rt.limits, relayer, s1.data, messages[1..]));
    }
  }

  /** A budget that covers the full weight of the bundle is always enough. */
  lemma {:induction false} FullBudgetSuffices(rt: Runtime, relayer: Relayer, s: Delivery, messages: seq<Message>)
    requires Within(TotalWeight(rt, messages), s.left)
    ensures DeliverAll(rt, relayer, s, messages).Some?
    decreases |messages|
  {
    if messages != [] {
      FirstRound(rt, relayer, s, messages[0]);
      FullBudgetSuffices(rt, relayer, DeliverOne(rt, relayer, s, messages[0]).value, messages[1..]);
    }
  }

  /** Of a contiguous bundle, what the lane takes of the first `i` messages is the part that is new and has room. */
  lemma TakenIsSlice(limits: Limits, relayer: Relayer, d: InboundLaneData, list: seq<Relayer>, messages: seq<Message>, start: nat)
    requires Describes(d, list) && |d.relayers| <= limits.maxRelayerEntries && |list| <= limits.maxUnconfirmed
    requires Contiguous(messages, start) && start + |messages| <= NONCE_MAX + 1
    ensures var taken := Taken(limits, relayer, d, messages);
            && |taken| == Accepted(limits, d, relayer, start, |messages|)
            && IsSlice(taken, messages, d.LastDelivered() + 1 - start)
  {
    var free := Runtime(limits, _ => ZERO_WEIGHT, _ => ZERO_WEIGHT, _ => 0);
    var s := Delivery(d, ZERO_WEIGHT, ZERO_WEIGHT, []);
    FreeBundle(free, messages);
    FullBudgetSuffices(free, relayer, s, messages);
    LoopDispatchesTaken(free, relayer, s, messages, DeliverAll(free, relayer, s, messages).value);
    assert list + Repeat(relayer, 0) == list;
    DeliveryIsClosedForm(free, relayer, s, list, messages, start, DeliverAll(free, relayer, s, messages).value);
    assert [] + Taken(limits, relayer, d, messages) == Taken(limits, relayer, d, messages);
  }

  lemma {:induction false} FreeBundle(rt: Runtime, messages: seq<Message>)
    requires forall m :: rt.weigh(m) == ZERO_WEIGHT
    ensures TotalWeight(rt, messages) == ZERO_WEIGHT
  {
    if messages != [] {
      FreeBundle(rt, messages[1..]);
    }
  }

  /** Of `total`, what was not `spent` is taken off `base`, down to nothing. */
  predicate Charged(base: Weight, total: Weight, spent: Weight, actual: Weight) {
    && Within(spent, total)
    && actual.refTime == Max(0, base.refTime - (total.refTime - spent.refTime))
    && actual.proofSize == Max(0, base.proofSize - (total.proofSize - spent.proofSize))
  }

  /** What a successful loop takes off the weight: everything but what the dispatched messages used up. */
  lemma LoopCharges(rt: Runtime, relayer: Relayer, s: Delivery, messages: seq<Message>, s': Delivery)
    requires DeliverAll(rt, relayer, s, messages) == Some(s') && s.dispatched == []
    ensures Charged(s.actual, TotalWeight(rt, messages), Spent(rt, s'.dispatched), s'.actual)
  {
    var refund := WeightIsConserved(rt, relayer, s, messages);
    ChargedLess(rt, s, messages, s', refund);
  }

  lemma ChargedLess(rt: Runtime, s: Delivery, messages: seq<Message>, s': Delivery, refund: Weight)
    requires Accounted(rt, s, messages, s', refund) && s.dispatched == []
    ensures Charged(s.actual, TotalWeight(rt, messages), Spent(rt, s'.dispatched), s'.actual)
  {
    assert Spent(rt, s.dispatched) == ZERO_WEIGHT;
    RefundIsRest(s.actual, TotalWeight(rt, messages), Spent(rt, s'.dispatched), refund);
  }

  lemma RefundIsRest(base: Weight, total: Weight, spent: Weight, refund: Weight)
    requires refund.Plus(spent) == total.Plus(ZERO_WEIGHT)
    ensures Charged(base, total, spent, base.SaturatingMinus(refund))
  {
  }

  /** Which proofs are accepted: those of an imported header that open exactly the messages of the declared range, all of
      them stored, and that are not empty; a lane state among them must decode. */
  lemma ProofAcceptedIff(p: MessagesProof, count: nat)
    requires p.noncesEnd <= NONCE_MAX
    ensures Verified(p, count).Ok? <==>
              && p.headerImported
              && count == Min(NONCE_MAX, Max(0, p.noncesEnd + 1 - p.noncesStart))
              && (forall n: nat :: n in p.messageKeys <==> p.noncesStart <= n <= p.noncesEnd)
              && (forall n | p.noncesStart <= n <= p.noncesEnd :: n in p.state.messages)
              && (p.opensLaneData ==> p.laneDataDecodes)
              && (p.opensLaneData || p.noncesStart <= p.noncesEnd)
    ensures Verified(p, count).Ok? ==>
              var proved := Verified(p, count).value;
              && proved.laneState == (if p.opensLaneData then Some(p.state.lane) else None)
              && |proved.messages| == Max(0, p.noncesEnd + 1 - p.noncesStart)
              && forall i | 0 <= i < |proved.messages| ::
                   proved.messages[i] == Message(p.noncesStart + i, p.state.messages[p.noncesStart + i])
  {
  }

  /** Why a proof is refused. */
  lemma ProofRefusals(p: MessagesProof, count: nat)
    requires p.noncesEnd <= NONCE_MAX
    ensures var r, sized := Verified(p, count), count == Min(NONCE_MAX, Max(0, p.noncesEnd + 1 - p.noncesStart));
            var missing := exists n | p.noncesStart <= n <= p.noncesEnd :: n !in p.messageKeys || n !in p.state.messages;
            var undecodable := p.opensLaneData && !p.laneDataDecodes;
            var empty := !p.opensLaneData && p.noncesEnd < p.noncesStart;
            && (r == Err(HeaderChain) <==> !p.headerImported)
            && (r == Err(MessagesCountMismatch) <==> p.headerImported && !sized)
            && (r == Err(MessageStorage) <==> p.headerImported && sized && missing)
            && (r == Err(OutboundLaneStorage) <==> p.headerImported && sized && !missing && undecodable)
            && (r == Err(EmptyMessageProof) <==> p.headerImported && sized && !missing && !undecodable && empty)
  {
  }

  /** The whole call succeeds if and only if it declares no more messages than a confirmation may cover, its proof is
      accepted and its budget is sufficient. Otherwise the error says which. */
  lemma CallSucceedsIff(rt: Runtime, d: InboundLaneData, relayer: Relayer, p: MessagesProof, count: nat, budget: Weight, declared: Weight)
    ensures var r, proved := DeliveryOutcome(rt, d, relayer, p, count, budget, declared), Verified(p, count);
            && (r.Ok? <==> (count <= rt.limits.maxUnconfirmed && proved.Ok? &&
                            Funded(rt, relayer, AfterStateUpdate(d, proved.value), proved.value.messages, budget)))
            && (r == Err(TooManyMessagesInTheProof) <==> count > rt.limits.maxUnconfirmed)
            && (r == Err(InvalidMessagesProof) <==> count <= rt.limits.maxUnconfirmed && proved.Err?)
            && (r == Err(InsufficientDispatchWeight) <==>
                  (count <= rt.limits.maxUnconfirmed && proved.Ok? &&
                   !Funded(rt, relayer, AfterStateUpdate(d, proved.value), proved.value.messages, budget)))
  {
    var proved := Verified(p, count);
    if proved.Ok? {
      var begin := Delivery(AfterStateUpdate(d, proved.value), budget, ActualBase(rt, declared, d), []);
      LoopSucceedsIff(rt, relayer, begin, proved.value.messages);
    }
  }

  lemma ActualBaseIs(rt: Runtime, declared: Weight, d: InboundLaneData)
    ensures var spare := Max(0, rt.sizeHint(rt.limits.maxRelayerEntries) - rt.sizeHint(|d.relayers|));
            ActualBase(rt, declared, d) == Weight(declared.refTime, Max(0, declared.proofSize - spare))
  {
  }

  /** What a successful call is charged: the declared weight, less the proof bytes that the queue on record does not
      need, less everything the bundle was weighed at and the dispatched messages did not use up. */
  lemma CallCharges(rt: Runtime, d: InboundLaneData, relayer: Relayer, p: MessagesProof, count: nat, budget: Weight, declared: Weight, r: Delivery)
    requires DeliveryOutcome(rt, d, relayer, p, count, budget, declared) == Ok(r)
    ensures Verified(p, count).Ok?
    ensures var spare := Max(0, rt.sizeHint(rt.limits.maxRelayerEntries) - rt.sizeHint(|d.relayers|));
            var base := Weight(declared.refTime, Max(0, declared.proofSize - spare));
            Charged(base, TotalWeight(rt, Verified(p, count).value.messages), Spent(rt, r.dispatched), r.actual)
  {
    var proved := Verified(p, count).value;
    ActualBaseIs(rt, declared, d);
    LoopCharges(rt, relayer, Delivery(AfterStateUpdate(d, proved), budget, ActualBase(rt, declared, d), []), proved.messages, r);
  }
}
