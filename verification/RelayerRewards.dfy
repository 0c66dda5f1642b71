/** Who is paid for a confirmed range: the loop over the proof's relayer queue pays every relayer
    exactly once for every confirmed nonce that it really delivered. */
module RelayerRewards {
  import opened Prelude
  import opened LaneTypes
  import opened RelayerQueue

  /** Nonces of `entry` that lie in `begin..=end`. */
  function Overlap(entry: UnrewardedRelayer, begin: nat, end: nat): nat {
    SaturatingLen(Max(entry.messages.begin, begin), Min(entry.messages.end, end))
  }

  function TotalReward(q: seq<UnrewardedRelayer>, begin: nat, end: nat, r: Relayer): nat {
    if q == [] then 0
    else
      TotalReward(q[..|q| - 1], begin, end, r) +
      (if q[|q| - 1].relayer == r then Overlap(q[|q| - 1], begin, end) else 0)
  }

  function RewardOf(rewards: map<Relayer, nat>, r: Relayer): nat {
    if r in rewards then rewards[r] else 0
  }

  /** `calc_relayers_rewards`: the per-relayer sum saturates at the largest 64-bit value, and only
      relayers with a positive share appear. */
  method CalcRelayersRewards(relayers: seq<UnrewardedRelayer>, begin: nat, end: nat) returns (rewards: map<Relayer, nat>)
    ensures forall r :: RewardOf(rewards, r) == Min(NONCE_MAX, TotalReward(relayers, begin, end, r))
    ensures forall r :: r in rewards <==> TotalReward(relayers, begin, end, r) > 0
  {
    rewards := map[];
    for i := 0 to |relayers|
      invariant forall r :: RewardOf(rewards, r) == Min(NONCE_MAX, TotalReward(relayers[..i], begin, end, r))
      invariant forall r :: r in rewards <==> TotalReward(relayers[..i], begin, end, r) > 0
    {
      var entry := relayers[i];
      assert relayers[..i + 1][..i] == relayers[..i];
      var nonceBegin, nonceEnd := Max(entry.messages.begin, begin), Min(entry.messages.end, end);
      if nonceEnd >= nonceBegin {
        var reward := RewardOf(rewards, entry.relayer);
        rewards := rewards[entry.relayer := Min(NONCE_MAX, reward + SaturatingLen(nonceBegin, nonceEnd))];
      }
    }
    assert relayers[..|relayers|] == relayers;
  }

  /** One more delivery by `deliverer` of nonce `base + |list| + 1` adds one to its own total, and only if
      that nonce is in the range. */
  lemma DeliveredReward(q: seq<UnrewardedRelayer>, base: nat, list: seq<Relayer>, deliverer: Relayer, begin: nat, end: nat, r: Relayer)
    requires Represents(q, base, list)
    requires base + |list| + 1 <= NONCE_MAX
    requires 0 < begin
    ensures TotalReward(Delivered(q, deliverer, base + |list| + 1), begin, end, r) ==
            TotalReward(q, begin, end, r) + (if deliverer == r && begin <= base + |list| + 1 <= end then 1 else 0)
  {
    var q' := Delivered(q, deliverer, base + |list| + 1);
    if |q'| == |q| {
      assert q'[..|q'| - 1] == q[..|q| - 1];
    } else {
      assert q'[..|q'| - 1] == q;
    }
  }

  lemma EncodeReward(base: nat, front: seq<Relayer>, x: Relayer, begin: nat, end: nat, r: Relayer)
    requires base + |front| + 1 <= NONCE_MAX
    requires 0 < begin
    ensures TotalReward(Encode(base, front + [x]), begin, end, r) ==
            TotalReward(Encode(base, front), begin, end, r) + (if x == r && begin <= base + |front| + 1 <= end then 1 else 0)
  {
    assert (front + [x])[..|front|] == front;
    EncodeRepresents(base, front);
    DeliveredReward(Encode(base, front), base, front, x, begin, end, r);
  }

  /** The part of `list` that falls into the nonce range `begin..=end`. */
  function Window(base: nat, list: seq<Relayer>, begin: nat, end: nat): seq<Relayer>
    requires base < begin <= end + 1
  {
    list[Min(begin - 1 - base, |list|)..Min(end - base, |list|)]
  }

  lemma WindowGrows(base: nat, front: seq<Relayer>, x: Relayer, begin: nat, end: nat)
    requires base < begin <= end + 1
    ensures Window(base, front + [x], begin, end) ==
            Window(base, front, begin, end) + (if begin <= base + |front| + 1 <= end then [x] else [])
  {
  }

  /** The queue's total for a confirmed range is the number of nonces of that range which `r`
      delivered, even when the queue also covers older, already rewarded nonces. */
  lemma {:induction false} TotalRewardIsCount(base: nat, list: seq<Relayer>, begin: nat, end: nat, r: Relayer)
    requires base < begin <= end + 1
    requires base + |list| <= NONCE_MAX
    ensures TotalReward(Encode(base, list), begin, end, r) == Count(Window(base, list, begin, end), r)
    decreases |list|
  {
    if list == [] {
      assert Window(base, list, begin, end) == [];
    } else {
      var front, x := list[..|list| - 1], list[|list| - 1];
      assert front + [x] == list;
      EncodeReward(base, front, x, begin, end, r);
      TotalRewardIsCount(base, front, begin, end, r);
      WindowGrows(base, front, x, begin, end);
      var w := Window(base, front, begin, end);
      assert w + [] == w;
      assert (w + [x])[..|w|] == w;
    }
  }
}
