/** The queue of unrewarded relayers is the canonical run-length form of a plain list that names,
    nonce by nonce, who delivered each message. */
module RelayerQueue {
  import opened Prelude
  import opened LaneTypes

  /** `e` is a non-empty run of nonces after `base`, all delivered by its relayer. */
  ghost predicate IsRun(e: UnrewardedRelayer, base: nat, list: seq<Relayer>) {
    && base < e.messages.begin <= e.messages.end <= base + |list|
    && (forall k | e.messages.begin <= base + k + 1 <= e.messages.end :: list[k] == e.relayer)
  }

  ghost predicate Adjoins(e: UnrewardedRelayer, f: UnrewardedRelayer) {
    f.messages.begin == e.messages.end + 1 && f.relayer != e.relayer
  }

  /** `q` describes, run by run, the deliverers `list` of the nonces `base + 1 ..= base + |list|`:
      runs are non-empty, follow each other without gap, and neighbouring runs differ. */
  ghost predicate Represents(q: seq<UnrewardedRelayer>, base: nat, list: seq<Relayer>) {
    && (q == [] <==> list == [])
    && (q != [] ==> q[0].messages.begin == base + 1 && q[|q| - 1].messages.end == base + |list|)
    && (forall i | 0 <= i < |q| :: IsRun(q[i], base, list))
    && (forall i, j | 0 <= i < |q| && j == i + 1 && j < |q| :: Adjoins(q[i], q[j]))
  }

  /** What `receive_message` does to the queue after a dispatch. */
  function Delivered(q: seq<UnrewardedRelayer>, r: Relayer, nonce: nat): seq<UnrewardedRelayer> {
    if q != [] && q[|q| - 1].relayer == r then
      q[|q| - 1 := UnrewardedRelayer(r, DeliveredMessages(q[|q| - 1].messages.begin, q[|q| - 1].messages.end + 1))]
    else
      q + [UnrewardedRelayer(r, DeliveredMessages(nonce, nonce))]
  }

  /** The loop of `receive_state_update`: drop the runs that end at or before `n`. */
  function PopConfirmed(q: seq<UnrewardedRelayer>, n: nat): seq<UnrewardedRelayer> {
    if q != [] && q[0].messages.end <= n then PopConfirmed(q[1..], n) else q
  }

  /** The step after that loop: cut the front run so that it starts after `n`. */
  function TrimFront(q: seq<UnrewardedRelayer>, n: nat): seq<UnrewardedRelayer> {
    if q != [] && q[0].messages.begin <= n then
      q[0 := UnrewardedRelayer(q[0].relayer, DeliveredMessages(n + 1, q[0].messages.end))]
    else q
  }

  /** The canonical queue for a list of deliverers. */
  function Encode(base: nat, list: seq<Relayer>): seq<UnrewardedRelayer> {
    if list == [] then []
    else Delivered(Encode(base, list[..|list| - 1]), list[|list| - 1], base + |list|)
  }

  lemma DeliveredAppends(q: seq<UnrewardedRelayer>, base: nat, list: seq<Relayer>, r: Relayer)
    requires Represents(q, base, list)
    ensures Represents(Delivered(q, r, base + |list| + 1), base, list + [r])
  {
    var q', list' := Delivered(q, r, base + |list| + 1), list + [r];
    forall i | 0 <= i < |q'|
      ensures IsRun(q'[i], base, list')
    {
      if i < |q| { assert IsRun(q[i], base, list); }
    }
    forall i, j | 0 <= i < |q'| && j == i + 1 && j < |q'|
      ensures Adjoins(q'[i], q'[j])
    {
      if j < |q| { assert Adjoins(q[i], q[j]); }
    }
  }

  lemma {:induction false} EncodeRepresents(base: nat, list: seq<Relayer>)
    ensures Represents(Encode(base, list), base, list)
  {
    if list != [] {
      var front, r := list[..|list| - 1], list[|list| - 1];
      EncodeRepresents(base, front);
      DeliveredAppends(Encode(base, front), base, front, r);
      assert front + [r] == list;
    }
  }

  /** Undo the last delivery. */
  ghost function Shortened(q: seq<UnrewardedRelayer>): seq<UnrewardedRelayer>
    requires q != []
  {
    var last := q[|q| - 1];
    if last.messages.begin == last.messages.end then q[..|q| - 1]
    else q[|q| - 1 := UnrewardedRelayer(last.relayer, DeliveredMessages(last.messages.begin, Max(0, last.messages.end - 1)))]
  }

  lemma ShortenedRepresents(q: seq<UnrewardedRelayer>, base: nat, list: seq<Relayer>)
    requires Represents(q, base, list) && list != []
    ensures Represents(Shortened(q), base, list[..|list| - 1])
    ensures list[|list| - 1] == q[|q| - 1].relayer
    ensures Delivered(Shortened(q), q[|q| - 1].relayer, base + |list|) == q
  {
    var q', front, n := Shortened(q), list[..|list| - 1], |q| - 1;
    assert IsRun(q[n], base, list);
    if n > 0 { assert Adjoins(q[n - 1], q[n]); }
    forall i | 0 <= i < |q'|
      ensures IsRun(q'[i], base, front)
    {
      assert IsRun(q[i], base, list);
      if i < n { EndsIncrease(q, base, list, i, n); }
    }
    forall i, j | 0 <= i < |q'| && j == i + 1 && j < |q'|
      ensures Adjoins(q'[i], q'[j])
    {
      assert Adjoins(q[i], q[j]);
    }
  }

  lemma {:induction false} EndsIncrease(q: seq<UnrewardedRelayer>, base: nat, list: seq<Relayer>, i: nat, j: nat)
    requires Represents(q, base, list)
    requires i < j < |q|
    ensures q[i].messages.end < q[j].messages.begin <= q[j].messages.end
    decreases j
  {
    assert Adjoins(q[j - 1], q[j]) && IsRun(q[j], base, list) && IsRun(q[j - 1], base, list);
    if i < j - 1 { EndsIncrease(q, base, list, i, j - 1); }
  }

  /** The run-length form is unique: a queue stands for a list exactly when it is its encoding. */
  lemma {:induction false} RepresentsIffEncode(q: seq<UnrewardedRelayer>, base: nat, list: seq<Relayer>)
    ensures Represents(q, base, list) <==> q == Encode(base, list)
    decreases |list|
  {
    EncodeRepresents(base, list);
    if Represents(q, base, list) && list != [] {
      ShortenedRepresents(q, base, list);
      RepresentsIffEncode(Shortened(q), base, list[..|list| - 1]);
    }
  }

  lemma PopFrontRepresents(q: seq<UnrewardedRelayer>, base: nat, list: seq<Relayer>)
    requires Represents(q, base, list) && q != []
    ensures base < q[0].messages.end <= base + |list|
    ensures Represents(q[1..], q[0].messages.end, list[q[0].messages.end - base..])
  {
    var n := q[0].messages.end;
    assert IsRun(q[0], base, list);
    var rest, tail := q[1..], list[n - base..];
    if |q| > 1 {
      EndsIncrease(q, base, list, 0, |q| - 1);
      assert Adjoins(q[0], q[1]);
    }
    forall i | 0 <= i < |rest|
      ensures IsRun(rest[i], n, tail)
    {
      EndsIncrease(q, base, list, 0, i + 1);
      IsRunShifts(q[i + 1], base, list, n);
    }
    forall i, j | 0 <= i < |rest| && j == i + 1 && j < |rest|
      ensures Adjoins(rest[i], rest[j])
    {
      assert Adjoins(q[i + 1], q[j + 1]);
    }
  }

  lemma IsRunShifts(e: UnrewardedRelayer, base: nat, list: seq<Relayer>, n: nat)
    requires IsRun(e, base, list) && base <= n < e.messages.begin
    ensures IsRun(e, n, list[n - base..])
  {
    var tail := list[n - base..];
    forall k | e.messages.begin <= n + k + 1 <= e.messages.end
      ensures tail[k] == e.relayer
    {
      assert tail[k] == list[k + (n - base)];
    }
  }

  lemma TrimFrontRepresents(q: seq<UnrewardedRelayer>, base: nat, list: seq<Relayer>, n: nat)
    requires Represents(q, base, list)
    requires base <= n <= base + |list|
    requires q != [] ==> n < q[0].messages.end
    ensures Represents(TrimFront(q, n), n, list[n - base..])
  {
    var q', tail := TrimFront(q, n), list[n - base..];
    forall i | 0 <= i < |q'|
      ensures IsRun(q'[i], n, tail)
    {
      assert IsRun(q[i], base, list);
      if i > 0 { EndsIncrease(q, base, list, 0, i); }
      assert IsRun(q'[i], base, list);
      IsRunShifts(q'[i], base, list, n);
    }
    forall i, j | 0 <= i < |q'| && j == i + 1 && j < |q'|
      ensures Adjoins(q'[i], q'[j])
    {
      assert Adjoins(q[i], q[j]);
    }
  }

  /** Confirming up to `n` drops a prefix of the list, whatever run boundaries `n` falls on. */
  lemma {:induction false} ConfirmDropsPrefix(q: seq<UnrewardedRelayer>, base: nat, list: seq<Relayer>, n: nat)
    requires Represents(q, base, list)
    requires base <= n <= base + |list|
    ensures Represents(TrimFront(PopConfirmed(q, n), n), n, list[n - base..])
    decreases |q|
  {
    if q != [] && q[0].messages.end <= n {
      PopFrontRepresents(q, base, list);
      var m := q[0].messages.end;
      ConfirmDropsPrefix(q[1..], m, list[m - base..], n);
      assert list[m - base..][n - m..] == list[n - base..];
    } else {
      TrimFrontRepresents(q, base, list, n);
    }
  }
}
