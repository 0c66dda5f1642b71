/** The pruning scheme of both light clients: a ring of keys in insertion order, and a map that holds
    the entries of the keys in the ring. */
module RingBuffer {
  import opened Prelude

  datatype Ring<K, V> = Ring(pointer: nat, slots: map<nat, K>, entries: map<K, V>)

  function EmptyRing<K, V>(): Ring<K, V> {
    Ring(0, map[], map[])
  }

  /** Insert, then drop the entry whose slot was reused. */
  function Inserted<K(==), V>(capacity: nat, r: Ring<K, V>, key: K, value: V): Ring<K, V>
    requires capacity > 0
  {
    var entries := r.entries[key := value];
    Ring((r.pointer + 1) % capacity,
         r.slots[r.pointer := key],
         if r.pointer in r.slots then entries - {r.slots[r.pointer]} else entries)
  }

  function FromHistory<K(==), V>(capacity: nat, history: seq<(K, V)>): Ring<K, V>
    requires capacity > 0
  {
    if history == [] then EmptyRing()
    else
      var (key, value) := history[|history| - 1];
      Inserted(capacity, FromHistory(capacity, history[..|history| - 1]), key, value)
  }

  /** The latest insertion survives its own pruning exactly when its key is not the one being dropped. */
  lemma LatestKeptIff<K, V>(capacity: nat, r: Ring<K, V>, key: K, value: V)
    requires capacity > 0
    ensures key in Inserted(capacity, r, key, value).entries <==> !(r.pointer in r.slots && r.slots[r.pointer] == key)
  {
  }

  ghost predicate DistinctKeys<K, V>(history: seq<(K, V)>) {
    forall i, j | 0 <= i < j < |history| :: history[i].0 != history[j].0
  }

  /** Index of the first insertion that is still kept. */
  function Oldest(capacity: nat, n: nat): nat {
    SaturatingSub(n, capacity)
  }

  ghost predicate KeptAt<K, V>(capacity: nat, history: seq<(K, V)>, i: nat, key: K) {
    Oldest(capacity, |history|) <= i < |history| && history[i].0 == key
  }

  /** After `n` insertions the pointer is `n` modulo the capacity, the slots are those in use, and the
      map holds exactly the last `min(n, capacity)` insertions. */
  ghost predicate HoldsLast<K(!new), V>(capacity: nat, r: Ring<K, V>, history: seq<(K, V)>)
    requires capacity > 0
  {
    var n := |history|;
    && r.pointer == n % capacity
    && (forall j :: j in r.slots <==> 0 <= j < Min(n, capacity))
    && (forall i | Oldest(capacity, n) <= i < n :: i % capacity in r.slots && r.slots[i % capacity] == history[i].0)
    && HoldsEntries(capacity, r.entries, history)
  }

  ghost predicate HoldsEntries<K(!new), V>(capacity: nat, entries: map<K, V>, history: seq<(K, V)>) {
    && (forall k :: k in entries ==> exists i: nat :: KeptAt(capacity, history, i, k))
    && (forall i: nat, k :: KeptAt(capacity, history, i, k) ==> k in entries && entries[k] == history[i].1)
  }

  // ---------------------------------------------------------------- arithmetic modulo the capacity

  lemma AtLeastOnce(d: int, c: nat)
    requires d >= 1
    ensures d * c >= c
  {
    assert (d - 1) * c >= 0;
  }

  lemma QuotientUnique(a: nat, b: nat, c: nat, r: nat, s: nat)
    requires a * c + r == b * c + s && r < c && s < c
    ensures r == s
  {
    assert (a - b) * c == s - r;
    if a > b {
      AtLeastOnce(a - b, c);
    } else if b > a {
      assert (b - a) * c == r - s;
      AtLeastOnce(b - a, c);
    }
  }

  lemma ModSucc(n: nat, c: nat)
    requires c > 0
    ensures (n + 1) % c == if n % c == c - 1 then 0 else n % c + 1
  {
    var q, r := n / c, n % c;
    if r == c - 1 {
      assert (q + 1) * c == q * c + c;
      QuotientUnique((n + 1) / c, q + 1, c, (n + 1) % c, 0);
    } else {
      QuotientUnique((n + 1) / c, q, c, (n + 1) % c, r + 1);
    }
  }

  /** Adding `d < c` moves the remainder by `d`, wrapping once at most. */
  lemma {:induction false} ModStep(i: nat, d: nat, c: nat)
    requires d < c
    ensures (i + d) % c == if i % c + d < c then i % c + d else i % c + d - c
    decreases d
  {
    if d > 0 {
      ModStep(i, d - 1, c);
      ModSucc(i + d - 1, c);
    }
  }

  lemma ModBelow(i: nat, c: nat)
    requires i < c
    ensures i % c == i
  {
  }

  // ---------------------------------------------------------------- the ring keeps the last insertions

  lemma SlotsAfter<K(!new), V>(capacity: nat, r: Ring<K, V>, history: seq<(K, V)>, key: K, value: V)
    requires capacity > 0 && HoldsLast(capacity, r, history)
    ensures forall j :: j in Inserted(capacity, r, key, value).slots <==> 0 <= j < Min(|history| + 1, capacity)
  {
    if |history| < capacity {
      ModBelow(|history|, capacity);
    }
  }

  lemma SlotsHold<K(!new), V>(capacity: nat, r: Ring<K, V>, history: seq<(K, V)>, key: K, value: V, i: nat)
    requires capacity > 0 && HoldsLast(capacity, r, history)
    requires Oldest(capacity, |history| + 1) <= i <= |history|
    ensures var slots := Inserted(capacity, r, key, value).slots;
            i % capacity in slots && slots[i % capacity] == (history + [(key, value)])[i].0
  {
    if i < |history| {
      ModStep(i, |history| - i, capacity);
    }
  }

  /** What the reused slot held: the oldest entry kept so far, when the ring is full. */
  lemma Dropped<K(!new), V>(capacity: nat, r: Ring<K, V>, history: seq<(K, V)>)
    requires capacity > 0 && HoldsLast(capacity, r, history)
    ensures r.pointer in r.slots <==> |history| >= capacity
    ensures |history| >= capacity ==> r.slots[r.pointer] == history[|history| - capacity].0
  {
    var n := |history|;
    if n < capacity {
      ModBelow(n, capacity);
    } else {
      var i := n - capacity;
      ModStep(i, capacity - 1, capacity);
      ModSucc(n - 1, capacity);
      assert i % capacity == n % capacity;
    }
  }

  lemma EntriesAfter<K(!new), V>(
      capacity: nat, entries: map<K, V>, history: seq<(K, V)>, key: K, value: V, entries': map<K, V>)
    requires capacity > 0 && HoldsEntries(capacity, entries, history)
    requires DistinctKeys(history + [(key, value)])
    requires entries' == if |history| < capacity then entries[key := value]
                         else entries[key := value] - {history[|history| - capacity].0}
    ensures HoldsEntries(capacity, entries', history + [(key, value)])
  {
    var n, h := |history|, history + [(key, value)];
    forall i: nat, k | KeptAt(capacity, h, i, k)
      ensures k in entries' && entries'[k] == h[i].1
    {
      assert n >= capacity ==> h[n - capacity].0 != h[i].0;
      if i < n {
        assert h[i] == history[i] && h[i].0 != h[n].0;
        assert KeptAt(capacity, history, i, k);
      }
    }
    forall k | k in entries'
      ensures exists i: nat :: KeptAt(capacity, h, i, k)
    {
      if k == key {
        assert KeptAt(capacity, h, n, k);
      } else {
        var i: nat :| KeptAt(capacity, history, i, k);
        assert h[i] == history[i];
        assert KeptAt(capacity, h, i, k);
      }
    }
  }

  lemma InsertedHoldsLast<K(!new), V>(capacity: nat, r: Ring<K, V>, history: seq<(K, V)>, key: K, value: V)
    requires capacity > 0 && HoldsLast(capacity, r, history)
    requires DistinctKeys(history + [(key, value)])
    ensures HoldsLast(capacity, Inserted(capacity, r, key, value), history + [(key, value)])
  {
    ModSucc(|history|, capacity);
    ModSucc(r.pointer, capacity);
    ModBelow(r.pointer, capacity);
    SlotsAfter(capacity, r, history, key, value);
    forall i | Oldest(capacity, |history| + 1) <= i < |history| + 1
      ensures var slots := Inserted(capacity, r, key, value).slots;
              i % capacity in slots && slots[i % capacity] == (history + [(key, value)])[i].0
    {
      SlotsHold(capacity, r, history, key, value, i);
    }
    Dropped(capacity, r, history);
    EntriesAfter(capacity, r.entries, history, key, value, Inserted(capacity, r, key, value).entries);
  }

  /** Any history of distinct keys: the ring holds exactly its last `min(n, capacity)` insertions. */
  lemma {:induction false} FromHistoryHoldsLast<K(!new), V>(capacity: nat, history: seq<(K, V)>)
    requires capacity > 0 && DistinctKeys(history)
    ensures HoldsLast(capacity, FromHistory(capacity, history), history)
  {
    if history == [] {
      assert 0 % capacity == 0;
    } else {
      var last := |history| - 1;
      FromHistoryHoldsLast(capacity, history[..last]);
      var (key, value) := history[last];
      assert history == history[..last] + [(key, value)];
      InsertedHoldsLast(capacity, FromHistory(capacity, history[..last]), history[..last], key, value);
    }
  }
}
