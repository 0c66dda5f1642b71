/** The draining iterator over recorded misbehaviour. */
module MisbehaviorDrain {
  import opened Prelude
  import opened StatementTable

  type Entry = (AuthorityId, seq<Misbehavior>)
  type Item = (AuthorityId, Misbehavior)

  function Reversed(s: seq<Misbehavior>): (r: seq<Misbehavior>)
    ensures |r| == |s| && forall i | 0 <= i < |s| :: r[i] == s[|s| - 1 - i]
  {
    if s == [] then [] else [s[|s| - 1]] + Reversed(s[..|s| - 1])
  }

  /** The reports of one authority, in recorded order. */
  function Items(id: AuthorityId, list: seq<Misbehavior>): seq<Item> {
    if list == [] then [] else [(id, list[0])] + Items(id, list[1..])
  }

  /** What is left of the entry at hand: its list is kept reversed and taken from the end. */
  datatype InProgress = InProgress(id: AuthorityId, misbehaviors: seq<Misbehavior>)

  function ItemsLeft(p: Option<InProgress>): seq<Item> {
    match p
    case None => []
    case Some(p) => Items(p.id, Reversed(p.misbehaviors))
  }

  /** All reports of all entries. */
  function Flatten(drain: seq<Entry>): seq<Item> {
    if drain == [] then [] else Items(drain[0].0, drain[0].1) + Flatten(drain[1..])
  }

  /** The reports that come before the iterator says `None` for the first time: an empty entry stops it. */
  function UntilEmpty(drain: seq<Entry>): seq<Item> {
    if drain == [] || drain[0].1 == [] then [] else Items(drain[0].0, drain[0].1) + UntilEmpty(drain[1..])
  }

  class DrainMisbehaviors {
    var drain: seq<Entry>
    var inProgress: Option<InProgress>

    ghost function Pending(): seq<Item>
      reads this
    {
      ItemsLeft(inProgress) + UntilEmpty(drain)
    }

    constructor (drain: seq<Entry>)
      ensures Pending() == UntilEmpty(drain) && this.drain == drain && inProgress == None
    {
      this.drain, inProgress := drain, None;
    }

    method MaybeItem() returns (item: Option<Item>)
      modifies this`inProgress
      ensures item == (if ItemsLeft(old(inProgress)) == [] then None else Some(ItemsLeft(old(inProgress))[0]))
      ensures item.None? ==> ItemsLeft(inProgress) == []
      ensures item.Some? ==> ItemsLeft(inProgress) == ItemsLeft(old(inProgress))[1..]
    {
      if inProgress.None? || inProgress.value.misbehaviors == [] { return None; }
      var InProgress(id, list) := inProgress.value;
      var n := |list| - 1;
      ReversedPop(list);
      inProgress := Some(InProgress(id, list[..n]));
      return Some((id, list[n]));
    }

    /** The next report in recorded order; `None` exactly when nothing is pending. */
    method Next() returns (item: Option<Item>)
      modifies this
      ensures item == (if old(Pending()) == [] then None else Some(old(Pending())[0]))
      ensures item.Some? ==> Pending() == old(Pending())[1..]
    {
      ghost var left, later := ItemsLeft(inProgress), UntilEmpty(drain);
      item := MaybeItem();
      if item.Some? {
        TailOfConcat(left, later);
      } else {
        assert left + later == later;
        if drain == [] {
          inProgress := None;
        } else {
          ReversedTwice(drain[0].1);
          inProgress := Some(InProgress(drain[0].0, Reversed(drain[0].1)));
          drain := drain[1..];
        }
        ghost var entry, rest := ItemsLeft(inProgress), UntilEmpty(drain);
        assert entry != [] ==> later == entry + rest;
        assert entry == [] ==> later == [];
        item := MaybeItem();
        if item.Some? { TailOfConcat(entry, rest); }
      }
    }

    /** Taking items until `None` yields everything pending, and ends. */
    method Collect() returns (items: seq<Item>)
      modifies this
      ensures items == old(Pending())
    {
      items := [];
      ghost var all := Pending();
      TakeOne([], all);
      var item := Next();
      while item.Some?
        invariant item.Some? ==> (items + [item.value]) + Pending() == all
        invariant item.None? ==> items == all
        decreases if item.Some? then |Pending()| + 1 else 0
      {
        items := items + [item.value];
        ghost var rest := Pending();
        TakeOne(items, rest);
        item := Next();
      }
    }
  }

  lemma TakeOne(x: seq<Item>, y: seq<Item>)
    ensures y == [] ==> x + y == x
    ensures y != [] ==> (x + [y[0]]) + y[1..] == x + y
  {
  }

  lemma TailOfConcat(x: seq<Item>, y: seq<Item>)
    requires x != []
    ensures (x + y)[0] == x[0] && (x + y)[1..] == x[1..] + y
  {
  }

  lemma ReversedPop(list: seq<Misbehavior>)
    requires list != []
    ensures Reversed(list) == [list[|list| - 1]] + Reversed(list[..|list| - 1])
  {
  }

  lemma ReversedTwice(list: seq<Misbehavior>)
    ensures Reversed(Reversed(list)) == list
  {
  }

  /** No empty entry stands before a non-empty one. */
  ghost predicate NoGap(drain: seq<Entry>) {
    forall i, j | 0 <= i < j < |drain| && drain[j].1 != [] :: drain[i].1 != []
  }

  lemma {:induction false} FlattenEmptyIff(drain: seq<Entry>)
    ensures Flatten(drain) == [] <==> forall i | 0 <= i < |drain| :: drain[i].1 == []
  {
    if drain != [] {
      FlattenEmptyIff(drain[1..]);
      assert forall i | 0 < i < |drain| :: drain[i] == drain[1..][i - 1];
      assert Items(drain[0].0, drain[0].1) == [] <==> drain[0].1 == [];
    }
  }

  lemma SameTail(head: seq<Item>, x: seq<Item>, y: seq<Item>)
    ensures head + x == head + y <==> x == y
  {
    assert (head + x)[|head|..] == x && (head + y)[|head|..] == y;
  }

  /** Behind an empty entry nothing comes out. */
  lemma EmptyFirstIff(drain: seq<Entry>)
    requires drain != [] && drain[0].1 == []
    ensures UntilEmpty(drain) == Flatten(drain) <==> NoGap(drain)
  {
    FlattenEmptyIff(drain);
    if Flatten(drain) != [] {
      var j :| 0 <= j < |drain| && drain[j].1 != [];
      assert !NoGap(drain);
    }
  }

  /** The iterator yields every report if and only if no empty entry stands before a non-empty one. */
  lemma {:induction false} YieldsAllIff(drain: seq<Entry>)
    ensures UntilEmpty(drain) == Flatten(drain) <==> NoGap(drain)
  {
    if drain != [] {
      var rest := drain[1..];
      if drain[0].1 == [] {
        EmptyFirstIff(drain);
      } else {
        YieldsAllIff(rest);
        SameTail(Items(drain[0].0, drain[0].1), UntilEmpty(rest), Flatten(rest));
        NoGapTail(drain);
      }
    }
  }

  lemma NoGapTail(drain: seq<Entry>)
    requires drain != [] && drain[0].1 != []
    ensures NoGap(drain) <==> NoGap(drain[1..])
  {
    var rest := drain[1..];
    if NoGap(drain) {
      forall i, j | 0 <= i < j < |rest| && rest[j].1 != []
        ensures rest[i].1 != []
      {
        assert rest[i] == drain[i + 1] && rest[j] == drain[j + 1];
      }
    }
    if NoGap(rest) {
      forall i, j | 0 <= i < j < |drain| && drain[j].1 != []
        ensures drain[i].1 != []
      {
        if i > 0 { assert drain[i] == rest[i - 1] && drain[j] == rest[j - 1]; }
      }
    }
  }

  /** `drain` lists the entries of `reports`, each once, in some order. */
  ghost predicate Enumerates(drain: seq<Entry>, reports: Reports) {
    && (forall i | 0 <= i < |drain| :: drain[i].0 in reports && drain[i].1 == reports[drain[i].0])
    && (forall i, j | 0 <= i < j < |drain| :: drain[i].0 != drain[j].0)
    && (forall a | a in reports :: (a, reports[a]) in drain)
  }

  /** `drain_misbehaviors`: the recorded reports are gone, whatever becomes of the iterator. */
  method StartDrain(table: Table) returns (it: DrainMisbehaviors)
    modifies table`detectedMisbehavior
    ensures table.detectedMisbehavior == map[]
    ensures fresh(it) && Enumerates(it.drain, old(table.detectedMisbehavior)) && it.Pending() == UntilEmpty(it.drain)
  {
    var reports := table.detectedMisbehavior;
    var left := reports.Keys;
    var drain: seq<Entry> := [];
    while left != {}
      invariant left <= reports.Keys
      invariant forall i | 0 <= i < |drain| :: drain[i].0 in reports && drain[i].0 !in left && drain[i].1 == reports[drain[i].0]
      invariant forall i, j | 0 <= i < j < |drain| :: drain[i].0 != drain[j].0
      invariant forall a | a in reports && a !in left :: (a, reports[a]) in drain
      decreases left
    {
      var a :| a in left;
      left := left - {a};
      drain := drain + [(a, reports[a])];
    }
    table.detectedMisbehavior := map[];
    it := new DrainMisbehaviors(drain);
  }

  /** The reports about `a` among `items`, in order. */
  function ReportsOf(items: seq<Item>, a: AuthorityId): seq<Misbehavior> {
    if items == [] then []
    else (if items[0].0 == a then [items[0].1] else []) + ReportsOf(items[1..], a)
  }

  lemma {:induction false} ReportsOfConcat(x: seq<Item>, y: seq<Item>, a: AuthorityId)
    ensures ReportsOf(x + y, a) == ReportsOf(x, a) + ReportsOf(y, a)
  {
    if x == [] {
      assert x + y == y;
    } else {
      TailOfConcat(x, y);
      ReportsOfConcat(x[1..], y, a);
      var head := if x[0].0 == a then [x[0].1] else [];
      assert ReportsOf(x + y, a) == head + ReportsOf(x[1..] + y, a);
      assert head + (ReportsOf(x[1..], a) + ReportsOf(y, a)) == (head + ReportsOf(x[1..], a)) + ReportsOf(y, a);
    }
  }

  lemma {:induction false} ReportsOfItems(id: AuthorityId, list: seq<Misbehavior>, a: AuthorityId)
    ensures ReportsOf(Items(id, list), a) == if id == a then list else []
  {
    if list != [] {
      assert Items(id, list)[1..] == Items(id, list[1..]);
      ReportsOfItems(id, list[1..], a);
    }
  }

  lemma {:induction false} ReportsOfFlatten(drain: seq<Entry>, a: AuthorityId)
    requires forall i, j | 0 <= i < j < |drain| :: drain[i].0 != drain[j].0
    ensures forall i | 0 <= i < |drain| && drain[i].0 == a :: ReportsOf(Flatten(drain), a) == drain[i].1
    ensures (forall i | 0 <= i < |drain| :: drain[i].0 != a) ==> ReportsOf(Flatten(drain), a) == []
  {
    if drain != [] {
      var rest := drain[1..];
      assert forall i | 0 < i < |drain| :: drain[i] == rest[i - 1];
      forall i, j | 0 <= i < j < |rest|
        ensures rest[i].0 != rest[j].0
      {
        assert rest[i] == drain[i + 1] && rest[j] == drain[j + 1];
      }
      ReportsOfFlatten(rest, a);
      ReportsOfConcat(Items(drain[0].0, drain[0].1), Flatten(rest), a);
      ReportsOfItems(drain[0].0, drain[0].1, a);
      assert drain[0].0 == a ==> forall i | 0 <= i < |rest| :: rest[i].0 != a by {
        assert forall i | 0 <= i < |rest| :: rest[i] == drain[i + 1];
      }
    }
  }

  /** Draining records without an empty list yields every report exactly once, each authority's in the order in
      which they were recorded, whatever order the map is walked in. */
  lemma DrainYields(drain: seq<Entry>, reports: Reports, a: AuthorityId)
    requires Enumerates(drain, reports) && forall b | b in reports :: reports[b] != []
    ensures UntilEmpty(drain) == Flatten(drain)
    ensures ReportsOf(UntilEmpty(drain), a) == if a in reports then reports[a] else []
  {
    YieldsAllIff(drain);
    ReportsOfFlatten(drain, a);
    if a in reports {
      assert (a, reports[a]) in drain;
      var i :| 0 <= i < |drain| && drain[i] == (a, reports[a]);
    }
  }
}
