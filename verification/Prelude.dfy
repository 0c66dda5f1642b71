/** Small definitions shared by all modules. */
module Prelude {

  datatype Option<+T> = None | Some(value: T)
  datatype Result<+T, +E> = Ok(value: T) | Err(error: E)

  function Min(a: int, b: int): int {
    if a < b then a else b
  }

  function Max(a: int, b: int): int {
    if a < b then b else a
  }

  function SaturatingSub(a: nat, b: nat): nat {
    if a < b then 0 else a - b
  }

  /** Weight has two independent components. */
  datatype Weight = Weight(refTime: nat, proofSize: nat) {
    predicate AnyGt(other: Weight) {
      refTime > other.refTime || proofSize > other.proofSize
    }

    function Plus(other: Weight): Weight {
      Weight(refTime + other.refTime, proofSize + other.proofSize)
    }

    function Minus(other: Weight): Weight
      requires !other.AnyGt(this)
    {
      Weight(refTime - other.refTime, proofSize - other.proofSize)
    }

    function SaturatingMinus(other: Weight): Weight {
      Weight(SaturatingSub(refTime, other.refTime), SaturatingSub(proofSize, other.proofSize))
    }

    function Least(other: Weight): Weight {
      Weight(Min(refTime, other.refTime), Min(proofSize, other.proofSize))
    }
  }

  const ZERO_WEIGHT := Weight(0, 0)

  lemma EmptyOrHasMember<T>(s: seq<T>)
    ensures s == [] || exists x :: x in s
  {
    if s != [] {
      assert s[0] in s;
    }
  }

  /** How often `r` occurs in `s`. */
  function Count<T(==)>(s: seq<T>, r: T): nat {
    if s == [] then 0 else Count(s[..|s| - 1], r) + (if s[|s| - 1] == r then 1 else 0)
  }

  lemma {:induction false} CountConcat<T>(a: seq<T>, b: seq<T>, r: T)
    ensures Count(a + b, r) == Count(a, r) + Count(b, r)
  {
    if b == [] {
      assert a + b == a;
    } else {
      assert (a + b)[..|a + b| - 1] == a + b[..|b| - 1];
      CountConcat(a, b[..|b| - 1], r);
    }
  }
}
