/** Limits on decoding an XCM program: the depth of each input, the nesting of double-encoded calls, and the
    number of instructions, each kept in a counter that the recursive decoder shares and updates. */
module XcmDecode {
  import opened Prelude

  const MAX_XCM_DECODE_DEPTH: nat := 8
  const RECURSION_LIMIT: nat := 10
  const MAX_INSTRUCTIONS_TO_DECODE: nat := 100
  const U32_MAX: nat := 0xFFFF_FFFF

  /** What the bytes under the cursor decode to, as far as the limits are concerned. */
  datatype Value =
    | Plain                                                // fixed-size data
    | Garbage                                              // bytes that do not decode
    | Pair(first: Value, second: Value)                    // fields or items one after the other
    | Boxed(inner: Value)                                  // a box or vector: one level deeper
    | Instructions(declared: nat, body: Value)             // a vector of XCM instructions: one level deeper
    | Call(content: Value, consumed: nat, total: nat)      // a double-encoded value of `total` bytes, of which
                                                           // decoding the content consumes `consumed`

  datatype Error = RecursionLimit | DepthLimit | TooManyInstructions | TrailingData | Malformed

  // ---------------------------------------------------------------- what the counters should amount to

  /** Length of the longest chain of calls, each inside the content of the one before. */
  function Chain(v: Value): nat {
    match v
    case Plain => 0
    case Garbage => 0
    case Pair(a, b) => Max(Chain(a), Chain(b))
    case Boxed(inner) => Chain(inner)
    case Instructions(_, body) => Chain(body)
    case Call(content, _, _) => 1 + Chain(content)
  }

  /** How deep a value goes in its own input; a call is an input of its own. */
  function Depth(v: Value): nat {
    match v
    case Plain => 0
    case Garbage => 0
    case Pair(a, b) => Max(Depth(a), Depth(b))
    case Boxed(inner) => 1 + Depth(inner)
    case Instructions(_, body) => 1 + Depth(body)
    case Call(_, _, _) => 0
  }

  /** Instructions declared anywhere inside, in calls too. */
  function Total(v: Value): nat {
    match v
    case Plain => 0
    case Garbage => 0
    case Pair(a, b) => Total(a) + Total(b)
    case Boxed(inner) => Total(inner)
    case Instructions(n, body) => n + Total(body)
    case Call(content, _, _) => Total(content)
  }

  predicate DepthsFit(v: Value) {
    match v
    case Plain => true
    case Garbage => true
    case Pair(a, b) => DepthsFit(a) && DepthsFit(b)
    case Boxed(inner) => DepthsFit(inner)
    case Instructions(_, body) => DepthsFit(body)
    case Call(content, _, _) => Depth(content) <= MAX_XCM_DECODE_DEPTH && DepthsFit(content)
  }

  predicate BytesFit(v: Value) {
    match v
    case Plain => true
    case Garbage => true
    case Pair(a, b) => BytesFit(a) && BytesFit(b)
    case Boxed(inner) => BytesFit(inner)
    case Instructions(_, body) => BytesFit(body)
    case Call(content, consumed, total) => (consumed == 0 || consumed == total) && BytesFit(content)
  }

  predicate WellFormed(v: Value) {
    match v
    case Plain => true
    case Garbage => false
    case Pair(a, b) => WellFormed(a) && WellFormed(b)
    case Boxed(inner) => WellFormed(inner)
    case Instructions(_, body) => WellFormed(body)
    case Call(content, _, _) => WellFormed(content)
  }

  /** Each outermost program keeps to the cap, counting what is nested in it. */
  predicate ProgramsFit(v: Value) {
    match v
    case Plain => true
    case Garbage => true
    case Pair(a, b) => ProgramsFit(a) && ProgramsFit(b)
    case Boxed(inner) => ProgramsFit(inner)
    case Instructions(n, body) => n + Total(body) <= MAX_INSTRUCTIONS_TO_DECODE
    case Call(content, _, _) => ProgramsFit(content)
  }

  /** The counters a decode starts from: calls it is inside of, instructions counted by the program it is
      inside of, and depth and limit of its input. */
  datatype Env = Env(nesting: Option<nat>, instructions: Option<nat>, depth: nat, limit: Option<nat>)
  {
    function Nesting(): nat {
      if nesting.Some? then nesting.value else 0
    }

    predicate Valid() {
      && (nesting.Some? ==> nesting.value <= RECURSION_LIMIT)
      && (instructions.Some? ==> instructions.value <= MAX_INSTRUCTIONS_TO_DECODE)
      && (limit.Some? ==> depth <= limit.value < U32_MAX)
    }

    /** One level deeper in the same input; an input without a limit does not count. */
    function Deeper(): Env {
      if limit.Some? then this.(depth := depth + 1) else this
    }

    /** After a value with this many instructions. */
    function After(more: nat): Env {
      this.(instructions := Counted(instructions, more))
    }

    /** In the program that declares this many instructions. */
    function InProgram(declared: nat): Env {
      this.(instructions := Some((if instructions.Some? then instructions.value else 0) + declared))
    }

    function InCall(): Env {
      Env(Some(Nesting() + 1), instructions, 0, Some(MAX_XCM_DECODE_DEPTH))
    }
  }

  function Counted(count: Option<nat>, more: nat): Option<nat> {
    if count.None? then None else Some(count.value + more)
  }

  /** Whether a value keeps to the limit that an error reports. */
  predicate Respects(v: Value, env: Env, e: Error) {
    match e
    case RecursionLimit => env.Nesting() + Chain(v) <= RECURSION_LIMIT
    case DepthLimit => (env.limit.Some? ==> env.depth + Depth(v) <= env.limit.value) && DepthsFit(v)
    case TooManyInstructions =>
      if env.instructions.Some? then env.instructions.value + Total(v) <= MAX_INSTRUCTIONS_TO_DECODE
      else ProgramsFit(v)
    case TrailingData => BytesFit(v)
    case Malformed => WellFormed(v)
  }

  ghost predicate Fits(v: Value, env: Env) {
    forall e :: Respects(v, env, e)
  }

  /** A result that accepts what fits and otherwise names a limit that is exceeded. */
  ghost predicate Decided(v: Value, env: Env, r: Result<(), Error>) {
    match r
    case Ok(_) => Fits(v, env)
    case Err(e) => !Respects(v, env, e)
  }

  /** And a success that leaves the nesting counter and the depth as they were, and counts the value's
      instructions for the program it is part of. */
  ghost predicate Outcome(v: Value, env: Env, r: Result<(), Error>, env': Env) {
    Decided(v, env, r) && (r.Ok? ==> env' == env.After(Total(v)))
  }

  // ---------------------------------------------------------------- the limits, constructor by constructor

  lemma PairRespects(a: Value, b: Value, env: Env, e: Error)
    ensures Respects(Pair(a, b), env, e) <==> Respects(a, env, e) && Respects(b, env.After(Total(a)), e)
  {
  }

  lemma FirstFails(a: Value, b: Value, env: Env, r: Result<(), Error>)
    requires r.Err? && Decided(a, env, r)
    ensures Decided(Pair(a, b), env, r)
  {
    PairRespects(a, b, env, r.error);
  }

  lemma FirstFits(a: Value, b: Value, env: Env, r: Result<(), Error>)
    requires Fits(a, env) && Decided(b, env.After(Total(a)), r)
    ensures Decided(Pair(a, b), env, r)
  {
    forall e {
      PairRespects(a, b, env, e);
    }
  }

  lemma ValidAfter(a: Value, env: Env)
    requires env.Valid() && Fits(a, env)
    ensures env.After(Total(a)).Valid()
  {
    assert Respects(a, env, TooManyInstructions);
  }

  lemma BoxedDecided(inner: Value, env: Env, r: Result<(), Error>)
    requires Decided(inner, env.Deeper(), r)
    ensures Decided(Boxed(inner), env, r)
  {
    forall e
      ensures Respects(Boxed(inner), env, e) <==> Respects(inner, env.Deeper(), e)
    {
    }
  }

  lemma InstructionsDecided(n: nat, body: Value, env: Env, r: Result<(), Error>)
    requires Decided(Boxed(body), env.InProgram(n), r)
    ensures Decided(Instructions(n, body), env, r)
  {
    forall e
      ensures Respects(Instructions(n, body), env, e) <==> Respects(Boxed(body), env.InProgram(n), e)
    {
    }
  }

  /** A vector in a program that is being counted. */
  lemma CountedOutcome(n: nat, body: Value, env: Env, r: Result<(), Error>, env': Env)
    requires env.instructions.Some? && Outcome(Boxed(body), env.InProgram(n), r, env')
    ensures Outcome(Instructions(n, body), env, r, env')
  {
    InstructionsDecided(n, body, env, r);
  }

  lemma TooManyDecided(n: nat, body: Value, env: Env)
    requires env.instructions.Some? && env.instructions.value + n > MAX_INSTRUCTIONS_TO_DECODE
    ensures Decided(Instructions(n, body), env, Err(TooManyInstructions))
  {
  }

  /** One value after the other. */
  lemma PairOutcome(a: Value, b: Value, env: Env, r: Result<(), Error>, env': Env)
    requires Fits(a, env) && Outcome(b, env.After(Total(a)), r, env')
    ensures Outcome(Pair(a, b), env, r, env')
  {
    FirstFits(a, b, env, r);
  }

  lemma CallDecided(content: Value, consumed: nat, total: nat, env: Env, r: Result<(), Error>)
    requires env.Valid() && Decided(content, env.InCall(), r)
    ensures Decided(Call(content, consumed, total), env,
                    if r.Ok? && consumed != 0 && consumed != total then Err(TrailingData) else r)
  {
    forall e
      ensures Respects(Call(content, consumed, total), env, e) <==>
                Respects(content, env.InCall(), e) && (e == TrailingData ==> consumed == 0 || consumed == total)
    {
    }
  }

  /** The outermost program starts counting at zero. */
  lemma FreshProgram(n: nat, body: Value, env: Env, r: Result<(), Error>)
    requires env.instructions.None? && Decided(Instructions(n, body), env.(instructions := Some(0)), r)
    ensures Decided(Instructions(n, body), env, r)
  {
    forall e
      ensures Respects(Instructions(n, body), env, e) <==> Respects(Instructions(n, body), env.(instructions := Some(0)), e)
    {
    }
  }

  /** The outermost call starts counting at zero. */
  lemma FreshNesting(v: Value, env: Env, r: Result<(), Error>)
    requires env.nesting.None? && Decided(v, env.(nesting := Some(0)), r)
    ensures Decided(v, env, r)
  {
    forall e
      ensures Respects(v, env, e) <==> Respects(v, env.(nesting := Some(0)), e)
    {
    }
  }

  // ---------------------------------------------------------------- the decoder

  function SaturatingAdd(a: nat, b: nat): nat {
    Min(a + b, U32_MAX)
  }

  /** One input with its depth; a nested input has the limit of nested inputs. */
  class Input {
    var depth: nat
    const limit: Option<nat>

    constructor (limit: Option<nat>)
      ensures this.limit == limit && depth == 0
    {
      this.limit := limit;
      depth := 0;
    }

    /** An input without a limit does not keep a depth. */
    method DescendRef() returns (ok: bool)
      modifies this`depth
      ensures depth == if limit.Some? then SaturatingAdd(old(depth), 1) else old(depth)
      ensures ok <==> limit.None? || depth <= limit.value
    {
      if limit.None? {
        return true;
      }
      depth := SaturatingAdd(depth, 1);
      return depth <= limit.value;
    }

    method AscendRef()
      modifies this`depth
      ensures depth == if limit.Some? then SaturatingSub(old(depth), 1) else old(depth)
    {
      if limit.Some? {
        depth := SaturatingSub(depth, 1);
      }
    }
  }

  /** The two counters that nested decodes share; `None` outside any call, or any program. */
  class Counters {
    var nesting: Option<nat>
    var instructions: Option<nat>

    constructor ()
      ensures nesting == None && instructions == None
    {
      nesting, instructions := None, None;
    }

    function Now(input: Input): Env
      reads this, input
    {
      Env(nesting, instructions, input.depth, input.limit)
    }

    /** A decode succeeds exactly when the value fits. It then leaves the nesting counter and the depth as they
        were, so siblings do not add up, and adds the value's instructions to the program it is part of. An
        error names a limit that really is exceeded. */
    method Decode(v: Value, input: Input) returns (r: Result<(), Error>)
      requires Now(input).Valid()
      modifies this, input
      decreases v, 1
      ensures Outcome(v, old(Now(input)), r, Now(input))
    {
      match v
      case Plain =>
        return Ok(());
      case Garbage =>
        return Err(Malformed);
      case Pair(first, second) =>
        r := DecodePair(first, second, input);
      case Boxed(inner) =>
        r := DecodeBoxed(inner, input);
      case Instructions(declared, body) =>
        r := DecodeInstructions(declared, body, input);
      case Call(content, consumed, total) =>
        r := DecodeCall(content, consumed, total, input);
    }

    method DecodePair(first: Value, second: Value, input: Input) returns (r: Result<(), Error>)
      requires Now(input).Valid()
      modifies this, input
      decreases Pair(first, second), 0
      ensures Outcome(Pair(first, second), old(Now(input)), r, Now(input))
    {
      ghost var env := Now(input);
      r := Decode(first, input);
      if r.Err? {
        FirstFails(first, second, env, r);
        return;
      }
      ValidAfter(first, env);
      assert Now(input) == env.After(Total(first));
      r := Decode(second, input);
      PairOutcome(first, second, env, r, Now(input));
    }

    method DecodeBoxed(inner: Value, input: Input) returns (r: Result<(), Error>)
      requires Now(input).Valid()
      modifies this, input
      decreases inner, 2
      ensures Outcome(Boxed(inner), old(Now(input)), r, Now(input))
    {
      ghost var env := Now(input);
      var ok := input.DescendRef();
      if !ok {
        return Err(DepthLimit);
      }
      r := Decode(inner, input);
      BoxedDecided(inner, env, r);
      if r.Ok? {
        input.AscendRef();
      }
    }

    method DecodeInstructions(declared: nat, body: Value, input: Input) returns (r: Result<(), Error>)
      requires Now(input).Valid()
      modifies this, input
      decreases body, 4
      ensures Outcome(Instructions(declared, body), old(Now(input)), r, Now(input))
    {
      ghost var env := Now(input);
      var outermost := instructions.None?;
      if outermost {
        instructions := Some(0);
      }
      r := DecodeCounted(declared, body, input);
      if outermost {
        FreshProgram(declared, body, env, r);
        instructions := None;
      }
    }

    /** The vector itself, with the instruction counter in place. */
    method DecodeCounted(declared: nat, body: Value, input: Input) returns (r: Result<(), Error>)
      requires instructions.Some? && Now(input).Valid()
      modifies this, input
      decreases body, 3
      ensures Outcome(Instructions(declared, body), old(Now(input)), r, Now(input))
    {
      ghost var env := Now(input);
      var count := SaturatingAdd(instructions.value, declared);
      instructions := Some(count);
      if count > MAX_INSTRUCTIONS_TO_DECODE {
        TooManyDecided(declared, body, env);
        return Err(TooManyInstructions);
      }
      assert Now(input) == env.InProgram(declared);
      r := DecodeBoxed(body, input);
      CountedOutcome(declared, body, env, r, Now(input));
    }

    method DecodeCall(content: Value, consumed: nat, total: nat, input: Input) returns (r: Result<(), Error>)
      requires Now(input).Valid()
      modifies this
      decreases content, 4
      ensures Outcome(Call(content, consumed, total), old(Now(input)), r, Now(input))
    {
      ghost var env := Now(input);
      var outermost := nesting.None?;
      if outermost {
        nesting := Some(0);
      }
      r := DecodeNested(content, consumed, total, input);
      if outermost {
        FreshNesting(Call(content, consumed, total), env, r);
        nesting := None;
      }
    }

    /** The call itself, with the nesting counter in place. */
    method DecodeNested(content: Value, consumed: nat, total: nat, input: Input) returns (r: Result<(), Error>)
      requires nesting.Some? && Now(input).Valid()
      modifies this
      decreases content, 3
      ensures Outcome(Call(content, consumed, total), old(Now(input)), r, Now(input))
    {
      ghost var env := Now(input);
      nesting := Some(SaturatingAdd(nesting.value, 1));
      if nesting.value > RECURSION_LIMIT {
        assert env.Nesting() + Chain(Call(content, consumed, total)) > RECURSION_LIMIT;
        return Err(RecursionLimit);
      }
      var nested := new Input(Some(MAX_XCM_DECODE_DEPTH));
      assert Now(nested) == env.InCall();
      r := Decode(content, nested);
      CallDecided(content, consumed, total, env, r);
      if r.Err? {
        return;
      }
      if consumed != 0 && consumed != total {
        return Err(TrailingData);
      }
      nesting := Some(SaturatingSub(nesting.value, 1));
    }
  }

  // ---------------------------------------------------------------- the limits, as a reader would state them

  /** Whether `w` is `v` or sits anywhere inside it. */
  predicate Within(w: Value, v: Value) {
    w == v ||
    match v
    case Plain => false
    case Garbage => false
    case Pair(a, b) => Within(w, a) || Within(w, b)
    case Boxed(inner) => Within(w, inner)
    case Instructions(_, body) => Within(w, body)
    case Call(content, _, _) => Within(w, content)
  }

  /** Calls, each inside the content of the one before, the first anywhere in `v`. */
  predicate IsChain(calls: seq<Value>, v: Value)
    decreases |calls|
  {
    calls == [] || (calls[0].Call? && Within(calls[0], v) && IsChain(calls[1..], calls[0].content))
  }

  lemma {:induction false} InnerChain(w: Value, v: Value)
    requires Within(w, v)
    ensures Chain(w) <= Chain(v)
  {
    if w != v {
      match v
      case Pair(a, b) =>
        if Within(w, a) {
          InnerChain(w, a);
        } else {
          InnerChain(w, b);
        }
      case Boxed(inner) => InnerChain(w, inner);
      case Instructions(_, body) => InnerChain(w, body);
      case Call(content, _, _) => InnerChain(w, content);
    }
  }

  /** No chain of calls is longer than the counter's measure. */
  lemma {:induction false} ChainBounds(calls: seq<Value>, v: Value)
    requires IsChain(calls, v)
    ensures |calls| <= Chain(v)
    decreases |calls|
  {
    if calls != [] {
      ChainBounds(calls[1..], calls[0].content);
      InnerChain(calls[0], v);
    }
  }

  lemma IsChainAround(calls: seq<Value>, inner: Value, v: Value)
    requires IsChain(calls, inner)
    requires forall w | Within(w, inner) :: Within(w, v)
    ensures IsChain(calls, v)
  {
  }

  /** And some chain is as long. */
  lemma {:induction false} LongestChain(v: Value) returns (calls: seq<Value>)
    ensures IsChain(calls, v) && |calls| == Chain(v)
  {
    match v
    case Plain => calls := [];
    case Garbage => calls := [];
    case Pair(a, b) =>
      if Chain(a) >= Chain(b) {
        calls := LongestChain(a);
        IsChainAround(calls, a, v);
      } else {
        calls := LongestChain(b);
        IsChainAround(calls, b, v);
      }
    case Boxed(inner) =>
      calls := LongestChain(inner);
      IsChainAround(calls, inner, v);
    case Instructions(_, body) =>
      calls := LongestChain(body);
      IsChainAround(calls, body, v);
    case Call(content, _, _) =>
      calls := LongestChain(content);
      calls := [v] + calls;
  }

  /** Whether `w` is `v` or sits inside it without a call in between. */
  predicate InInput(w: Value, v: Value) {
    w == v ||
    match v
    case Plain => false
    case Garbage => false
    case Pair(a, b) => InInput(w, a) || InInput(w, b)
    case Boxed(inner) => InInput(w, inner)
    case Instructions(_, body) => InInput(w, body)
    case Call(_, _, _) => false
  }

  predicate IsLevel(w: Value) {
    w.Boxed? || w.Instructions?
  }

  function Below(w: Value): Value
    requires IsLevel(w)
  {
    if w.Boxed? then w.inner else w.body
  }

  /** Boxes and vectors, each inside the one before and all in one input. */
  predicate IsDescent(levels: seq<Value>, v: Value)
    decreases |levels|
  {
    levels == [] || (IsLevel(levels[0]) && InInput(levels[0], v) && IsDescent(levels[1..], Below(levels[0])))
  }

  lemma {:induction false} InnerDepth(w: Value, v: Value)
    requires InInput(w, v)
    ensures Depth(w) <= Depth(v)
  {
    if w != v {
      match v
      case Pair(a, b) =>
        if InInput(w, a) {
          InnerDepth(w, a);
        } else {
          InnerDepth(w, b);
        }
      case Boxed(inner) => InnerDepth(w, inner);
      case Instructions(_, body) => InnerDepth(w, body);
    }
  }

  lemma {:induction false} DescentBounds(levels: seq<Value>, v: Value)
    requires IsDescent(levels, v)
    ensures |levels| <= Depth(v)
    decreases |levels|
  {
    if levels != [] {
      DescentBounds(levels[1..], Below(levels[0]));
      InnerDepth(levels[0], v);
    }
  }

  lemma IsDescentAround(levels: seq<Value>, inner: Value, v: Value)
    requires IsDescent(levels, inner)
    requires forall w | InInput(w, inner) :: InInput(w, v)
    ensures IsDescent(levels, v)
  {
  }

  lemma {:induction false} DeepestDescent(v: Value) returns (levels: seq<Value>)
    ensures IsDescent(levels, v) && |levels| == Depth(v)
  {
    match v
    case Plain => levels := [];
    case Garbage => levels := [];
    case Call(_, _, _) => levels := [];
    case Pair(a, b) =>
      if Depth(a) >= Depth(b) {
        levels := DeepestDescent(a);
        IsDescentAround(levels, a, v);
      } else {
        levels := DeepestDescent(b);
        IsDescentAround(levels, b, v);
      }
    case Boxed(inner) =>
      levels := DeepestDescent(inner);
      levels := [v] + levels;
    case Instructions(_, body) =>
      levels := DeepestDescent(body);
      levels := [v] + levels;
  }

  /** A value is within a depth exactly when no descent through its own input is longer. */
  lemma DepthIff(v: Value, n: nat)
    ensures Depth(v) <= n <==> forall levels | IsDescent(levels, v) :: |levels| <= n
  {
    var deepest := DeepestDescent(v);
    forall levels | IsDescent(levels, v)
      ensures |levels| <= Depth(v)
    {
      DescentBounds(levels, v);
    }
  }

  predicate CallFits(w: Value) {
    w.Call? ==> Depth(w.content) <= MAX_XCM_DECODE_DEPTH && (w.consumed == 0 || w.consumed == w.total)
  }

  lemma {:induction false} CallsFitIff(v: Value)
    ensures DepthsFit(v) && BytesFit(v) <==> forall w | Within(w, v) :: CallFits(w)
  {
    assert Within(v, v);
    match v
    case Plain =>
    case Garbage =>
    case Pair(a, b) =>
      CallsFitIff(a);
      CallsFitIff(b);
      assert forall w | Within(w, a) || Within(w, b) :: Within(w, v);
    case Boxed(inner) =>
      CallsFitIff(inner);
      assert forall w | Within(w, inner) :: Within(w, v);
    case Instructions(_, body) =>
      CallsFitIff(body);
      assert forall w | Within(w, body) :: Within(w, v);
    case Call(content, _, _) =>
      CallsFitIff(content);
      assert forall w | Within(w, content) :: Within(w, v);
      assert DepthsFit(v) && BytesFit(v) <==> CallFits(v) && DepthsFit(content) && BytesFit(content);
  }

  lemma {:induction false} WellFormedIff(v: Value)
    ensures WellFormed(v) <==> !Within(Garbage, v)
  {
    match v
    case Plain =>
    case Garbage =>
    case Pair(a, b) =>
      WellFormedIff(a);
      WellFormedIff(b);
    case Boxed(inner) => WellFormedIff(inner);
    case Instructions(_, body) => WellFormedIff(body);
    case Call(content, _, _) => WellFormedIff(content);
  }

  lemma {:induction false} InnerTotal(w: Value, v: Value)
    requires Within(w, v)
    ensures Total(w) <= Total(v)
  {
    if w != v {
      match v
      case Pair(a, b) =>
        if Within(w, a) {
          InnerTotal(w, a);
        } else {
          InnerTotal(w, b);
        }
      case Boxed(inner) => InnerTotal(w, inner);
      case Instructions(_, body) => InnerTotal(w, body);
      case Call(content, _, _) => InnerTotal(w, content);
    }
  }

  predicate ProgramFits(w: Value) {
    w.Instructions? ==> Total(w) <= MAX_INSTRUCTIONS_TO_DECODE
  }

  lemma {:induction false} ProgramsFitIff(v: Value)
    ensures ProgramsFit(v) <==> forall w | Within(w, v) :: ProgramFits(w)
  {
    assert Within(v, v);
    match v
    case Plain =>
    case Garbage =>
    case Pair(a, b) =>
      ProgramsFitIff(a);
      ProgramsFitIff(b);
      assert forall w | Within(w, a) || Within(w, b) :: Within(w, v);
    case Boxed(inner) =>
      ProgramsFitIff(inner);
      assert forall w | Within(w, inner) :: Within(w, v);
    case Instructions(_, body) =>
      forall w | Within(w, v)
        ensures Total(w) <= Total(v)
      {
        InnerTotal(w, v);
      }
      assert ProgramsFit(v) <==> ProgramFits(v);
    case Call(content, _, _) =>
      ProgramsFitIff(content);
      assert forall w | Within(w, content) :: Within(w, v);
  }

  /** A decode from scratch, of an input with or without a depth limit. */
  function Fresh(limit: Option<nat>): Env {
    Env(None, None, 0, limit)
  }

  /** What a decode from scratch accepts: a value within the depth limit of its own input, if there is one, with no
      chain of calls above the recursion limit, every call within its own depth and either remote or consumed to the
      end, every program within the cap, and no undecodable bytes. */
  lemma AcceptedIff(v: Value, limit: Option<nat>)
    ensures Fits(v, Fresh(limit)) <==>
              && (limit.Some? ==> Depth(v) <= limit.value)
              && (forall calls | IsChain(calls, v) :: |calls| <= RECURSION_LIMIT)
              && (forall w | Within(w, v) :: CallFits(w) && ProgramFits(w))
              && !Within(Garbage, v)
  {
    CallsFitIff(v);
    ProgramsFitIff(v);
    WellFormedIff(v);
    var longest := LongestChain(v);
    forall calls | IsChain(calls, v)
      ensures |calls| <= Chain(v)
    {
      ChainBounds(calls, v);
    }
    var env := Fresh(limit);
    assert Respects(v, env, RecursionLimit) <==> Chain(v) <= RECURSION_LIMIT;
    assert Respects(v, env, DepthLimit) <==> (limit.Some? ==> Depth(v) <= limit.value) && DepthsFit(v);
    assert Respects(v, env, TooManyInstructions) <==> ProgramsFit(v);
    assert Respects(v, env, TrailingData) <==> BytesFit(v);
    assert Respects(v, env, Malformed) <==> WellFormed(v);
  }

  // ---------------------------------------------------------------- decoding a call again, on its own

  /** A decode with the depth limit of nested inputs and counters of its own. */
  const ALONE := Fresh(Some(MAX_XCM_DECODE_DEPTH))

  lemma {:induction false} WithinTransitive(u: Value, w: Value, v: Value)
    requires Within(u, w) && Within(w, v)
    ensures Within(u, v)
  {
    if w != v {
      match v
      case Pair(a, b) =>
        if Within(w, a) {
          WithinTransitive(u, w, a);
        } else {
          WithinTransitive(u, w, b);
        }
      case Boxed(inner) => WithinTransitive(u, w, inner);
      case Instructions(_, body) => WithinTransitive(u, w, body);
      case Call(content, _, _) => WithinTransitive(u, w, content);
    }
  }

  lemma ProgramsFitInside(v: Value, env: Env)
    requires Respects(v, env, TooManyInstructions)
    ensures forall w | Within(w, v) :: ProgramFits(w)
  {
    if env.instructions.Some? {
      forall w | Within(w, v)
        ensures ProgramFits(w)
      {
        InnerTotal(w, v);
      }
    } else {
      ProgramsFitIff(v);
    }
  }

  lemma InsideFits(w: Value, v: Value, env: Env)
    requires Fits(v, env) && Within(w, v)
    ensures Chain(w) <= RECURSION_LIMIT && DepthsFit(w) && BytesFit(w) && ProgramsFit(w) && WellFormed(w)
  {
    assert Respects(v, env, RecursionLimit) && Respects(v, env, DepthLimit) && Respects(v, env, TooManyInstructions)
        && Respects(v, env, TrailingData) && Respects(v, env, Malformed);
    InnerChain(w, v);
    CallsFitIff(v);
    WellFormedIff(v);
    ProgramsFitInside(v, env);
    forall u | Within(u, w)
      ensures Within(u, v)
    {
      WithinTransitive(u, w, v);
    }
    CallsFitIff(w);
    WellFormedIff(w);
    ProgramsFitIff(w);
  }

  /** Every call accepted as part of a larger decode, wherever it sits and whatever the counters were, has a
      content that fits on its own. */
  lemma AcceptedCallsFitAlone(w: Value, v: Value, env: Env)
    requires Fits(v, env) && Within(w, v) && w.Call?
    ensures Fits(w.content, ALONE)
  {
    assert Within(w.content, w);
    InsideFits(w, v, env);
  }

  /** A double-encoded value with its cache. */
  class DoubleEncoded {
    const content: Value
    const consumed: nat
    const total: nat
    var decoded: bool

    constructor (content: Value, consumed: nat, total: nat)
      ensures this.content == content && this.consumed == consumed && this.total == total && !decoded
    {
      this.content, this.consumed, this.total := content, consumed, total;
      decoded := false;
    }

    method EnsureDecoded() returns (ok: bool)
      modifies this`decoded
      ensures ok == decoded
      ensures ok <==> old(decoded) || (Fits(content, ALONE) && consumed == total)
    {
      if !decoded {
        var counters := new Counters();
        var input := new Input(Some(MAX_XCM_DECODE_DEPTH));
        var r := counters.Decode(content, input);
        decoded := r.Ok? && consumed == total;
      }
      return decoded;
    }
  }

  /** A copy of an accepted call, which has lost its cache, decodes again exactly when all bytes were consumed. */
  method DecodeCopy(w: Value, ghost v: Value, ghost env: Env) returns (ok: bool)
    requires Fits(v, env) && Within(w, v) && w.Call?
    ensures ok <==> w.consumed == w.total
  {
    AcceptedCallsFitAlone(w, v, env);
    var copy := new DoubleEncoded(w.content, w.consumed, w.total);
    ok := copy.EnsureDecoded();
  }

  method DecodeFresh(v: Value, limit: Option<nat>) returns (ok: bool)
    requires limit.Some? ==> limit.value < U32_MAX
    ensures ok <==> Fits(v, Fresh(limit))
  {
    var counters := new Counters();
    var input := new Input(limit);
    var r := counters.Decode(v, input);
    return r.Ok?;
  }

  /** The entry point for a whole program: nothing of the input may be `left` over. */
  method DecodeProgram(v: Value, left: nat) returns (ok: bool)
    ensures ok <==> Fits(v, ALONE) && left == 0
  {
    ok := DecodeFresh(v, Some(MAX_XCM_DECODE_DEPTH));
    return ok && left == 0;
  }
}
