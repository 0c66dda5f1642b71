/** Whole runs of the GRANDPA pallet: from initialisation, through any number of blocks and submissions. */
module GrandpaRuns {
  import opened Prelude
  import opened RingBuffer
  import opened GrandpaPallet

  datatype Step =
    | BlockStarts
    | BlockEnds
    | Submit(header: Header, justification: Justification, setId: nat)
    | SetHalted(halted: bool)

  /** One successful submission: the set id it claimed, the set that was in charge, and whether the call was free. */
  datatype Import = Import(
    header: Header, justification: Justification, setId: nat, verifiedBy: AuthoritySet, free: bool)

  /** The storage, with the imports made so far and the free ones since the current block started. */
  datatype Trace = Trace(state: State, imports: seq<Import>, freeInBlock: nat)

  function Apply(cfg: Config, t: Trace, step: Step): Trace
    requires cfg.headersToKeep > 0
  {
    match step
    case BlockStarts => Trace(t.state.(freeRemaining := Some(cfg.maxFreeHeadersPerBlock)), t.imports, 0)
    case BlockEnds => t.(state := t.state.(freeRemaining := None))
    case SetHalted(halted) => t.(state := t.state.(halted := halted))
    case Submit(h, j, setId) =>
      if Rejection(cfg, t.state, h, j, setId).Some? then t
      else
        var free := IsFree(cfg, t.state, h, j, setId);
        Trace(Submitted(cfg, t.state, h, j, setId),
              t.imports + [Import(h, j, setId, t.state.authoritySet, free)],
              if free then t.freeInBlock + 1 else t.freeInBlock)
  }

  /** Initialisation happens at genesis, outside any block, or by a call at the start of a block. */
  ghost predicate GoodStart(cfg: Config, init: InitData, free: Option<nat>) {
    && cfg.headersToKeep > 0
    && |init.authorities| <= cfg.maxAuthorities
    && (free == None || free == Some(cfg.maxFreeHeadersPerBlock))
  }

  function Run(cfg: Config, init: InitData, free: Option<nat>, steps: seq<Step>): Trace
    requires cfg.headersToKeep > 0
  {
    if steps == [] then Trace(Initialized(cfg, Fresh(free), init), [], 0)
    else Apply(cfg, Run(cfg, init, free, steps[..|steps| - 1]), steps[|steps| - 1])
  }

  // ---------------------------------------------------------------- what a list of imports amounts to

  /** The initial header, then the imported ones. */
  function HeaderAt(init: InitData, imports: seq<Import>, i: nat): Header
    requires i <= |imports|
  {
    if i == 0 then init.header else imports[i - 1].header
  }

  predicate Mandatory(i: Import) {
    i.header.scheduledChange.Some?
  }

  predicate FreeByInterval(i: Import) {
    i.free && !Mandatory(i)
  }

  function Tally(imports: seq<Import>, counts: Import -> bool, n: nat): nat
    requires n <= |imports|
  {
    if n == 0 then 0
    else Tally(imports, counts, n - 1) + (if counts(imports[n - 1]) then 1 else 0)
  }

  lemma {:induction false} TallyPrefix(imports: seq<Import>, e: Import, counts: Import -> bool, n: nat)
    requires n <= |imports|
    ensures Tally(imports + [e], counts, n) == Tally(imports, counts, n)
  {
    if n > 0 {
      TallyPrefix(imports, e, counts, n - 1);
    }
  }

  /** Import `j` is the latest of the first `i` that changed the authorities. */
  predicate LatestChange(imports: seq<Import>, i: nat, j: nat)
    requires i <= |imports|
  {
    j < i && Mandatory(imports[j]) && forall k | j < k < i :: !Mandatory(imports[k])
  }

  /** The set in charge after the first `i` imports: the one enacted by the latest change among them, or
      else the initial one. Its id counts the changes. */
  ghost predicate InCharge(init: InitData, imports: seq<Import>, i: nat, s: AuthoritySet)
    requires i <= |imports|
  {
    && s.setId == init.setId + Tally(imports, Mandatory, i)
    && (forall j: nat | LatestChange(imports, i, j) ::
          s.authorities == imports[j].header.scheduledChange.value.nextAuthorities)
    && ((forall j | 0 <= j < i :: !Mandatory(imports[j])) ==> s.authorities == init.authorities)
  }

  // ---------------------------------------------------------------- the invariant

  ghost predicate Trusted(cfg: Config, init: InitData, imports: seq<Import>) {
    forall i | 0 <= i < |imports| :: TrustedAt(cfg, init, imports, i)
  }

  ghost predicate TrustedAt(cfg: Config, init: InitData, imports: seq<Import>, i: nat)
    requires i < |imports|
  {
    InCharge(init, imports, i, imports[i].verifiedBy) && Verified(cfg, imports[i])
  }

  /** The set in charge could be used, is the one the submission claimed, and justified this very header; and the
      header carries no change that the pallet does not support. */
  predicate Verified(cfg: Config, e: Import) {
    && e.setId == e.verifiedBy.setId && cfg.usableSet(e.verifiedBy)
    && cfg.verifies(cfg.hash(e.header), e.header.number, e.verifiedBy, e.justification)
    && !e.header.forcedChange
    && (Mandatory(e) ==> e.header.scheduledChange.value.delay == 0 &&
                         |e.header.scheduledChange.value.nextAuthorities| <= cfg.maxAuthorities)
  }

  ghost predicate Increasing(init: InitData, imports: seq<Import>) {
    forall i, j | 0 <= i < j <= |imports| :: HeaderAt(init, imports, i).number < HeaderAt(init, imports, j).number
  }

  ghost predicate BestIsLast(cfg: Config, init: InitData, t: Trace) {
    var last := HeaderAt(init, t.imports, |t.imports|);
    t.state.best == Some(HeaderId(last.number, cfg.hash(last)))
  }

  ghost predicate Budget(cfg: Config, t: Trace) {
    && t.freeInBlock <= cfg.maxFreeHeadersPerBlock
    && (t.state.freeRemaining.Some? ==> t.freeInBlock + t.state.freeRemaining.value == cfg.maxFreeHeadersPerBlock)
  }

  ghost predicate Spaced(cfg: Config, init: InitData, imports: seq<Import>) {
    && (cfg.freeHeadersInterval.Some? ==>
          cfg.freeHeadersInterval.value * Tally(imports, FreeByInterval, |imports|)
            <= HeaderAt(init, imports, |imports|).number - init.header.number)
    && (cfg.freeHeadersInterval.None? ==> Tally(imports, FreeByInterval, |imports|) == 0)
  }

  /** The import history as the ring sees it. */
  function History(cfg: Config, init: InitData, imports: seq<Import>): seq<(Hash, StoredHeader)> {
    seq(|imports| + 1, i requires 0 <= i <= |imports| =>
      (cfg.hash(HeaderAt(init, imports, i)), Build(HeaderAt(init, imports, i))))
  }

  ghost predicate Inv(cfg: Config, init: InitData, t: Trace) {
    && Trusted(cfg, init, t.imports)
    && InCharge(init, t.imports, |t.imports|, t.state.authoritySet)
    && |t.state.authoritySet.authorities| <= cfg.maxAuthorities
    && Increasing(init, t.imports)
    && BestIsLast(cfg, init, t)
    && Budget(cfg, t)
    && Spaced(cfg, init, t.imports)
  }

  ghost predicate InjectiveHash(cfg: Config) {
    forall a, b | cfg.hash(a) == cfg.hash(b) :: a == b
  }

  // ---------------------------------------------------------------- every step keeps it

  lemma InChargePrefix(init: InitData, imports: seq<Import>, e: Import, i: nat, s: AuthoritySet)
    requires i <= |imports| && InCharge(init, imports, i, s)
    ensures InCharge(init, imports + [e], i, s)
  {
    TallyPrefix(imports, e, Mandatory, i);
    forall j: nat | LatestChange(imports + [e], i, j)
      ensures s.authorities == (imports + [e])[j].header.scheduledChange.value.nextAuthorities
    {
      assert forall k | 0 <= k < i :: (imports + [e])[k] == imports[k];
      assert LatestChange(imports, i, j);
    }
    if forall j | 0 <= j < i :: !Mandatory((imports + [e])[j]) {
      assert forall j | 0 <= j < i :: imports[j] == (imports + [e])[j];
    }
  }

  lemma InChargeStep(init: InitData, imports: seq<Import>, i: nat, s: AuthoritySet)
    requires i < |imports| && InCharge(init, imports, i, s)
    ensures InCharge(init, imports, i + 1, NextSet(s, imports[i].header))
  {
    var s' := NextSet(s, imports[i].header);
    forall j: nat | LatestChange(imports, i + 1, j)
      ensures s'.authorities == imports[j].header.scheduledChange.value.nextAuthorities
    {
      if j < i {
        assert !Mandatory(imports[i]);
        assert LatestChange(imports, i, j);
      }
    }
    if forall j | 0 <= j < i + 1 :: !Mandatory(imports[j]) {
      assert !Mandatory(imports[i]);
    }
  }

  lemma InChargeNext(init: InitData, imports: seq<Import>, e: Import, s: AuthoritySet)
    requires InCharge(init, imports, |imports|, s)
    ensures InCharge(init, imports + [e], |imports| + 1, NextSet(s, e.header))
  {
    InChargePrefix(init, imports, e, |imports|, s);
    InChargeStep(init, imports + [e], |imports|, s);
  }

  lemma TrustedNext(cfg: Config, init: InitData, imports: seq<Import>, e: Import)
    requires Trusted(cfg, init, imports)
    requires InCharge(init, imports, |imports|, e.verifiedBy)
    requires Verified(cfg, e)
    ensures Trusted(cfg, init, imports + [e])
  {
    forall i: nat | i <= |imports|
      ensures TrustedAt(cfg, init, imports + [e], i)
    {
      assert i < |imports| ==> TrustedAt(cfg, init, imports, i);
      InChargePrefix(init, imports, e, i, (imports + [e])[i].verifiedBy);
    }
  }

  lemma IncreasingNext(init: InitData, imports: seq<Import>, e: Import)
    requires Increasing(init, imports)
    requires e.header.number > HeaderAt(init, imports, |imports|).number
    ensures Increasing(init, imports + [e])
  {
    forall i | 0 <= i <= |imports|
      ensures HeaderAt(init, imports + [e], i) == HeaderAt(init, imports, i)
    {
    }
  }

  lemma SpacedNext(cfg: Config, init: InitData, imports: seq<Import>, e: Import)
    requires Spaced(cfg, init, imports)
    requires e.header.number > HeaderAt(init, imports, |imports|).number
    requires FreeByInterval(e) ==>
               cfg.freeHeadersInterval.Some? &&
               e.header.number - HeaderAt(init, imports, |imports|).number >= cfg.freeHeadersInterval.value
    ensures Spaced(cfg, init, imports + [e])
  {
    TallyPrefix(imports, e, FreeByInterval, |imports|);
    var n := Tally(imports, FreeByInterval, |imports|);
    assert HeaderAt(init, imports + [e], |imports| + 1) == e.header;
    if cfg.freeHeadersInterval.Some? {
      assert cfg.freeHeadersInterval.value * (n + 1) == cfg.freeHeadersInterval.value * n + cfg.freeHeadersInterval.value;
    }
  }

  /** What an accepted submission establishes about its import. */
  lemma AcceptedImport(cfg: Config, s: State, h: Header, j: Justification, setId: nat)
    requires Rejection(cfg, s, h, j, setId).None?
    ensures s.best.Some? && h.number > s.best.value.number
    ensures |s.authoritySet.authorities| <= cfg.maxAuthorities ==> |NextSet(s.authoritySet, h).authorities| <= cfg.maxAuthorities
    ensures var e := Import(h, j, setId, s.authoritySet, IsFree(cfg, s, h, j, setId));
            && Verified(cfg, e)
            && (FreeByInterval(e) ==> cfg.freeHeadersInterval.Some? &&
                                      h.number - s.best.value.number >= cfg.freeHeadersInterval.value)
  {
  }

  lemma TrustKeeps(cfg: Config, init: InitData, t: Trace, e: Import)
    requires Inv(cfg, init, t)
    requires e.verifiedBy == t.state.authoritySet && Verified(cfg, e) && e.header.number > t.state.best.value.number
    ensures var imports, next := t.imports + [e], NextSet(t.state.authoritySet, e.header);
            && Trusted(cfg, init, imports)
            && InCharge(init, imports, |imports|, next)
            && Increasing(init, imports)
  {
    TrustedNext(cfg, init, t.imports, e);
    InChargeNext(init, t.imports, e, t.state.authoritySet);
    IncreasingNext(init, t.imports, e);
  }

  lemma SubmitKeeps(cfg: Config, init: InitData, t: Trace, h: Header, j: Justification, setId: nat)
    requires cfg.headersToKeep > 0 && Inv(cfg, init, t)
    requires Rejection(cfg, t.state, h, j, setId).None?
    ensures Inv(cfg, init, Apply(cfg, t, Submit(h, j, setId)))
  {
    AcceptedImport(cfg, t.state, h, j, setId);
    var e := Import(h, j, setId, t.state.authoritySet, IsFree(cfg, t.state, h, j, setId));
    TrustKeeps(cfg, init, t, e);
    SpacedNext(cfg, init, t.imports, e);
    var t' := Apply(cfg, t, Submit(h, j, setId));
    assert t'.imports == t.imports + [e] && t'.state.authoritySet == NextSet(t.state.authoritySet, h);
    assert HeaderAt(init, t'.imports, |t'.imports|) == h;
  }

  lemma {:induction false} RunKeeps(cfg: Config, init: InitData, free: Option<nat>, steps: seq<Step>)
    requires GoodStart(cfg, init, free)
    ensures Inv(cfg, init, Run(cfg, init, free, steps))
  {
    if steps != [] {
      var t := Run(cfg, init, free, steps[..|steps| - 1]);
      RunKeeps(cfg, init, free, steps[..|steps| - 1]);
      match steps[|steps| - 1]
      case Submit(h, j, setId) =>
        if Rejection(cfg, t.state, h, j, setId).None? {
          SubmitKeeps(cfg, init, t, h, j, setId);
        }
      case _ =>
    }
  }

  // ---------------------------------------------------------------- the ring

  lemma HistoryDistinct(cfg: Config, init: InitData, imports: seq<Import>)
    requires InjectiveHash(cfg) && Increasing(init, imports)
    ensures DistinctKeys(History(cfg, init, imports))
  {
    var history := History(cfg, init, imports);
    forall i, j | 0 <= i < j < |history|
      ensures history[i].0 != history[j].0
    {
      assert HeaderAt(init, imports, i).number < HeaderAt(init, imports, j).number;
    }
  }

  lemma HistoryNext(cfg: Config, init: InitData, imports: seq<Import>, e: Import)
    ensures History(cfg, init, imports + [e]) == History(cfg, init, imports) + [(cfg.hash(e.header), Build(e.header))]
  {
    var history, history' := History(cfg, init, imports), History(cfg, init, imports + [e]);
    forall i | 0 <= i < |history|
      ensures history'[i] == history[i]
    {
      assert HeaderAt(init, imports + [e], i) == HeaderAt(init, imports, i);
    }
    assert HeaderAt(init, imports + [e], |history|) == e.header;
    assert history' == history + [(cfg.hash(e.header), Build(e.header))];
  }

  lemma RingNext(cfg: Config, init: InitData, imports: seq<Import>, ring: Ring<Hash, StoredHeader>, e: Import)
    requires cfg.headersToKeep > 0 && InjectiveHash(cfg) && Increasing(init, imports + [e])
    requires HoldsLast(cfg.headersToKeep, ring, History(cfg, init, imports))
    ensures HoldsLast(cfg.headersToKeep, Inserted(cfg.headersToKeep, ring, cfg.hash(e.header), Build(e.header)),
                      History(cfg, init, imports + [e]))
  {
    HistoryNext(cfg, init, imports, e);
    HistoryDistinct(cfg, init, imports + [e]);
    InsertedHoldsLast(cfg.headersToKeep, ring, History(cfg, init, imports), cfg.hash(e.header), Build(e.header));
  }

  lemma RingStart(cfg: Config, init: InitData)
    requires cfg.headersToKeep > 0
    ensures HoldsLast(cfg.headersToKeep, Inserted(cfg.headersToKeep, EmptyRing(), cfg.hash(init.header), Build(init.header)),
                      History(cfg, init, []))
  {
    var entry := (cfg.hash(init.header), Build(init.header));
    FromHistoryHoldsLast(cfg.headersToKeep, [entry]);
    assert HeaderAt(init, [], 0) == init.header;
    assert History(cfg, init, []) == [entry];
    assert FromHistory(cfg.headersToKeep, []) == EmptyRing<Hash, StoredHeader>();
    assert [entry][..0] == [];
  }

  /** After n imports (the initial header included) the pointer is n modulo `headersToKeep`, and the stored
      headers are exactly the last `headersToKeep` of them. */
  lemma {:induction false} LastHeadersAreKept(cfg: Config, init: InitData, free: Option<nat>, steps: seq<Step>)
    requires GoodStart(cfg, init, free) && InjectiveHash(cfg)
    ensures var t := Run(cfg, init, free, steps);
            HoldsLast(cfg.headersToKeep, t.state.ring, History(cfg, init, t.imports))
  {
    if steps == [] {
      RingStart(cfg, init);
    } else {
      var t := Run(cfg, init, free, steps[..|steps| - 1]);
      LastHeadersAreKept(cfg, init, free, steps[..|steps| - 1]);
      RunKeeps(cfg, init, free, steps);
      match steps[|steps| - 1]
      case Submit(h, j, setId) =>
        if Rejection(cfg, t.state, h, j, setId).None? {
          RingNext(cfg, init, t.imports, t.state.ring,
                   Import(h, j, setId, t.state.authoritySet, IsFree(cfg, t.state, h, j, setId)));
        }
      case _ =>
    }
  }

  // ---------------------------------------------------------------- what a user of the pallet may rely on

  /** Every imported header was verified by the set enacted by the latest earlier change, the set in charge
      now is the one enacted by the latest change, its id counts the changes, and numbers only grow. */
  lemma ChainOfTrust(cfg: Config, init: InitData, free: Option<nat>, steps: seq<Step>)
    requires GoodStart(cfg, init, free)
    ensures var t := Run(cfg, init, free, steps);
            && Trusted(cfg, init, t.imports)
            && InCharge(init, t.imports, |t.imports|, t.state.authoritySet)
            && |t.state.authoritySet.authorities| <= cfg.maxAuthorities
            && Increasing(init, t.imports)
            && BestIsLast(cfg, init, t)
  {
    RunKeeps(cfg, init, free, steps);
  }

  /** Whatever header can be looked up is the initial one or was verified, and the best one can be. */
  lemma StoredHeadersAreFinal(cfg: Config, init: InitData, free: Option<nat>, steps: seq<Step>)
    requires GoodStart(cfg, init, free) && InjectiveHash(cfg)
    ensures var t := Run(cfg, init, free, steps);
            && t.state.best.Some? && t.state.best.value.hash in t.state.ring.entries
            && forall hash | hash in t.state.ring.entries ::
                 exists i: nat | i <= |t.imports| ::
                   && hash == cfg.hash(HeaderAt(init, t.imports, i))
                   && t.state.ring.entries[hash].number == HeaderAt(init, t.imports, i).number
                   && t.state.ring.entries[hash].stateRoot == HeaderAt(init, t.imports, i).stateRoot
  {
    var t := Run(cfg, init, free, steps);
    RunKeeps(cfg, init, free, steps);
    LastHeadersAreKept(cfg, init, free, steps);
    var history := History(cfg, init, t.imports);
    assert KeptAt(cfg.headersToKeep, history, |t.imports|, t.state.best.value.hash);
    forall hash | hash in t.state.ring.entries
      ensures exists i: nat | i <= |t.imports| ::
                hash == cfg.hash(HeaderAt(init, t.imports, i)) &&
                t.state.ring.entries[hash].number == HeaderAt(init, t.imports, i).number &&
                t.state.ring.entries[hash].stateRoot == HeaderAt(init, t.imports, i).stateRoot
    {
      var i: nat :| KeptAt(cfg.headersToKeep, history, i, hash);
      assert hash == cfg.hash(HeaderAt(init, t.imports, i));
    }
  }

  /** Inside every block the free imports and the remaining allowance add up to the maximum. */
  lemma FreeImportsPerBlock(cfg: Config, init: InitData, free: Option<nat>, steps: seq<Step>)
    requires GoodStart(cfg, init, free)
    ensures Budget(cfg, Run(cfg, init, free, steps))
  {
    RunKeeps(cfg, init, free, steps);
  }

  /** Headers that are free for their distance alone are that far apart on the whole. */
  lemma FreeImportsAreSpaced(cfg: Config, init: InitData, free: Option<nat>, steps: seq<Step>)
    requires GoodStart(cfg, init, free)
    ensures Spaced(cfg, init, Run(cfg, init, free, steps).imports)
  {
    RunKeeps(cfg, init, free, steps);
  }

  /** The mode after a run: the last one that was set, or else the initial one. */
  function ModeAfter(halted: bool, steps: seq<Step>): bool {
    if steps == [] then halted
    else if steps[|steps| - 1].SetHalted? then steps[|steps| - 1].halted
    else ModeAfter(halted, steps[..|steps| - 1])
  }

  /** The hash of the initial header stays for good, and the mode is only ever changed by setting it. */
  lemma {:induction false} InitialHashStays(cfg: Config, init: InitData, free: Option<nat>, steps: seq<Step>)
    requires GoodStart(cfg, init, free)
    ensures var s := Run(cfg, init, free, steps).state;
            s.initialHash == Some(cfg.hash(init.header)) && s.halted == ModeAfter(init.halted, steps)
  {
    if steps != [] {
      InitialHashStays(cfg, init, free, steps[..|steps| - 1]);
    }
  }

  // ---------------------------------------------------------------- a set id names one set

  lemma {:induction false} NoChangeBetween(imports: seq<Import>, i: nat, j: nat, k: nat)
    requires i <= j <= |imports| && Tally(imports, Mandatory, i) == Tally(imports, Mandatory, j)
    requires i <= k < j
    ensures !Mandatory(imports[k])
    decreases j
  {
    TallyGrows(imports, i, j - 1);
    if k < j - 1 {
      NoChangeBetween(imports, i, j - 1, k);
    }
  }

  lemma {:induction false} TallyGrows(imports: seq<Import>, i: nat, j: nat)
    requires i <= j <= |imports|
    ensures Tally(imports, Mandatory, i) <= Tally(imports, Mandatory, j)
    decreases j
  {
    if i < j {
      TallyGrows(imports, i, j - 1);
    }
  }

  lemma {:induction false} SomeLatestChange(imports: seq<Import>, i: nat, k: nat) returns (j: nat)
    requires k < i <= |imports| && Mandatory(imports[k])
    ensures LatestChange(imports, i, j)
    decreases i
  {
    if k == i - 1 || Mandatory(imports[i - 1]) {
      j := i - 1;
    } else {
      j := SomeLatestChange(imports, i - 1, k);
    }
  }

  /** Two sets with one id that were in charge at any two points of a run are the same set. */
  lemma SetIdNamesSet(init: InitData, imports: seq<Import>, i: nat, j: nat, s: AuthoritySet, s': AuthoritySet)
    requires i <= j <= |imports| && InCharge(init, imports, i, s) && InCharge(init, imports, j, s')
    requires s.setId == s'.setId
    ensures s == s'
  {
    forall k | i <= k < j
      ensures !Mandatory(imports[k])
    {
      NoChangeBetween(imports, i, j, k);
    }
    if k: nat :| k < i && Mandatory(imports[k]) {
      var latest := SomeLatestChange(imports, i, k);
      assert LatestChange(imports, j, latest);
    }
  }
}
