/** Whole runs of the BEEFY pallet. */
module BeefyRuns {
  import opened Prelude
  import opened RingBuffer
  import opened BeefyQuorum
  import opened BeefyPallet

  datatype Step = BlockStarts | Submit(submission: Submission) | SetHalted(halted: bool)

  /** One successful submission and the set that was trusted when it was made. */
  datatype Import = Import(submission: Submission, verifiedBy: AuthoritySetInfo)

  datatype Trace = Trace(state: State, imports: seq<Import>)

  function Apply(cfg: Config, t: Trace, step: Step): Trace
    requires cfg.commitmentsToKeep > 0
  {
    match step
    case BlockStarts => t.(state := t.state.(requestCount := SaturatingSub(t.state.requestCount, 1)))
    case SetHalted(halted) => t.(state := t.state.(halted := halted))
    case Submit(sub) =>
      if Rejection(cfg, t.state, sub).Some? then t
      else Trace(Submitted(cfg, t.state, sub), t.imports + [Import(sub, t.state.authoritySet)])
  }

  function Start(init: InitData): Trace {
    Trace(Initialized(State(true, 0, None, EmptyRing(), init.authoritySet), init), [])
  }

  function Run(cfg: Config, init: InitData, steps: seq<Step>): Trace
    requires cfg.commitmentsToKeep > 0
  {
    if steps == [] then Start(init)
    else Apply(cfg, Run(cfg, init, steps[..|steps| - 1]), steps[|steps| - 1])
  }

  ghost predicate GoodStart(cfg: Config, init: InitData) {
    cfg.commitmentsToKeep > 0 && init.authoritySet.len > 0
  }

  // ---------------------------------------------------------------- the invariant

  /** Number of the `i`-th commitment, the initial best block being number zero of them. */
  function NumberAt(init: InitData, imports: seq<Import>, i: nat): nat
    requires i <= |imports|
  {
    if i == 0 then init.bestBlockNumber else imports[i - 1].submission.Number()
  }

  function SetOf(i: Import): AuthoritySetInfo {
    i.submission.leaf.nextSet
  }

  /** The trusted set after the first `i` imports: of the initial set and those the imports announced, the
      first one with the greatest id. */
  ghost predicate InCharge(init: InitData, imports: seq<Import>, i: nat, s: AuthoritySetInfo)
    requires i <= |imports|
  {
    && init.authoritySet.id <= s.id
    && (forall j | 0 <= j < i :: SetOf(imports[j]).id <= s.id)
    && (s == init.authoritySet || exists j: nat :: FirstWithId(init, imports, i, j, s))
  }

  ghost predicate FirstWithId(init: InitData, imports: seq<Import>, i: nat, j: nat, s: AuthoritySetInfo)
    requires i <= |imports|
  {
    && j < i && SetOf(imports[j]) == s && init.authoritySet.id < s.id
    && forall k | 0 <= k < j :: SetOf(imports[k]).id < s.id
  }

  /** The commitment was acceptable under the set in charge, and its leaf belongs to its MMR root. */
  ghost predicate Accepted(cfg: Config, e: Import) {
    && Acceptable(cfg.crypto, e.submission.signed, e.verifiedBy, e.submission.validatorSet)
    && cfg.crypto.verifiesLeaf(e.submission.leaf, e.submission.proof, cfg.crypto.mmrRoot(e.submission.signed.commitment.payload).value)
  }

  ghost predicate TrustedAt(cfg: Config, init: InitData, imports: seq<Import>, i: nat)
    requires i < |imports|
  {
    InCharge(init, imports, i, imports[i].verifiedBy) && Accepted(cfg, imports[i])
  }

  ghost predicate Trusted(cfg: Config, init: InitData, imports: seq<Import>) {
    forall i | 0 <= i < |imports| :: TrustedAt(cfg, init, imports, i)
  }

  ghost predicate Increasing(init: InitData, imports: seq<Import>) {
    forall i, j | 0 <= i < j <= |imports| :: NumberAt(init, imports, i) < NumberAt(init, imports, j)
  }

  ghost predicate Inv(cfg: Config, init: InitData, t: Trace) {
    && Trusted(cfg, init, t.imports)
    && InCharge(init, t.imports, |t.imports|, t.state.authoritySet)
    && Increasing(init, t.imports)
    && t.state.best == Some(NumberAt(init, t.imports, |t.imports|))
    && t.state.requestCount <= cfg.maxRequests
  }

  lemma InChargePrefix(init: InitData, imports: seq<Import>, e: Import, i: nat, s: AuthoritySetInfo)
    requires i <= |imports| && InCharge(init, imports, i, s)
    ensures InCharge(init, imports + [e], i, s)
  {
    assert forall k | 0 <= k < i :: (imports + [e])[k] == imports[k];
    if s != init.authoritySet {
      var j: nat :| FirstWithId(init, imports, i, j, s);
      assert FirstWithId(init, imports + [e], i, j, s);
    }
  }

  lemma InChargeStep(init: InitData, imports: seq<Import>, i: nat, s: AuthoritySetInfo)
    requires i < |imports| && InCharge(init, imports, i, s)
    ensures InCharge(init, imports, i + 1, NextSet(s, imports[i].submission.leaf))
  {
    var s' := NextSet(s, imports[i].submission.leaf);
    if s' != s {
      assert FirstWithId(init, imports, i + 1, i, s');
    } else if s != init.authoritySet {
      var j: nat :| FirstWithId(init, imports, i, j, s);
      assert FirstWithId(init, imports, i + 1, j, s);
    }
  }

  lemma TrustedNext(cfg: Config, init: InitData, imports: seq<Import>, e: Import)
    requires Trusted(cfg, init, imports)
    requires InCharge(init, imports, |imports|, e.verifiedBy) && Accepted(cfg, e)
    ensures Trusted(cfg, init, imports + [e])
  {
    forall i: nat | i <= |imports|
      ensures TrustedAt(cfg, init, imports + [e], i)
    {
      assert i < |imports| ==> TrustedAt(cfg, init, imports, i);
      InChargePrefix(init, imports, e, i, (imports + [e])[i].verifiedBy);
    }
  }

  lemma IncreasingNext(init: InitData, imports: seq<Import>, e: Import)
    requires Increasing(init, imports)
    requires e.submission.Number() > NumberAt(init, imports, |imports|)
    ensures Increasing(init, imports + [e])
  {
    forall i | 0 <= i <= |imports|
      ensures NumberAt(init, imports + [e], i) == NumberAt(init, imports, i)
    {
    }
  }

  lemma SubmitKeeps(cfg: Config, init: InitData, t: Trace, sub: Submission)
    requires cfg.commitmentsToKeep > 0 && Inv(cfg, init, t)
    requires Rejection(cfg, t.state, sub).None?
    ensures Inv(cfg, init, Apply(cfg, t, Submit(sub)))
  {
    var e := Import(sub, t.state.authoritySet);
    AcceptedIff(cfg, t.state, sub);
    TrustedNext(cfg, init, t.imports, e);
    InChargePrefix(init, t.imports, e, |t.imports|, t.state.authoritySet);
    InChargeStep(init, t.imports + [e], |t.imports|, t.state.authoritySet);
    IncreasingNext(init, t.imports, e);
  }

  lemma {:induction false} RunKeeps(cfg: Config, init: InitData, steps: seq<Step>)
    requires GoodStart(cfg, init)
    ensures Inv(cfg, init, Run(cfg, init, steps))
  {
    if steps != [] {
      var t := Run(cfg, init, steps[..|steps| - 1]);
      RunKeeps(cfg, init, steps[..|steps| - 1]);
      match steps[|steps| - 1]
      case Submit(sub) =>
        if Rejection(cfg, t.state, sub).None? {
          SubmitKeeps(cfg, init, t, sub);
        }
      case _ =>
    }
  }

  // ---------------------------------------------------------------- the ring

  function EntryOf(cfg: Config, e: Import): (nat, ImportedCommitment)
    requires HasRoot(cfg, e.submission)
  {
    (e.submission.Number(), ImportedCommitment(e.submission.leaf.parent, RootOf(cfg, e.submission)))
  }

  ghost predicate IsHistory(cfg: Config, imports: seq<Import>, history: seq<(nat, ImportedCommitment)>) {
    && |history| == |imports|
    && forall i | 0 <= i < |imports| ::
         HasRoot(cfg, imports[i].submission) && history[i] == EntryOf(cfg, imports[i])
  }

  lemma HistoryDistinct(cfg: Config, init: InitData, imports: seq<Import>, history: seq<(nat, ImportedCommitment)>)
    requires IsHistory(cfg, imports, history) && Increasing(init, imports)
    ensures DistinctKeys(history)
  {
    forall i, j | 0 <= i < j < |history|
      ensures history[i].0 != history[j].0
    {
      assert NumberAt(init, imports, i + 1) < NumberAt(init, imports, j + 1);
    }
  }

  /** After n imports the pointer is n modulo `commitmentsToKeep` and exactly the last `commitmentsToKeep`
      of them are stored, the latest among them. */
  lemma {:induction false} LastCommitmentsAreKept(cfg: Config, init: InitData, steps: seq<Step>)
      returns (history: seq<(nat, ImportedCommitment)>)
    requires GoodStart(cfg, init)
    ensures var t := Run(cfg, init, steps);
            IsHistory(cfg, t.imports, history) && HoldsLast(cfg.commitmentsToKeep, t.state.ring, history)
  {
    if steps == [] {
      history := [];
      FromHistoryHoldsLast<nat, ImportedCommitment>(cfg.commitmentsToKeep, history);
    } else {
      var t := Run(cfg, init, steps[..|steps| - 1]);
      history := LastCommitmentsAreKept(cfg, init, steps[..|steps| - 1]);
      RunKeeps(cfg, init, steps);
      match steps[|steps| - 1]
      case Submit(sub) =>
        if Rejection(cfg, t.state, sub).None? {
          var e := Import(sub, t.state.authoritySet);
          var (key, value) := EntryOf(cfg, e);
          assert IsHistory(cfg, t.imports + [e], history + [(key, value)]);
          HistoryDistinct(cfg, init, t.imports + [e], history + [(key, value)]);
          InsertedHoldsLast(cfg.commitmentsToKeep, t.state.ring, history, key, value);
          history := history + [(key, value)];
        }
      case _ =>
    }
  }

  // ---------------------------------------------------------------- the request limit

  function Blocks(steps: seq<Step>): nat {
    if steps == [] then 0
    else Blocks(steps[..|steps| - 1]) + (if steps[|steps| - 1].BlockStarts? then 1 else 0)
  }

  lemma {:induction false} ImportsAreCharged(cfg: Config, init: InitData, before: seq<Step>, steps: seq<Step>)
    requires cfg.commitmentsToKeep > 0
    ensures var a, b := Run(cfg, init, before), Run(cfg, init, before + steps);
            |b.imports| + a.state.requestCount <= |a.imports| + b.state.requestCount + Blocks(steps)
  {
    if steps == [] {
      assert before + steps == before;
    } else {
      var last := |steps| - 1;
      ImportsAreCharged(cfg, init, before, steps[..last]);
      assert (before + steps)[..|before + steps| - 1] == before + steps[..last];
    }
  }

  /** In every stretch of every run, at most the limit plus one import per block. */
  lemma ImportsAreRateLimited(cfg: Config, init: InitData, before: seq<Step>, steps: seq<Step>)
    requires GoodStart(cfg, init)
    ensures |Run(cfg, init, before + steps).imports| <=
            |Run(cfg, init, before).imports| + cfg.maxRequests + Blocks(steps)
  {
    ImportsAreCharged(cfg, init, before, steps);
    RunKeeps(cfg, init, before + steps);
  }

  /** A new block always makes room: right after it nothing is rejected for the limit, unless that is zero. */
  lemma EveryBlockHasRoom(cfg: Config, init: InitData, steps: seq<Step>, sub: Submission)
    requires GoodStart(cfg, init)
    ensures var s := Run(cfg, init, steps + [BlockStarts]).state;
            Rejection(cfg, s, sub) == Some(TooManyRequests) <==> cfg.maxRequests == 0 && !s.halted
  {
    RunKeeps(cfg, init, steps);
    assert (steps + [BlockStarts])[..|steps|] == steps;
  }

  // ---------------------------------------------------------------- trust

  /** Every imported commitment was accepted under the set in charge, numbers only grow, and the set in charge
      now is the first announced one with the greatest id. */
  lemma ChainOfTrust(cfg: Config, init: InitData, steps: seq<Step>)
    requires GoodStart(cfg, init)
    ensures var t := Run(cfg, init, steps);
            && Trusted(cfg, init, t.imports)
            && InCharge(init, t.imports, |t.imports|, t.state.authoritySet)
            && Increasing(init, t.imports)
            && t.state.best == Some(NumberAt(init, t.imports, |t.imports|))
  {
    RunKeeps(cfg, init, steps);
  }

  /** Ids of the sets in charge never fall, and one id names one set. */
  lemma SetIdNamesSet(init: InitData, imports: seq<Import>, i: nat, j: nat, s: AuthoritySetInfo, s': AuthoritySetInfo)
    requires i <= j <= |imports| && InCharge(init, imports, i, s) && InCharge(init, imports, j, s')
    ensures s.id <= s'.id && (s.id == s'.id ==> s == s')
  {
    if s != init.authoritySet {
      var k: nat :| FirstWithId(init, imports, i, k, s);
      if s'.id == s.id {
        var k': nat :| FirstWithId(init, imports, j, k', s');
        assert !(k < k') && !(k' < k);
      }
    } else if s' != init.authoritySet {
      var k': nat :| FirstWithId(init, imports, j, k', s');
    }
  }

  /** Two commitments imported under one set id were signed from one validator list. More than a third of that list
      signed both, unless it is empty and nobody did. */
  lemma CommonSigners(cfg: Config, init: InitData, steps: seq<Step>, i: nat, j: nat)
    requires GoodStart(cfg, init) && InjectiveRoot(cfg.crypto)
    requires i <= j < |Run(cfg, init, steps).imports|
    requires var imports := Run(cfg, init, steps).imports; imports[i].verifiedBy.id == imports[j].verifiedBy.id
    ensures var imports := Run(cfg, init, steps).imports;
            var (a, b) := (imports[i].submission, imports[j].submission);
            var validators := a.validatorSet.validators;
            && a.validatorSet == b.validatorSet
            && |a.signed.signatures| == |b.signed.signatures| == |validators|
            && var common := Signers(cfg.crypto, a.signed, validators, |validators|) * Signers(cfg.crypto, b.signed, validators, |validators|);
            && (imports[i].verifiedBy.len > 0 ==> |common| >= (|validators| - 1) / 3 + 1)
            && (imports[i].verifiedBy.len == 0 ==> common == {})
  {
    var imports := Run(cfg, init, steps).imports;
    RunKeeps(cfg, init, steps);
    assert TrustedAt(cfg, init, imports, i) && TrustedAt(cfg, init, imports, j);
    SetIdNamesSet(init, imports, i, j, imports[i].verifiedBy, imports[j].verifiedBy);
    AcceptedSetsAgree(cfg.crypto, imports[i].verifiedBy, imports[i].submission.validatorSet, imports[j].submission.validatorSet);
    QuorumsIntersect(cfg.crypto, imports[i].submission.signed, imports[j].submission.signed,
                     imports[i].submission.validatorSet.validators);
  }

  /** The mode after a run: the last one that was set, or else the initial one. */
  function ModeAfter(halted: bool, steps: seq<Step>): bool {
    if steps == [] then halted
    else if steps[|steps| - 1].SetHalted? then steps[|steps| - 1].halted
    else ModeAfter(halted, steps[..|steps| - 1])
  }

  lemma {:induction false} ModeIsAsSet(cfg: Config, init: InitData, steps: seq<Step>)
    requires GoodStart(cfg, init)
    ensures Run(cfg, init, steps).state.halted == ModeAfter(init.halted, steps)
  {
    if steps != [] {
      ModeIsAsSet(cfg, init, steps[..|steps| - 1]);
    }
  }

  // ---------------------------------------------------------------- empty sets

  /** More than two thirds of the presented validators signed. */
  ghost predicate HasMajority(cfg: Config, sub: Submission) {
    var validators := sub.validatorSet.validators;
    && |sub.signed.signatures| == |validators|
    && 3 * |Signers(cfg.crypto, sub.signed, validators, |validators|)| > 2 * |validators|
  }

  lemma AcceptedHasMajorityIff(cfg: Config, e: Import)
    requires Accepted(cfg, e)
    ensures HasMajority(cfg, e.submission) <==> e.verifiedBy.len > 0
  {
    var validators := e.submission.validatorSet.validators;
    RequiredIsLeastMajority(|validators|);
    PositionsBelow(Signers(cfg.crypto, e.submission.signed, validators, |validators|), |validators|);
  }

  /** Every import of every run was signed by more than two thirds of its validators if and only if the set in charge
      was not empty. */
  lemma MajorityIff(cfg: Config, init: InitData, steps: seq<Step>, i: nat)
    requires GoodStart(cfg, init) && i < |Run(cfg, init, steps).imports|
    ensures var e := Run(cfg, init, steps).imports[i];
            HasMajority(cfg, e.submission) <==> e.verifiedBy.len > 0
  {
    RunKeeps(cfg, init, steps);
    var imports := Run(cfg, init, steps).imports;
    assert TrustedAt(cfg, init, imports, i);
    AcceptedHasMajorityIff(cfg, imports[i]);
  }

  /** So it is where no imported leaf announces an empty set. */
  lemma NonEmptyAnnouncementsSuffice(cfg: Config, init: InitData, steps: seq<Step>, i: nat)
    requires GoodStart(cfg, init) && i < |Run(cfg, init, steps).imports|
    requires forall j | 0 <= j < i :: SetOf(Run(cfg, init, steps).imports[j]).len > 0
    ensures HasMajority(cfg, Run(cfg, init, steps).imports[i].submission)
  {
    RunKeeps(cfg, init, steps);
    MajorityIff(cfg, init, steps, i);
    var imports := Run(cfg, init, steps).imports;
    assert TrustedAt(cfg, init, imports, i);
    if imports[i].verifiedBy != init.authoritySet {
      var j: nat :| FirstWithId(init, imports, i, j, imports[i].verifiedBy);
    }
  }

  /** An announced empty set is put in charge, and then a commitment without any signature is imported. */
  lemma EmptySetNeedsNoSignature(v: AuthorityId, sig: Signature, keysRoot: seq<AuthorityId> -> MmrHash, root: MmrHash,
                                 payload: Payload, parent: (nat, BlockHash), rest: LeafRest, proof: MmrProof)
    ensures var crypto := Crypto((_, _, _) => true, keysRoot, _ => Some(root), (_, _, _) => true);
            var cfg, init := Config(2, 1, crypto), InitData(false, 0, AuthoritySetInfo(0, 1, keysRoot([v])));
            var empty := AuthoritySetInfo(1, 0, keysRoot([]));
            var first := Submission(SignedCommitment(Commitment(1, 0, payload), [Some(sig)]), ValidatorSet(0, [v]), MmrLeaf(parent, empty, rest), proof);
            var second := Submission(SignedCommitment(Commitment(2, 1, payload), []), ValidatorSet(1, []), MmrLeaf(parent, empty, rest), proof);
            && GoodStart(cfg, init)
            && Run(cfg, init, [Submit(first), Submit(second)]).imports == [Import(first, init.authoritySet), Import(second, empty)]
  {
    var crypto := Crypto((_, _, _) => true, keysRoot, _ => Some(root), (_, _, _) => true);
    var cfg, init := Config(2, 1, crypto), InitData(false, 0, AuthoritySetInfo(0, 1, keysRoot([v])));
    var empty := AuthoritySetInfo(1, 0, keysRoot([]));
    var first := Submission(SignedCommitment(Commitment(1, 0, payload), [Some(sig)]), ValidatorSet(0, [v]), MmrLeaf(parent, empty, rest), proof);
    var second := Submission(SignedCommitment(Commitment(2, 1, payload), []), ValidatorSet(1, []), MmrLeaf(parent, empty, rest), proof);
    assert Signers(crypto, first.signed, [v], 1) == {0};
    assert Rejection(cfg, Start(init).state, first).None?;
    var steps := [Submit(first), Submit(second)];
    assert steps[..1] == [Submit(first)] && [Submit(first)][..0] == [];
    assert Run(cfg, init, [Submit(first)]) == Apply(cfg, Start(init), Submit(first));
  }
}
