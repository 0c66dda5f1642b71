/** The BEEFY light client pallet: commitments are imported under a request limit, the trusted validator set
    moves on with the leaves they carry, and the last commitments are kept. */
module BeefyPallet {
  import opened Prelude
  import opened RingBuffer
  import opened BeefyQuorum

  datatype Config = Config(maxRequests: nat, commitmentsToKeep: nat, crypto: Crypto)
  datatype ImportedCommitment = ImportedCommitment(parent: (nat, BlockHash), mmrRoot: MmrHash)
  datatype CommitmentsInfo = CommitmentsInfo(bestBlockNumber: nat, nextBlockNumberIndex: nat)
  datatype InitData = InitData(halted: bool, bestBlockNumber: nat, authoritySet: AuthoritySetInfo)

  datatype Submission = Submission(signed: SignedCommitment, validatorSet: ValidatorSet, leaf: MmrLeaf, proof: MmrProof)
  {
    function Number(): nat {
      signed.commitment.blockNumber
    }
  }

  /** The pallet's storage; the ring's pointer is the one kept beside the best number. */
  datatype State = State(
    halted: bool, requestCount: nat, best: Option<nat>, ring: Ring<nat, ImportedCommitment>,
    authoritySet: AuthoritySetInfo)

  function Rejection(cfg: Config, s: State, sub: Submission): Option<Error> {
    if s.halted then Some(Halted)
    else if s.requestCount >= cfg.maxRequests then Some(TooManyRequests)
    else if s.best.None? then Some(NotInitialized)
    else if sub.Number() <= s.best.value then Some(OldCommitment)
    else
      var rejection := CommitmentRejection(cfg.crypto, sub.signed, s.authoritySet, sub.validatorSet);
      if rejection.Some? then rejection
      else if !cfg.crypto.verifiesLeaf(sub.leaf, sub.proof, RootOf(cfg, sub)) then Some(MmrProofVerificationFailed)
      else None
  }

  predicate HasRoot(cfg: Config, sub: Submission) {
    cfg.crypto.mmrRoot(sub.signed.commitment.payload).Some?
  }

  function RootOf(cfg: Config, sub: Submission): MmrHash
    requires HasRoot(cfg, sub)
  {
    cfg.crypto.mmrRoot(sub.signed.commitment.payload).value
  }

  function NextSet(current: AuthoritySetInfo, leaf: MmrLeaf): AuthoritySetInfo {
    if leaf.nextSet.id > current.id then leaf.nextSet else current
  }

  function Submitted(cfg: Config, s: State, sub: Submission): State
    requires cfg.commitmentsToKeep > 0
  {
    if Rejection(cfg, s, sub).Some? then s
    else
      State(s.halted, s.requestCount + 1, Some(sub.Number()),
            Inserted(cfg.commitmentsToKeep, s.ring, sub.Number(), ImportedCommitment(sub.leaf.parent, RootOf(cfg, sub))),
            NextSet(s.authoritySet, sub.leaf))
  }

  function InitRejection(s: State, init: InitData): Option<Error> {
    if s.best.Some? then Some(AlreadyInitialized)
    else if init.authoritySet.len == 0 then Some(InvalidInitialAuthoritySet)
    else None
  }

  function Initialized(s: State, init: InitData): State {
    if InitRejection(s, init).Some? then s
    else State(init.halted, s.requestCount, Some(init.bestBlockNumber), s.ring.(pointer := 0), init.authoritySet)
  }

  /** A submission is accepted if and only if the pallet runs, has room for a request and is initialised, the commitment
      is for a newer block and acceptable under the trusted set, and its leaf belongs to its MMR root. */
  lemma AcceptedIff(cfg: Config, s: State, sub: Submission)
    ensures Rejection(cfg, s, sub) == None <==>
              && !s.halted && s.requestCount < cfg.maxRequests && s.best.Some? && s.best.value < sub.signed.commitment.blockNumber
              && Acceptable(cfg.crypto, sub.signed, s.authoritySet, sub.validatorSet)
              && cfg.crypto.verifiesLeaf(sub.leaf, sub.proof, cfg.crypto.mmrRoot(sub.signed.commitment.payload).value)
  {
    CommitmentAcceptedIff(cfg.crypto, sub.signed, s.authoritySet, sub.validatorSet);
  }

  /** Why a submission is rejected: the first of the checks that fails. */
  lemma RejectionReasons(cfg: Config, s: State, sub: Submission)
    ensures var r, open := Rejection(cfg, s, sub), !s.halted && s.requestCount < cfg.maxRequests;
            var newer := open && s.best.Some? && s.best.value < sub.signed.commitment.blockNumber;
            var acceptable := Acceptable(cfg.crypto, sub.signed, s.authoritySet, sub.validatorSet);
            && (r == Some(Halted) <==> s.halted)
            && (r == Some(TooManyRequests) <==> !s.halted && !open)
            && (r == Some(NotInitialized) <==> open && s.best.None?)
            && (r == Some(OldCommitment) <==> open && s.best.Some? && !newer)
            && (newer && !acceptable ==> r == CommitmentRejection(cfg.crypto, sub.signed, s.authoritySet, sub.validatorSet))
            && (r == Some(MmrProofVerificationFailed) <==>
                  newer && acceptable && !cfg.crypto.verifiesLeaf(sub.leaf, sub.proof, cfg.crypto.mmrRoot(sub.signed.commitment.payload).value))
  {
    CommitmentAcceptedIff(cfg.crypto, sub.signed, s.authoritySet, sub.validatorSet);
    CommitmentRefusals(cfg.crypto, sub.signed, s.authoritySet, sub.validatorSet);
  }

  /** Initialisation happens once, with a set that is not empty; it trusts that set from the given block on, takes the
      given mode and stores nothing else. */
  lemma InitializedIs(s: State, init: InitData)
    ensures InitRejection(s, init) == None <==> s.best == None && init.authoritySet.len > 0
    ensures InitRejection(s, init) == Some(AlreadyInitialized) <==> s.best.Some?
    ensures InitRejection(s, init) == Some(InvalidInitialAuthoritySet) <==> s.best == None && init.authoritySet.len == 0
    ensures var s' := Initialized(s, init);
            if InitRejection(s, init).Some? then s' == s
            else
              && s'.halted == init.halted && s'.requestCount == s.requestCount && s'.best == Some(init.bestBlockNumber)
              && s'.authoritySet == init.authoritySet
              && s'.ring.pointer == 0 && s'.ring.slots == s.ring.slots && s'.ring.entries == s.ring.entries
  {
  }

  // ---------------------------------------------------------------- the pallet

  class Pallet {
    const cfg: Config
    var operatingHalted: bool
    var requestCount: nat
    var importedCommitmentsInfo: Option<CommitmentsInfo>
    var importedBlockNumbers: map<nat, nat>
    var importedCommitments: map<nat, ImportedCommitment>
    var currentAuthoritySetInfo: AuthoritySetInfo

    constructor (cfg: Config, defaultSet: AuthoritySetInfo)
      ensures this.cfg == cfg && Storage() == State(true, 0, None, EmptyRing(), defaultSet)
    {
      this.cfg := cfg;
      operatingHalted, requestCount, importedCommitmentsInfo := true, 0, None;
      importedBlockNumbers, importedCommitments := map[], map[];
      currentAuthoritySetInfo := defaultSet;
    }

    function Storage(): State
      reads this
    {
      var (best, pointer) := match importedCommitmentsInfo
        case None => (None, 0)
        case Some(info) => (Some(info.bestBlockNumber), info.nextBlockNumberIndex);
      State(operatingHalted, requestCount, best, Ring(pointer, importedBlockNumbers, importedCommitments),
            currentAuthoritySetInfo)
    }

    method OnInitialize()
      modifies this`requestCount
      ensures Storage() == old(Storage()).(requestCount := SaturatingSub(old(requestCount), 1))
    {
      requestCount := SaturatingSub(requestCount, 1);
    }

    method Initialize(init: InitData) returns (r: Result<(), Error>)
      modifies this
      ensures Storage() == Initialized(old(Storage()), init)
      ensures match InitRejection(old(Storage()), init)
              case Some(e) => r == Err(e)
              case None => r == Ok(())
    {
      if importedCommitmentsInfo.Some? {
        return Err(AlreadyInitialized);
      }
      if init.authoritySet.len == 0 {
        return Err(InvalidInitialAuthoritySet);
      }
      currentAuthoritySetInfo := init.authoritySet;
      operatingHalted := init.halted;
      importedCommitmentsInfo := Some(CommitmentsInfo(init.bestBlockNumber, 0));
      return Ok(());
    }

    /** No rejected submission has written anything. */
    method SubmitCommitment(sub: Submission) returns (r: Result<(), Error>)
      requires cfg.commitmentsToKeep > 0
      modifies this
      ensures Storage() == Submitted(cfg, old(Storage()), sub)
      ensures match Rejection(cfg, old(Storage()), sub)
              case Some(e) => r == Err(e) && Storage() == old(Storage())
              case None => r == Ok(())
    {
      if operatingHalted {
        return Err(Halted);
      }
      if requestCount >= cfg.maxRequests {
        return Err(TooManyRequests);
      }
      if importedCommitmentsInfo.None? {
        return Err(NotInitialized);
      }
      var info := importedCommitmentsInfo.value;
      var number := sub.signed.commitment.blockNumber;
      if number <= info.bestBlockNumber {
        return Err(OldCommitment);
      }
      var currentInfo := currentAuthoritySetInfo;
      var root := VerifyCommitment(cfg.crypto, sub.signed, currentInfo, sub.validatorSet);
      if root.Err? {
        return Err(root.error);
      }
      if !cfg.crypto.verifiesLeaf(sub.leaf, sub.proof, root.value) {
        return Err(MmrProofVerificationFailed);
      }
      requestCount := requestCount + 1;
      if sub.leaf.nextSet.id > currentInfo.id {
        currentAuthoritySetInfo := sub.leaf.nextSet;
      }
      ImportCommitment(number, info.nextBlockNumberIndex, ImportedCommitment(sub.leaf.parent, root.value));
      return Ok(());
    }

    method ImportCommitment(number: nat, index: nat, imported: ImportedCommitment)
      requires cfg.commitmentsToKeep > 0 && importedCommitmentsInfo.Some?
      requires index == importedCommitmentsInfo.value.nextBlockNumberIndex
      modifies this`importedCommitments, this`importedBlockNumbers, this`importedCommitmentsInfo
      ensures Storage() ==
              old(Storage()).(best := Some(number),
                              ring := Inserted(cfg.commitmentsToKeep, old(Storage()).ring, number, imported))
    {
      var toPrune := if index in importedBlockNumbers then Some(importedBlockNumbers[index]) else None;
      importedCommitments := importedCommitments[number := imported];
      importedBlockNumbers := importedBlockNumbers[index := number];
      importedCommitmentsInfo := Some(CommitmentsInfo(number, (index + 1) % cfg.commitmentsToKeep));
      if toPrune.Some? {
        importedCommitments := importedCommitments - {toPrune.value};
      }
    }
  }
}
