/** How the BEEFY light client verifies a signed commitment: the validator set must be the trusted one, and
    more than two thirds of it must have signed. */
module BeefyQuorum {
  import opened Prelude

  type AuthorityId(==, !new)
  type Signature(==, !new)
  type MmrHash(==, !new)
  type MmrProof(==, !new)
  type Payload(==, !new)
  type BlockHash(==, !new)
  type LeafRest(==, !new)

  datatype Commitment = Commitment(blockNumber: nat, validatorSetId: nat, payload: Payload)
  datatype SignedCommitment = SignedCommitment(commitment: Commitment, signatures: seq<Option<Signature>>)
  datatype ValidatorSet = ValidatorSet(id: nat, validators: seq<AuthorityId>)

  /** What the light client knows of a validator set: its id, its size and the root of its keys. */
  datatype AuthoritySetInfo = AuthoritySetInfo(id: nat, len: nat, keysetCommitment: MmrHash)

  datatype MmrLeaf = MmrLeaf(parent: (nat, BlockHash), nextSet: AuthoritySetInfo, rest: LeafRest)

  /** The foreign checks: signatures, key roots, payload lookup and MMR proofs. */
  datatype Crypto = Crypto(
    verify: (AuthorityId, Signature, Commitment) -> bool,
    keysRoot: seq<AuthorityId> -> MmrHash,
    mmrRoot: Payload -> Option<MmrHash>,
    verifiesLeaf: (MmrLeaf, MmrProof, MmrHash) -> bool)

  datatype Error =
    | NotInitialized | AlreadyInitialized | InvalidInitialAuthoritySet | TooManyRequests | OldCommitment
    | InvalidCommitmentValidatorSetId | InvalidValidatorSetId | InvalidCommitmentSignaturesLen
    | InvalidValidatorSetLen | NotEnoughCorrectSignatures | MmrRootMissingFromCommitment
    | MmrProofVerificationFailed | InvalidValidatorSetRoot | Halted

  function SignaturesRequired(n: nat): nat {
    n - SaturatingSub(n, 1) / 3
  }

  /** The required number is the least one above two thirds, for every set but the empty one. */
  lemma RequiredIsLeastMajority(n: nat)
    ensures 3 * SignaturesRequired(n) > 2 * n <==> n >= 1
    ensures forall k: nat :: 3 * k > 2 * n ==> k >= SignaturesRequired(n)
  {
  }

  // ---------------------------------------------------------------- who signed

  predicate SignedAt(c: Crypto, sc: SignedCommitment, validators: seq<AuthorityId>, i: nat)
    requires i < |validators| && i < |sc.signatures|
  {
    sc.signatures[i].Some? && c.verify(validators[i], sc.signatures[i].value, sc.commitment)
  }

  /** Positions among the first `n` whose signature is correct. */
  function Signers(c: Crypto, sc: SignedCommitment, validators: seq<AuthorityId>, n: nat): set<nat>
    requires n <= |validators| && n <= |sc.signatures|
  {
    set i: nat | i < n && SignedAt(c, sc, validators, i)
  }

  lemma SignersNext(c: Crypto, sc: SignedCommitment, validators: seq<AuthorityId>, n: nat)
    requires n < |validators| && n < |sc.signatures|
    ensures |Signers(c, sc, validators, n + 1)| ==
            |Signers(c, sc, validators, n)| + (if SignedAt(c, sc, validators, n) then 1 else 0)
  {
    var fewer, more := Signers(c, sc, validators, n), Signers(c, sc, validators, n + 1);
    assert n !in fewer;
    forall i: nat
      ensures i in more <==> i in fewer || (i == n && SignedAt(c, sc, validators, n))
    {
    }
    assert more == if SignedAt(c, sc, validators, n) then fewer + {n} else fewer;
  }

  lemma {:induction false} SignersGrow(c: Crypto, sc: SignedCommitment, validators: seq<AuthorityId>, m: nat, n: nat)
    requires m <= n <= |validators| && n <= |sc.signatures|
    ensures |Signers(c, sc, validators, m)| <= |Signers(c, sc, validators, n)|
    decreases n
  {
    if m < n {
      SignersGrow(c, sc, validators, m, n - 1);
      SignersNext(c, sc, validators, n - 1);
    }
  }

  /** As many signatures as there are validators, and enough of them correct. */
  predicate Quorum(c: Crypto, sc: SignedCommitment, validators: seq<AuthorityId>) {
    && |sc.signatures| == |validators|
    && |Signers(c, sc, validators, |validators|)| >= SignaturesRequired(|validators|)
  }

  /** The loop stops as soon as enough signatures are found, and still decides exactly by the count of all
      correct ones. */
  method VerifySignatures(c: Crypto, sc: SignedCommitment, validators: seq<AuthorityId>)
    returns (r: Result<(), Error>)
    ensures r.Ok? <==> Quorum(c, sc, validators)
    ensures r.Err? ==> r.error == if |sc.signatures| != |validators| then InvalidCommitmentSignaturesLen
                                  else NotEnoughCorrectSignatures
  {
    if |sc.signatures| != |validators| {
      return Err(InvalidCommitmentSignaturesLen);
    }
    var n := |validators|;
    var missing := SignaturesRequired(n);
    var i := 0;
    while i < n
      invariant 0 <= i <= n
      invariant missing == SaturatingSub(SignaturesRequired(n), |Signers(c, sc, validators, i)|)
    {
      SignersNext(c, sc, validators, i);
      if sc.signatures[i].Some? && c.verify(validators[i], sc.signatures[i].value, sc.commitment) {
        missing := SaturatingSub(missing, 1);
        if missing == 0 {
          SignersGrow(c, sc, validators, i + 1, n);
          break;
        }
      }
      i := i + 1;
    }
    if missing != 0 {
      return Err(NotEnoughCorrectSignatures);
    }
    return Ok(());
  }

  // ---------------------------------------------------------------- the whole commitment

  function SetRejection(c: Crypto, info: AuthoritySetInfo, vs: ValidatorSet): Option<Error> {
    if vs.id != info.id then Some(InvalidValidatorSetId)
    else if |vs.validators| != info.len then Some(InvalidValidatorSetLen)
    else if c.keysRoot(vs.validators) != info.keysetCommitment then Some(InvalidValidatorSetRoot)
    else None
  }

  function CommitmentRejection(c: Crypto, sc: SignedCommitment, info: AuthoritySetInfo, vs: ValidatorSet): Option<Error> {
    if sc.commitment.validatorSetId != info.id then Some(InvalidCommitmentValidatorSetId)
    else if |sc.signatures| != info.len then Some(InvalidCommitmentSignaturesLen)
    else if SetRejection(c, info, vs).Some? then SetRejection(c, info, vs)
    else if !Quorum(c, sc, vs.validators) then Some(NotEnoughCorrectSignatures)
    else if c.mmrRoot(sc.commitment.payload).None? then Some(MmrRootMissingFromCommitment)
    else None
  }

  /** What makes a signed commitment acceptable: it claims the trusted set, the presented validators are that set, enough
      of them signed it, and it carries an MMR root. */
  predicate Acceptable(c: Crypto, sc: SignedCommitment, info: AuthoritySetInfo, vs: ValidatorSet) {
    && sc.commitment.validatorSetId == info.id == vs.id
    && |sc.signatures| == |vs.validators| == info.len
    && c.keysRoot(vs.validators) == info.keysetCommitment
    && |Signers(c, sc, vs.validators, |vs.validators|)| >= SignaturesRequired(|vs.validators|)
    && c.mmrRoot(sc.commitment.payload).Some?
  }

  lemma CommitmentAcceptedIff(c: Crypto, sc: SignedCommitment, info: AuthoritySetInfo, vs: ValidatorSet)
    ensures CommitmentRejection(c, sc, info, vs) == None <==> Acceptable(c, sc, info, vs)
  {
  }

  /** Why a commitment is rejected: the first of the checks that fails. */
  lemma CommitmentRefusals(c: Crypto, sc: SignedCommitment, info: AuthoritySetInfo, vs: ValidatorSet)
    ensures var r, claimed := CommitmentRejection(c, sc, info, vs), sc.commitment.validatorSetId == info.id;
            var sized := claimed && |sc.signatures| == info.len;
            var named := sized && vs.id == info.id;
            var complete := named && |vs.validators| == info.len;
            var trusted := complete && c.keysRoot(vs.validators) == info.keysetCommitment;
            var signed := trusted && |Signers(c, sc, vs.validators, |vs.validators|)| >= SignaturesRequired(|vs.validators|);
            && (r == Some(InvalidCommitmentValidatorSetId) <==> !claimed)
            && (r == Some(InvalidCommitmentSignaturesLen) <==> claimed && !sized)
            && (r == Some(InvalidValidatorSetId) <==> sized && !named)
            && (r == Some(InvalidValidatorSetLen) <==> named && !complete)
            && (r == Some(InvalidValidatorSetRoot) <==> complete && !trusted)
            && (r == Some(NotEnoughCorrectSignatures) <==> trusted && !signed)
            && (r == Some(MmrRootMissingFromCommitment) <==> signed && c.mmrRoot(sc.commitment.payload) == None)
  {
  }

  method VerifyCommitment(c: Crypto, sc: SignedCommitment, info: AuthoritySetInfo, vs: ValidatorSet)
    returns (r: Result<MmrHash, Error>)
    ensures match CommitmentRejection(c, sc, info, vs)
            case Some(e) => r == Err(e)
            case None => r.Ok? && c.mmrRoot(sc.commitment.payload) == Some(r.value)
  {
    if sc.commitment.validatorSetId != info.id {
      return Err(InvalidCommitmentValidatorSetId);
    }
    if |sc.signatures| != info.len {
      return Err(InvalidCommitmentSignaturesLen);
    }
    var rejection := SetRejection(c, info, vs);
    if rejection.Some? {
      return Err(rejection.value);
    }
    var signed := VerifySignatures(c, sc, vs.validators);
    if signed.Err? {
      return Err(signed.error);
    }
    match c.mmrRoot(sc.commitment.payload)
    case None => return Err(MmrRootMissingFromCommitment);
    case Some(root) => return Ok(root);
  }

  // ---------------------------------------------------------------- accountability

  lemma {:induction false} PositionsBelow(s: set<nat>, n: nat)
    requires forall i | i in s :: i < n
    ensures |s| <= n
  {
    if n == 0 {
      assert s == {};
    } else {
      PositionsBelow(s - {n - 1}, n - 1);
    }
  }

  /** Two commitments with a quorum of one validator list have at least a third plus one signer in common,
      unless the list is empty. */
  lemma QuorumsIntersect(c: Crypto, sc: SignedCommitment, sc': SignedCommitment, validators: seq<AuthorityId>)
    requires Quorum(c, sc, validators) && Quorum(c, sc', validators)
    ensures var n := |validators|;
            n >= 1 ==> |Signers(c, sc, validators, n) * Signers(c, sc', validators, n)| >= (n - 1) / 3 + 1
  {
    var n := |validators|;
    var a, b := Signers(c, sc, validators, n), Signers(c, sc', validators, n);
    PositionsBelow(a + b, n);
    assert |a + b| + |a * b| == |a| + |b|;
  }

  ghost predicate InjectiveRoot(c: Crypto) {
    forall a, b | c.keysRoot(a) == c.keysRoot(b) :: a == b
  }

  /** Whatever validator list a relayer presents, one set info admits only one. */
  lemma AcceptedSetsAgree(c: Crypto, info: AuthoritySetInfo, vs: ValidatorSet, vs': ValidatorSet)
    requires InjectiveRoot(c)
    requires SetRejection(c, info, vs).None? && SetRejection(c, info, vs').None?
    ensures vs == vs'
  {
  }
}
