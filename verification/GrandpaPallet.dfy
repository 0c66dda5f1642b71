/** The GRANDPA light client: headers of the bridged chain are imported with a finality proof of the
    authority set the pallet trusts, and a header may hand that trust to the next set. */
module GrandpaPallet {
  import opened Prelude
  import opened RingBuffer

  type Hash(==, !new)
  type Root(==, !new)
  type AuthorityId(==, !new)
  type HeaderRest(==, !new)
  type Commit(==, !new)

  const U32_MAX: nat := 0xFFFF_FFFF

  function SaturatedU32(x: nat): nat {
    Min(x, U32_MAX)
  }

  datatype Authority = Authority(id: AuthorityId, weight: nat)
  datatype AuthoritySet = AuthoritySet(authorities: seq<Authority>, setId: nat)
  datatype ScheduledChange = ScheduledChange(nextAuthorities: seq<Authority>, delay: nat)

  /** A header, with the two kinds of authority change its digest may carry. */
  datatype Header = Header(
    number: nat, stateRoot: Root, forcedChange: bool, scheduledChange: Option<ScheduledChange>,
    encodedSize: nat, rest: HeaderRest)

  datatype Justification = Justification(precommits: nat, votesAncestries: nat, encodedSize: nat, commit: Commit)
  datatype HeaderId = HeaderId(number: nat, hash: Hash)
  datatype StoredHeader = StoredHeader(number: nat, stateRoot: Root)

  datatype Error =
    | InvalidJustification | InvalidAuthoritySet | OldHeader | UnsupportedScheduledChange | NotInitialized
    | AlreadyInitialized | TooManyAuthoritiesInSet | Halted | InvalidAuthoritySetId
    | FreeHeadersLimitExceeded | BelowFreeHeaderInterval | HeaderOverflowLimits

  /** Constants of the pallet and the bridged chain, and the foreign checks it calls. */
  datatype Config = Config(
    maxAuthorities: nat, headersToKeep: nat, maxFreeHeadersPerBlock: nat, freeHeadersInterval: Option<nat>,
    reasonableAncestry: nat, maxExpectedSize: (bool, nat) -> nat, submitWeight: (nat, nat) -> Weight,
    hash: Header -> Hash, usableSet: AuthoritySet -> bool,
    verifies: (Hash, nat, AuthoritySet, Justification) -> bool)

  /** The pallet's storage. */
  datatype State = State(
    halted: bool, freeRemaining: Option<nat>, initialHash: Option<Hash>, best: Option<HeaderId>,
    ring: Ring<Hash, StoredHeader>, authoritySet: AuthoritySet)

  datatype CallInfo = CallInfo(
    blockNumber: nat, currentSetId: Option<nat>, isMandatory: bool, freeExpected: bool,
    extraWeight: Weight, extraSize: nat)
  {
    predicate FitsLimits() {
      extraWeight == ZERO_WEIGHT && extraSize == 0
    }
  }

  datatype InitData = InitData(header: Header, authorities: seq<Authority>, setId: nat, halted: bool)

  // ---------------------------------------------------------------- checks that only read

  /** What a submission says about itself. */
  function CallInfoOf(cfg: Config, h: Header, j: Justification, setId: Option<nat>, freeExpected: bool): CallInfo {
    var precommits := SaturatedU32(j.precommits);
    var ancestries := SaturatedU32(j.votesAncestries);
    var mandatory := h.scheduledChange.Some?;
    CallInfo(
      h.number, setId, mandatory, freeExpected,
      if ancestries > cfg.reasonableAncestry then cfg.submitWeight(precommits, ancestries) else ZERO_WEIGHT,
      SaturatingSub(SaturatedU32(h.encodedSize + j.encodedSize), cfg.maxExpectedSize(mandatory, precommits)))
  }

  /** By how much a header improves on the best one known. */
  function CheckObsolete(s: State, number: nat, setId: Option<nat>): Result<nat, Error> {
    if s.best.None? then Err(NotInitialized)
    else if number <= s.best.value.number then Err(OldHeader)
    else if setId.Some? && setId.value != s.authoritySet.setId then Err(InvalidAuthoritySetId)
    else Ok(number - s.best.value.number)
  }

  predicate HasFreeHeaderSlots(s: State) {
    s.freeRemaining.None? || s.freeRemaining.value > 0
  }

  /** The check made before the call enters a block. */
  function CheckObsoleteFromExtension(cfg: Config, s: State, info: CallInfo): Result<nat, Error> {
    var improved := CheckObsolete(s, info.blockNumber, info.currentSetId);
    if improved.Err? || !info.freeExpected then improved
    else if !HasFreeHeaderSlots(s) then Err(FreeHeadersLimitExceeded)
    else if !info.isMandatory && cfg.freeHeadersInterval.Some? && improved.value < cfg.freeHeadersInterval.value then
      Err(BelowFreeHeaderInterval)
    else if !info.FitsLimits() then Err(HeaderOverflowLimits)
    else improved
  }

  predicate MayRefund(cfg: Config, s: State, h: Header, j: Justification, setId: nat, improvedBy: nat) {
    var info := CallInfoOf(cfg, h, j, Some(setId), false);
    && s.freeRemaining.Some? && s.freeRemaining.value > 0
    && info.FitsLimits()
    && (info.isMandatory || (cfg.freeHeadersInterval.Some? && improvedBy >= cfg.freeHeadersInterval.value))
  }

  // ---------------------------------------------------------------- what the calls do to the storage

  function WithFreeImport(s: State): State {
    if s.freeRemaining.None? then s
    else s.(freeRemaining := Some(SaturatingSub(s.freeRemaining.value, 1)))
  }

  function Build(h: Header): StoredHeader {
    StoredHeader(h.number, h.stateRoot)
  }

  function WithHeader(cfg: Config, s: State, h: Header): State
    requires cfg.headersToKeep > 0
  {
    s.(best := Some(HeaderId(h.number, cfg.hash(h))),
       ring := Inserted(cfg.headersToKeep, s.ring, cfg.hash(h), Build(h)))
  }

  /** The set a header leaves in charge after `current`. */
  function NextSet(current: AuthoritySet, h: Header): AuthoritySet {
    if h.scheduledChange.None? then current
    else AuthoritySet(h.scheduledChange.value.nextAuthorities, current.setId + 1)
  }

  function Rejection(cfg: Config, s: State, h: Header, j: Justification, setId: nat): Option<Error> {
    if s.halted then Some(Halted)
    else
      var improved := CheckObsolete(s, h.number, Some(setId));
      if improved.Err? then Some(improved.error)
      else if !cfg.usableSet(s.authoritySet) then Some(InvalidAuthoritySet)
      else if !cfg.verifies(cfg.hash(h), h.number, s.authoritySet, j) then Some(InvalidJustification)
      else if h.forcedChange then Some(UnsupportedScheduledChange)
      else if h.scheduledChange.None? then None
      else if h.scheduledChange.value.delay != 0 then Some(UnsupportedScheduledChange)
      else if |h.scheduledChange.value.nextAuthorities| > cfg.maxAuthorities then Some(TooManyAuthoritiesInSet)
      else None
  }

  predicate IsFree(cfg: Config, s: State, h: Header, j: Justification, setId: nat) {
    s.best.Some? && h.number > s.best.value.number &&
    MayRefund(cfg, s, h, j, setId, h.number - s.best.value.number)
  }

  function Submitted(cfg: Config, s: State, h: Header, j: Justification, setId: nat): State
    requires cfg.headersToKeep > 0
  {
    if Rejection(cfg, s, h, j, setId).Some? then s
    else
      var paid := if IsFree(cfg, s, h, j, setId) then WithFreeImport(s) else s;
      WithHeader(cfg, paid, h).(authoritySet := NextSet(s.authoritySet, h))
  }

  /** Sets the trusted set and the best header, whatever they were. */
  function Forced(cfg: Config, s: State, setId: nat, authorities: seq<Authority>, h: Header): State
    requires cfg.headersToKeep > 0
  {
    if |authorities| > cfg.maxAuthorities then s
    else WithHeader(cfg, s, h).(authoritySet := AuthoritySet(authorities, setId))
  }

  const EMPTY_SET := AuthoritySet([], 0)

  /** Storage of a pallet that has not been initialised. */
  function Fresh(freeRemaining: Option<nat>): State {
    State(true, freeRemaining, None, None, EmptyRing(), EMPTY_SET)
  }

  function InitRejection(cfg: Config, s: State, init: InitData): Option<Error> {
    if s.best.Some? then Some(AlreadyInitialized)
    else if |init.authorities| > cfg.maxAuthorities then Some(TooManyAuthoritiesInSet)
    else None
  }

  function Initialized(cfg: Config, s: State, init: InitData): State
    requires cfg.headersToKeep > 0
  {
    if InitRejection(cfg, s, init).Some? then s
    else
      var zeroed := s.(ring := s.ring.(pointer := 0), initialHash := Some(cfg.hash(init.header)));
      WithHeader(cfg, zeroed, init.header)
        .(authoritySet := AuthoritySet(init.authorities, init.setId), halted := init.halted)
  }

  // ---------------------------------------------------------------- the pallet

  class Pallet {
    const cfg: Config
    var operatingHalted: bool
    var freeHeadersRemaining: Option<nat>
    var initialHash: Option<Hash>
    var bestFinalized: Option<HeaderId>
    var importedHashes: map<nat, Hash>
    var importedHashesPointer: nat
    var importedHeaders: map<Hash, StoredHeader>
    var currentAuthoritySet: AuthoritySet

    constructor (cfg: Config)
      ensures this.cfg == cfg && Storage() == Fresh(None)
    {
      this.cfg := cfg;
      operatingHalted := true;
      freeHeadersRemaining, initialHash, bestFinalized := None, None, None;
      importedHashes, importedHashesPointer, importedHeaders := map[], 0, map[];
      currentAuthoritySet := EMPTY_SET;
    }

    function Storage(): State
      reads this
    {
      State(operatingHalted, freeHeadersRemaining, initialHash, bestFinalized,
            Ring(importedHashesPointer, importedHashes, importedHeaders), currentAuthoritySet)
    }

    method OnInitialize()
      modifies this`freeHeadersRemaining
      ensures Storage() == old(Storage()).(freeRemaining := Some(cfg.maxFreeHeadersPerBlock))
    {
      freeHeadersRemaining := Some(cfg.maxFreeHeadersPerBlock);
    }

    method OnFinalize()
      modifies this`freeHeadersRemaining
      ensures Storage() == old(Storage()).(freeRemaining := None)
    {
      freeHeadersRemaining := None;
    }

    method OnFreeHeaderImported()
      modifies this`freeHeadersRemaining
      ensures Storage() == WithFreeImport(old(Storage()))
    {
      match freeHeadersRemaining
      case None =>
      case Some(count) => freeHeadersRemaining := Some(SaturatingSub(count, 1));
    }

    method InsertHeader(header: Header, hash: Hash)
      requires cfg.headersToKeep > 0 && hash == cfg.hash(header)
      modifies this`bestFinalized, this`importedHeaders, this`importedHashes, this`importedHashesPointer
      ensures Storage() == WithHeader(cfg, old(Storage()), header)
    {
      var index: nat := importedHashesPointer;
      var pruning := if index in importedHashes then Some(importedHashes[index]) else None;
      bestFinalized := Some(HeaderId(header.number, hash));
      importedHeaders := importedHeaders[hash := Build(header)];
      importedHashes := importedHashes[index := hash];
      importedHashesPointer := (index + 1) % cfg.headersToKeep;
      if pruning.Some? {
        importedHeaders := importedHeaders - {pruning.value};
      }
    }

    method SaveAuthoritiesSet(newSetId: nat, newAuthorities: seq<Authority>) returns (r: Result<(), Error>)
      modifies this`currentAuthoritySet
      ensures r == if |newAuthorities| > cfg.maxAuthorities then Err(TooManyAuthoritiesInSet) else Ok(())
      ensures currentAuthoritySet ==
              if r.Ok? then AuthoritySet(newAuthorities, newSetId) else old(currentAuthoritySet)
    {
      if |newAuthorities| > cfg.maxAuthorities {
        return Err(TooManyAuthoritiesInSet);
      }
      currentAuthoritySet := AuthoritySet(newAuthorities, newSetId);
      return Ok(());
    }

    /** Enacts the header's scheduled change, if any; on an error the set stays as it was. */
    method TryEnactAuthorityChange(header: Header) returns (r: Result<(), Error>)
      modifies this`currentAuthoritySet
      ensures r.Ok? <==> !header.forcedChange && (header.scheduledChange.Some? ==>
                 header.scheduledChange.value.delay == 0 &&
                 |header.scheduledChange.value.nextAuthorities| <= cfg.maxAuthorities)
      ensures r.Err? ==> r.error == if !header.forcedChange && header.scheduledChange.Some? &&
                                       header.scheduledChange.value.delay == 0
                                    then TooManyAuthoritiesInSet else UnsupportedScheduledChange
      ensures currentAuthoritySet ==
              if r.Ok? then NextSet(old(currentAuthoritySet), header) else old(currentAuthoritySet)
    {
      if header.forcedChange {
        return Err(UnsupportedScheduledChange);
      }
      match header.scheduledChange
      case None =>
        return Ok(());
      case Some(change) =>
        if change.delay != 0 {
          return Err(UnsupportedScheduledChange);
        }
        r := SaveAuthoritiesSet(currentAuthoritySet.setId + 1, change.nextAuthorities);
    }

    /** The result is whether the caller pays. No rejected submission has written anything. */
    method SubmitFinalityProofEx(header: Header, justification: Justification, currentSetId: nat)
      returns (pays: Result<bool, Error>)
      requires cfg.headersToKeep > 0
      modifies this
      ensures Storage() == Submitted(cfg, old(Storage()), header, justification, currentSetId)
      ensures match Rejection(cfg, old(Storage()), header, justification, currentSetId)
              case Some(e) => pays == Err(e) && Storage() == old(Storage())
              case None => pays == Ok(!IsFree(cfg, old(Storage()), header, justification, currentSetId))
    {
      if operatingHalted {
        return Err(Halted);
      }
      var hash := cfg.hash(header);
      var improvedBy := CheckObsolete(Storage(), header.number, Some(currentSetId));
      if improvedBy.Err? {
        return Err(improvedBy.error);
      }
      if !cfg.usableSet(currentAuthoritySet) {
        return Err(InvalidAuthoritySet);
      }
      if !cfg.verifies(hash, header.number, currentAuthoritySet, justification) {
        return Err(InvalidJustification);
      }
      var enacted := TryEnactAuthorityChange(header);
      if enacted.Err? {
        return Err(enacted.error);
      }
      var mayRefund := MayRefund(cfg, Storage(), header, justification, currentSetId, improvedBy.value);
      if mayRefund {
        OnFreeHeaderImported();
      }
      InsertHeader(header, hash);
      return Ok(!mayRefund);
    }

    method ForceSetPalletState(newSetId: nat, newAuthorities: seq<Authority>, newBest: Header)
      returns (r: Result<(), Error>)
      requires cfg.headersToKeep > 0
      modifies this
      ensures Storage() == Forced(cfg, old(Storage()), newSetId, newAuthorities, newBest)
      ensures r == if |newAuthorities| > cfg.maxAuthorities then Err(TooManyAuthoritiesInSet) else Ok(())
    {
      r := SaveAuthoritiesSet(newSetId, newAuthorities);
      if r.Err? {
        return;
      }
      InsertHeader(newBest, cfg.hash(newBest));
    }

    method Initialize(init: InitData) returns (r: Result<(), Error>)
      requires cfg.headersToKeep > 0
      modifies this
      ensures Storage() == Initialized(cfg, old(Storage()), init)
      ensures match InitRejection(cfg, old(Storage()), init)
              case Some(e) => r == Err(e)
              case None => r == Ok(())
    {
      if bestFinalized.Some? {
        return Err(AlreadyInitialized);
      }
      if |init.authorities| > cfg.maxAuthorities {
        return Err(TooManyAuthoritiesInSet);
      }
      var hash := cfg.hash(init.header);
      initialHash := Some(hash);
      importedHashesPointer := 0;
      InsertHeader(init.header, hash);
      currentAuthoritySet := AuthoritySet(init.authorities, init.setId);
      operatingHalted := init.halted;
      return Ok(());
    }
  }

  // ---------------------------------------------------------------- what is accepted

  /** A submission is accepted if and only if the pallet runs and is initialised, the header is newer than the best one,
      the claimed set is the trusted one, which is usable and justified the header, and the header carries no forced
      change and no delayed or oversized one. */
  lemma AcceptedIff(cfg: Config, s: State, h: Header, j: Justification, setId: nat)
    ensures Rejection(cfg, s, h, j, setId) == None <==>
              && !s.halted && s.best.Some? && s.best.value.number < h.number && setId == s.authoritySet.setId
              && cfg.usableSet(s.authoritySet) && cfg.verifies(cfg.hash(h), h.number, s.authoritySet, j)
              && !h.forcedChange
              && (h.scheduledChange.Some? ==> h.scheduledChange.value.delay == 0 &&
                                              |h.scheduledChange.value.nextAuthorities| <= cfg.maxAuthorities)
  {
  }

  /** Why a submission is rejected: the first of the checks that fails. */
  lemma RejectionReasons(cfg: Config, s: State, h: Header, j: Justification, setId: nat)
    ensures var r, started := Rejection(cfg, s, h, j, setId), !s.halted && s.best.Some?;
            var newer := started && s.best.value.number < h.number;
            var known := newer && setId == s.authoritySet.setId;
            var justified := known && cfg.usableSet(s.authoritySet) && cfg.verifies(cfg.hash(h), h.number, s.authoritySet, j);
            var delayed := h.forcedChange || (h.scheduledChange.Some? && h.scheduledChange.value.delay > 0);
            && (r == Some(Halted) <==> s.halted)
            && (r == Some(NotInitialized) <==> !s.halted && s.best.None?)
            && (r == Some(OldHeader) <==> started && !newer)
            && (r == Some(InvalidAuthoritySetId) <==> newer && !known)
            && (r == Some(InvalidAuthoritySet) <==> known && !cfg.usableSet(s.authoritySet))
            && (r == Some(InvalidJustification) <==> known && cfg.usableSet(s.authoritySet) && !justified)
            && (r == Some(UnsupportedScheduledChange) <==> justified && delayed)
            && (r == Some(TooManyAuthoritiesInSet) <==>
                  justified && !delayed && h.scheduledChange.Some? && |h.scheduledChange.value.nextAuthorities| > cfg.maxAuthorities)
  {
  }

  /** Initialisation happens once, with a set that fits. It trusts the given set from the given header on, remembers the
      header's hash for good and takes the given mode; the allowance of the block is not touched. */
  lemma InitializedIs(cfg: Config, s: State, init: InitData)
    requires cfg.headersToKeep > 0
    ensures InitRejection(cfg, s, init) == None <==> s.best == None && |init.authorities| <= cfg.maxAuthorities
    ensures InitRejection(cfg, s, init) == Some(AlreadyInitialized) <==> s.best.Some?
    ensures InitRejection(cfg, s, init) == Some(TooManyAuthoritiesInSet) <==> s.best == None && |init.authorities| > cfg.maxAuthorities
    ensures var s' := Initialized(cfg, s, init);
            if InitRejection(cfg, s, init).Some? then s' == s
            else
              && s'.halted == init.halted && s'.freeRemaining == s.freeRemaining
              && s'.initialHash == Some(cfg.hash(init.header))
              && s'.best == Some(HeaderId(init.header.number, cfg.hash(init.header)))
              && s'.authoritySet.authorities == init.authorities && s'.authoritySet.setId == init.setId
              && s'.ring.pointer == 1 % cfg.headersToKeep
  {
  }

  /** A free import uses up one slot of the block's allowance, if any is left. It never sets an allowance outside a block
      and changes nothing else. */
  lemma FreeImportIs(s: State)
    ensures var s' := WithFreeImport(s);
            && s' == s.(freeRemaining := s'.freeRemaining)
            && (s.freeRemaining == None <==> s'.freeRemaining == None)
            && (forall n: nat :: s.freeRemaining == Some(n + 1) ==> s'.freeRemaining == Some(n))
            && (s.freeRemaining == Some(0) ==> s'.freeRemaining == Some(0))
  {
  }

  // ---------------------------------------------------------------- forcing a header

  /** A forced header can be looked up afterwards exactly when it is not the one whose slot gets reused. */
  lemma ForcedHeaderIsKeptIff(cfg: Config, s: State, setId: nat, authorities: seq<Authority>, h: Header)
    requires cfg.headersToKeep > 0
    ensures |authorities| > cfg.maxAuthorities ==> Forced(cfg, s, setId, authorities, h) == s
    ensures |authorities| <= cfg.maxAuthorities ==>
            var s' := Forced(cfg, s, setId, authorities, h);
            && s'.best == Some(HeaderId(h.number, cfg.hash(h)))
            && s'.authoritySet.authorities == authorities && s'.authoritySet.setId == setId
            && s'.halted == s.halted && s'.freeRemaining == s.freeRemaining && s'.initialHash == s.initialHash
            && (cfg.hash(h) in s'.ring.entries <==>
                  !(s.ring.pointer in s.ring.slots && s.ring.slots[s.ring.pointer] == cfg.hash(h)))
  {
    LatestKeptIff(cfg.headersToKeep, s.ring, cfg.hash(h), Build(h));
  }

  /** Forcing the initial header again in a pallet that keeps one header: the best header is gone from storage. */
  lemma ForcedAgainIsLost(cfg: Config, init: InitData)
    requires cfg.headersToKeep == 1 && |init.authorities| <= cfg.maxAuthorities
    ensures var s := Initialized(cfg, Fresh(None), init);
            var s' := Forced(cfg, s, init.setId, init.authorities, init.header);
            && s.best == s'.best == Some(HeaderId(init.header.number, cfg.hash(init.header)))
            && cfg.hash(init.header) in s.ring.entries
            && cfg.hash(init.header) !in s'.ring.entries
  {
    ForcedHeaderIsKeptIff(cfg, Initialized(cfg, Fresh(None), init), init.setId, init.authorities, init.header);
  }

  // ---------------------------------------------------------------- free execution

  /** A submission is small if its justification has no more vote ancestries than is reasonable, or the call weighs
      nothing, and header and justification together are no larger than expected of such a header. */
  predicate Small(cfg: Config, h: Header, j: Justification) {
    var ancestries, precommits := Min(j.votesAncestries, 0xFFFF_FFFF), Min(j.precommits, 0xFFFF_FFFF);
    && (ancestries <= cfg.reasonableAncestry || cfg.submitWeight(precommits, ancestries) == Weight(0, 0))
    && Min(h.encodedSize + j.encodedSize, 0xFFFF_FFFF) <= cfg.maxExpectedSize(h.scheduledChange.Some?, precommits)
  }

  /** What a submission says about itself is what it is. */
  lemma CallInfoIs(cfg: Config, h: Header, j: Justification, setId: Option<nat>, freeExpected: bool)
    ensures var info := CallInfoOf(cfg, h, j, setId, freeExpected);
            && info.blockNumber == h.number && info.currentSetId == setId && info.freeExpected == freeExpected
            && (info.isMandatory <==> h.scheduledChange.Some?)
            && (info.FitsLimits() <==> Small(cfg, h, j))
  {
  }

  /** A newer header is imported for free if and only if the block has a free slot left, the submission is small, and
      the header either changes the authorities or is far enough from the best one. */
  lemma FreeIff(cfg: Config, s: State, h: Header, j: Justification, setId: nat)
    requires s.best.Some? && s.best.value.number < h.number
    ensures IsFree(cfg, s, h, j, setId) <==>
              && s.freeRemaining.Some? && 0 < s.freeRemaining.value
              && Small(cfg, h, j)
              && (h.scheduledChange.Some? ||
                  (cfg.freeHeadersInterval.Some? && s.best.value.number + cfg.freeHeadersInterval.value <= h.number))
  {
    CallInfoIs(cfg, h, j, Some(setId), false);
  }

  /** What the extension lets through: any newer header of the trusted set; and if free execution is asked for, then only
      while the block may have a slot left, for small submissions, and not for ordinary headers below the interval. */
  lemma ExtensionOkIff(cfg: Config, s: State, h: Header, j: Justification, setId: Option<nat>, freeExpected: bool, improvedBy: nat)
    ensures CheckObsoleteFromExtension(cfg, s, CallInfoOf(cfg, h, j, setId, freeExpected)) == Ok(improvedBy) <==>
              && s.best.Some? && improvedBy > 0 && s.best.value.number + improvedBy == h.number
              && (setId.Some? ==> setId.value == s.authoritySet.setId)
              && (freeExpected ==>
                    && s.freeRemaining != Some(0) && Small(cfg, h, j)
                    && (h.scheduledChange.Some? || cfg.freeHeadersInterval.None? || improvedBy >= cfg.freeHeadersInterval.value))
  {
    CallInfoIs(cfg, h, j, setId, freeExpected);
  }

  /** Why the extension refuses. */
  lemma ExtensionRefusals(cfg: Config, s: State, h: Header, j: Justification, setId: Option<nat>, freeExpected: bool)
    ensures var r := CheckObsoleteFromExtension(cfg, s, CallInfoOf(cfg, h, j, setId, freeExpected));
            var newer := s.best.Some? && s.best.value.number < h.number;
            var known := newer && (setId.Some? ==> setId.value == s.authoritySet.setId);
            var asked := known && freeExpected;
            var near := newer && h.scheduledChange.None? && cfg.freeHeadersInterval.Some? &&
                        h.number < s.best.value.number + cfg.freeHeadersInterval.value;
            && (r == Err(NotInitialized) <==> s.best.None?)
            && (r == Err(OldHeader) <==> s.best.Some? && !newer)
            && (r == Err(InvalidAuthoritySetId) <==> newer && !known)
            && (r == Err(FreeHeadersLimitExceeded) <==> asked && s.freeRemaining == Some(0))
            && (r == Err(BelowFreeHeaderInterval) <==> asked && s.freeRemaining != Some(0) && near)
            && (r == Err(HeaderOverflowLimits) <==> asked && s.freeRemaining != Some(0) && !near && !Small(cfg, h, j))
  {
    CallInfoIs(cfg, h, j, setId, freeExpected);
  }

  /** A call that succeeds from a state inside a block: the extension lets a request for free execution
      through exactly when the call then is free, or when no interval is configured and a header that is
      not mandatory otherwise qualifies. The latter is where the two disagree. */
  lemma ExtensionAcceptsIff(cfg: Config, s: State, h: Header, j: Justification, setId: nat)
    requires s.freeRemaining.Some?
    requires Rejection(cfg, s, h, j, setId).None?
    ensures var info := CallInfoOf(cfg, h, j, Some(setId), true);
            && (cfg.freeHeadersInterval.Some? || h.scheduledChange.Some? ==>
                 (CheckObsoleteFromExtension(cfg, s, info).Ok? <==> IsFree(cfg, s, h, j, setId)))
            && ((CheckObsoleteFromExtension(cfg, s, info).Ok? <==> IsFree(cfg, s, h, j, setId)) <==>
                 !(cfg.freeHeadersInterval.None? && h.scheduledChange.None? &&
                   HasFreeHeaderSlots(s) && info.FitsLimits()))
  {
  }

  /** Where they disagree: without an interval, an ordinary header is let through as free and then charged for. */
  lemma ExtensionMayMislead(hash: Hash, root: Root, rest: HeaderRest, commit: Commit)
    ensures var cfg := Config(0, 1, 1, None, 0, (_, _) => 1, (_, _) => ZERO_WEIGHT, _ => hash, _ => true, (_, _, _, _) => true);
            var s := State(false, Some(1), Some(hash), Some(HeaderId(0, hash)),
                           Ring(0, map[0 := hash], map[hash := StoredHeader(0, root)]), EMPTY_SET);
            var h, j := Header(1, root, false, None, 1, rest), Justification(0, 0, 0, commit);
            && Rejection(cfg, s, h, j, 0) == None
            && CheckObsoleteFromExtension(cfg, s, CallInfoOf(cfg, h, j, Some(0), true)) == Ok(1)
            && !IsFree(cfg, s, h, j, 0)
  {
  }

  /** Whatever its reason, a refusal by the extension is one the call itself would make, except for the
      three refusals that only concern free execution. */
  lemma ExtensionRefusalsAreSound(cfg: Config, s: State, h: Header, j: Justification, setId: nat, free: bool)
    ensures var check := CheckObsoleteFromExtension(cfg, s, CallInfoOf(cfg, h, j, Some(setId), free));
            check.Err? && !s.halted ==>
              || Rejection(cfg, s, h, j, setId) == Some(check.error)
              || (free && check.error in {FreeHeadersLimitExceeded, BelowFreeHeaderInterval, HeaderOverflowLimits})
  {
  }
}
