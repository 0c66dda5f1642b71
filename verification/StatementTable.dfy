/** The table of statements that authorities issue about candidates. */
module StatementTable {
  import opened Prelude

  type AuthorityId(==,!new)
  type Digest(==,!new)
  type GroupId(==,!new)
  type Signature(==,!new)
  type Candidate(==,!new)

  datatype Context = Context(
    digest: Candidate -> Digest,
    isMember: (AuthorityId, GroupId) -> bool,
    groupSize: GroupId -> Option<nat>)

  datatype Statement = Seconded(candidate: Candidate) | Valid(digest: Digest)
  datatype SignedStatement = SignedStatement(statement: Statement, signature: Signature, sender: AuthorityId)

  /** One call of `import_statement`: the group that the caller claims, and the statement. */
  datatype Import = Import(group: GroupId, signed: SignedStatement)

  datatype ValidityVote = IssuedVote(signature: Signature) | ValidVote(signature: Signature)

  datatype Misbehavior =
    | ValidityDoubleVote(candidate: Candidate, issued: Signature, digest: Digest, valid: Signature)
    | UnauthorizedStatement(statement: SignedStatement)
    | DoubleSignSeconded(candidate: Candidate, first: Signature, second: Signature)
    | DoubleSignValidity(digest: Digest, first: Signature, second: Signature)

  datatype CandidateData = CandidateData(group: GroupId, candidate: Candidate, votes: map<AuthorityId, ValidityVote>)
  datatype Summary = Summary(candidate: Digest, group: GroupId, validityVotes: nat)

  type Proposals = map<AuthorityId, seq<(Digest, Signature)>>
  type Votes = map<Digest, CandidateData>
  type Reports = map<AuthorityId, seq<Misbehavior>>

  datatype State = State(proposals: Proposals, votes: Votes, reports: Reports)

  const EMPTY := State(map[], map[], map[])

  /** Whether `authority` has already proposed `digest`. */
  predicate Proposed(proposals: Proposals, authority: AuthorityId, digest: Digest) {
    authority in proposals && exists i | 0 <= i < |proposals[authority]| :: proposals[authority][i].0 == digest
  }

  function AddProposal(proposals: Proposals, authority: AuthorityId, digest: Digest, signature: Signature): Proposals {
    if Proposed(proposals, authority, digest) then proposals
    else proposals[authority := (if authority in proposals then proposals[authority] else []) + [(digest, signature)]]
  }

  /** The candidate is entered only with its first proposal by this authority. */
  function AddCandidate(s: State, authority: AuthorityId, digest: Digest, group: GroupId, candidate: Candidate): Votes {
    if Proposed(s.proposals, authority, digest) || digest in s.votes then s.votes
    else s.votes[digest := CandidateData(group, candidate, map[])]
  }

  function SignatureOf(vote: ValidityVote): Signature {
    vote.signature
  }

  function Conflict(candidate: Candidate, digest: Digest, old_: ValidityVote, new_: ValidityVote): Misbehavior {
    match (old_, new_)
    case (IssuedVote(a), ValidVote(b)) => ValidityDoubleVote(candidate, a, digest, b)
    case (ValidVote(a), IssuedVote(b)) => ValidityDoubleVote(candidate, b, digest, a)
    case (IssuedVote(a), IssuedVote(b)) => DoubleSignSeconded(candidate, a, b)
    case (ValidVote(a), ValidVote(b)) => DoubleSignValidity(digest, a, b)
  }

  /** Outcome of a vote: the complaint, if any. */
  function Complaint(ctx: Context, votes: Votes, from: AuthorityId, digest: Digest, vote: ValidityVote): Option<Misbehavior> {
    if digest !in votes then None
    else if !ctx.isMember(from, votes[digest].group) then
      Some(UnauthorizedStatement(SignedStatement(Valid(digest), vote.signature, from)))
    else if from in votes[digest].votes && votes[digest].votes[from] != vote then
      Some(Conflict(votes[digest].candidate, digest, votes[digest].votes[from], vote))
    else None
  }

  function AddVote(ctx: Context, votes: Votes, from: AuthorityId, digest: Digest, vote: ValidityVote): Votes {
    if digest !in votes || !ctx.isMember(from, votes[digest].group) || from in votes[digest].votes then votes
    else votes[digest := votes[digest].(votes := votes[digest].votes[from := vote])]
  }

  function VoteSummary(ctx: Context, votes: Votes, from: AuthorityId, digest: Digest): Option<Summary> {
    if digest !in votes || !ctx.isMember(from, votes[digest].group) || from in votes[digest].votes then None
    else Some(Summary(digest, votes[digest].group, |votes[digest].votes| + 1))
  }

  function Report(reports: Reports, a: AuthorityId, m: Option<Misbehavior>): Reports {
    match m
    case None => reports
    case Some(m) => reports[a := (if a in reports then reports[a] else []) + [m]]
  }

  /** `import_statement` on the whole table. */
  function Imported(ctx: Context, s: State, x: Import): State {
    var SignedStatement(statement, signature, sender) := x.signed;
    match statement
    case Seconded(candidate) =>
      if !ctx.isMember(sender, x.group) then
        s.(reports := Report(s.reports, sender, Some(UnauthorizedStatement(x.signed))))
      else
        var digest := ctx.digest(candidate);
        var votes := AddCandidate(s, sender, digest, x.group, candidate);
        var vote := IssuedVote(signature);
        State(AddProposal(s.proposals, sender, digest, signature),
              AddVote(ctx, votes, sender, digest, vote),
              Report(s.reports, sender, Complaint(ctx, votes, sender, digest, vote)))
    case Valid(digest) =>
      var vote := ValidVote(signature);
      s.(votes := AddVote(ctx, s.votes, sender, digest, vote),
         reports := Report(s.reports, sender, Complaint(ctx, s.votes, sender, digest, vote)))
  }

  function ImportSummary(ctx: Context, s: State, x: Import): Option<Summary> {
    match x.signed.statement
    case Seconded(candidate) =>
      if !ctx.isMember(x.signed.sender, x.group) then None
      else VoteSummary(ctx, AddCandidate(s, x.signed.sender, ctx.digest(candidate), x.group, candidate), x.signed.sender, ctx.digest(candidate))
    case Valid(digest) => VoteSummary(ctx, s.votes, x.signed.sender, digest)
  }

  class Table {
    var authorityData: Proposals
    var detectedMisbehavior: Reports
    var candidateVotes: Votes

    constructor ()
      ensures Value() == EMPTY
    {
      authorityData, detectedMisbehavior, candidateVotes := map[], map[], map[];
    }

    function Value(): State
      reads this
    {
      State(authorityData, candidateVotes, detectedMisbehavior)
    }

    method ImportStatement(ctx: Context, group: GroupId, signed: SignedStatement) returns (summary: Option<Summary>)
      modifies this
      ensures Value() == Imported(ctx, old(Value()), Import(group, signed))
      ensures summary == ImportSummary(ctx, old(Value()), Import(group, signed))
    {
      var result: Result<Option<Summary>, Misbehavior>;
      match signed.statement {
        case Seconded(candidate) =>
          result := ImportCandidate(ctx, signed.sender, candidate, signed.signature, group);
        case Valid(digest) =>
          result := CastVote(ctx, signed.sender, digest, ValidVote(signed.signature));
      }
      match result {
        case Ok(maybeSummary) =>
          summary := maybeSummary;
        case Err(misbehavior) =>
          var list := if signed.sender in detectedMisbehavior then detectedMisbehavior[signed.sender] else [];
          detectedMisbehavior := detectedMisbehavior[signed.sender := list + [misbehavior]];
          summary := None;
      }
    }

    method ImportCandidate(ctx: Context, authority: AuthorityId, candidate: Candidate, signature: Signature, group: GroupId)
      returns (r: Result<Option<Summary>, Misbehavior>)
      modifies this`authorityData, this`candidateVotes
      ensures var x := Import(group, SignedStatement(Seconded(candidate), signature, authority));
              && Imported(ctx, old(Value()), x) ==
                 Value().(reports := Report(detectedMisbehavior, authority, if r.Err? then Some(r.error) else None))
              && ImportSummary(ctx, old(Value()), x) == if r.Ok? then r.value else None
    {
      if !ctx.isMember(authority, group) {
        return Err(UnauthorizedStatement(SignedStatement(Seconded(candidate), signature, authority)));
      }
      var digest := ctx.digest(candidate);
      var newProposal := true;
      if authority in authorityData {
        var existing := authorityData[authority];
        if exists i | 0 <= i < |existing| :: existing[i].0 == digest {
          newProposal := false;
        } else {
          authorityData := authorityData[authority := existing + [(digest, signature)]];
        }
      } else {
        authorityData := authorityData[authority := [(digest, signature)]];
        assert [] + [(digest, signature)] == [(digest, signature)];
      }
      assert newProposal == !Proposed(old(authorityData), authority, digest);
      assert authorityData == AddProposal(old(authorityData), authority, digest, signature);
      if newProposal && digest !in candidateVotes {
        candidateVotes := candidateVotes[digest := CandidateData(group, candidate, map[])];
      }
      r := CastVote(ctx, authority, digest, IssuedVote(signature));
    }

    method CastVote(ctx: Context, from: AuthorityId, digest: Digest, vote: ValidityVote)
      returns (r: Result<Option<Summary>, Misbehavior>)
      modifies this`candidateVotes
      ensures candidateVotes == AddVote(ctx, old(candidateVotes), from, digest, vote)
      ensures match Complaint(ctx, old(candidateVotes), from, digest, vote)
              case Some(m) => r == Err(m)
              case None => r == Ok(VoteSummary(ctx, old(candidateVotes), from, digest))
    {
      if digest !in candidateVotes { return Ok(None); }
      var data := candidateVotes[digest];
      if !ctx.isMember(from, data.group) {
        return Err(UnauthorizedStatement(SignedStatement(Valid(digest), SignatureOf(vote), from)));
      }
      if from in data.votes {
        var existing := data.votes[from];
        if existing != vote {
          return Err(Conflict(data.candidate, digest, existing, vote));
        } else {
          return Ok(None);
        }
      }
      var updated := data.(votes := data.votes[from := vote]);
      assert updated.votes.Keys == data.votes.Keys + {from};
      candidateVotes := candidateVotes[digest := updated];
      return Ok(Some(Summary(digest, updated.group, |updated.votes|)));
    }
  }
}
