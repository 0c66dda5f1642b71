/** What the statement table holds after any sequence of imports. */
module StatementRuns {
  import opened Prelude
  import opened StatementTable

  function Run(ctx: Context, imports: seq<Import>): State {
    if imports == [] then EMPTY else Imported(ctx, Run(ctx, imports[..|imports| - 1]), imports[|imports| - 1])
  }

  function About(ctx: Context, x: SignedStatement): Digest {
    match x.statement
    case Seconded(candidate) => ctx.digest(candidate)
    case Valid(digest) => digest
  }

  function VoteOf(x: SignedStatement): ValidityVote {
    match x.statement
    case Seconded(_) => IssuedVote(x.signature)
    case Valid(_) => ValidVote(x.signature)
  }

  /** `x` proposes a candidate with digest `d` by a member of the claimed group. */
  predicate Opens(ctx: Context, x: Import, d: Digest) {
    x.signed.statement.Seconded? && ctx.digest(x.signed.statement.candidate) == d && ctx.isMember(x.signed.sender, x.group)
  }

  predicate IsOpen(ctx: Context, imports: seq<Import>, d: Digest) {
    exists x | x in imports :: Opens(ctx, x, d)
  }

  /** An accepted proposal of `d` lets `x` vote on it. */
  predicate Admits(ctx: Context, opener: Import, d: Digest, x: Import) {
    Opens(ctx, opener, d) && ctx.isMember(x.signed.sender, opener.group)
  }

  /** Arriving after `earlier`, `x` is a vote of a member on a known candidate. */
  predicate Effective(ctx: Context, earlier: seq<Import>, x: Import) {
    match x.signed.statement
    case Seconded(_) => ctx.isMember(x.signed.sender, x.group)
    case Valid(d) => exists z | z in earlier :: Admits(ctx, z, d, x)
  }

  predicate EffectiveAt(ctx: Context, imports: seq<Import>, k: int)
    requires 0 <= k < |imports|
  {
    Effective(ctx, imports[..k], imports[k])
  }

  /** Some import of `x` was effective when it arrived. */
  predicate Counted(ctx: Context, imports: seq<Import>, x: SignedStatement) {
    exists k | 0 <= k < |imports| :: imports[k].signed == x && EffectiveAt(ctx, imports, k)
  }

  /** Accepted proposals with one digest are of one candidate, in one group. */
  ghost predicate Coherent(ctx: Context, imports: seq<Import>) {
    forall x, y, d | x in imports && y in imports && Opens(ctx, x, d) && Opens(ctx, y, d) ::
      x.group == y.group && x.signed.statement == y.signed.statement
  }

  lemma CountedSnoc(ctx: Context, imports: seq<Import>, y: Import, x: SignedStatement)
    ensures Counted(ctx, imports + [y], x) <==> Counted(ctx, imports, x) || (x == y.signed && Effective(ctx, imports, y))
  {
    var longer := imports + [y];
    assert longer[..|imports|] == imports;
    if Counted(ctx, imports, x) {
      var k :| 0 <= k < |imports| && imports[k].signed == x && EffectiveAt(ctx, imports, k);
      assert longer[..k] == imports[..k];
      assert longer[k].signed == x && EffectiveAt(ctx, longer, k);
    }
    if x == y.signed && Effective(ctx, imports, y) {
      assert longer[|imports|].signed == x && EffectiveAt(ctx, longer, |imports|);
    }
    if Counted(ctx, longer, x) {
      var k :| 0 <= k < |longer| && longer[k].signed == x && EffectiveAt(ctx, longer, k);
      if k < |imports| {
        assert longer[..k] == imports[..k];
        assert imports[k].signed == x && EffectiveAt(ctx, imports, k);
      }
    }
  }

  // ---------------------------------------------------------------- candidates and votes

  ghost predicate OpenedAs(ctx: Context, imports: seq<Import>, d: Digest, data: CandidateData) {
    exists x | x in imports :: Opens(ctx, x, d) && x.group == data.group && x.signed.statement == Seconded(data.candidate)
  }

  ghost predicate IsVote(ctx: Context, x: SignedStatement, a: AuthorityId, d: Digest, vote: ValidityVote) {
    x.sender == a && About(ctx, x) == d && VoteOf(x) == vote
  }

  ghost predicate CountedAs(ctx: Context, imports: seq<Import>, a: AuthorityId, d: Digest, vote: ValidityVote) {
    exists x | Counted(ctx, imports, x) :: IsVote(ctx, x, a, d, vote)
  }

  predicate HasVote(votes: Votes, d: Digest, a: AuthorityId) {
    d in votes && a in votes[d].votes
  }

  /** The table knows exactly the opened candidates, as they were opened. */
  ghost predicate Knows(ctx: Context, imports: seq<Import>, proposals: Proposals, votes: Votes) {
    && (forall a, d | Proposed(proposals, a, d) :: d in votes)
    && (forall d :: d in votes <==> IsOpen(ctx, imports, d))
    && (forall d | d in votes :: OpenedAs(ctx, imports, d, votes[d]))
  }

  /** The table holds exactly the effective votes. */
  ghost predicate Holds(ctx: Context, imports: seq<Import>, votes: Votes) {
    && (forall d, a | HasVote(votes, d, a) :: CountedAs(ctx, imports, a, d, votes[d].votes[a]))
    && (forall x | Counted(ctx, imports, x) :: HasVote(votes, About(ctx, x), x.sender))
  }

  ghost predicate Tracks(ctx: Context, imports: seq<Import>, s: State) {
    Knows(ctx, imports, s.proposals, s.votes) && Holds(ctx, imports, s.votes)
  }

  lemma CountedAsGrows(ctx: Context, imports: seq<Import>, y: Import, a: AuthorityId, d: Digest, vote: ValidityVote)
    requires CountedAs(ctx, imports, a, d, vote)
    ensures CountedAs(ctx, imports + [y], a, d, vote)
  {
    var x :| Counted(ctx, imports, x) && IsVote(ctx, x, a, d, vote);
    CountedSnoc(ctx, imports, y, x);
  }

  lemma OpenedAsGrows(ctx: Context, imports: seq<Import>, y: Import, d: Digest, data: CandidateData, data': CandidateData)
    requires OpenedAs(ctx, imports, d, data) && data.group == data'.group && data.candidate == data'.candidate
    ensures OpenedAs(ctx, imports + [y], d, data')
  {
    var x :| x in imports && Opens(ctx, x, d) && x.group == data.group && x.signed.statement == Seconded(data.candidate);
    assert x in imports + [y];
  }

  /** Who may vote on a tracked candidate is decided by any accepted proposal of it. */
  lemma GroupDecides(ctx: Context, imports: seq<Import>, s: State, y: Import, d: Digest)
    requires Coherent(ctx, imports) && Tracks(ctx, imports, s) && y.signed.statement == Valid(d)
    ensures Effective(ctx, imports, y) <==> d in s.votes && ctx.isMember(y.signed.sender, s.votes[d].group)
  {
    if d in s.votes {
      var x :| x in imports && Opens(ctx, x, d) && x.group == s.votes[d].group && x.signed.statement == Seconded(s.votes[d].candidate);
      assert ctx.isMember(y.signed.sender, s.votes[d].group) ==> Admits(ctx, x, d, y);
    }
    if Effective(ctx, imports, y) {
      var z :| z in imports && Admits(ctx, z, d, y);
      assert IsOpen(ctx, imports, d);
    }
  }

  lemma CoherentPrefix(ctx: Context, imports: seq<Import>, y: Import)
    requires Coherent(ctx, imports + [y])
    ensures Coherent(ctx, imports)
  {
    assert forall x | x in imports :: x in imports + [y];
  }

  lemma OpenSnoc(ctx: Context, imports: seq<Import>, y: Import, d: Digest)
    ensures IsOpen(ctx, imports + [y], d) <==> IsOpen(ctx, imports, d) || Opens(ctx, y, d)
  {
    if IsOpen(ctx, imports, d) {
      var x :| x in imports && Opens(ctx, x, d);
      assert x in imports + [y];
    }
    if Opens(ctx, y, d) { assert y in imports + [y]; }
  }

  lemma KnowsSame(ctx: Context, imports: seq<Import>, y: Import, proposals: Proposals, votes: Votes)
    requires Knows(ctx, imports, proposals, votes)
    requires forall d :: !Opens(ctx, y, d)
    ensures Knows(ctx, imports + [y], proposals, votes)
  {
    forall d
      ensures d in votes <==> IsOpen(ctx, imports + [y], d)
    {
      OpenSnoc(ctx, imports, y, d);
    }
    forall d | d in votes
      ensures OpenedAs(ctx, imports + [y], d, votes[d])
    {
      OpenedAsGrows(ctx, imports, y, d, votes[d], votes[d]);
    }
  }

  lemma KnowsOpened(ctx: Context, imports: seq<Import>, s: State, y: Import, candidate: Candidate)
    requires Knows(ctx, imports, s.proposals, s.votes)
    requires y.signed.statement == Seconded(candidate) && Effective(ctx, imports, y)
    ensures var d := ctx.digest(candidate);
            Knows(ctx, imports + [y], AddProposal(s.proposals, y.signed.sender, d, y.signed.signature),
                  AddCandidate(s, y.signed.sender, d, y.group, candidate))
  {
    var d0 := ctx.digest(candidate);
    var proposals := AddProposal(s.proposals, y.signed.sender, d0, y.signed.signature);
    var votes := AddCandidate(s, y.signed.sender, d0, y.group, candidate);
    assert d0 in votes && Opens(ctx, y, d0) && y in imports + [y];
    forall a, d | Proposed(proposals, a, d)
      ensures d in votes
    {
      if !Proposed(s.proposals, a, d) { assert d == d0; }
    }
    forall d
      ensures d in votes <==> IsOpen(ctx, imports + [y], d)
    {
      OpenSnoc(ctx, imports, y, d);
    }
    forall d | d in votes
      ensures OpenedAs(ctx, imports + [y], d, votes[d])
    {
      if d in s.votes { OpenedAsGrows(ctx, imports, y, d, s.votes[d], votes[d]); }
    }
  }

  lemma KnowsVoted(ctx: Context, imports: seq<Import>, proposals: Proposals, votes: Votes, from: AuthorityId, d0: Digest, vote: ValidityVote)
    requires Knows(ctx, imports, proposals, votes)
    ensures Knows(ctx, imports, proposals, AddVote(ctx, votes, from, d0, vote))
  {
    var votes' := AddVote(ctx, votes, from, d0, vote);
    forall d | d in votes'
      ensures OpenedAs(ctx, imports, d, votes'[d])
    {
      assert OpenedAs(ctx, imports, d, votes[d]);
    }
  }

  lemma HoldsSame(ctx: Context, imports: seq<Import>, y: Import, votes: Votes)
    requires Holds(ctx, imports, votes) && !Effective(ctx, imports, y)
    ensures Holds(ctx, imports + [y], votes)
  {
    forall d, a | HasVote(votes, d, a)
      ensures CountedAs(ctx, imports + [y], a, d, votes[d].votes[a])
    {
      CountedAsGrows(ctx, imports, y, a, d, votes[d].votes[a]);
    }
    forall x | Counted(ctx, imports + [y], x)
      ensures HasVote(votes, About(ctx, x), x.sender)
    {
      CountedSnoc(ctx, imports, y, x);
    }
  }

  ghost predicate SameVote(before: Votes, votes: Votes, d: Digest, a: AuthorityId) {
    && (HasVote(votes, d, a) <==> HasVote(before, d, a))
    && (HasVote(votes, d, a) && HasVote(before, d, a) ==> votes[d].votes[a] == before[d].votes[a])
  }

  /** A new candidate brings no votes with it. */
  lemma OpeningAddsNoVotes(s: State, authority: AuthorityId, digest: Digest, group: GroupId, candidate: Candidate)
    ensures forall d, a :: SameVote(s.votes, AddCandidate(s, authority, digest, group, candidate), d, a)
  {
  }

  /** `votes` holds the same votes as `before`; then the vote of `y` is cast. */
  lemma HoldsVoted(ctx: Context, imports: seq<Import>, before: Votes, votes: Votes, y: Import)
    requires Holds(ctx, imports, before) && Effective(ctx, imports, y)
    requires forall d, a :: SameVote(before, votes, d, a)
    requires About(ctx, y.signed) in votes && ctx.isMember(y.signed.sender, votes[About(ctx, y.signed)].group)
    ensures Holds(ctx, imports + [y], AddVote(ctx, votes, y.signed.sender, About(ctx, y.signed), VoteOf(y.signed)))
  {
    var votes' := AddVote(ctx, votes, y.signed.sender, About(ctx, y.signed), VoteOf(y.signed));
    forall d, a | HasVote(votes', d, a)
      ensures CountedAs(ctx, imports + [y], a, d, votes'[d].votes[a])
    {
      assert SameVote(before, votes, d, a);
      if HasVote(before, d, a) {
        CountedAsGrows(ctx, imports, y, a, d, before[d].votes[a]);
      } else {
        CountedSnoc(ctx, imports, y, y.signed);
        assert IsVote(ctx, y.signed, a, d, votes'[d].votes[a]);
      }
    }
    forall x | Counted(ctx, imports + [y], x)
      ensures HasVote(votes', About(ctx, x), x.sender)
    {
      CountedSnoc(ctx, imports, y, x);
      assert SameVote(before, votes, About(ctx, x), x.sender);
    }
  }

  /** With coherent proposals, the proposer is a member of the group that the table has on record. */
  lemma ProposerIsMember(ctx: Context, imports: seq<Import>, y: Import, d: Digest, data: CandidateData)
    requires Coherent(ctx, imports + [y]) && Opens(ctx, y, d)
    requires OpenedAs(ctx, imports + [y], d, data)
    ensures data.group == y.group && y.signed.statement == Seconded(data.candidate)
  {
    var x :| x in imports + [y] && Opens(ctx, x, d) && x.group == data.group && x.signed.statement == Seconded(data.candidate);
    assert y in imports + [y];
  }

  lemma SecondedTracks(ctx: Context, imports: seq<Import>, s: State, y: Import, candidate: Candidate)
    requires Coherent(ctx, imports + [y]) && Tracks(ctx, imports, s)
    requires y.signed.statement == Seconded(candidate) && Effective(ctx, imports, y)
    ensures Tracks(ctx, imports + [y], Imported(ctx, s, y))
  {
    var d, from := ctx.digest(candidate), y.signed.sender;
    var votes := AddCandidate(s, from, d, y.group, candidate);
    KnowsOpened(ctx, imports, s, y, candidate);
    KnowsVoted(ctx, imports + [y], AddProposal(s.proposals, from, d, y.signed.signature), votes, from, d, VoteOf(y.signed));
    assert d in votes && OpenedAs(ctx, imports + [y], d, votes[d]);
    ProposerIsMember(ctx, imports, y, d, votes[d]);
    OpeningAddsNoVotes(s, from, d, y.group, candidate);
    HoldsVoted(ctx, imports, s.votes, votes, y);
  }

  lemma ImportTracks(ctx: Context, imports: seq<Import>, s: State, y: Import)
    requires Coherent(ctx, imports + [y]) && Tracks(ctx, imports, s)
    ensures Tracks(ctx, imports + [y], Imported(ctx, s, y))
  {
    if y.signed.statement.Seconded? && Effective(ctx, imports, y) {
      SecondedTracks(ctx, imports, s, y, y.signed.statement.candidate);
    } else {
      KnowsSame(ctx, imports, y, s.proposals, s.votes);
      if y.signed.statement.Valid? {
        var d := y.signed.statement.digest;
        CoherentPrefix(ctx, imports, y);
        GroupDecides(ctx, imports, s, y, d);
        KnowsVoted(ctx, imports + [y], s.proposals, s.votes, y.signed.sender, d, VoteOf(y.signed));
      }
      if Effective(ctx, imports, y) {
        HoldsVoted(ctx, imports, s.votes, s.votes, y);
      } else {
        HoldsSame(ctx, imports, y, s.votes);
      }
    }
  }

  /** Over every sequence of imports, the table tracks what was opened and what counted. */
  lemma {:induction false} RunTracks(ctx: Context, imports: seq<Import>)
    requires Coherent(ctx, imports)
    ensures Tracks(ctx, imports, Run(ctx, imports))
  {
    if imports != [] {
      var front, y := imports[..|imports| - 1], imports[|imports| - 1];
      assert front + [y] == imports;
      CoherentPrefix(ctx, front, y);
      RunTracks(ctx, front);
      ImportTracks(ctx, front, Run(ctx, front), y);
    }
  }

  // ---------------------------------------------------------------- import order

  ghost predicate SameImports(p: seq<Import>, q: seq<Import>) {
    forall x :: x in p <==> x in q
  }

  /** No authority makes two different statements about one digest. */
  ghost predicate Consistent(ctx: Context, imports: seq<Import>) {
    forall x, y | x in imports && y in imports && x.signed.sender == y.signed.sender && About(ctx, x.signed) == About(ctx, y.signed) ::
      x.signed == y.signed
  }

  /** Every statement that the proposals of the whole sequence admit arrives, at least once, after
      a proposal that admits it. */
  ghost predicate Ordered(ctx: Context, imports: seq<Import>) {
    forall x | x in imports && Effective(ctx, imports, x) :: Counted(ctx, imports, x.signed)
  }

  lemma SameEffective(ctx: Context, p: seq<Import>, q: seq<Import>, x: Import)
    requires SameImports(p, q) && Effective(ctx, p, x)
    ensures Effective(ctx, q, x)
  {
    if x.signed.statement.Valid? {
      var z :| z in p && Admits(ctx, z, x.signed.statement.digest, x);
      assert z in q;
    }
  }

  lemma CountedIsEffective(ctx: Context, imports: seq<Import>, x: SignedStatement) returns (y: Import)
    requires Counted(ctx, imports, x)
    ensures y in imports && y.signed == x && Effective(ctx, imports, y)
  {
    var k :| 0 <= k < |imports| && imports[k].signed == x && EffectiveAt(ctx, imports, k);
    y := imports[k];
    if x.statement.Valid? {
      var z :| z in imports[..k] && Admits(ctx, z, x.statement.digest, y);
      assert z in imports;
    }
  }

  /** In an ordered sequence, what counts does not depend on the order. */
  lemma SameCounted(ctx: Context, p: seq<Import>, q: seq<Import>, x: SignedStatement)
    requires SameImports(p, q) && Ordered(ctx, q) && Counted(ctx, p, x)
    ensures Counted(ctx, q, x)
  {
    var y := CountedIsEffective(ctx, p, x);
    SameEffective(ctx, p, q, y);
  }

  lemma CountedIsImported(ctx: Context, imports: seq<Import>, x: SignedStatement, y: SignedStatement)
    requires Consistent(ctx, imports) && Counted(ctx, imports, x) && Counted(ctx, imports, y)
    requires x.sender == y.sender && About(ctx, x) == About(ctx, y)
    ensures x == y
  {
    var x' := CountedIsEffective(ctx, imports, x);
    var y' := CountedIsEffective(ctx, imports, y);
  }

  lemma SameCandidate(ctx: Context, p: seq<Import>, q: seq<Import>, d: Digest, x: CandidateData, y: CandidateData)
    requires SameImports(p, q) && Coherent(ctx, p)
    requires OpenedAs(ctx, p, d, x) && OpenedAs(ctx, q, d, y)
    ensures x.group == y.group && x.candidate == y.candidate
  {
    var u :| u in p && Opens(ctx, u, d) && u.group == x.group && u.signed.statement == Seconded(x.candidate);
    var v :| v in q && Opens(ctx, v, d) && v.group == y.group && v.signed.statement == Seconded(y.candidate);
    assert v in p;
  }

  /** Every vote of one order is in the other, with the same value. */
  lemma VotesCarryOver(ctx: Context, p: seq<Import>, q: seq<Import>, vp: Votes, vq: Votes, d: Digest, a: AuthorityId)
    requires SameImports(p, q) && Consistent(ctx, q) && Ordered(ctx, q)
    requires Holds(ctx, p, vp) && Holds(ctx, q, vq) && HasVote(vp, d, a)
    ensures HasVote(vq, d, a) && vq[d].votes[a] == vp[d].votes[a]
  {
    var x :| Counted(ctx, p, x) && IsVote(ctx, x, a, d, vp[d].votes[a]);
    SameCounted(ctx, p, q, x);
    assert HasVote(vq, d, a);
    var y :| Counted(ctx, q, y) && IsVote(ctx, y, a, d, vq[d].votes[a]);
    CountedIsImported(ctx, q, x, y);
  }

  lemma SameProperties(ctx: Context, p: seq<Import>, q: seq<Import>)
    requires SameImports(p, q)
    ensures Coherent(ctx, p) ==> Coherent(ctx, q)
    ensures Consistent(ctx, p) ==> Consistent(ctx, q)
  {
  }

  ghost predicate SameBallot(x: map<AuthorityId, ValidityVote>, y: map<AuthorityId, ValidityVote>, a: AuthorityId) {
    (a in x <==> a in y) && (a in x && a in y ==> x[a] == y[a])
  }

  lemma SameBallots(x: map<AuthorityId, ValidityVote>, y: map<AuthorityId, ValidityVote>)
    requires forall a :: SameBallot(x, y, a)
    ensures x == y
  {
    assert forall a | a in x :: SameBallot(x, y, a);
    assert forall a | a in y :: SameBallot(x, y, a);
  }

  lemma SameData(ctx: Context, p: seq<Import>, q: seq<Import>, vp: Votes, vq: Votes, d: Digest)
    requires SameImports(p, q) && Coherent(ctx, p) && Consistent(ctx, p) && Consistent(ctx, q) && Ordered(ctx, p) && Ordered(ctx, q)
    requires Holds(ctx, p, vp) && Holds(ctx, q, vq)
    requires d in vp && d in vq && OpenedAs(ctx, p, d, vp[d]) && OpenedAs(ctx, q, d, vq[d])
    ensures vp[d] == vq[d]
  {
    SameCandidate(ctx, p, q, d, vp[d], vq[d]);
    forall a
      ensures SameBallot(vp[d].votes, vq[d].votes, a)
    {
      if HasVote(vp, d, a) { VotesCarryOver(ctx, p, q, vp, vq, d, a); }
      if HasVote(vq, d, a) { VotesCarryOver(ctx, q, p, vq, vp, d, a); }
    }
    SameBallots(vp[d].votes, vq[d].votes);
  }

  lemma SameOpen(ctx: Context, p: seq<Import>, q: seq<Import>, d: Digest)
    requires SameImports(p, q)
    ensures IsOpen(ctx, p, d) <==> IsOpen(ctx, q, d)
  {
    if IsOpen(ctx, p, d) { var x :| x in p && Opens(ctx, x, d); assert x in q; }
    if IsOpen(ctx, q, d) { var x :| x in q && Opens(ctx, x, d); assert x in p; }
  }

  ghost predicate AlikeAt(vp: Votes, vq: Votes, d: Digest) {
    (d in vp <==> d in vq) && (d in vp && d in vq ==> vp[d] == vq[d])
  }

  lemma AlikeEverywhere(vp: Votes, vq: Votes)
    requires forall d :: AlikeAt(vp, vq, d)
    ensures vp == vq
  {
    assert forall d | d in vp :: AlikeAt(vp, vq, d);
    assert forall d | d in vq :: AlikeAt(vp, vq, d);
  }

  lemma TrackedAlike(ctx: Context, p: seq<Import>, q: seq<Import>, sp: State, sq: State)
    requires SameImports(p, q) && Coherent(ctx, p) && Consistent(ctx, p) && Consistent(ctx, q) && Ordered(ctx, p) && Ordered(ctx, q)
    requires Tracks(ctx, p, sp) && Tracks(ctx, q, sq)
    ensures sp.votes == sq.votes
  {
    forall d
      ensures AlikeAt(sp.votes, sq.votes, d)
    {
      SameOpen(ctx, p, q, d);
      if d in sp.votes && d in sq.votes { SameData(ctx, p, q, sp.votes, sq.votes, d); }
    }
    AlikeEverywhere(sp.votes, sq.votes);
  }

  lemma AlikeOnlyIfOrdered(ctx: Context, p: seq<Import>, q: seq<Import>, votes: Votes)
    requires SameImports(p, q) && Consistent(ctx, p) && Ordered(ctx, q)
    requires Holds(ctx, p, votes) && Holds(ctx, q, votes)
    ensures Ordered(ctx, p)
  {
    forall x | x in p && Effective(ctx, p, x)
      ensures Counted(ctx, p, x.signed)
    {
      SameEffective(ctx, p, q, x);
      assert x in q && Counted(ctx, q, x.signed);
      var d, a := About(ctx, x.signed), x.signed.sender;
      assert HasVote(votes, d, a);
      var y :| Counted(ctx, p, y) && IsVote(ctx, y, a, d, votes[d].votes[a]);
      var y' := CountedIsEffective(ctx, p, y);
      assert y'.signed == x.signed;
    }
  }

  /** Confluence, and exactly when: a sequence reaches the candidates, groups and votes of an ordered
      arrangement of the same imports if and only if it is ordered itself. So two ordered sequences
      always agree, and a statement that comes only before its candidate is always lost. */
  lemma ConfluenceIff(ctx: Context, p: seq<Import>, q: seq<Import>)
    requires SameImports(p, q) && Coherent(ctx, p) && Consistent(ctx, p) && Ordered(ctx, q)
    ensures Run(ctx, p).votes == Run(ctx, q).votes <==> Ordered(ctx, p)
  {
    SameProperties(ctx, p, q);
    RunTracks(ctx, p);
    RunTracks(ctx, q);
    if Ordered(ctx, p) {
      TrackedAlike(ctx, p, q, Run(ctx, p), Run(ctx, q));
    }
    if Run(ctx, p).votes == Run(ctx, q).votes {
      AlikeOnlyIfOrdered(ctx, p, q, Run(ctx, p).votes);
    }
  }

  // ---------------------------------------------------------------- misbehaviour reports

  ghost predicate Clash(ctx: Context, x: SignedStatement, y: SignedStatement) {
    x.sender == y.sender && About(ctx, x) == About(ctx, y) && x != y
  }

  ghost predicate Submitted(imports: seq<Import>, x: SignedStatement) {
    exists y | y in imports :: y.signed == x
  }

  /** `x` was submitted, and `y` later. */
  ghost predicate SubmittedBefore(imports: seq<Import>, x: SignedStatement, y: SignedStatement) {
    exists i, j | 0 <= i < j < |imports| :: imports[i].signed == x && imports[j].signed == y
  }

  /** A report is backed by what `a` really submitted; for double signs and double votes these are
      two different signed statements about the same candidate, for double signs in the order in which they came. */
  ghost predicate Sound(ctx: Context, imports: seq<Import>, a: AuthorityId, m: Misbehavior) {
    match m
    case UnauthorizedStatement(x) => x.sender == a && Submitted(imports, x)
    case ValidityDoubleVote(c, issued, d, valid) =>
      && ctx.digest(c) == d
      && Submitted(imports, SignedStatement(Seconded(c), issued, a)) && Submitted(imports, SignedStatement(Valid(d), valid, a))
    case DoubleSignSeconded(c, first, second) =>
      && first != second
      && SubmittedBefore(imports, SignedStatement(Seconded(c), first, a), SignedStatement(Seconded(c), second, a))
    case DoubleSignValidity(d, first, second) =>
      && first != second
      && SubmittedBefore(imports, SignedStatement(Valid(d), first, a), SignedStatement(Valid(d), second, a))
  }

  lemma SubmittedGrows(ctx: Context, imports: seq<Import>, y: Import, a: AuthorityId, m: Misbehavior)
    requires Sound(ctx, imports, a, m)
    ensures Sound(ctx, imports + [y], a, m)
  {
    forall x | Submitted(imports, x)
      ensures Submitted(imports + [y], x)
    {
      var z :| z in imports && z.signed == x;
      assert z in imports + [y];
    }
    forall u, v | SubmittedBefore(imports, u, v)
      ensures SubmittedBefore(imports + [y], u, v)
    {
      var i, j :| 0 <= i < j < |imports| && imports[i].signed == u && imports[j].signed == v;
      assert (imports + [y])[i].signed == u && (imports + [y])[j].signed == v;
    }
  }

  lemma VoteDecidesStatement(ctx: Context, candidate: Candidate, x: SignedStatement, y: SignedStatement)
    requires x.sender == y.sender && About(ctx, x) == About(ctx, y)
    requires x.statement.Seconded? ==> x.statement == Seconded(candidate)
    requires y.statement.Seconded? ==> y.statement == Seconded(candidate)
    ensures VoteOf(x) == VoteOf(y) <==> x == y
  {
    if VoteOf(x) == VoteOf(y) {
      assert x.statement == y.statement;
    }
  }

  lemma ConflictIsSound(ctx: Context, imports: seq<Import>, candidate: Candidate, x: SignedStatement, y: SignedStatement)
    requires SubmittedBefore(imports, x, y) && Clash(ctx, x, y) && VoteOf(x) != VoteOf(y)
    requires x.statement.Seconded? ==> x.statement == Seconded(candidate)
    requires y.statement.Seconded? ==> y.statement == Seconded(candidate)
    ensures Sound(ctx, imports, y.sender, Conflict(candidate, About(ctx, y), VoteOf(x), VoteOf(y)))
  {
    var i, j :| 0 <= i < j < |imports| && imports[i].signed == x && imports[j].signed == y;
    assert imports[i] in imports && imports[j] in imports;
  }

  // ---------------------------------------------------------------- attested candidates

  datatype Attestation = Implicit(signature: Signature) | Explicit(signature: Signature)
  datatype AttestedCandidate = AttestedCandidate(group: GroupId, candidate: Candidate, votes: map<AuthorityId, Attestation>)

  const USIZE_MAX: nat := 0xFFFF_FFFF_FFFF_FFFF

  function Attested(data: CandidateData, threshold: nat): Option<AttestedCandidate> {
    if |data.votes| < threshold then None
    else Some(AttestedCandidate(data.group, data.candidate, map a | a in data.votes ::
                match data.votes[a] case ValidVote(s) => Explicit(s) case IssuedVote(s) => Implicit(s)))
  }

  function Threshold(ctx: Context, group: GroupId, minimumBackingVotes: nat): nat {
    match ctx.groupSize(group)
    case None => USIZE_MAX
    case Some(len) => Min(len, minimumBackingVotes)
  }

  function AttestedFor(ctx: Context, votes: Votes, d: Digest, minimumBackingVotes: nat): Option<AttestedCandidate> {
    if d !in votes then None else Attested(votes[d], Threshold(ctx, votes[d].group, minimumBackingVotes))
  }

  /** A recorded vote is signed, on this candidate, by a member of its group. */
  ghost predicate Backed(ctx: Context, imports: seq<Import>, votes: Votes, d: Digest, a: AuthorityId) {
    HasVote(votes, d, a) ==>
      && ctx.isMember(a, votes[d].group)
      && exists x | Submitted(imports, x) :: IsVote(ctx, x, a, d, votes[d].votes[a])
  }

  ghost predicate WellBacked(ctx: Context, imports: seq<Import>, votes: Votes) {
    && (forall d | d in votes :: ctx.digest(votes[d].candidate) == d)
    && (forall d, a :: Backed(ctx, imports, votes, d, a))
  }

  lemma SubmittedSnoc(imports: seq<Import>, y: Import, x: SignedStatement)
    ensures Submitted(imports + [y], x) <==> Submitted(imports, x) || x == y.signed
  {
    if Submitted(imports, x) { var z :| z in imports && z.signed == x; assert z in imports + [y]; }
    if x == y.signed { assert y in imports + [y]; }
  }

  lemma VoteKeepsBacking(ctx: Context, imports: seq<Import>, votes: Votes, y: Import)
    requires WellBacked(ctx, imports, votes)
    ensures WellBacked(ctx, imports + [y], AddVote(ctx, votes, y.signed.sender, About(ctx, y.signed), VoteOf(y.signed)))
  {
    var votes' := AddVote(ctx, votes, y.signed.sender, About(ctx, y.signed), VoteOf(y.signed));
    forall d, a
      ensures Backed(ctx, imports + [y], votes', d, a)
    {
      assert Backed(ctx, imports, votes, d, a);
      if HasVote(votes, d, a) {
        var x :| Submitted(imports, x) && IsVote(ctx, x, a, d, votes[d].votes[a]);
        SubmittedSnoc(imports, y, x);
        assert IsVote(ctx, x, a, d, votes'[d].votes[a]);
      } else if HasVote(votes', d, a) {
        SubmittedSnoc(imports, y, y.signed);
        assert IsVote(ctx, y.signed, a, d, votes'[d].votes[a]);
      }
    }
  }

  lemma {:induction false} RunIsBacked(ctx: Context, imports: seq<Import>)
    ensures WellBacked(ctx, imports, Run(ctx, imports).votes)
  {
    if imports != [] {
      var front, y := imports[..|imports| - 1], imports[|imports| - 1];
      assert front + [y] == imports;
      var s := Run(ctx, front);
      RunIsBacked(ctx, front);
      match y.signed.statement
      case Valid(d) => VoteKeepsBacking(ctx, front, s.votes, y);
      case Seconded(c) =>
        if ctx.isMember(y.signed.sender, y.group) {
          var votes := AddCandidate(s, y.signed.sender, ctx.digest(c), y.group, c);
          forall d, a
            ensures Backed(ctx, front, votes, d, a)
          {
            assert Backed(ctx, front, s.votes, d, a);
          }
          VoteKeepsBacking(ctx, front, votes, y);
        } else {
          forall d, a
            ensures Backed(ctx, imports, s.votes, d, a)
          {
            assert Backed(ctx, front, s.votes, d, a);
            if HasVote(s.votes, d, a) {
              var x :| Submitted(front, x) && IsVote(ctx, x, a, d, s.votes[d].votes[a]);
              SubmittedSnoc(front, y, x);
            }
          }
        }
    }
  }

  /** `x` is the statement behind the attestation of `a`. */
  ghost predicate Attests(ctx: Context, x: SignedStatement, a: AuthorityId, d: Digest, attestation: Attestation) {
    x.sender == a && About(ctx, x) == d && x.signature == attestation.signature && (x.statement.Seconded? <==> attestation.Implicit?)
  }

  /** A candidate is includable exactly when enough votes are on record, and then it carries that
      many attestations, each signed on this very candidate by a distinct member of its group. */
  lemma AttestedIsBacked(ctx: Context, imports: seq<Import>, d: Digest, minimumBackingVotes: nat)
    ensures var votes := Run(ctx, imports).votes;
            var r := AttestedFor(ctx, votes, d, minimumBackingVotes);
            && (r.Some? <==> d in votes && |votes[d].votes| >= Threshold(ctx, votes[d].group, minimumBackingVotes))
            && (r.Some? ==>
                  && |r.value.votes| >= Threshold(ctx, r.value.group, minimumBackingVotes)
                  && ctx.digest(r.value.candidate) == d
                  && forall a | a in r.value.votes ::
                       && ctx.isMember(a, r.value.group)
                       && exists x | Submitted(imports, x) :: Attests(ctx, x, a, d, r.value.votes[a]))
  {
    RunIsBacked(ctx, imports);
    var votes := Run(ctx, imports).votes;
    var r := AttestedFor(ctx, votes, d, minimumBackingVotes);
    if r.Some? {
      assert r.value.votes.Keys == votes[d].votes.Keys;
      forall a | a in r.value.votes
        ensures ctx.isMember(a, r.value.group)
        ensures exists x | Submitted(imports, x) :: Attests(ctx, x, a, d, r.value.votes[a])
      {
        assert Backed(ctx, imports, votes, d, a);
        var x :| Submitted(imports, x) && IsVote(ctx, x, a, d, votes[d].votes[a]);
        assert Attests(ctx, x, a, d, r.value.votes[a]);
      }
    }
  }

  /** How many votes it takes: the minimum, or the whole group if that is smaller. Of a group of unknown size, no
      candidate that could ever be stored has enough. */
  lemma AttestedIff(ctx: Context, votes: Votes, d: Digest, minimumBackingVotes: nat)
    ensures d !in votes ==> AttestedFor(ctx, votes, d, minimumBackingVotes) == None
    ensures d in votes ==>
              var n, size := |votes[d].votes|, ctx.groupSize(votes[d].group);
              && (size.Some? ==> (AttestedFor(ctx, votes, d, minimumBackingVotes).Some? <==> n >= minimumBackingVotes || n >= size.value))
              && (size.None? ==> (AttestedFor(ctx, votes, d, minimumBackingVotes).Some? <==> n >= 0xFFFF_FFFF_FFFF_FFFF))
  {
  }

  /** Recorded lists of misbehaviour are never empty. */
  lemma {:induction false} ReportsNeverEmpty(ctx: Context, imports: seq<Import>)
    ensures forall a | a in Run(ctx, imports).reports :: Run(ctx, imports).reports[a] != []
  {
    if imports != [] {
      ReportsNeverEmpty(ctx, imports[..|imports| - 1]);
    }
  }
}
