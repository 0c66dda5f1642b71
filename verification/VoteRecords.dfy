/** What the table records, import by import: the first accepted proposal of a candidate decides its group, and the
    first statement admitted by that group decides an authority's vote. Nothing is assumed about the imports. */
module VoteRecords {
  import opened StatementTable
  import opened StatementRuns

  /** Import `k` is the first accepted proposal of `d`. */
  ghost predicate FirstOpens(ctx: Context, imports: seq<Import>, k: nat, d: Digest) {
    k < |imports| && Opens(ctx, imports[k], d) && forall j | 0 <= j < k :: !Opens(ctx, imports[j], d)
  }

  /** The group of the first proposal of `d` among `earlier` has `a` as a member. */
  ghost predicate GroupHas(ctx: Context, earlier: seq<Import>, d: Digest, a: AuthorityId) {
    exists f: nat :: FirstOpens(ctx, earlier, f, d) && ctx.isMember(a, earlier[f].group)
  }

  ghost predicate GroupLacks(ctx: Context, earlier: seq<Import>, d: Digest, a: AuthorityId) {
    exists f: nat :: FirstOpens(ctx, earlier, f, d) && !ctx.isMember(a, earlier[f].group)
  }

  /** Arriving after `earlier`, `x` is a vote that the candidate's group admits: a `Valid` by a member of the group
      that first proposed the candidate, or an accepted proposal by one, or the first proposal itself. */
  ghost predicate Admitted(ctx: Context, earlier: seq<Import>, x: Import) {
    match x.signed.statement
    case Seconded(c) => ctx.isMember(x.signed.sender, x.group) && !GroupLacks(ctx, earlier, ctx.digest(c), x.signed.sender)
    case Valid(d) => GroupHas(ctx, earlier, d, x.signed.sender)
  }

  /** Import `k` is an admitted vote of `a` on `d`. */
  ghost predicate CastAt(ctx: Context, imports: seq<Import>, k: nat, a: AuthorityId, d: Digest) {
    && k < |imports| && imports[k].signed.sender == a && About(ctx, imports[k].signed) == d
    && Admitted(ctx, imports[..k], imports[k])
  }

  ghost predicate FirstCast(ctx: Context, imports: seq<Import>, k: nat, a: AuthorityId, d: Digest) {
    CastAt(ctx, imports, k, a, d) && forall j: nat | j < k :: !CastAt(ctx, imports, j, a, d)
  }

  /** The table knows exactly the proposed candidates, each as it was proposed first. */
  ghost predicate CandidatesKnown(ctx: Context, imports: seq<Import>, s: State) {
    && (forall a, d | Proposed(s.proposals, a, d) :: d in s.votes)
    && (forall d | d in s.votes :: IsOpen(ctx, imports, d))
    && (forall f: nat, d | FirstOpens(ctx, imports, f, d) ::
          d in s.votes && s.votes[d].group == imports[f].group && imports[f].signed.statement == Seconded(s.votes[d].candidate))
  }

  /** The votes on record are exactly the first admitted ones. */
  ghost predicate VotesKnown(ctx: Context, imports: seq<Import>, votes: Votes) {
    && (forall d, a | HasVote(votes, d, a) :: exists k: nat :: FirstCast(ctx, imports, k, a, d))
    && (forall k: nat, a, d | FirstCast(ctx, imports, k, a, d) ::
          HasVote(votes, d, a) && votes[d].votes[a] == VoteOf(imports[k].signed))
  }

  // ---------------------------------------------------------------- the first proposal

  lemma FirstOpensSnoc(ctx: Context, imports: seq<Import>, y: Import, f: nat, d: Digest)
    ensures FirstOpens(ctx, imports + [y], f, d) <==>
              if f < |imports| then FirstOpens(ctx, imports, f, d)
              else f == |imports| && Opens(ctx, y, d) && !IsOpen(ctx, imports, d)
  {
    var longer := imports + [y];
    assert forall j | 0 <= j < |imports| :: longer[j] == imports[j];
    if f == |imports| {
      assert IsOpen(ctx, imports, d) <==> exists j | 0 <= j < |imports| :: Opens(ctx, imports[j], d);
    }
  }

  lemma {:induction false} SomeFirstOpens(ctx: Context, imports: seq<Import>, d: Digest) returns (f: nat)
    requires IsOpen(ctx, imports, d)
    ensures FirstOpens(ctx, imports, f, d)
  {
    var front, y := imports[..|imports| - 1], imports[|imports| - 1];
    assert imports == front + [y];
    if IsOpen(ctx, front, d) {
      f := SomeFirstOpens(ctx, front, d);
    } else {
      f := |front|;
    }
    FirstOpensSnoc(ctx, front, y, f, d);
  }

  lemma OneFirstOpens(ctx: Context, imports: seq<Import>, f: nat, g: nat, d: Digest)
    requires FirstOpens(ctx, imports, f, d) && FirstOpens(ctx, imports, g, d)
    ensures f == g
  {
  }

  /** The table answers what the first proposal decided. */
  lemma GroupOnRecord(ctx: Context, imports: seq<Import>, s: State, d: Digest, a: AuthorityId)
    requires CandidatesKnown(ctx, imports, s)
    ensures GroupHas(ctx, imports, d, a) <==> d in s.votes && ctx.isMember(a, s.votes[d].group)
    ensures GroupLacks(ctx, imports, d, a) <==> d in s.votes && !ctx.isMember(a, s.votes[d].group)
  {
    if d in s.votes {
      var f := SomeFirstOpens(ctx, imports, d);
    }
  }

  // ---------------------------------------------------------------- candidates

  lemma ProposedSnoc(ctx: Context, s: State, y: Import, a: AuthorityId, d: Digest)
    requires Proposed(Imported(ctx, s, y).proposals, a, d)
    ensures Proposed(s.proposals, a, d) || Opens(ctx, y, d)
  {
    var proposals := Imported(ctx, s, y).proposals;
    var list: seq<(Digest, Signature)> := proposals[a];
    var i :| 0 <= i < |list| && list[i].0 == d;
    if a in s.proposals && i < |s.proposals[a]| {
      assert s.proposals[a][i].0 == d;
    }
  }

  /** An import enters at most the candidate it proposes, and never changes one on record. */
  lemma CandidateAfter(ctx: Context, s: State, y: Import, d: Digest)
    requires forall a, e | Proposed(s.proposals, a, e) :: e in s.votes
    ensures var votes := Imported(ctx, s, y).votes;
            && (d in votes <==> d in s.votes || Opens(ctx, y, d))
            && (d in s.votes ==> votes[d].group == s.votes[d].group && votes[d].candidate == s.votes[d].candidate)
            && (d !in s.votes && d in votes ==> votes[d].group == y.group && y.signed.statement == Seconded(votes[d].candidate))
  {
  }

  lemma FirstAfter(ctx: Context, imports: seq<Import>, s: State, y: Import, f: nat, d: Digest)
    requires CandidatesKnown(ctx, imports, s) && FirstOpens(ctx, imports + [y], f, d)
    ensures var votes, x := Imported(ctx, s, y).votes, (imports + [y])[f];
            d in votes && votes[d].group == x.group && x.signed.statement == Seconded(votes[d].candidate)
  {
    CandidateAfter(ctx, s, y, d);
    FirstOpensSnoc(ctx, imports, y, f, d);
    if f < |imports| {
      assert d in s.votes;
    } else {
      assert d !in s.votes;
    }
  }

  lemma CandidatesStayKnown(ctx: Context, imports: seq<Import>, s: State, y: Import)
    requires CandidatesKnown(ctx, imports, s)
    ensures CandidatesKnown(ctx, imports + [y], Imported(ctx, s, y))
  {
    var s', longer := Imported(ctx, s, y), imports + [y];
    forall d | d in s'.votes
      ensures IsOpen(ctx, longer, d)
    {
      CandidateAfter(ctx, s, y, d);
      OpenSnoc(ctx, imports, y, d);
    }
    forall f: nat, d | FirstOpens(ctx, longer, f, d)
      ensures d in s'.votes && s'.votes[d].group == longer[f].group && longer[f].signed.statement == Seconded(s'.votes[d].candidate)
    {
      FirstAfter(ctx, imports, s, y, f, d);
    }
    forall a, d | Proposed(s'.proposals, a, d)
      ensures d in s'.votes
    {
      ProposedSnoc(ctx, s, y, a, d);
      CandidateAfter(ctx, s, y, d);
    }
  }

  // ---------------------------------------------------------------- votes

  /** The votes against which `y` is checked: those on record, with the candidate that `y` may enter. */
  function VotesAgainst(ctx: Context, s: State, y: Import): Votes {
    match y.signed.statement
    case Valid(_) => s.votes
    case Seconded(c) =>
      if ctx.isMember(y.signed.sender, y.group) then AddCandidate(s, y.signed.sender, ctx.digest(c), y.group, c) else s.votes
  }

  lemma AdmittedIff(ctx: Context, imports: seq<Import>, s: State, y: Import)
    requires CandidatesKnown(ctx, imports, s)
    ensures var votes, d := VotesAgainst(ctx, s, y), About(ctx, y.signed);
            Admitted(ctx, imports, y) <==>
              && (y.signed.statement.Seconded? ==> ctx.isMember(y.signed.sender, y.group))
              && d in votes && ctx.isMember(y.signed.sender, votes[d].group)
  {
    GroupOnRecord(ctx, imports, s, About(ctx, y.signed), y.signed.sender);
  }

  lemma VoteAfter(ctx: Context, imports: seq<Import>, s: State, y: Import, d: Digest, a: AuthorityId)
    requires CandidatesKnown(ctx, imports, s)
    ensures var votes := Imported(ctx, s, y).votes;
            && (HasVote(votes, d, a) <==>
                  HasVote(s.votes, d, a) || (Admitted(ctx, imports, y) && a == y.signed.sender && d == About(ctx, y.signed)))
            && (HasVote(votes, d, a) ==>
                  votes[d].votes[a] == if HasVote(s.votes, d, a) then s.votes[d].votes[a] else VoteOf(y.signed))
  {
    AdmittedIff(ctx, imports, s, y);
  }

  lemma CastAtSnoc(ctx: Context, imports: seq<Import>, y: Import, k: nat, a: AuthorityId, d: Digest)
    ensures CastAt(ctx, imports + [y], k, a, d) <==>
              if k < |imports| then CastAt(ctx, imports, k, a, d)
              else k == |imports| && y.signed.sender == a && About(ctx, y.signed) == d && Admitted(ctx, imports, y)
  {
    if k <= |imports| {
      assert (imports + [y])[..k] == imports[..k];
      assert imports[..|imports|] == imports;
    }
  }

  lemma FirstCastEarlier(ctx: Context, imports: seq<Import>, y: Import, k: nat, a: AuthorityId, d: Digest)
    requires k < |imports|
    ensures FirstCast(ctx, imports + [y], k, a, d) <==> FirstCast(ctx, imports, k, a, d)
  {
    forall j: nat | j <= k
      ensures CastAt(ctx, imports + [y], j, a, d) <==> CastAt(ctx, imports, j, a, d)
    {
      CastAtSnoc(ctx, imports, y, j, a, d);
    }
  }

  lemma {:induction false} SomeFirstCast(ctx: Context, imports: seq<Import>, k: nat, a: AuthorityId, d: Digest) returns (f: nat)
    requires CastAt(ctx, imports, k, a, d)
    ensures FirstCast(ctx, imports, f, a, d) && f <= k
    decreases k
  {
    if j: nat :| j < k && CastAt(ctx, imports, j, a, d) {
      f := SomeFirstCast(ctx, imports, j, a, d);
    } else {
      f := k;
    }
  }

  /** The vote of the last import is recorded unless there was one before. */
  lemma FirstCastLast(ctx: Context, imports: seq<Import>, votes: Votes, y: Import)
    requires VotesKnown(ctx, imports, votes)
    ensures var a, d := y.signed.sender, About(ctx, y.signed);
            FirstCast(ctx, imports + [y], |imports|, a, d) <==> Admitted(ctx, imports, y) && !HasVote(votes, d, a)
  {
    var a, d := y.signed.sender, About(ctx, y.signed);
    CastAtSnoc(ctx, imports, y, |imports|, a, d);
    forall j: nat | j < |imports|
      ensures CastAt(ctx, imports + [y], j, a, d) <==> CastAt(ctx, imports, j, a, d)
    {
      CastAtSnoc(ctx, imports, y, j, a, d);
    }
    if HasVote(votes, d, a) {
      var k: nat :| FirstCast(ctx, imports, k, a, d);
    } else if j: nat :| CastAt(ctx, imports, j, a, d) {
      var f := SomeFirstCast(ctx, imports, j, a, d);
    }
  }

  lemma RecordedHasCast(ctx: Context, imports: seq<Import>, s: State, y: Import, d: Digest, a: AuthorityId) returns (k: nat)
    requires CandidatesKnown(ctx, imports, s) && VotesKnown(ctx, imports, s.votes)
    requires HasVote(Imported(ctx, s, y).votes, d, a)
    ensures FirstCast(ctx, imports + [y], k, a, d)
  {
    VoteAfter(ctx, imports, s, y, d, a);
    if HasVote(s.votes, d, a) {
      k :| FirstCast(ctx, imports, k, a, d);
      FirstCastEarlier(ctx, imports, y, k, a, d);
    } else {
      k := |imports|;
      FirstCastLast(ctx, imports, s.votes, y);
    }
  }

  lemma CastIsRecorded(ctx: Context, imports: seq<Import>, s: State, y: Import, k: nat, d: Digest, a: AuthorityId)
    requires CandidatesKnown(ctx, imports, s) && VotesKnown(ctx, imports, s.votes)
    requires FirstCast(ctx, imports + [y], k, a, d)
    ensures var votes := Imported(ctx, s, y).votes;
            HasVote(votes, d, a) && votes[d].votes[a] == VoteOf((imports + [y])[k].signed)
  {
    VoteAfter(ctx, imports, s, y, d, a);
    if k < |imports| {
      FirstCastEarlier(ctx, imports, y, k, a, d);
    } else {
      FirstCastLast(ctx, imports, s.votes, y);
    }
  }

  lemma VotesStayKnown(ctx: Context, imports: seq<Import>, s: State, y: Import)
    requires CandidatesKnown(ctx, imports, s) && VotesKnown(ctx, imports, s.votes)
    ensures VotesKnown(ctx, imports + [y], Imported(ctx, s, y).votes)
  {
    var votes := Imported(ctx, s, y).votes;
    forall d, a | HasVote(votes, d, a)
      ensures exists k: nat :: FirstCast(ctx, imports + [y], k, a, d)
    {
      var k := RecordedHasCast(ctx, imports, s, y, d, a);
    }
    forall k: nat, a, d | FirstCast(ctx, imports + [y], k, a, d)
      ensures HasVote(votes, d, a) && votes[d].votes[a] == VoteOf((imports + [y])[k].signed)
    {
      CastIsRecorded(ctx, imports, s, y, k, d, a);
    }
  }

  /** After every sequence of imports: the candidates on record are the proposed ones, with group and candidate of the
      first accepted proposal, and the vote of an authority is its first admitted statement about the candidate. */
  lemma {:induction false} RunRecordsFirst(ctx: Context, imports: seq<Import>)
    ensures CandidatesKnown(ctx, imports, Run(ctx, imports)) && VotesKnown(ctx, imports, Run(ctx, imports).votes)
  {
    if imports != [] {
      var front, y := imports[..|imports| - 1], imports[|imports| - 1];
      assert front + [y] == imports;
      RunRecordsFirst(ctx, front);
      CandidatesStayKnown(ctx, front, Run(ctx, front), y);
      VotesStayKnown(ctx, front, Run(ctx, front), y);
    }
  }

  // ---------------------------------------------------------------- summaries

  lemma SummaryOfVote(ctx: Context, votes: Votes, from: AuthorityId, d: Digest, vote: ValidityVote)
    ensures var r, votes' := VoteSummary(ctx, votes, from, d), AddVote(ctx, votes, from, d, vote);
            && (r.Some? <==> HasVote(votes', d, from) && !HasVote(votes, d, from))
            && (r.Some? ==> r.value.candidate == d && r.value.group == votes'[d].group && r.value.validityVotes == |votes'[d].votes|)
  {
    if VoteSummary(ctx, votes, from, d).Some? {
      assert votes[d].votes[from := vote].Keys == votes[d].votes.Keys + {from};
    }
  }

  /** An import returns a summary if and only if it added its vote, and the summary is about the candidate that it was
      cast on: the group on record and the number of votes on record afterwards. */
  lemma SummaryIs(ctx: Context, s: State, y: Import)
    ensures var r, votes, a, d := ImportSummary(ctx, s, y), Imported(ctx, s, y).votes, y.signed.sender, About(ctx, y.signed);
            && (r.Some? <==> HasVote(votes, d, a) && !HasVote(s.votes, d, a))
            && (r.Some? ==> r.value.candidate == d && r.value.group == votes[d].group && r.value.validityVotes == |votes[d].votes|)
  {
    SummaryOfVote(ctx, VotesAgainst(ctx, s, y), y.signed.sender, About(ctx, y.signed), VoteOf(y.signed));
    assert HasVote(VotesAgainst(ctx, s, y), About(ctx, y.signed), y.signed.sender) <==> HasVote(s.votes, About(ctx, y.signed), y.signed.sender);
  }

  // ---------------------------------------------------------------- proposals

  /** `a` proposed `d`, accepted, among `imports`. */
  ghost predicate ProposedBy(ctx: Context, imports: seq<Import>, a: AuthorityId, d: Digest) {
    exists x | x in imports :: x.signed.sender == a && Opens(ctx, x, d)
  }

  /** The accepted proposals of `a`, each digest once, with the signature it was first proposed with. */
  ghost function ProposalsOf(ctx: Context, imports: seq<Import>, a: AuthorityId): seq<(Digest, Signature)> {
    if imports == [] then []
    else
      var front, y := imports[..|imports| - 1], imports[|imports| - 1];
      var d := About(ctx, y.signed);
      ProposalsOf(ctx, front, a) +
      (if y.signed.sender == a && Opens(ctx, y, d) && !ProposedBy(ctx, front, a, d) then [(d, y.signed.signature)] else [])
  }

  function ProposalsFor(proposals: Proposals, a: AuthorityId): seq<(Digest, Signature)> {
    if a in proposals then proposals[a] else []
  }

  predicate Lists(list: seq<(Digest, Signature)>, d: Digest) {
    exists i | 0 <= i < |list| :: list[i].0 == d
  }

  lemma ListsSnoc(list: seq<(Digest, Signature)>, entry: (Digest, Signature), d: Digest)
    ensures Lists(list + [entry], d) <==> Lists(list, d) || entry.0 == d
  {
    var longer := list + [entry];
    if Lists(list, d) {
      var i :| 0 <= i < |list| && list[i].0 == d;
      assert longer[i].0 == d;
    }
    assert longer[|list|].0 == entry.0;
  }

  lemma ProposedBySnoc(ctx: Context, imports: seq<Import>, y: Import, a: AuthorityId, d: Digest)
    ensures ProposedBy(ctx, imports + [y], a, d) <==> ProposedBy(ctx, imports, a, d) || (y.signed.sender == a && Opens(ctx, y, d))
  {
    if ProposedBy(ctx, imports, a, d) {
      var x :| x in imports && x.signed.sender == a && Opens(ctx, x, d);
      assert x in imports + [y];
    }
    assert y in imports + [y];
  }

  lemma ProposedInList(proposals: Proposals, a: AuthorityId, d: Digest)
    ensures Proposed(proposals, a, d) <==> Lists(ProposalsFor(proposals, a), d)
  {
    if a in proposals {
      assert ProposalsFor(proposals, a) == proposals[a];
    }
  }

  lemma {:induction false} ListedIsProposed(ctx: Context, imports: seq<Import>, a: AuthorityId, d: Digest)
    ensures Lists(ProposalsOf(ctx, imports, a), d) <==> ProposedBy(ctx, imports, a, d)
  {
    if imports != [] {
      var front, y := imports[..|imports| - 1], imports[|imports| - 1];
      assert imports == front + [y];
      ListedIsProposed(ctx, front, a, d);
      ProposedBySnoc(ctx, front, y, a, d);
      ListsSnoc(ProposalsOf(ctx, front, a), (About(ctx, y.signed), y.signed.signature), d);
      assert ProposalsOf(ctx, front, a) + [] == ProposalsOf(ctx, front, a);
    }
  }

  lemma ProposalAdded(ctx: Context, s: State, y: Import, a: AuthorityId)
    ensures var d := About(ctx, y.signed);
            ProposalsFor(Imported(ctx, s, y).proposals, a) ==
              ProposalsFor(s.proposals, a) +
              (if y.signed.sender == a && Opens(ctx, y, d) && !Proposed(s.proposals, a, d) then [(d, y.signed.signature)] else [])
  {
  }

  /** After every sequence of imports the proposals on record of an authority are its accepted ones, each digest once, in
      the order and with the signature in which they first came. */
  lemma {:induction false} RunRecordsProposals(ctx: Context, imports: seq<Import>, a: AuthorityId)
    ensures ProposalsFor(Run(ctx, imports).proposals, a) == ProposalsOf(ctx, imports, a)
  {
    if imports != [] {
      var front, y := imports[..|imports| - 1], imports[|imports| - 1];
      var d := About(ctx, y.signed);
      RunRecordsProposals(ctx, front, a);
      ProposalAdded(ctx, Run(ctx, front), y, a);
      ProposedInList(Run(ctx, front).proposals, a, d);
      ListedIsProposed(ctx, front, a, d);
    }
  }
}
