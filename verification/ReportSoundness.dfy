/** Misbehaviour reports: who is reported, and when every report names statements that were really made, over any
    sequence of imports, whether or not candidates are proposed in one group only. */
module ReportSoundness {
  import opened Prelude
  import opened StatementTable
  import opened StatementRuns
  import opened VoteRecords

  /** Accepted proposals with one digest are of one candidate. */
  ghost predicate OneCandidate(ctx: Context, imports: seq<Import>) {
    forall x, y, d | x in imports && y in imports && Opens(ctx, x, d) && Opens(ctx, y, d) :: x.signed.statement == y.signed.statement
  }

  ghost predicate InjectiveDigest(ctx: Context) {
    forall a, b | ctx.digest(a) == ctx.digest(b) :: a == b
  }

  lemma InjectiveMeansOneCandidate(ctx: Context, imports: seq<Import>)
    requires InjectiveDigest(ctx)
    ensures OneCandidate(ctx, imports)
  {
  }

  // ---------------------------------------------------------------- who offends

  /** Arriving after `earlier`, `x` is by someone outside the group: the claimed one for a proposal, for a `Valid`
      the one that first proposed the candidate. */
  ghost predicate Outside(ctx: Context, earlier: seq<Import>, x: Import) {
    match x.signed.statement
    case Seconded(_) => !ctx.isMember(x.signed.sender, x.group)
    case Valid(d) => GroupLacks(ctx, earlier, d, x.signed.sender)
  }

  ghost predicate OutsideAt(ctx: Context, imports: seq<Import>, k: nat, a: AuthorityId) {
    k < |imports| && imports[k].signed.sender == a && Outside(ctx, imports[..k], imports[k])
  }

  /** Some import of `x` was an admitted vote when it arrived. */
  ghost predicate Cast(ctx: Context, imports: seq<Import>, x: SignedStatement) {
    exists k: nat :: CastAt(ctx, imports, k, x.sender, About(ctx, x)) && imports[k].signed == x
  }

  ghost predicate CastTwice(ctx: Context, imports: seq<Import>, x: SignedStatement, y: SignedStatement, a: AuthorityId) {
    Cast(ctx, imports, x) && Cast(ctx, imports, y) && Clash(ctx, x, y) && x.sender == a
  }

  /** `a` made a statement outside its group, or two different admitted statements about one candidate. */
  ghost predicate Offended(ctx: Context, imports: seq<Import>, a: AuthorityId) {
    || (exists k: nat :: OutsideAt(ctx, imports, k, a))
    || (exists x, y :: CastTwice(ctx, imports, x, y, a))
  }

  /** Import `k` is an accepted proposal by someone outside the group that first proposed its candidate. */
  ghost predicate Strays(ctx: Context, imports: seq<Import>, k: nat) {
    && k < |imports|
    && Opens(ctx, imports[k], About(ctx, imports[k].signed))
    && GroupLacks(ctx, imports, About(ctx, imports[k].signed), imports[k].signed.sender)
  }

  ghost predicate StraysBy(ctx: Context, imports: seq<Import>, a: AuthorityId) {
    exists k: nat :: Strays(ctx, imports, k) && imports[k].signed.sender == a
  }

  /** The statement that a report about `x` names when it blames the vote that a proposal implies. */
  function Named(ctx: Context, x: Import): SignedStatement {
    SignedStatement(Valid(About(ctx, x.signed)), x.signed.signature, x.signed.sender)
  }

  // ---------------------------------------------------------------- one more import

  lemma OneCandidatePrefix(ctx: Context, imports: seq<Import>, y: Import)
    requires OneCandidate(ctx, imports + [y])
    ensures OneCandidate(ctx, imports)
  {
    assert forall x | x in imports :: x in imports + [y];
  }

  lemma OutsideSnoc(ctx: Context, imports: seq<Import>, y: Import, k: nat, a: AuthorityId)
    ensures OutsideAt(ctx, imports + [y], k, a) <==>
              if k < |imports| then OutsideAt(ctx, imports, k, a)
              else k == |imports| && y.signed.sender == a && Outside(ctx, imports, y)
  {
    if k <= |imports| {
      assert (imports + [y])[..k] == imports[..k];
      assert imports[..|imports|] == imports;
    }
  }

  lemma CastSnoc(ctx: Context, imports: seq<Import>, y: Import, x: SignedStatement)
    ensures Cast(ctx, imports + [y], x) <==> Cast(ctx, imports, x) || (x == y.signed && Admitted(ctx, imports, y))
  {
    var longer, a, d := imports + [y], x.sender, About(ctx, x);
    if Cast(ctx, imports, x) {
      var k: nat :| CastAt(ctx, imports, k, a, d) && imports[k].signed == x;
      CastAtSnoc(ctx, imports, y, k, a, d);
      assert longer[k].signed == x;
    }
    if x == y.signed && Admitted(ctx, imports, y) {
      CastAtSnoc(ctx, imports, y, |imports|, a, d);
      assert longer[|imports|].signed == x;
    }
    if Cast(ctx, longer, x) {
      var k: nat :| CastAt(ctx, longer, k, a, d) && longer[k].signed == x;
      CastAtSnoc(ctx, imports, y, k, a, d);
    }
  }

  /** `y` offends right when it arrives. */
  ghost predicate OffendsNow(ctx: Context, imports: seq<Import>, y: Import) {
    || Outside(ctx, imports, y)
    || (Admitted(ctx, imports, y) && exists x :: Cast(ctx, imports, x) && Clash(ctx, x, y.signed))
  }

  lemma OffendedBefore(ctx: Context, imports: seq<Import>, y: Import, a: AuthorityId)
    requires Offended(ctx, imports, a)
    ensures Offended(ctx, imports + [y], a)
  {
    if k: nat :| OutsideAt(ctx, imports, k, a) {
      OutsideSnoc(ctx, imports, y, k, a);
      assert OutsideAt(ctx, imports + [y], k, a);
    } else {
      var u, v :| CastTwice(ctx, imports, u, v, a);
      CastSnoc(ctx, imports, y, u);
      CastSnoc(ctx, imports, y, v);
      assert CastTwice(ctx, imports + [y], u, v, a);
    }
  }

  lemma OffendedByNow(ctx: Context, imports: seq<Import>, y: Import)
    requires OffendsNow(ctx, imports, y)
    ensures Offended(ctx, imports + [y], y.signed.sender)
  {
    if Outside(ctx, imports, y) {
      OutsideSnoc(ctx, imports, y, |imports|, y.signed.sender);
      assert OutsideAt(ctx, imports + [y], |imports|, y.signed.sender);
    } else {
      var x :| Cast(ctx, imports, x) && Clash(ctx, x, y.signed);
      CastSnoc(ctx, imports, y, x);
      CastSnoc(ctx, imports, y, y.signed);
      assert CastTwice(ctx, imports + [y], x, y.signed, y.signed.sender);
    }
  }

  lemma OffendedOnlyNow(ctx: Context, imports: seq<Import>, y: Import, a: AuthorityId)
    requires Offended(ctx, imports + [y], a) && !Offended(ctx, imports, a)
    ensures a == y.signed.sender && OffendsNow(ctx, imports, y)
  {
    if k: nat :| OutsideAt(ctx, imports + [y], k, a) {
      OutsideSnoc(ctx, imports, y, k, a);
    } else {
      var u, v :| CastTwice(ctx, imports + [y], u, v, a);
      CastSnoc(ctx, imports, y, u);
      CastSnoc(ctx, imports, y, v);
      assert !CastTwice(ctx, imports, u, v, a);
      assert Clash(ctx, u, v) && Clash(ctx, v, u);
    }
  }

  /** Earlier imports stray as before. */
  lemma StraysEarlier(ctx: Context, imports: seq<Import>, y: Import, k: nat)
    requires k < |imports|
    ensures Strays(ctx, imports + [y], k) <==> Strays(ctx, imports, k)
  {
    var longer, d, a := imports + [y], About(ctx, imports[k].signed), imports[k].signed.sender;
    assert longer[k] == imports[k];
    if Opens(ctx, imports[k], d) {
      assert imports[k] in imports;
      GroupLacksLater(ctx, imports, y, d, a);
    }
  }

  /** Later imports do not change the group of an open candidate. */
  lemma GroupLacksLater(ctx: Context, imports: seq<Import>, y: Import, d: Digest, a: AuthorityId)
    requires IsOpen(ctx, imports, d)
    ensures GroupLacks(ctx, imports + [y], d, a) <==> GroupLacks(ctx, imports, d, a)
  {
    var longer := imports + [y];
    var f := SomeFirstOpens(ctx, imports, d);
    FirstOpensSnoc(ctx, imports, y, f, d);
    assert longer[f] == imports[f];
    forall g: nat | FirstOpens(ctx, longer, g, d)
      ensures g == f
    {
      OneFirstOpens(ctx, longer, f, g, d);
    }
    forall g: nat | FirstOpens(ctx, imports, g, d)
      ensures g == f
    {
      OneFirstOpens(ctx, imports, f, g, d);
    }
  }

  /** The last import strays when it proposes a candidate of another group. */
  lemma StraysLast(ctx: Context, imports: seq<Import>, y: Import)
    ensures var d := About(ctx, y.signed);
            Strays(ctx, imports + [y], |imports|) <==> Opens(ctx, y, d) && GroupLacks(ctx, imports, d, y.signed.sender)
  {
    var longer, d := imports + [y], About(ctx, y.signed);
    assert longer[|imports|] == y;
    if IsOpen(ctx, imports, d) {
      GroupLacksLater(ctx, imports, y, d, y.signed.sender);
    } else if Opens(ctx, y, d) {
      forall g: nat | FirstOpens(ctx, longer, g, d)
        ensures g == |imports|
      {
        FirstOpensSnoc(ctx, imports, y, g, d);
      }
      forall g: nat
        ensures !FirstOpens(ctx, imports, g, d)
      {
        if g < |imports| {
          assert imports[g] in imports;
        }
      }
    }
  }

  lemma StraysBySnoc(ctx: Context, imports: seq<Import>, y: Import, a: AuthorityId)
    ensures StraysBy(ctx, imports + [y], a) <==>
              StraysBy(ctx, imports, a) || (a == y.signed.sender && Strays(ctx, imports + [y], |imports|))
  {
    var longer := imports + [y];
    if StraysBy(ctx, imports, a) {
      var k: nat :| Strays(ctx, imports, k) && imports[k].signed.sender == a;
      StraysEarlier(ctx, imports, y, k);
      assert longer[k].signed.sender == a;
    }
    if a == y.signed.sender && Strays(ctx, longer, |imports|) {
      assert longer[|imports|].signed.sender == a;
    }
    if StraysBy(ctx, longer, a) {
      var k: nat :| Strays(ctx, longer, k) && longer[k].signed.sender == a;
      if k < |imports| {
        StraysEarlier(ctx, imports, y, k);
      }
    }
  }

  // ---------------------------------------------------------------- what a complaint says

  /** Which complaint `y` draws, if any. */
  function ComplaintOf(ctx: Context, s: State, y: Import): Option<Misbehavior> {
    if y.signed.statement.Seconded? && !ctx.isMember(y.signed.sender, y.group) then Some(UnauthorizedStatement(y.signed))
    else Complaint(ctx, VotesAgainst(ctx, s, y), y.signed.sender, About(ctx, y.signed), VoteOf(y.signed))
  }

  lemma ImportedReports(ctx: Context, s: State, y: Import)
    ensures Imported(ctx, s, y).reports == Report(s.reports, y.signed.sender, ComplaintOf(ctx, s, y))
  {
  }

  /** What is known of the table when `y` arrives. */
  ghost predicate Ready(ctx: Context, imports: seq<Import>, s: State, y: Import) {
    CandidatesKnown(ctx, imports, s) && VotesKnown(ctx, imports, s.votes) && OneCandidate(ctx, imports + [y])
  }

  /** An accepted proposal names the candidate on record. */
  lemma ProposesCandidate(ctx: Context, imports: seq<Import>, s: State, y: Import, x: Import, d: Digest)
    requires Ready(ctx, imports, s, y) && d in s.votes && x in imports + [y] && Opens(ctx, x, d)
    ensures x.signed.statement == Seconded(s.votes[d].candidate)
  {
    var f := SomeFirstOpens(ctx, imports, d);
    assert imports[f] in imports + [y];
  }

  /** The recorded vote is an earlier statement, and the same vote cast again is the same statement. */
  lemma RecordedVote(ctx: Context, imports: seq<Import>, s: State, y: Import) returns (x: SignedStatement)
    requires Ready(ctx, imports, s, y) && Admitted(ctx, imports, y)
    requires HasVote(s.votes, About(ctx, y.signed), y.signed.sender)
    ensures var a, d := y.signed.sender, About(ctx, y.signed);
            && Cast(ctx, imports, x) && x.sender == a && About(ctx, x) == d && VoteOf(x) == s.votes[d].votes[a]
            && SubmittedBefore(imports + [y], x, y.signed)
            && (x.statement.Seconded? ==> x.statement == Seconded(s.votes[d].candidate))
            && (y.signed.statement.Seconded? ==> y.signed.statement == Seconded(s.votes[d].candidate))
            && (VoteOf(x) == VoteOf(y.signed) <==> x == y.signed)
  {
    var a, d := y.signed.sender, About(ctx, y.signed);
    var k: nat :| FirstCast(ctx, imports, k, a, d);
    x := imports[k].signed;
    assert imports[k] in imports + [y] && y in imports + [y];
    assert (imports + [y])[k].signed == x && (imports + [y])[|imports|].signed == y.signed;
    if x.statement.Seconded? {
      ProposesCandidate(ctx, imports, s, y, imports[k], d);
    }
    if y.signed.statement.Seconded? {
      ProposesCandidate(ctx, imports, s, y, y, d);
    }
    VoteDecidesStatement(ctx, s.votes[d].candidate, x, y.signed);
  }

  lemma OpenedVotes(ctx: Context, imports: seq<Import>, s: State, y: Import)
    requires CandidatesKnown(ctx, imports, s)
    ensures var votes, d := VotesAgainst(ctx, s, y), About(ctx, y.signed);
            && (d in s.votes ==> d in votes && votes[d] == s.votes[d])
            && (d !in s.votes && d in votes ==> Opens(ctx, y, d) && votes[d].votes == map[] && votes[d].group == y.group)
            && (Opens(ctx, y, d) ==> d in votes)
  {
  }

  /** A complaint is drawn by a statement from outside, by a stray proposal, or by a vote that differs from the one on
      record, and by nothing else. */
  lemma ComplaintIs(ctx: Context, imports: seq<Import>, s: State, y: Import)
    requires CandidatesKnown(ctx, imports, s)
    ensures var m, a, d := ComplaintOf(ctx, s, y), y.signed.sender, About(ctx, y.signed);
            if Outside(ctx, imports, y) then m == Some(UnauthorizedStatement(y.signed))
            else if Strays(ctx, imports + [y], |imports|) then m == Some(UnauthorizedStatement(Named(ctx, y)))
            else if Admitted(ctx, imports, y) && HasVote(s.votes, d, a) && s.votes[d].votes[a] != VoteOf(y.signed)
            then m == Some(Conflict(s.votes[d].candidate, d, s.votes[d].votes[a], VoteOf(y.signed)))
            else m == None
  {
    GroupOnRecord(ctx, imports, s, About(ctx, y.signed), y.signed.sender);
    AdmittedIff(ctx, imports, s, y);
    StraysLast(ctx, imports, y);
    OpenedVotes(ctx, imports, s, y);
  }

  /** A vote that differs from the one on record clashes with it; a vote that clashes with any other and agrees with
      the one on record is by an offender. */
  lemma ConflictOffends(ctx: Context, imports: seq<Import>, s: State, y: Import)
    requires Ready(ctx, imports, s, y) && Admitted(ctx, imports, y)
    ensures var a, d := y.signed.sender, About(ctx, y.signed);
            var conflict := HasVote(s.votes, d, a) && s.votes[d].votes[a] != VoteOf(y.signed);
            && (conflict ==> OffendsNow(ctx, imports, y))
            && (conflict ==> Sound(ctx, imports + [y], a, Conflict(s.votes[d].candidate, d, s.votes[d].votes[a], VoteOf(y.signed))))
            && (!conflict && OffendsNow(ctx, imports, y) && !Outside(ctx, imports, y) ==> Offended(ctx, imports, a))
  {
    var a, d := y.signed.sender, About(ctx, y.signed);
    if HasVote(s.votes, d, a) {
      var x := RecordedVote(ctx, imports, s, y);
      if x != y.signed {
        assert Clash(ctx, x, y.signed);
        ConflictIsSound(ctx, imports + [y], s.votes[d].candidate, x, y.signed);
      } else if u :| Cast(ctx, imports, u) && Clash(ctx, u, y.signed) {
        assert CastTwice(ctx, imports, u, x, a);
      }
    } else {
      forall u | Cast(ctx, imports, u)
        ensures !Clash(ctx, u, y.signed)
      {
        CastIsOnRecord(ctx, imports, s.votes, u);
      }
    }
  }

  lemma CastIsOnRecord(ctx: Context, imports: seq<Import>, votes: Votes, x: SignedStatement)
    requires VotesKnown(ctx, imports, votes) && Cast(ctx, imports, x)
    ensures HasVote(votes, About(ctx, x), x.sender)
  {
    var k: nat :| CastAt(ctx, imports, k, x.sender, About(ctx, x)) && imports[k].signed == x;
    var f := SomeFirstCast(ctx, imports, k, x.sender, About(ctx, x));
  }

  // ---------------------------------------------------------------- who is reported

  /** Exactly those are on record who offended or made a stray proposal. */
  ghost predicate ReportedRight(ctx: Context, imports: seq<Import>, reports: Reports) {
    forall a :: a in reports <==> Offended(ctx, imports, a) || StraysBy(ctx, imports, a)
  }

  lemma ComplaintIsDeserved(ctx: Context, imports: seq<Import>, s: State, y: Import)
    requires Ready(ctx, imports, s, y)
    ensures var m, strays := ComplaintOf(ctx, s, y), Strays(ctx, imports + [y], |imports|);
            && (m.Some? ==> OffendsNow(ctx, imports, y) || strays)
            && (OffendsNow(ctx, imports, y) || strays ==> m.Some? || Offended(ctx, imports, y.signed.sender))
  {
    ComplaintIs(ctx, imports, s, y);
    if Admitted(ctx, imports, y) {
      ConflictOffends(ctx, imports, s, y);
    }
  }

  lemma ImportKeepsReported(ctx: Context, imports: seq<Import>, s: State, y: Import)
    requires Ready(ctx, imports, s, y) && ReportedRight(ctx, imports, s.reports)
    ensures ReportedRight(ctx, imports + [y], Imported(ctx, s, y).reports)
  {
    var b, m := y.signed.sender, ComplaintOf(ctx, s, y);
    ImportedReports(ctx, s, y);
    ComplaintIsDeserved(ctx, imports, s, y);
    forall a
      ensures a in Report(s.reports, b, m) <==> Offended(ctx, imports + [y], a) || StraysBy(ctx, imports + [y], a)
    {
      StraysBySnoc(ctx, imports, y, a);
      if Offended(ctx, imports, a) {
        OffendedBefore(ctx, imports, y, a);
      } else if Offended(ctx, imports + [y], a) {
        OffendedOnlyNow(ctx, imports, y, a);
      }
      if a == b && OffendsNow(ctx, imports, y) {
        OffendedByNow(ctx, imports, y);
      }
    }
  }

  // ---------------------------------------------------------------- what a report names

  ghost predicate Blames(ctx: Context, imports: seq<Import>, k: nat, a: AuthorityId, m: Misbehavior) {
    Strays(ctx, imports, k) && imports[k].signed.sender == a && m == UnauthorizedStatement(Named(ctx, imports[k]))
  }

  /** A report is sound or blames a stray proposal for the vote it implies. */
  ghost predicate Explained(ctx: Context, imports: seq<Import>, a: AuthorityId, m: Misbehavior) {
    Sound(ctx, imports, a, m) || exists k: nat :: Blames(ctx, imports, k, a, m)
  }

  predicate Recorded(reports: Reports, a: AuthorityId, m: Misbehavior) {
    a in reports && m in reports[a]
  }

  ghost predicate AllExplained(ctx: Context, imports: seq<Import>, reports: Reports) {
    forall a, m | Recorded(reports, a, m) :: Explained(ctx, imports, a, m)
  }

  ghost predicate StraysRecorded(ctx: Context, imports: seq<Import>, reports: Reports) {
    forall k: nat | Strays(ctx, imports, k) ::
      Recorded(reports, imports[k].signed.sender, UnauthorizedStatement(Named(ctx, imports[k])))
  }

  /** A complaint is sound, unless it is about a stray proposal; and a stray proposal always draws it. */
  lemma ComplaintExplained(ctx: Context, imports: seq<Import>, s: State, y: Import)
    requires Ready(ctx, imports, s, y)
    ensures var m := ComplaintOf(ctx, s, y);
            && (Strays(ctx, imports + [y], |imports|) ==> m == Some(UnauthorizedStatement(Named(ctx, y))))
            && (m.Some? && !Strays(ctx, imports + [y], |imports|) ==> Sound(ctx, imports + [y], y.signed.sender, m.value))
  {
    ComplaintIs(ctx, imports, s, y);
    StraysLast(ctx, imports, y);
    SubmittedSnoc(imports, y, y.signed);
    if Admitted(ctx, imports, y) {
      ConflictOffends(ctx, imports, s, y);
    }
  }

  lemma ExplainedGrows(ctx: Context, imports: seq<Import>, y: Import, a: AuthorityId, m: Misbehavior)
    requires Explained(ctx, imports, a, m)
    ensures Explained(ctx, imports + [y], a, m)
  {
    if Sound(ctx, imports, a, m) {
      SubmittedGrows(ctx, imports, y, a, m);
    } else {
      var k: nat :| Blames(ctx, imports, k, a, m);
      StraysEarlier(ctx, imports, y, k);
      assert Blames(ctx, imports + [y], k, a, m);
    }
  }

  lemma RecordedSnoc(reports: Reports, b: AuthorityId, n: Option<Misbehavior>, a: AuthorityId, m: Misbehavior)
    ensures Recorded(Report(reports, b, n), a, m) <==> Recorded(reports, a, m) || (a == b && n == Some(m))
  {
  }

  lemma ImportKeepsExplained(ctx: Context, imports: seq<Import>, s: State, y: Import)
    requires Ready(ctx, imports, s, y) && AllExplained(ctx, imports, s.reports)
    ensures AllExplained(ctx, imports + [y], Imported(ctx, s, y).reports)
  {
    var n := ComplaintOf(ctx, s, y);
    ImportedReports(ctx, s, y);
    ComplaintExplained(ctx, imports, s, y);
    forall a, m | Recorded(Report(s.reports, y.signed.sender, n), a, m)
      ensures Explained(ctx, imports + [y], a, m)
    {
      RecordedSnoc(s.reports, y.signed.sender, n, a, m);
      if Recorded(s.reports, a, m) {
        ExplainedGrows(ctx, imports, y, a, m);
      } else if Strays(ctx, imports + [y], |imports|) {
        assert Blames(ctx, imports + [y], |imports|, a, m);
      }
    }
  }

  lemma ImportKeepsStraysRecorded(ctx: Context, imports: seq<Import>, s: State, y: Import)
    requires Ready(ctx, imports, s, y) && StraysRecorded(ctx, imports, s.reports)
    ensures StraysRecorded(ctx, imports + [y], Imported(ctx, s, y).reports)
  {
    var longer, n := imports + [y], ComplaintOf(ctx, s, y);
    ImportedReports(ctx, s, y);
    ComplaintExplained(ctx, imports, s, y);
    forall k: nat | Strays(ctx, longer, k)
      ensures Recorded(Report(s.reports, y.signed.sender, n), longer[k].signed.sender, UnauthorizedStatement(Named(ctx, longer[k])))
    {
      RecordedSnoc(s.reports, y.signed.sender, n, longer[k].signed.sender, UnauthorizedStatement(Named(ctx, longer[k])));
      if k < |imports| {
        StraysEarlier(ctx, imports, y, k);
        assert longer[k] == imports[k];
      }
    }
  }

  // ---------------------------------------------------------------- every run

  /** After every sequence of imports whose accepted proposals with one digest are of one candidate: exactly those are
      reported who offended or made a stray proposal, every report is sound or blames a stray proposal, and every stray
      proposal is blamed. */
  lemma {:induction false} RunExplained(ctx: Context, imports: seq<Import>)
    requires OneCandidate(ctx, imports)
    ensures var reports := Run(ctx, imports).reports;
            ReportedRight(ctx, imports, reports) && AllExplained(ctx, imports, reports) && StraysRecorded(ctx, imports, reports)
  {
    if imports != [] {
      var front, y := imports[..|imports| - 1], imports[|imports| - 1];
      assert front + [y] == imports;
      OneCandidatePrefix(ctx, front, y);
      RunExplained(ctx, front);
      RunRecordsFirst(ctx, front);
      ImportKeepsReported(ctx, front, Run(ctx, front), y);
      ImportKeepsExplained(ctx, front, Run(ctx, front), y);
      ImportKeepsStraysRecorded(ctx, front, Run(ctx, front), y);
    }
  }

  /** Every stray proposal is by someone who offended anyway. */
  ghost predicate StraysOffend(ctx: Context, imports: seq<Import>) {
    forall k: nat | Strays(ctx, imports, k) :: Offended(ctx, imports, imports[k].signed.sender)
  }

  /** Exactly the offenders are reported if and only if every stray proposal is by an offender. Offenders are always
      reported. */
  lemma ReportsOffendersIff(ctx: Context, imports: seq<Import>)
    requires OneCandidate(ctx, imports)
    ensures var reports := Run(ctx, imports).reports;
            && (forall a | Offended(ctx, imports, a) :: a in reports)
            && ((forall a | a in reports :: Offended(ctx, imports, a)) <==> StraysOffend(ctx, imports))
  {
    var reports := Run(ctx, imports).reports;
    RunExplained(ctx, imports);
    if forall a | a in reports :: Offended(ctx, imports, a) {
      forall k: nat | Strays(ctx, imports, k)
        ensures Offended(ctx, imports, imports[k].signed.sender)
      {
        assert StraysBy(ctx, imports, imports[k].signed.sender);
      }
    }
  }

  /** Every stray proposal is matched by the very `Valid` statement it gets blamed for. */
  ghost predicate StraysHarmless(ctx: Context, imports: seq<Import>) {
    forall k: nat | Strays(ctx, imports, k) :: Submitted(imports, Named(ctx, imports[k]))
  }

  /** All reports of a run are sound if and only if every accepted proposal is by a member of the group that first
      proposed its candidate, or its author also made the `Valid` statement that the report blames it for. */
  lemma ReportsSoundIff(ctx: Context, imports: seq<Import>)
    requires OneCandidate(ctx, imports)
    ensures (forall a, m | Recorded(Run(ctx, imports).reports, a, m) :: Sound(ctx, imports, a, m)) <==>
            StraysHarmless(ctx, imports)
  {
    var reports := Run(ctx, imports).reports;
    RunExplained(ctx, imports);
    if StraysHarmless(ctx, imports) {
      forall a, m | Recorded(reports, a, m)
        ensures Sound(ctx, imports, a, m)
      {
        assert Explained(ctx, imports, a, m);
      }
    }
    if forall a, m | Recorded(reports, a, m) :: Sound(ctx, imports, a, m) {
      forall k: nat | Strays(ctx, imports, k)
        ensures Submitted(imports, Named(ctx, imports[k]))
      {
        assert Recorded(reports, imports[k].signed.sender, UnauthorizedStatement(Named(ctx, imports[k])));
      }
    }
  }

  // ---------------------------------------------------------------- one group per candidate

  /** Where one digest is only proposed in one group, nothing strays. */
  lemma CoherentNeverStrays(ctx: Context, imports: seq<Import>, k: nat)
    requires Coherent(ctx, imports)
    ensures !Strays(ctx, imports, k)
  {
    if k < |imports| {
      var d := About(ctx, imports[k].signed);
      forall f: nat | FirstOpens(ctx, imports, f, d) && Opens(ctx, imports[k], d)
        ensures ctx.isMember(imports[k].signed.sender, imports[f].group)
      {
        assert imports[f] in imports && imports[k] in imports;
      }
    }
  }

  /** There, the table reports exactly the offenders, and every report is sound. */
  lemma RunReports(ctx: Context, imports: seq<Import>)
    requires Coherent(ctx, imports)
    ensures var reports := Run(ctx, imports).reports;
            && (forall a :: a in reports <==> Offended(ctx, imports, a))
            && (forall a, m | Recorded(reports, a, m) :: Sound(ctx, imports, a, m))
  {
    forall k: nat {
      CoherentNeverStrays(ctx, imports, k);
    }
    assert OneCandidate(ctx, imports);
    ReportsOffendersIff(ctx, imports);
    ReportsSoundIff(ctx, imports);
  }

  /** With two groups, an authority that stayed in its own group and made a single statement is on record, and for a
      `Valid` statement that it never signed. */
  lemma IncoherentReportMisnames(ctx: Context, c: Candidate, g1: GroupId, g2: GroupId, a: AuthorityId, b: AuthorityId, s1: Signature, s2: Signature)
    requires ctx.isMember(b, g1) && ctx.isMember(a, g2) && !ctx.isMember(a, g1)
    ensures var imports := [Import(g1, SignedStatement(Seconded(c), s1, b)), Import(g2, SignedStatement(Seconded(c), s2, a))];
            var named := SignedStatement(Valid(ctx.digest(c)), s2, a);
            && !Coherent(ctx, imports)
            && a in Run(ctx, imports).reports && Run(ctx, imports).reports[a] == [UnauthorizedStatement(named)]
            && !Submitted(imports, named) && !Offended(ctx, imports, a)
  {
    var x, y := Import(g1, SignedStatement(Seconded(c), s1, b)), Import(g2, SignedStatement(Seconded(c), s2, a));
    var d := ctx.digest(c);
    assert [x, y][..1] == [x] && [x][..0] == [];
    assert Run(ctx, [x]) == Imported(ctx, EMPTY, x);
    assert Run(ctx, [x]).votes[d].group == g1 && a !in Run(ctx, [x]).reports && !Proposed(Run(ctx, [x]).proposals, a, d);
    assert x in [x, y] && y in [x, y] && Opens(ctx, x, d) && Opens(ctx, y, d);
    forall k: nat
      ensures !OutsideAt(ctx, [x, y], k, a)
    {
    }
    forall u, v
      ensures !CastTwice(ctx, [x, y], u, v, a)
    {
    }
  }
}
