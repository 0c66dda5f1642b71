/** The whole life of a statement table: statements are imported, and the recorded misbehaviour is drained
    every now and then. */
module TableLife {
  import opened Prelude
  import opened StatementTable
  import opened StatementRuns
  import opened MisbehaviorDrain
  import opened ReportSoundness

  /** A drain walks the recorded entries in an order of the map's choosing. */
  datatype Event = Take(x: Import) | Drain(order: seq<Entry>)

  /** The table, and everything that its drains have yielded so far. */
  datatype Life = Life(state: State, yielded: seq<Item>)

  function After(ctx: Context, l: Life, e: Event): Life {
    match e
    case Take(x) => l.(state := Imported(ctx, l.state, x))
    case Drain(order) => Life(l.state.(reports := map[]), l.yielded + UntilEmpty(order))
  }

  function Live(ctx: Context, events: seq<Event>): Life {
    if events == [] then Life(EMPTY, []) else After(ctx, Live(ctx, events[..|events| - 1]), events[|events| - 1])
  }

  /** Every drain walks the entries recorded at that time. */
  ghost predicate Possible(ctx: Context, events: seq<Event>) {
    events == [] ||
    (var front, e := events[..|events| - 1], events[|events| - 1];
     Possible(ctx, front) && (e.Drain? ==> Enumerates(e.order, Live(ctx, front).state.reports)))
  }

  function Imports(events: seq<Event>): seq<Import> {
    if events == [] then []
    else
      var front := Imports(events[..|events| - 1]);
      match events[|events| - 1]
      case Take(x) => front + [x]
      case Drain(_) => front
  }

  function ReportsFor(reports: Reports, a: AuthorityId): seq<Misbehavior> {
    if a in reports then reports[a] else []
  }

  /** All reports about `a`, those yielded first. */
  function AllReports(l: Life, a: AuthorityId): seq<Misbehavior> {
    ReportsOf(l.yielded, a) + ReportsFor(l.state.reports, a)
  }

  ghost predicate NoneEmpty(reports: Reports) {
    forall a | a in reports :: reports[a] != []
  }

  /** The table and its drains together are where the imports alone would have led. */
  ghost predicate Agrees(l: Life, s: State) {
    && l.state.proposals == s.proposals && l.state.votes == s.votes
    && (forall a :: AllReports(l, a) == ReportsFor(s.reports, a))
    && NoneEmpty(l.state.reports)
  }

  // ---------------------------------------------------------------- one event

  lemma ReportFor(reports: Reports, b: AuthorityId, m: Option<Misbehavior>, a: AuthorityId)
    ensures ReportsFor(Report(reports, b, m), a) ==
            ReportsFor(reports, a) + (if a == b && m.Some? then [m.value] else [])
  {
  }

  lemma TakeAgrees(ctx: Context, l: Life, s: State, x: Import)
    requires Agrees(l, s)
    ensures Agrees(After(ctx, l, Take(x)), Imported(ctx, s, x))
  {
    var l', s' := After(ctx, l, Take(x)), Imported(ctx, s, x);
    var b, m := x.signed.sender, ComplaintOf(ctx, s, x);
    assert ComplaintOf(ctx, l.state, x) == m;
    ImportedReports(ctx, s, x);
    ImportedReports(ctx, l.state, x);
    forall a
      ensures AllReports(l', a) == ReportsFor(s'.reports, a)
    {
      ReportFor(s.reports, b, m, a);
      ReportFor(l.state.reports, b, m, a);
      assert AllReports(l, a) == ReportsFor(s.reports, a);
    }
  }

  lemma DrainAgrees(ctx: Context, l: Life, s: State, order: seq<Entry>)
    requires Agrees(l, s) && Enumerates(order, l.state.reports)
    ensures Agrees(After(ctx, l, Drain(order)), s)
  {
    var l' := After(ctx, l, Drain(order));
    forall a
      ensures AllReports(l', a) == ReportsFor(s.reports, a)
    {
      DrainYields(order, l.state.reports, a);
      ReportsOfConcat(l.yielded, UntilEmpty(order), a);
      assert AllReports(l, a) == ReportsFor(s.reports, a);
    }
  }

  // ---------------------------------------------------------------- the whole life

  /** However often the table is drained in between: its candidates and votes are those of the imports alone, and
      for every authority what all drains yielded, followed by what is recorded now, is what the imports alone
      would have recorded. So every report comes out exactly once, in order, and no recorded list is empty. */
  lemma {:induction false} LifeAgrees(ctx: Context, events: seq<Event>)
    requires Possible(ctx, events)
    ensures Agrees(Live(ctx, events), Run(ctx, Imports(events)))
  {
    if events != [] {
      var front, e := events[..|events| - 1], events[|events| - 1];
      LifeAgrees(ctx, front);
      match e
      case Take(x) =>
        assert Imports(events)[..|Imports(events)| - 1] == Imports(front);
        TakeAgrees(ctx, Live(ctx, front), Run(ctx, Imports(front)), x);
      case Drain(order) =>
        DrainAgrees(ctx, Live(ctx, front), Run(ctx, Imports(front)), order);
    }
  }

  /** Any drain, at any point of a table's life, yields exactly what is recorded, each authority's reports in
      order, whatever order the map is walked in. */
  lemma DrainIsComplete(ctx: Context, events: seq<Event>, order: seq<Entry>, a: AuthorityId)
    requires Possible(ctx, events) && Enumerates(order, Live(ctx, events).state.reports)
    ensures UntilEmpty(order) == Flatten(order)
    ensures ReportsOf(UntilEmpty(order), a) == ReportsFor(Live(ctx, events).state.reports, a)
  {
    LifeAgrees(ctx, events);
    DrainYields(order, Live(ctx, events).state.reports, a);
  }

  /** What was yielded or is recorded about `a`. */
  ghost predicate EverReported(l: Life, a: AuthorityId, m: Misbehavior) {
    m in AllReports(l, a)
  }

  lemma EverReportedIff(ctx: Context, events: seq<Event>, a: AuthorityId)
    requires Possible(ctx, events)
    ensures var l, reports := Live(ctx, events), Run(ctx, Imports(events)).reports;
            && (AllReports(l, a) != [] <==> a in reports)
            && (forall m :: EverReported(l, a, m) <==> Recorded(reports, a, m))
  {
    LifeAgrees(ctx, events);
    ReportsNeverEmpty(ctx, Imports(events));
    assert AllReports(Live(ctx, events), a) == ReportsFor(Run(ctx, Imports(events)).reports, a);
  }

  /** Over its whole life the table reports exactly those who offended or made a stray proposal; so exactly the
      offenders if and only if every stray proposal is by an offender. */
  lemma LifeReports(ctx: Context, events: seq<Event>)
    requires Possible(ctx, events) && OneCandidate(ctx, Imports(events))
    ensures var l, imports := Live(ctx, events), Imports(events);
            && (forall a :: AllReports(l, a) != [] <==> Offended(ctx, imports, a) || StraysBy(ctx, imports, a))
            && ((forall a | AllReports(l, a) != [] :: Offended(ctx, imports, a)) <==> StraysOffend(ctx, imports))
  {
    var l, imports := Live(ctx, events), Imports(events);
    RunExplained(ctx, imports);
    ReportsOffendersIff(ctx, imports);
    forall a
      ensures AllReports(l, a) != [] <==> a in Run(ctx, imports).reports
    {
      EverReportedIff(ctx, events, a);
    }
  }

  /** All reports ever made are sound exactly when stray proposals are matched by the statements they get blamed for. */
  lemma LifeReportsSoundIff(ctx: Context, events: seq<Event>)
    requires Possible(ctx, events) && OneCandidate(ctx, Imports(events))
    ensures (forall a, m | EverReported(Live(ctx, events), a, m) :: Sound(ctx, Imports(events), a, m)) <==>
            StraysHarmless(ctx, Imports(events))
  {
    var l, imports := Live(ctx, events), Imports(events);
    ReportsSoundIff(ctx, imports);
    forall a, m
      ensures EverReported(l, a, m) <==> Recorded(Run(ctx, imports).reports, a, m)
    {
      EverReportedIff(ctx, events, a);
    }
  }

  /** Where one digest is only proposed in one group: exactly the offenders are reported, and every report is sound. */
  lemma CoherentLifeReports(ctx: Context, events: seq<Event>)
    requires Possible(ctx, events) && Coherent(ctx, Imports(events))
    ensures var l, imports := Live(ctx, events), Imports(events);
            && (forall a :: AllReports(l, a) != [] <==> Offended(ctx, imports, a))
            && (forall a, m | EverReported(l, a, m) :: Sound(ctx, imports, a, m))
  {
    var l, imports := Live(ctx, events), Imports(events);
    RunReports(ctx, imports);
    forall a
      ensures AllReports(l, a) != [] <==> a in Run(ctx, imports).reports
      ensures forall m :: EverReported(l, a, m) <==> Recorded(Run(ctx, imports).reports, a, m)
    {
      EverReportedIff(ctx, events, a);
    }
  }

  // ---------------------------------------------------------------- a table in use

  /** A table with the reports taken from it. */
  class UsedTable {
    const ctx: Context
    const table: Table
    var issued: seq<Item>
    ghost var events: seq<Event>

    ghost predicate Valid()
      reads this, table
    {
      Possible(ctx, events) && Live(ctx, events) == Life(table.Value(), issued)
    }

    constructor (ctx: Context)
      ensures Valid() && fresh(table) && this.ctx == ctx && events == [] && issued == []
    {
      this.ctx, issued, events := ctx, [], [];
      table := new Table();
    }

    method ImportStatement(group: GroupId, signed: SignedStatement) returns (summary: Option<Summary>)
      requires Valid()
      modifies this`events, table
      ensures Valid() && events == old(events) + [Take(Import(group, signed))]
    {
      summary := table.ImportStatement(ctx, group, signed);
      ghost var e := Take(Import(group, signed));
      assert (events + [e])[..|events|] == events;
      events := events + [e];
    }

    /** Everything recorded is issued and gone from the table, and by then every report that the imports led to has
        been issued exactly once, each authority's in order. */
    method IssueMisbehaviors() returns (items: seq<Item>)
      requires Valid()
      modifies this`events, this`issued, table`detectedMisbehavior
      ensures Valid() && table.detectedMisbehavior == map[] && issued == old(issued) + items
      ensures |events| == |old(events)| + 1 && events[..|old(events)|] == old(events) && events[|old(events)|].Drain?
      ensures forall a :: ReportsOf(items, a) == ReportsFor(old(table.detectedMisbehavior), a)
      ensures forall a :: ReportsOf(issued, a) == ReportsFor(Run(ctx, Imports(events)).reports, a)
    {
      ghost var before := events;
      var it := StartDrain(table);
      ghost var order := it.drain;
      items := it.Collect();
      issued := issued + items;
      forall a {
        DrainIsComplete(ctx, before, order, a);
      }
      events := events + [Drain(order)];
      assert events[..|before|] == before;
      LifeAgrees(ctx, events);
      forall a
        ensures ReportsOf(issued, a) == ReportsFor(Run(ctx, Imports(events)).reports, a)
      {
        assert AllReports(Live(ctx, events), a) == ReportsOf(issued, a);
      }
    }
  }
}
