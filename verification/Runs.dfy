// Whole runs: a store driven by any sequence of writer steps, clock readings and
// two-step queries answers as the reference table does.
module Runs {
  import opened Decimal
  import opened Table
  import opened Engine
  import opened Oracle
  import Upsert
  import Compaction
  import Scratch
  import Reach
  import PlanAll
  import Bytes
  import opened Format
  import opened Store
  import opened Aggregate
  import opened GroupBy
  import Build
  import Codec
  import Query

  // ---- Runs ----

  // A query is two events: a reader loads the view, and later evaluates over it with
  // the clock of that moment, in a workspace some earlier query left. Any other event may
  // come between. A merge reads the clock once more for each attempt's TTL cutoff.
  datatype Event =
    | ApplyBatch(recs: seq<Record>, clock: int)
    | Merge(clock: int, later: int, retry: int)
    | Rebuild(recs: seq<Record>, clock: int, later: int)
    | Restore(data: Text, clock: int)
    | Take(reader: nat)
    | Ask(reader: nat, what: Question, groups: seq<Group>, clock: int, prev: Scratch.Caps)

  // Sums of every metric, chosen aggregates, or aggregates by dimensions.
  datatype Question = AskSums | AskAggs(aggs: seq<Agg>) | AskGroups(names: seq<string>, aggs: seq<Agg>)

  datatype Reply =
    | NoView
    | Sums(sums: Query.Answer<seq<int>>)
    | Aggs(bad: bool, out: Query.Answer<seq<Option<real>>>, cols: seq<Column>)
    | Groups(bad: bool, rows: Query.Answer<seq<GroupOut>>, cols: seq<Column>, bys: seq<nat>)

  // The reference table, and what each reader saw when it last loaded.
  datatype Ref = Ref(m: Contents, blocked: bool, held: map<nat, Contents>)

  datatype World = World(sc: Schema, cfg: Config, fp: nat, crc: Text -> nat)

  ghost function Installed(w: World, o: Ref, m: Contents): Ref {
    if OverCap(w.cfg, |m|) then o.(blocked := true) else o.(m := m, blocked := false)
  }

  // The engine before an event, as far as it decides more than the table does: when a merge
  // is retried, how many rows a query visits, and which of tied records a rebuild keeps.
  datatype Moment = Moment(view: ViewV, last: int, built: Contents)

  // The merge's first attempt overflowed, so a second one decides.
  ghost predicate Retried(w: World, mo: Moment, clock: int) {
    !GateOpen(w.cfg, mo.last, Milli(clock)) && StableOverflow(w.sc, mo.view)
  }

  ghost function RefStep(w: World, o: Ref, e: Event, mo: Moment): Ref {
    match e
    case ApplyBatch(recs, clock) =>
      var after := ApplyAll(w.sc, o.m, recs, TTLCutoff(w.cfg, clock), o.blocked);
      if after.None? then o else o.(m := after.value)
    case Merge(clock, later, retry) =>
      var kept := Retain(o.m, TTLCutoff(w.cfg, if Retried(w, mo, clock) then retry else later), Milli(clock));
      if Compaction.LiveWidth(w.sc, kept) > 64 then o else Installed(w, o, kept)
    case Rebuild(recs, clock, later) =>
      var items := Build.Accepted(w.sc, recs, TTLCutoff(w.cfg, clock));
      if items.None? || Build.DumpWidth(w.sc, items.value) > 64 then o
      else Installed(w, o, mo.built)
    case Restore(data, clock) =>
      var r := Parse(w.sc, w.fp, w.crc, TTLCutoff(w.cfg, clock), data);
      if !r.Loaded? || OverCap(w.cfg, |r.snap.rows|) then o
      else o.(m := MapOf(r.snap.dicts, r.snap.rows), blocked := false)
    case Take(reader) => o.(held := o.held[reader := o.m])
    case Ask(_, _, _, _, _) => o
  }

  // What a rebuild should come to: the dump upserted into an empty reference table, then
  // reclaimed.
  ghost function Dumped(w: World, recs: seq<Record>, clock: int, later: int): Contents {
    match ApplyAll(w.sc, map[], recs, TTLCutoff(w.cfg, clock), false)
    case None => map[]
    case Some(m) => Retain(m, TTLCutoff(w.cfg, clock), Milli(later))
  }

  // trace holds the moment before each event.
  ghost function RefRun(w: World, o: Ref, events: seq<Event>, trace: seq<Moment>): Ref
    requires |events| == |trace|
  {
    if |events| == 0 then o
    else
      var n := |events| - 1;
      RefStep(w, RefRun(w, o, events[..n], trace[..n]), events[n], trace[n])
  }

  ghost predicate Same(a: Moment, b: Moment) { b.view == a.view && b.last == a.last }

  // What the merge that decides keeps: the second attempt, made when no renumbering is due
  // and some id fits no key, has its own cutoff.
  ghost function KeptBy(w: World, a: Moment, e: Event): Contents
    requires e.Merge?
  {
    var forced := !IntervalPassed(w.cfg, a.last, e.clock) && StableOverflow(w.sc, a.view);
    Retain(Abs(a.view), TTLCutoff(w.cfg, if forced then e.retry else e.later), Milli(e.clock))
  }

  ghost predicate Fits(w: World, m: Contents) {
    Compaction.LiveWidth(w.sc, m) <= 64 && !OverCap(w.cfg, |m|)
  }

  // What one event does to the engine: no step touches what it does not replace.
  ghost predicate Stepped(w: World, a: Moment, e: Event, b: Moment) {
    match e
    case ApplyBatch(recs, clock) => b.last == a.last && b.view.base == a.view.base
    case Merge(clock, later, retry) =>
      var kept := KeptBy(w, a, e);
      if Fits(w, kept)
      then Abs(b.view) == kept && b.view.delta.rows == []
           && GateKept(w.sc, w.cfg, a.view, a.last, clock, kept, b.view.base.dicts, b.last)
      else Same(a, b)
    case Rebuild(recs, clock, later) =>
      && Comes(w, recs, clock, later, a.built)
      && (Same(a, b) || (b.last == a.last && b.view.delta.rows == []))
    case Restore(data, clock) =>
      var r := Parse(w.sc, w.fp, w.crc, TTLCutoff(w.cfg, clock), data);
      Same(a, b) || (b.last == a.last && r.Loaded? && b.view == NewView(w.sc, r.snap))
    case _ => Same(a, b)
  }

  // m keeps a newest record of every tuple the dump still shows.
  ghost predicate Comes(w: World, recs: seq<Record>, clock: int, later: int, m: Contents) {
    var items := Build.Accepted(w.sc, recs, TTLCutoff(w.cfg, clock));
    items.Some? && Build.DumpWidth(w.sc, items.value) <= 64 ==> Build.Built(items.value, Milli(later), m)
  }

  // The moments of a run: before every event a valid view of the reference's table, its base
  // within the cap, each reached from the one before.
  ghost predicate Traced(w: World, o: Ref, events: seq<Event>, trace: seq<Moment>, end: Moment)
    requires |events| == |trace|
  {
    && (forall i :: 0 <= i < |events| ==> Stands(w, o, events, trace, i))
    && (forall i :: 0 <= i < |events| - 1 ==> Stepped(w, trace[i], events[i], trace[i + 1]))
    && (|events| > 0 ==> Stepped(w, trace[|events| - 1], events[|events| - 1], end))
  }

  ghost predicate Stands(w: World, o: Ref, events: seq<Event>, trace: seq<Moment>, i: nat)
    requires i < |events| == |trace|
  {
    var v := trace[i].view;
    ViewOK(w.sc, v) && !OverCap(w.cfg, |v.base.rows|) && Abs(v) == RefRun(w, o, events[..i], trace[..i]).m
  }

  // What the run is promised: files holding valid tables.
  ghost predicate Promised(w: World, e: Event) {
    match e
    case Restore(data, clock) =>
      var r := Parse(w.sc, w.fp, w.crc, TTLCutoff(w.cfg, clock), data);
      r.Loaded? ==> SnapOK(w.sc, r.snap)
    case _ => true
  }

  // The last event before i at which the reader loaded, or -1.
  function LoadIndex(events: seq<Event>, i: nat, reader: nat): (j: int)
    requires i <= |events|
    ensures -1 <= j < i
    ensures j >= 0 ==> events[j] == Take(reader)
    ensures forall k :: j < k < i ==> events[k] != Take(reader)
  {
    if i == 0 then -1
    else if events[i - 1] == Take(reader) then i - 1
    else LoadIndex(events, i - 1, reader)
  }

  // Refused exactly when there is no group, a malformed condition decides, or what the
  // query reaches in the view exceeds the scan budget.
  ghost predicate Judged<T>(w: World, view: ViewV, e: Event, nAggs: nat, a: Query.Answer<T>)
    requires e.Ask?
  {
    exists rooms :: Query.Decided(w.sc, view, e.groups, nAggs, e.prev, w.cfg.maxScanRows, rooms, a)
  }

  // The reply is the reference's over the table the reader loaded, at the clock it
  // evaluated with.
  ghost predicate Answered(w: World, view: ViewV, m: Contents, e: Event, a: Reply)
    requires e.Ask?
  {
    var sel := Selected(w.sc, m, e.groups, Milli(e.clock));
    match e.what
    case AskSums =>
      && a.Sums? && Judged(w, view, e, 0, a.sums)
      && (a.sums.Result? ==> a.sums.value == Query.SumsOf(sel, |w.sc.metrics|))
    case AskAggs(aggs) =>
      && a.Aggs? && (a.bad <==> !AggsWellFormed(w.sc, aggs))
      && (!a.bad ==> Judged(w, view, e, |aggs|, a.out) && AggsResolved(w.sc, aggs, a.cols))
      && (!a.bad && a.out.Result? ==> AllMean(sel, a.cols, a.out.value))
    case AskGroups(names, aggs) =>
      && a.Groups? && (a.bad <==> !(AggsWellFormed(w.sc, aggs) && WellFormedBy(w.sc, names)))
      && (!a.bad ==>
           Judged(w, view, e, |aggs|, a.rows) && AggsResolved(w.sc, aggs, a.cols) && BysResolved(w.sc, names, a.bys))
      && (!a.bad && a.rows.Result? ==> Partition(sel, a.cols, a.bys, a.rows.value))
      && (!a.bad && a.rows.Result? && (|aggs| <= 256 || !Collides(a.cols, a.bys)) ==>
            AllColumnsMean(sel, a.cols, a.bys, a.rows.value))
  }

  predicate AggsWellFormed(sc: Schema, aggs: seq<Agg>) {
    |aggs| > 0 && forall j :: 0 <= j < |aggs| ==> WellFormedAgg(sc, aggs[j])
  }

  predicate AggsResolved(sc: Schema, aggs: seq<Agg>, cols: seq<Column>) {
    |cols| == |aggs| && forall j :: 0 <= j < |aggs| ==> Resolves(sc, aggs[j], cols[j])
  }

  predicate BysResolved(sc: Schema, names: seq<string>, bys: seq<nat>) {
    |bys| == |names| && forall i :: 0 <= i < |bys| ==> bys[i] < |sc.dims| && sc.dims[bys[i]].name == names[i]
  }

  // Event i's answer, judged against the run so far. A reader that never loaded has none.
  ghost predicate AnsweredAt(w: World, o: Ref, events: seq<Event>, trace: seq<Moment>, i: nat,
          a: Reply)
    requires i < |events| == |trace|
  {
    events[i].Ask? ==>
      var (reader, held) := (events[i].reader, RefRun(w, o, events[..i], trace[..i]).held);
      var j := LoadIndex(events, i, reader);
      j >= 0 ==> reader in held && Answered(w, trace[j].view, held[reader], events[i], a)
  }

  ghost predicate AllAnswered(w: World, o: Ref, events: seq<Event>, trace: seq<Moment>,
          answers: seq<Reply>)
    requires |events| == |trace|
  {
    && |answers| == |events|
    && forall i :: 0 <= i < |events| ==> AnsweredAt(w, o, events, trace, i, answers[i])
  }

  // ---- The engine follows the reference ----

  function WorldOf(st: Store): World { World(st.sc, st.cfg, st.fp, st.crc) }

  function MomentOf(st: Store): Moment
    reads st, st.view, st.view.base, st.view.base.dicts, st.view.delta, st.view.extras
  {
    Moment(st.view.Model(), st.lastDictCompact, map[])
  }

  // The store stands for the reference's table.
  ghost predicate Follows(st: Store, o: Ref)
    reads st, st.view, st.view.base, st.view.base.dicts, st.view.delta, st.view.extras
  {
    st.Valid() && st.view.Contents() == o.m && st.capBlocked == o.blocked
  }

  method ApplyStep(st: Store, e: Event, ghost o: Ref)
    requires e.ApplyBatch? && Follows(st, o)
    modifies st
    ensures Follows(st, RefStep(WorldOf(st), o, e, old(MomentOf(st))))
    ensures Stepped(WorldOf(st), old(MomentOf(st)), e, MomentOf(st))
  {
    hide View.Valid, ApplyAll, Abs;
    ghost var (base, s) := (st.view.base, st.view.base.Model());
    var status, dropped := st.Apply(e.recs, e.clock);
    assert st.view.base == base && base.Model() == s;
  }

  method MergeStep(st: Store, e: Event, ghost o: Ref)
    requires e.Merge? && Follows(st, o)
    modifies st
    ensures Follows(st, RefStep(WorldOf(st), o, e, old(MomentOf(st))))
    ensures Stepped(WorldOf(st), old(MomentOf(st)), e, MomentOf(st))
  {
    hide View.Valid, View.Model, Retain, Compaction.LiveWidth, Abs, DictsAfter, StableOverflow, GateOpen, TTLCutoff,
      GateKept, IntervalPassed, Milli;
    ghost var (w, mo) := (WorldOf(st), MomentOf(st));
    Query.ContentsAre(st.view);
    GateIs(w.cfg, mo.last, e.clock);
    var status := st.Compact(e.clock, e.later, e.retry);
    Query.ContentsAre(st.view);
    EmptyDelta(st.view);
  }

  lemma GateIs(cfg: Config, last: int, clock: int)
    ensures GateOpen(cfg, last, Milli(clock)) <==> IntervalPassed(cfg, last, clock)
  {
  }

  lemma EmptyDelta(v: View)
    ensures v.Model().delta.rows == v.delta.rows
  {
  }

  method RebuildStep(st: Store, e: Event, ghost o: Ref) returns (ghost built: Contents)
    requires e.Rebuild? && Follows(st, o)
    modifies st
    ensures Follows(st, RefStep(WorldOf(st), o, e, old(MomentOf(st)).(built := built)))
    ensures Stepped(WorldOf(st), old(MomentOf(st)).(built := built), e, MomentOf(st))
  {
    hide View.Valid, Build.Accepted, Build.Built, Build.DumpWidth, Abs;
    ghost var mo := MomentOf(st);
    var status;
    status, built := st.ReplaceAll(e.recs, e.clock, e.later);
  }

  // A dump without live ties comes to the reference table, and to nothing else.
  lemma DumpIsOracle(w: World, recs: seq<Record>, clock: int, later: int)
    requires var items := Build.Accepted(w.sc, recs, TTLCutoff(w.cfg, clock));
             items.Some? && Build.DumpWidth(w.sc, items.value) <= 64
    ensures (forall m :: Comes(w, recs, clock, later, m) ==> m == Dumped(w, recs, clock, later))
            <==> Build.NoLiveTies(Build.Accepted(w.sc, recs, TTLCutoff(w.cfg, clock)).value, Milli(later))
  {
    hide Build.NoLiveTies, Build.Built, Build.Accepted, Build.DumpWidth, ApplyAll;
    var items := Build.Accepted(w.sc, recs, TTLCutoff(w.cfg, clock));
    Build.BuiltIsOracle(w.sc, recs, TTLCutoff(w.cfg, clock), Milli(later));
    assert forall m :: Comes(w, recs, clock, later, m) <==> Build.Built(items.value, Milli(later), m);
  }

  method RestoreStep(st: Store, e: Event, ghost o: Ref)
    requires e.Restore? && Follows(st, o) && Promised(WorldOf(st), e)
    modifies st
    ensures Follows(st, RefStep(WorldOf(st), o, e, old(MomentOf(st))))
    ensures Stepped(WorldOf(st), old(MomentOf(st)), e, MomentOf(st))
  {
    hide View.Valid, Parse, Abs, MapOf, SnapOK, NewView;
    ghost var mo := MomentOf(st);
    var status := st.LoadSnapshot(e.data, e.clock);
  }

  // One writer step.
  method WriteStep(st: Store, e: Event, ghost o: Ref) returns (ghost built: Contents)
    requires !e.Take? && !e.Ask? && Follows(st, o) && Promised(WorldOf(st), e)
    modifies st
    ensures Follows(st, RefStep(WorldOf(st), o, e, old(MomentOf(st)).(built := built)))
    ensures Stepped(WorldOf(st), old(MomentOf(st)).(built := built), e, MomentOf(st))
  {
    hide Store.Valid, RefStep, Follows, Promised, Stepped;
    built := map[];
    assert MomentOf(st).(built := map[]) == MomentOf(st);
    match e
    case ApplyBatch(recs, clock) => ApplyStep(st, e, o);
    case Merge(clock, later, retry) => MergeStep(st, e, o);
    case Rebuild(recs, clock, later) => built := RebuildStep(st, e, o);
    case Restore(data, clock) => RestoreStep(st, e, o);
  }

  // A view still is what its reader loaded.
  ghost predicate Holds(w: World, v: View, view: ViewV, m: Contents)
    reads v, v.base, v.base.dicts, v.delta, v.extras
  {
    v.Valid(w.sc) && v.Model() == view && v.Contents() == m
  }

  method AskStep(w: World, v: View, e: Event, ghost view: ViewV, ghost m: Contents) returns (a: Reply)
    requires e.Ask? && Holds(w, v, view, m)
    ensures Answered(w, view, m, e, a)
  {
    hide View.Valid, Abs, Selected, Query.Decided, Query.Visits, AllMean, Partition, AllColumnsMean, Computed, Collides,
      WellFormedAgg, WellFormedBy, Resolves;
    match e.what
    case AskSums =>
      var r, rooms, visited := Query.QueryGroups(w.sc, v, e.groups, w.cfg.maxScanRows, Milli(e.clock), e.prev);
      a := Sums(r);
    case AskAggs(aggs) =>
      var bad, r, cols, rooms, visited :=
        QueryAggs(w.sc, v, aggs, e.groups, w.cfg.maxScanRows, Milli(e.clock), e.prev);
      a := Aggs(bad, r, cols);
    case AskGroups(names, aggs) =>
      var bad, r, cols, bys, rooms, visited :=
        QueryGroupBy(w.sc, v, names, aggs, e.groups, w.cfg.maxScanRows, Milli(e.clock), e.prev);
      a := Groups(bad, r, cols, bys);
  }

  lemma RunStep(w: World, o: Ref, events: seq<Event>, trace: seq<Moment>, i: nat)
    requires i < |events| == |trace|
    ensures RefRun(w, o, events[..i + 1], trace[..i + 1])
            == RefStep(w, RefRun(w, o, events[..i], trace[..i]), events[i], trace[i])
  {
    assert events[..i + 1][..i] == events[..i] && trace[..i + 1][..i] == trace[..i];
  }

  lemma WriteKeepsHeld(w: World, o: Ref, e: Event, mo: Moment)
    requires !e.Take?
    ensures RefStep(w, o, e, mo).held == o.held
  {
  }

  // One event: a writer step, a load, or an evaluation over the loaded view. mo is the
  // moment before it.
  method Step(w: World, st: Store, e: Event, ghost o: Ref, held0: map<nat, View>, ghost seen0: map<nat, ViewV>)
    returns (held: map<nat, View>, ghost seen: map<nat, ViewV>, ghost mo: Moment, a: Reply)
    requires w == WorldOf(st) && Follows(st, o) && Promised(w, e)
    requires held0.Keys == seen0.Keys == o.held.Keys
    requires forall r :: r in held0 ==> Holds(w, held0[r], seen0[r], o.held[r])
    modifies st
    ensures mo == old(MomentOf(st)).(built := mo.built)
    ensures Follows(st, RefStep(w, o, e, mo)) && Stepped(w, mo, e, MomentOf(st)) && seen == ViewsNext(seen0, e, mo)
    ensures held.Keys == seen.Keys == RefStep(w, o, e, mo).held.Keys
    ensures forall r :: r in held ==> Holds(w, held[r], seen[r], RefStep(w, o, e, mo).held[r])
    ensures e.Ask? && e.reader in seen0 ==> Answered(w, seen0[e.reader], o.held[e.reader], e, a)
  {
    hide *;
    held, seen, a := held0, seen0, NoView;
    mo := MomentOf(st);
    if e.Take? {
      ViewsIs(seen0, e, mo);
      TakeStep(st, o, e);
      held, seen := held[e.reader := st.view], seen[e.reader := mo.view];
    } else if e.Ask? {
      ViewsIs(seen0, e, mo);
      AskKeeps(w, o, e, mo);
      if e.reader in held {
        a := AskStep(w, held[e.reader], e, seen[e.reader], o.held[e.reader]);
      }
    } else {
      ghost var built := WriteStep(st, e, o);
      mo := mo.(built := built);
      ViewsIs(seen0, e, mo);
      WriteKeepsHeld(w, o, e, mo);
    }
  }

  // What every reader's view was when it loaded it.
  function ViewsNext(seen: map<nat, ViewV>, e: Event, mo: Moment): map<nat, ViewV> {
    if e.Take? then seen[e.reader := mo.view] else seen
  }

  lemma ViewsIs(seen: map<nat, ViewV>, e: Event, mo: Moment)
    ensures ViewsNext(seen, e, mo) == if e.Take? then seen[e.reader := mo.view] else seen
  {
  }

  // A reader's view is that of the moment it last loaded at.
  ghost predicate ViewsAt(seen: map<nat, ViewV>, events: seq<Event>, trace: seq<Moment>)
    requires |events| == |trace|
  {
    forall r: nat :: (r in seen <==> LoadIndex(events, |events|, r) >= 0)
                     && (r in seen ==> seen[r] == trace[LoadIndex(events, |events|, r)].view)
  }

  lemma ViewsOf(seen: map<nat, ViewV>, events: seq<Event>, trace: seq<Moment>)
    requires |events| == |trace| && ViewsAt(seen, events, trace)
    ensures forall r: nat :: LoadIndex(events, |events|, r) >= 0 ==>
              r in seen && seen[r] == trace[LoadIndex(events, |events|, r)].view
  {
  }

  lemma {:induction false} LoadTake(events: seq<Event>, i: nat, n: nat, reader: nat)
    requires i <= n <= |events|
    ensures LoadIndex(events[..n], i, reader) == LoadIndex(events, i, reader)
  {
    if i == 0 {
    } else {
      LoadTake(events, i - 1, n, reader);
    }
  }

  lemma LoadAdd(events: seq<Event>, e: Event, reader: nat)
    ensures LoadIndex(events + [e], |events| + 1, reader)
            == if e == Take(reader) then |events| else LoadIndex(events, |events|, reader)
  {
    assert (events + [e])[..|events|] == events;
    LoadTake(events + [e], |events|, |events|, reader);
  }

  lemma ViewsStep(seen: map<nat, ViewV>, events: seq<Event>, trace: seq<Moment>, e: Event, mo: Moment)
    requires |events| == |trace| && ViewsAt(seen, events, trace)
    ensures ViewsAt(ViewsNext(seen, e, mo), events + [e], trace + [mo])
  {
    hide LoadIndex;
    forall r: nat
      ensures LoadIndex(events + [e], |events| + 1, r) == if e == Take(r) then |events| else LoadIndex(events,
                |events|, r)
    {
      LoadAdd(events, e, r);
    }
  }

  // Whole-run refinement: after any sequence of events the store stands for the reference
  // table, and every query was answered from the table its reader loaded, whatever
  // happened between loading and evaluating.
  method Run(st: Store, events: seq<Event>) returns (answers: seq<Reply>, ghost trace: seq<Moment>)
    requires st.Valid() && forall i :: 0 <= i < |events| ==> Promised(WorldOf(st), events[i])
    modifies st
    ensures |trace| == |events| && (|trace| > 0 ==> Same(old(MomentOf(st)), trace[0]))
    ensures Traced(WorldOf(st), Ref(old(st.view.Contents()), old(st.capBlocked), map[]), events, trace, MomentOf(st))
    ensures Follows(st, RefRun(WorldOf(st), Ref(old(st.view.Contents()), old(st.capBlocked), map[]), events, trace))
    ensures AllAnswered(WorldOf(st), Ref(old(st.view.Contents()), old(st.capBlocked), map[]), events, trace, answers)
  {
    hide *;
    var w := WorldOf(st);
    ghost var start := Ref(st.view.Contents(), st.capBlocked, map[]);
    ghost var first := MomentOf(st);
    var held: map<nat, View> := map[];
    ghost var seen: map<nat, ViewV> := map[];
    answers, trace := [], [];
    RunStart(st, start);
    for i := 0 to |events|
      invariant |trace| == i && w == WorldOf(st) && Same(first, if i == 0 then MomentOf(st) else trace[0])
      invariant Follows(st, RefRun(w, start, events[..i], trace)) && Traced(w, start, events[..i], trace, MomentOf(st))
      invariant held.Keys == seen.Keys == RefRun(w, start, events[..i], trace).held.Keys
      invariant forall r :: r in held ==> Holds(w, held[r], seen[r], RefRun(w, start, events[..i], trace).held[r])
      invariant ViewsAt(seen, events[..i], trace)
      invariant AllAnswered(w, start, events[..i], trace, answers)
    {
      ghost var (o, now, seen0) := (RefRun(w, start, events[..i], trace), MomentOf(st), seen);
      var a;
      ghost var mo;
      assert events[..i + 1] == events[..i] + [events[i]];
      MomentStands(st, o);
      held, seen, mo, a := Step(w, st, events[i], o, held, seen);
      EndsSame(w, start, events[..i], trace, now, mo);
      RefRunAdd(w, start, events[..i], trace, events[i], mo);
      TracedAdd(w, start, events[..i], trace, events[i], mo, MomentOf(st));
      ViewsStep(seen0, events[..i], trace, events[i], mo);
      AnsweredAdd(w, start, events[..i], trace, answers, events[i], mo, seen0, a);
      answers, trace := answers + [a], trace + [mo];
    }
    assert events[..|events|] == events;
  }

  lemma RunStart(st: Store, start: Ref)
    requires st.Valid() && start == Ref(st.view.Contents(), st.capBlocked, map[])
    ensures Follows(st, RefRun(WorldOf(st), start, [], [])) && RefRun(WorldOf(st), start, [], []).held == map[]
    ensures Traced(WorldOf(st), start, [], [], MomentOf(st)) && AllAnswered(WorldOf(st), start, [], [], [])
    ensures Same(MomentOf(st), MomentOf(st))
    ensures ViewsAt(map[], [], [])
  {
  }

  lemma RefRunAdd(w: World, o: Ref, events: seq<Event>, trace: seq<Moment>, e: Event, mo: Moment)
    requires |events| == |trace|
    ensures RefRun(w, o, events + [e], trace + [mo]) == RefStep(w, RefRun(w, o, events, trace), e, mo)
  {
    assert (events + [e])[..|events|] == events && (trace + [mo])[..|events|] == trace;
  }

  // Appending an event leaves every earlier moment's prefix alone.
  lemma Prefixes(events: seq<Event>, trace: seq<Moment>, e: Event, mo: Moment, i: nat)
    requires |events| == |trace| && i <= |events|
    ensures (events + [e])[..i] == events[..i] && (trace + [mo])[..i] == trace[..i]
  {
  }

  // Which record a rebuild keeps is no part of how the moment was reached.
  lemma EndsSame(w: World, o: Ref, events: seq<Event>, trace: seq<Moment>, a: Moment, b: Moment)
    requires |events| == |trace| && Traced(w, o, events, trace, a) && b == a.(built := b.built)
    ensures Traced(w, o, events, trace, b) && (forall x: Moment :: Same(x, a) ==> Same(x, b))
    ensures b.view == a.view
  {
    hide Stands, GateKept, KeptBy, Fits, Comes;
  }

  lemma TracedAdd(w: World, o: Ref, events: seq<Event>, trace: seq<Moment>, e: Event, mo: Moment, end: Moment)
    requires |events| == |trace| && Traced(w, o, events, trace, mo) && Stepped(w, mo, e, end)
    requires ViewOK(w.sc, mo.view) && !OverCap(w.cfg, |mo.view.base.rows|)
    requires Abs(mo.view) == RefRun(w, o, events, trace).m
    ensures Traced(w, o, events + [e], trace + [mo], end)
  {
    hide ViewOK, Abs, RefRun, Stepped;
    var (es, ts, n) := (events + [e], trace + [mo], |events|);
    forall i | 0 <= i < |es| ensures Stands(w, o, es, ts, i) {
      Prefixes(events, trace, e, mo, i);
      if i < n {
        assert Stands(w, o, events, trace, i);
      } else {
        assert events[..n] == events && trace[..n] == trace;
      }
    }
    forall i | 0 <= i < |es| - 1 ensures Stepped(w, ts[i], es[i], ts[i + 1]) {
      if i < n - 1 {
        assert ts[i] == trace[i] && ts[i + 1] == trace[i + 1] && es[i] == events[i];
      }
    }
  }

  // The moment a store is in stands for its reference.
  lemma MomentStands(st: Store, o: Ref)
    requires Follows(st, o)
    ensures ViewOK(WorldOf(st).sc, MomentOf(st).view) && Abs(MomentOf(st).view) == o.m
    ensures !OverCap(WorldOf(st).cfg, |MomentOf(st).view.base.rows|)
  {
    Query.ValidView(st.sc, st.view);
  }

  lemma AnsweredAdd(w: World, o: Ref, events: seq<Event>, trace: seq<Moment>, answers: seq<Reply>,
          e: Event, mo: Moment, seen: map<nat, ViewV>, a: Reply)
    requires |events| == |trace| && AllAnswered(w, o, events, trace, answers) && ViewsAt(seen, events, trace)
    requires seen.Keys == RefRun(w, o, events, trace).held.Keys
    requires e.Ask? && e.reader in seen ==>
               Answered(w, seen[e.reader], RefRun(w, o, events, trace).held[e.reader], e, a)
    ensures AllAnswered(w, o, events + [e], trace + [mo], answers + [a])
  {
    hide Answered, RefRun, LoadIndex, ViewsAt;
    var (es, ts, n) := (events + [e], trace + [mo], |events|);
    ViewsOf(seen, events, trace);
    forall i | 0 <= i < |es| ensures AnsweredAt(w, o, es, ts, i, (answers + [a])[i]) {
      Prefixes(events, trace, e, mo, i);
      if es[i].Ask? {
        LoadTake(es, i, n, es[i].reader);
        assert es[..n] == events;
      }
      if i < n {
        assert AnsweredAt(w, o, events, trace, i, answers[i]);
      } else {
        assert events[..n] == events && trace[..n] == trace;
      }
    }
  }

  lemma TakeStep(st: Store, o: Ref, e: Event)
    requires e.Take? && Follows(st, o)
    ensures var o' := RefStep(WorldOf(st), o, e, MomentOf(st));
            Follows(st, o') && o'.held == o.held[e.reader := st.view.Contents()]
    ensures Holds(WorldOf(st), st.view, MomentOf(st).view, st.view.Contents())
    ensures Stepped(WorldOf(st), MomentOf(st), e, MomentOf(st))
  {
  }

  lemma AskKeeps(w: World, o: Ref, e: Event, mo: Moment)
    requires e.Ask?
    ensures RefStep(w, o, e, mo) == o && Stepped(w, mo, e, mo)
  {
  }

  // ---- Facts about every run ----

  // A reader keeps the table of the moment it loaded, until it loads again.
  lemma {:induction false} LoadedAt(w: World, o: Ref, events: seq<Event>, trace: seq<Moment>, i: nat, j: nat,
          reader: nat)
    requires i < j <= |events| == |trace| && events[i] == Take(reader)
    requires forall k :: i < k < j ==> events[k] != Take(reader)
    ensures var held := RefRun(w, o, events[..j], trace[..j]).held;
            reader in held && held[reader] == RefRun(w, o, events[..i], trace[..i]).m
    decreases j
  {
    hide RefStep, RefRun;
    RunStep(w, o, events, trace, j - 1);
    var (mid, e, mo) := (RefRun(w, o, events[..j - 1], trace[..j - 1]), events[j - 1], trace[j - 1]);
    if j == i + 1 {
      TakeHolds(w, mid, reader, mo);
    } else {
      LoadedAt(w, o, events, trace, i, j - 1, reader);
      if e.Take? {
        TakeHolds(w, mid, e.reader, mo);
      } else {
        WriteKeepsHeld(w, mid, e, mo);
      }
    }
  }

  lemma TakeHolds(w: World, o: Ref, reader: nat, mo: Moment)
    ensures RefStep(w, o, Take(reader), mo) == o.(held := o.held[reader := o.m])
  {
  }

  // While the row cap blocks, no number of batches changes the set of stored tuples:
  // only a merge, a rebuild or a restore can.
  lemma {:induction false} BlockedRunKeepsTuples(w: World, o: Ref, events: seq<Event>, trace: seq<Moment>)
    requires |events| == |trace| && o.blocked
    requires forall i :: 0 <= i < |events| ==> events[i].ApplyBatch? || events[i].Take? || events[i].Ask?
    ensures RefRun(w, o, events, trace).blocked && RefRun(w, o, events, trace).m.Keys == o.m.Keys
  {
    if |events| == 0 {
    } else {
      var n := |events| - 1;
      BlockedRunKeepsTuples(w, o, events[..n], trace[..n]);
      var mid := RefRun(w, o, events[..n], trace[..n]);
      if events[n].ApplyBatch? {
        BlockedKeepsTuples(w.sc, mid.m, events[n].recs, TTLCutoff(w.cfg, events[n].clock));
      }
    }
  }

  // ---- When dictionaries are renumbered ----

  // The moment after event i.
  ghost function After(trace: seq<Moment>, end: Moment, i: nat): Moment {
    if i + 1 < |trace| then trace[i + 1] else end
  }

  lemma SteppedTo(w: World, o: Ref, events: seq<Event>, trace: seq<Moment>, end: Moment, i: nat)
    requires |events| == |trace| && Traced(w, o, events, trace, end) && i < |events|
    ensures Stepped(w, trace[i], events[i], After(trace, end, i))
  {
    hide Stepped, Stands;
  }

  // A merge that is due and not refused renumbers: every base dictionary then holds the
  // values in use and nothing else, and the time is recorded.
  lemma DueRenumbers(w: World, o: Ref, events: seq<Event>, trace: seq<Moment>, end: Moment, i: nat)
    requires |events| == |trace| && Traced(w, o, events, trace, end) && i < |events| && events[i].Merge?
    requires IntervalPassed(w.cfg, trace[i].last, events[i].clock) && Fits(w, KeptBy(w, trace[i], events[i]))
    ensures var b := After(trace, end, i);
            b.last == events[i].clock / 1_000_000 && OnlyUsed(Abs(b.view), b.view.base.dicts)
  {
    hide Stands, KeptBy, Fits, OnlyUsed, IntervalPassed, StableOverflow;
    SteppedTo(w, o, events, trace, end, i);
  }

  // One that is not due, with ids that fit a key, records nothing, and what it publishes
  // has every combined id where it was.
  lemma EarlyKeepsIds(w: World, o: Ref, events: seq<Event>, trace: seq<Moment>, end: Moment, i: nat)
    requires |events| == |trace| && Traced(w, o, events, trace, end) && i < |events| && events[i].Merge?
    requires !IntervalPassed(w.cfg, trace[i].last, events[i].clock) && !StableOverflow(w.sc, trace[i].view)
    ensures var b := After(trace, end, i);
            b.last == trace[i].last && (b.view == trace[i].view || b.view.base.dicts == Upsert.CombOf(trace[i].view))
  {
    hide Stands, KeptBy, Fits, OnlyUsed, IntervalPassed, StableOverflow;
    SteppedTo(w, o, events, trace, end, i);
  }

  // Only merges record a time, and each its own.
  lemma LastMoves(w: World, a: Moment, e: Event, b: Moment)
    requires Stepped(w, a, e, b)
    ensures b.last == a.last || (e.Merge? && b.last == e.clock / 1_000_000)
  {
    hide KeptBy, Fits, OnlyUsed, IntervalPassed, StableOverflow, Comes;
  }

  lemma {:induction false} NoneEarlier(w: World, o: Ref, events: seq<Event>, trace: seq<Moment>, end: Moment, i: nat,
          j: nat)
    requires |events| == |trace| && Traced(w, o, events, trace, end) && i < j < |events| && events[i].Merge?
    requires trace[i + 1].last == events[i].clock / 1_000_000
    requires forall k :: i < k < j && events[k].Merge? ==> events[k].clock >= events[i].clock
    ensures trace[j].last >= events[i].clock / 1_000_000
    decreases j
  {
    hide Traced, Stepped;
    if j > i + 1 {
      NoneEarlier(w, o, events, trace, end, i, j - 1);
      SteppedTo(w, o, events, trace, end, j - 1);
      LastMoves(w, trace[j - 1], events[j - 1], trace[j]);
    }
  }

  // After a renumbering, a merge whose ids fit a key renumbers no sooner than the interval
  // later, as long as the clock was not turned back before it.
  lemma RenumberingsApart(w: World, o: Ref, events: seq<Event>, trace: seq<Moment>, end: Moment, i: nat, j: nat)
    requires |events| == |trace| && Traced(w, o, events, trace, end) && i < j < |events|
    requires events[i].Merge? && trace[i + 1].last == events[i].clock / 1_000_000
    requires forall k :: i < k < j && events[k].Merge? ==> events[k].clock >= events[i].clock
    requires events[j].Merge? && !StableOverflow(w.sc, trace[j].view) && w.cfg.dictCompactInterval > 0
    requires var b := After(trace, end, j);
             b.last != trace[j].last
             || (b.view != trace[j].view && b.view.base.dicts != Upsert.CombOf(trace[j].view))
    ensures events[j].clock / 1_000_000 - events[i].clock / 1_000_000 >= w.cfg.dictCompactInterval / 1_000_000
  {
    hide Traced, StableOverflow;
    NoneEarlier(w, o, events, trace, end, i, j);
    if !IntervalPassed(w.cfg, trace[j].last, events[j].clock) {
      EarlyKeepsIds(w, o, events, trace, end, j);
      assert false;
    }
  }

  // Restoring a saved base puts its table back, delta rows aside.
  lemma SaveThenRestore(w: World, o: Ref, s: SnapV, clock: int, mo: Moment)
    requires SnapOK(w.sc, s) && Codec.Narrow(s) && w.fp < Bytes.TWO64 && !OverCap(w.cfg, |s.rows|)
    requires TTLCutoff(w.cfg, clock) <= 0 || s.maxUpdated >= TTLCutoff(w.cfg, clock)
    ensures RefStep(w, o, Restore(Encode(w.sc, w.fp, w.crc, s), clock), mo)
            == o.(m := MapOf(s.dicts, s.rows), blocked := false)
    ensures Promised(w, Restore(Encode(w.sc, w.fp, w.crc, s), clock))
  {
    hide SnapOK, Codec.Narrow, Encode, Parse, MapOf, TTLCutoff;
    Codec.ValidRoundTrip(w.sc, w.fp, w.crc, TTLCutoff(w.cfg, clock), s);
  }

  // Whatever the table holds, a query on the stack is refused for its budget exactly when
  // the rows its groups reach, slots or not, exceed it.
  lemma StackJudged<T>(w: World, view: ViewV, e: Event, nAggs: nat, a: Query.Answer<T>)
    requires e.Ask? && Judged(w, view, e, nAggs, a) && Scratch.FitsStack(Scratch.ShapeOf(e.groups, nAggs))
    ensures a.ScanBudget? <==> |e.groups| > 0 && !PlanAll.AnyInvalid(w.sc, Upsert.CombOf(view), e.groups)
                               && Query.TooWide(w.sc, view, e.groups, Reach.Unlimited(|e.groups|), w.cfg.maxScanRows)
  {
    hide Query.Decided, Query.TooWide, PlanAll.AnyInvalid, Scratch.FitsStack;
    var rooms :| Query.Decided(w.sc, view, e.groups, nAggs, e.prev, w.cfg.maxScanRows, rooms, a);
    Query.StackDecided(w.sc, view, e.groups, nAggs, e.prev, w.cfg.maxScanRows, rooms, a);
  }

  // So is any query whose lists ask for no more than one slot a group and 4096 besides,
  // whatever workspace it was given.
  lemma SmallJudged<T>(w: World, view: ViewV, e: Event, nAggs: nat, a: Query.Answer<T>)
    requires e.Ask? && Judged(w, view, e, nAggs, a) && PlanAll.ProductAll(e.groups) <= |e.groups| + 4096
    ensures a.ScanBudget? <==> |e.groups| > 0 && !PlanAll.AnyInvalid(w.sc, Upsert.CombOf(view), e.groups)
                               && Query.TooWide(w.sc, view, e.groups, Reach.Unlimited(|e.groups|), w.cfg.maxScanRows)
  {
    hide Query.Decided, Query.TooWide, PlanAll.AnyInvalid, PlanAll.ProductAll;
    var rooms :| Query.Decided(w.sc, view, e.groups, nAggs, e.prev, w.cfg.maxScanRows, rooms, a);
    Query.SmallDecided(w.sc, view, e.groups, nAggs, e.prev, w.cfg.maxScanRows, rooms, a);
  }
}
