// The store: one published view, replaced whole by each writer step. Readers keep the
// view they loaded; no step touches it.
module Store {
  import Packing
  import opened Decimal
  import opened Table
  import opened Dictionary
  import opened Engine
  import opened Oracle
  import opened Upsert
  import opened Live
  import opened Compaction
  import Bytes
  import opened Format
  import Aggregate
  import Build
  import Codec
  import Merge
  import Persist
  import Query

  // Durations in nanoseconds, as configured. 0 switches a setting off.
  datatype Config = Config(ttl: int, maxRows: int, maxScanRows: int, dictCompactInterval: int)

  const MILLI: int := 1_000_000

  // UnixMilli of a nanosecond clock: rounds down.
  function Milli(ns: int): int { ns / MILLI }

  function TTLCutoff(cfg: Config, ns: int): int {
    if cfg.ttl <= 0 then 0 else Milli(ns - cfg.ttl)
  }

  // The clock's whole milliseconds.
  lemma MilliMeans(ns: int)
    ensures Milli(ns) * 1_000_000 <= ns < (Milli(ns) + 1) * 1_000_000
  {
  }

  // A stamp is too old exactly when its whole millisecond had passed a TTL ago; with TTL
  // off, when it is negative.
  lemma AgeLimit(cfg: Config, ns: int, updated: int)
    ensures updated < TTLCutoff(cfg, ns) <==>
              if cfg.ttl > 0 then (updated + 1) * 1_000_000 <= ns - cfg.ttl else updated < 0
  {
    MilliMeans(ns - cfg.ttl);
  }

  predicate OverCap(cfg: Config, n: int) { cfg.maxRows > 0 && n > cfg.maxRows }

  datatype Status = Done | BadRecord | KeyOverflow | RowLimit | BadFile | StaleFile

  // Whether a merge at this time renumbers the dictionaries.
  predicate GateOpen(cfg: Config, lastDictCompact: int, nowMilli: int) {
    cfg.dictCompactInterval <= 0 || nowMilli - lastDictCompact >= cfg.dictCompactInterval / MILLI
  }

  // The id-stable layout does not fit, so a closed gate is overridden.
  ghost predicate StableOverflow(sc: Schema, m: ViewV) {
    sc.indexDims <= |CombOf(m)| && Packing.Width(IndexCards(sc, CombOf(m))) > 64
  }

  // A fresh view over a valid base.
  method Publish(sc: Schema, snap: Snapshot) returns (v: View)
    requires snap.Valid(sc)
    ensures fresh(v) && v.base == snap && v.Valid(sc) && v.delta.rows == []
              && v.Contents() == MapOf(Entries(snap.dicts), snap.rows)
    ensures v.Contents() == Abs(v.Model()) && |v.Contents()| == |snap.rows|
              && v.Model().base.dicts == Entries(snap.dicts) && v.Model().delta.rows == []
  {
    hide Snapshot.Valid, MapOf;
    SnapRows(sc, snap);
    v := new View.Over(sc, snap);
    Query.ContentsAre(v);
  }

  // A view over a base nobody has checked: as valid as what was loaded.
  method Unchecked(sc: Schema, snap: Snapshot) returns (v: View)
    requires AllValid(sc, snap.dicts)
    ensures fresh(v) && v.base == snap && v.Model() == NewView(sc, snap.Model())
    ensures v.Valid(sc) <==> SnapOK(sc, snap.Model())
    ensures SnapOK(sc, snap.Model()) ==> v.Contents() == MapOf(snap.Model().dicts, snap.Model().rows)
  {
    hide SnapOK, NewView, AllValid, View.Valid, Snapshot.Valid, MapOf;
    v := new View.Over(sc, snap);
    AsValidAsBase(sc, v, snap.Model());
  }

  // A merge renumbers when the gate is open or the id-stable layout does not fit.
  ghost predicate Renumbering(sc: Schema, m: ViewV, gate: bool) { gate || StableOverflow(sc, m) }

  // What the merge that decides keeps: the second attempt uses its own cutoff.
  ghost function Survivors(sc: Schema, m: ViewV, gate: bool, cut: int, retryCut: int, now: int): Contents {
    Retain(Abs(m), if !gate && StableOverflow(sc, m) then retryCut else cut, now)
  }

  // What becomes of the dictionaries: only live values, or every id as it was.
  ghost predicate DictsAfter(sc: Schema, m: ViewV, gate: bool, cut: int, retryCut: int, now: int, ds: Dicts) {
    if Renumbering(sc, m, gate) then LiveDicts(m, if !gate && StableOverflow(sc, m) then retryCut else cut, now, ds)
    else ds == CombOf(m)
  }

  // Every dictionary holds exactly the values the table's entries use.
  ghost predicate OnlyUsed(m: Contents, ds: Dicts) {
    forall d, x :: 0 <= d < |ds| ==> (x in ds[d] <==> x in ValuesOf(m, d))
  }

  // At least the configured interval, in whole milliseconds, has passed since the time
  // recorded; 0 or less is no wait at all.
  ghost predicate IntervalPassed(cfg: Config, last: int, ns: int) {
    cfg.dictCompactInterval <= 0 || ns / 1_000_000 - last >= cfg.dictCompactInterval / 1_000_000
  }

  // What a finished merge did to the dictionaries and to the time recorded: when the interval
  // has passed it renumbered; when it has not, and every id fits a key, it kept every id.
  ghost predicate GateKept(sc: Schema, cfg: Config, m: ViewV, last: int, ns: int, kept: Contents, ds: Dicts,
          last': int)
  {
    && (IntervalPassed(cfg, last, ns) ==> last' == ns / 1_000_000 && OnlyUsed(kept, ds))
    && (!IntervalPassed(cfg, last, ns) && !StableOverflow(sc, m) ==> last' == last && ds == CombOf(m))
    && (!IntervalPassed(cfg, last, ns) && StableOverflow(sc, m) ==> last' == ns / 1_000_000 && OnlyUsed(kept, ds))
  }

  lemma GateDecides(sc: Schema, cfg: Config, m: ViewV, last: int, ns: int, cut: int, retryCut: int, ds: Dicts,
          last': int)
    requires var gate := GateOpen(cfg, last, Milli(ns));
             && DictsAfter(sc, m, gate, cut, retryCut, Milli(ns), ds)
             && last' == if Renumbering(sc, m, gate) then Milli(ns) else last
    ensures var kept := Survivors(sc, m, GateOpen(cfg, last, Milli(ns)), cut, retryCut, Milli(ns));
            GateKept(sc, cfg, m, last, ns, kept, ds, last')
  {
    hide StableOverflow, Retain, Abs, Subsequence, ValuesOf, CombOf;
  }

  // Live data that overflows always forces the renumbering path.
  lemma LiveOverflow(sc: Schema, m: ViewV, gate: bool, cut: int, retryCut: int, now: int)
    requires ViewOK(sc, m)
    ensures LiveWidth(sc, Survivors(sc, m, gate, cut, retryCut, now)) > 64 ==> Renumbering(sc, m, gate)
  {
    hide ViewOK, LiveWidth, Retain, Abs;
    LiveFitsDicts(sc, m, if !gate && StableOverflow(sc, m) then retryCut else cut, now);
    IndexFits(sc, m);
  }

  lemma IndexFits(sc: Schema, m: ViewV)
    requires ViewOK(sc, m)
    ensures sc.indexDims <= |CombOf(m)|
  {
  }

  // One merge, retried once with renumbering when the id-stable layout overflows.
  method Attempt(sc: Schema, v: View, cut: int, retryCut: int, now: int, gate: bool)
    returns (r: Merge.Outcome, renumber: bool)
    requires v.Valid(sc)
    ensures renumber == Renumbering(sc, v.Model(), gate)
    ensures var kept := Survivors(sc, v.Model(), gate, cut, retryCut, now);
            && (r.KeyOverflow? <==> LiveWidth(sc, kept) > 64)
            && (r.Merged? ==> fresh(r.snap) && r.snap.Valid(sc) && MapOf(Entries(r.snap.dicts), r.snap.rows) == kept)
    ensures r.Merged? ==> DictsAfter(sc, v.Model(), gate, cut, retryCut, now, Entries(r.snap.dicts))
  {
    hide View.Valid, LiveWidth, Retain, LiveDicts, Snapshot.Valid, Abs, MapOf;
    ghost var m := v.Model();
    IndexWithin(sc, v);
    Query.ValidView(sc, v);
    LiveOverflow(sc, m, gate, cut, retryCut, now);
    renumber := gate;
    r := MergeView(sc, v, cut, now, gate);
    if !gate && r.KeyOverflow? {
      renumber := true;
      assert v.Valid(sc) && v.Model() == m;
      r := MergeView(sc, v, retryCut, now, true);
    }
  }

  method EmptyView(sc: Schema) returns (v: View)
    requires sc.Valid()
    ensures fresh(v) && v.Valid(sc) && v.Contents() == map[] && v.base.rows == []
  {
    var dicts := NewDicts(sc);
    ghost var zeros: seq<nat> := seq(sc.indexDims, (_: nat) => 0);
    assert IndexCards(sc, Entries(dicts)) == zeros;
    NarrowEmpty(sc.indexDims);
    var sh := Packing.ComputeShifts(Cards(Entries(dicts)), sc.indexDims);
    assert sh.Ok?;
    var snap := EmptySnapshot(sc, dicts, sh.shifts);
    v := new View.Over(sc, snap);
  }

  method EmptySnapshot(sc: Schema, dicts: seq<Dict>, shifts: seq<nat>) returns (snap: Snapshot)
    requires sc.Valid() && AllValid(sc, dicts) && (forall d :: 0 <= d < |dicts| ==> dicts[d].vals == [])
    requires Packing.Layout(shifts, seq(sc.indexDims, (_: nat) => 0))
    ensures fresh(snap) && snap.Valid(sc) && snap.rows == [] && MapOf(snap.Model().dicts, snap.rows) == map[]
  {
    hide Packing.Layout, Dict.Valid;
    snap := new Snapshot(dicts, shifts);
    assert snap.Model() == EmptySnap(sc, shifts);
    EmptySnapOK(sc, shifts);
  }

  class Store {
    const sc: Schema
    const cfg: Config
    const fp: nat
    const crc: Text -> nat
    var view: View
    var capBlocked: bool
    var lastDictCompact: int

    ghost predicate Valid()
      reads this, view, view.base, view.base.dicts, view.delta, view.extras
    {
      view.Valid(sc) && fp < Bytes.TWO64 && !OverCap(cfg, |view.base.rows|)
    }

    constructor (sc: Schema, cfg: Config, fp: nat, crc: Text -> nat)
      requires sc.Valid() && fp < Bytes.TWO64
      ensures Valid() && this.sc == sc && this.cfg == cfg && this.fp == fp && this.crc == crc
      ensures view.Contents() == map[] && !capBlocked && lastDictCompact == 0
    {
      hide View.Valid, Snapshot.Valid, View.Model, Abs;
      var v := EmptyView(sc);
      this.sc, this.cfg, this.fp, this.crc := sc, cfg, fp, crc;
      view, capBlocked, lastDictCompact := v, false, 0;
    }

    // Upserts a batch. A bad record leaves everything as it was.
    method Apply(recs: seq<Record>, clock: int) returns (st: Status, dropped: nat)
      requires Valid()
      modifies this
      ensures Valid() && capBlocked == old(capBlocked) && lastDictCompact == old(lastDictCompact)
      ensures st == Done || st == BadRecord
      ensures var after := ApplyAll(sc, old(view.Contents()), recs, TTLCutoff(cfg, clock), capBlocked);
              match after
              case None => st == BadRecord && view == old(view)
              case Some(m) => st == Done && view.Contents() == m && view.base == old(view.base)
                              && dropped == Dropped(sc, old(view.Contents()), recs, TTLCutoff(cfg, clock), capBlocked)
      ensures st == BadRecord <==> exists i :: 0 <= i < |recs| && Malformed(sc, recs[i], TTLCutoff(cfg, clock))
      ensures st == Done ==> forall t ::
                LeftAt(sc, old(view.Contents()), recs, TTLCutoff(cfg, clock), capBlocked, |recs|, view.Contents(), t)
    {
      hide View.Valid, ApplyAll, Dropped, Malformed, LeftAt, NoneNewer;
      BatchLeaves(sc, view.Contents(), recs, TTLCutoff(cfg, clock), capBlocked, |recs|);
      assert recs[..|recs|] == recs;
      var nv;
      nv, dropped := ApplyDelta(sc, view, recs, TTLCutoff(cfg, clock), capBlocked);
      if nv == null {
        return BadRecord, 0;
      }
      view := nv;
      st := Done;
    }

    // Merges delta into base. nowNs is the merge's own clock reading; cutNs and retryNs
    // are the later readings the TTL cutoff of each attempt is taken from.
    method Compact(nowNs: int, cutNs: int, retryNs: int) returns (st: Status)
      requires Valid()
      modifies this
      ensures Valid()
      ensures st == Done || st == KeyOverflow || st == RowLimit
      ensures var renumber := Renumbering(sc, old(view.Model()), GateOpen(cfg, old(lastDictCompact), Milli(nowNs)));
              var kept := Survivors(sc, old(view.Model()), GateOpen(cfg, old(lastDictCompact), Milli(nowNs)),
                                    TTLCutoff(cfg, cutNs), TTLCutoff(cfg, retryNs), Milli(nowNs));
              && (st == KeyOverflow <==> LiveWidth(sc, kept) > 64)
              && (st == RowLimit <==> st != KeyOverflow && OverCap(cfg, |kept|))
              && (st == Done ==> view.Contents() == kept && view.delta.rows == [] && !capBlocked
                                 && lastDictCompact == (if renumber then Milli(nowNs) else old(lastDictCompact)))
              && (st != Done ==> view == old(view) && lastDictCompact == old(lastDictCompact)
                                 && capBlocked == (old(capBlocked) || st == RowLimit))
      ensures st == Done ==>
                DictsAfter(sc, old(view.Model()), GateOpen(cfg, old(lastDictCompact), Milli(nowNs)),
                           TTLCutoff(cfg, cutNs), TTLCutoff(cfg, retryNs), Milli(nowNs), view.Model().base.dicts)
      ensures st == Done ==>
                GateKept(sc, cfg, old(view.Model()), old(lastDictCompact), nowNs, view.Contents(),
                  view.Model().base.dicts, lastDictCompact)
      ensures cutNs == retryNs == nowNs ==>
                (Altered(old(view.Model()), view.Model()) <==> WouldAlter(sc, cfg, old(view.Model()), nowNs))
    {
      hide View.Valid, View.Model, Snapshot.Valid, LiveWidth, Survivors, Renumbering, Abs, MapOf, GateOpen, TTLCutoff,
        DictsAfter, Altered, WouldAlter, KeptNow, Milli, GateKept;
      ghost var m, last := view.Model(), lastDictCompact;
      ghost var gate := GateOpen(cfg, lastDictCompact, Milli(nowNs));
      Query.ContentsAre(view);
      var now := Milli(nowNs);
      var r, renumber := Attempt(sc, view, TTLCutoff(cfg, cutNs), TTLCutoff(cfg, retryNs), now,
        GateOpen(cfg, lastDictCompact, now));
      if r.KeyOverflow? {
        st := KeyOverflow;
      } else {
        st := Settle(r.snap);
        if st == Done && renumber {
          lastDictCompact := now;
        }
        if st == Done {
          GateDecides(sc, cfg, m, last, nowNs, TTLCutoff(cfg, cutNs), TTLCutoff(cfg, retryNs), view.Model().base.dicts,
            lastDictCompact);
        }
      }
      if cutNs == retryNs == nowNs {
        AlteredBy(sc, cfg, m, gate, nowNs, view.Model());
      }
    }

    // Publishes a snapshot unless it is over the cap.
    method Settle(snap: Snapshot) returns (st: Status)
      requires Valid() && snap.Valid(sc)
      modifies this
      ensures Valid() && lastDictCompact == old(lastDictCompact)
      ensures st == if OverCap(cfg, |MapOf(Entries(snap.dicts), snap.rows)|) then RowLimit else Done
      ensures st == RowLimit ==> view == old(view) && capBlocked
      ensures st == Done ==>
                view.Contents() == Abs(view.Model()) == MapOf(Entries(snap.dicts), snap.rows) && !capBlocked
                && view.delta.rows == view.Model().delta.rows == [] && view.Model().base.dicts == Entries(snap.dicts)
    {
      hide View.Valid, View.Model, View.Contents, Snapshot.Valid, MapOf, Abs;
      SnapRows(sc, snap);
      if cfg.maxRows > 0 && |snap.rows| > cfg.maxRows {
        capBlocked := true;
        return RowLimit;
      }
      var v := Publish(sc, snap);
      view, capBlocked := v, false;
      st := Done;
    }

    // Starts over from the records given.
    method ReplaceAll(recs: seq<Record>, cutNs: int, nowNs: int) returns (st: Status, ghost built: Contents)
      requires Valid()
      modifies this
      ensures Valid() && lastDictCompact == old(lastDictCompact)
      ensures var items := Build.Accepted(sc, recs, TTLCutoff(cfg, cutNs));
              match items
              case None => st == BadRecord
              case Some(all) =>
                && st != BadRecord
                && (st == KeyOverflow <==> Build.DumpWidth(sc, all) > 64)
                && (st != KeyOverflow ==>
                     Build.Built(all, Milli(nowNs), built) && (st == RowLimit <==> OverCap(cfg, |built|)))
                && (st == Done ==> view.Contents() == built && |view.delta.rows| == 0 && !capBlocked)
      ensures st == Done || st == BadRecord || st == KeyOverflow || st == RowLimit
      ensures st != Done ==> view == old(view) && capBlocked == (old(capBlocked) || st == RowLimit)
    {
      hide View.Valid, View.Model, Snapshot.Valid, Build.Accepted, Build.Built, Build.DumpWidth, MapOf, Abs;
      SchemaOK(sc, view);
      var r := Build.BuildFromRecords(sc, recs, TTLCutoff(cfg, cutNs), Milli(nowNs));
      if r.BadRecord? {
        return Status.BadRecord, map[];
      }
      if r.KeyOverflow? {
        return Status.KeyOverflow, map[];
      }
      built := MapOf(Entries(r.snap.dicts), r.snap.rows);
      st := Settle(r.snap);
    }

    // Puts a file's snapshot in place of everything. The reader does not check that
    // tuples are unique, so the result is a valid table exactly when they are.
    method LoadSnapshot(data: Text, cutNs: int) returns (st: Status)
      requires Valid()
      modifies this
      ensures lastDictCompact == old(lastDictCompact)
      ensures st != Done ==> Valid() && view == old(view) && capBlocked == old(capBlocked)
      ensures match Parse(sc, fp, crc, TTLCutoff(cfg, cutNs), data)
              case Corrupt => st == BadFile
              case Stale => st == StaleFile
              case Loaded(t, s) =>
                && st == (if OverCap(cfg, |s.rows|) then RowLimit else Done)
                && (st == Done ==> view.Model() == NewView(sc, s) && !capBlocked && (Valid() <==> SnapOK(sc, s)))
                && (st == Done && SnapOK(sc, s) ==> view.Contents() == MapOf(s.dicts, s.rows))
    {
      hide Parse, SnapOK, Abs, MapOf, NewView, AllValid, View.Valid, View.Model, Snapshot.Valid;
      SchemaOK(sc, view);
      var r := Persist.ReadSnapshot(sc, fp, crc, TTLCutoff(cfg, cutNs), data);
      if r.Refused? {
        return BadFile;
      }
      if r.TooOld? {
        return StaleFile;
      }
      var snap := r.snap;
      if cfg.maxRows > 0 && |snap.rows| > cfg.maxRows {
        return RowLimit;
      }
      view := Unchecked(sc, snap);
      capBlocked := false;
      st := Done;
    }

    // Writes the base only; what is still in delta comes after the stored position.
    method SaveSnapshot() returns (data: Text)
      requires Valid()
      ensures data == Encode(sc, fp, crc, view.base.Model())
    {
      hide ViewOK, Encode;
      data := Persist.WriteSnapshot(sc, fp, crc, view.base);
    }

    // The newest stamp of the table; None when that is 0.
    method SyncPosition() returns (p: Option<int>)
      requires Valid()
      ensures p != Some(0)
      ensures Newest(view.Contents(), match p case None => 0 case Some(u) => u)
    {
      var mu := if view.delta.maxUpdated > view.base.maxUpdated then view.delta.maxUpdated else view.base.maxUpdated;
      PositionIsNewest(sc, view.Model());
      p := if mu == 0 then None else Some(mu);
    }

    // Whether the idle trigger asks for a merge at this time.
    method NeedsCompaction(nowNs: int) returns (b: bool)
      requires Valid()
      ensures b <==> Triggered(cfg, view.Model(), Milli(nowNs))
      ensures (b <==> WouldAlter(sc, cfg, view.Model(), nowNs)) <==>
                !(Refused(sc, cfg, view.Model(), nowNs) || Mistaken(cfg, view.Model(), nowNs))
    {
      hide View.Valid, WouldAlter, Misfires, Refused, Mistaken, TTLCutoff;
      Query.ValidView(sc, view);
      TriggerExact(sc, cfg, view.Model(), nowNs);
      MisfiresInStore(sc, cfg, view.Model(), nowNs);
      if |view.delta.rows| > 0 {
        return true;
      }
      var now := Milli(nowNs);
      if cfg.ttl > 0 && view.base.minUpdated != 0 {
        if view.base.minUpdated < now - cfg.ttl / MILLI {
          return true;
        }
      }
      b := view.base.minExpire != 0 && view.base.minExpire <= now;
    }
  }

  lemma IndexWithin(sc: Schema, v: View)
    requires v.Valid(sc)
    ensures sc.indexDims <= |CombOf(v.Model())|
  {
  }

  // A view over a loaded base is as valid as what was loaded.
  lemma AsValidAsBase(sc: Schema, v: View, s: SnapV)
    requires v.Model() == NewView(sc, s) && AllValid(sc, v.base.dicts) && AllValid(sc, v.extras)
    ensures v.Valid(sc) <==> SnapOK(sc, s)
    ensures SnapOK(sc, s) ==> v.Contents() == MapOf(s.dicts, s.rows)
  {
    hide SnapOK;
    assert v.Model().base == v.base.Model() == s;
    if SnapOK(sc, s) {
      NewViewOK(sc, s);
    }
  }

  // One base row per entry.
  lemma SnapRows(sc: Schema, snap: Snapshot)
    requires snap.Valid(sc)
    ensures |MapOf(Entries(snap.dicts), snap.rows)| == |snap.rows|
  {
    Aggregate.MapOfCard(sc, Entries(snap.dicts), snap.rows);
  }

  // NeedsCompaction's test, on the view's scalars.
  predicate Triggered(cfg: Config, m: ViewV, now: int) {
    || |m.delta.rows| > 0
    || (cfg.ttl > 0 && m.base.minUpdated != 0 && m.base.minUpdated < now - cfg.ttl / MILLI)
    || (m.base.minExpire != 0 && m.base.minExpire <= now)
  }

  // ---- The sync position ----

  lemma PositionIsNewest(sc: Schema, m: ViewV)
    requires ViewOK(sc, m)
    ensures Newest(Abs(m), if m.delta.maxUpdated > m.base.maxUpdated then m.delta.maxUpdated else m.base.maxUpdated)
  {
    hide Keyed, Decode, MapOf, Abs, InRange, MinUpdated, MinExpire;
    var u := if m.delta.maxUpdated > m.base.maxUpdated then m.delta.maxUpdated else m.base.maxUpdated;
    MaxUpdatedExact(m.base.rows);
    MaxUpdatedExact(m.delta.rows);
    forall t | t in Abs(m) ensures Abs(m)[t].updated <= u {
      var s := LiveFind(sc, m, t);
      LiveAbs(sc, m, s);
    }
    if u != 0 {
      var s := NewestRow(sc, m, u);
      LiveAbs(sc, m, s);
    }
  }

  // The newest row is visible: nothing older shadows it.
  lemma NewestRow(sc: Schema, m: ViewV, u: int) returns (s: Src)
    requires ViewOK(sc, m) && u != 0
    requires u == if m.delta.maxUpdated > m.base.maxUpdated then m.delta.maxUpdated else m.base.maxUpdated
    ensures IsLive(m, s) && RowOf(m, s).updated == u
  {
    hide Keyed, Decode, MapOf, Abs, InRange, MinUpdated, MinExpire;
    MaxUpdatedExact(m.base.rows);
    MaxUpdatedExact(m.delta.rows);
    if m.delta.maxUpdated == u {
      var r :| 0 <= r < |m.delta.rows| && m.delta.rows[r].updated == u;
      s := D(r);
    } else {
      var r: nat :| r < |m.base.rows| && m.base.rows[r].updated == u;
      s := B(r);
      assert m.base.rows[r].ids !in m.delta.index;
    }
  }

  // ---- When the idle trigger is right ----

  // What the trigger is for: delta was drained or the table changed.
  ghost predicate Altered(a: ViewV, b: ViewV) {
    |a.delta.rows| != |b.delta.rows| || Abs(a) != Abs(b)
  }

  // The entries a merge at this instant keeps.
  ghost function KeptNow(cfg: Config, m: ViewV, ns: int): Contents {
    Retain(Abs(m), TTLCutoff(cfg, ns), Milli(ns))
  }

  // There is something to drain or to drop.
  ghost predicate Pending(m: ViewV, cutoff: int, now: int) {
    |m.delta.rows| > 0 || Retain(Abs(m), cutoff, now) != Abs(m)
  }

  // What the merge keeps fits no key, or passes the cap.
  ghost predicate Refused(sc: Schema, cfg: Config, m: ViewV, ns: int) {
    LiveWidth(sc, KeptNow(cfg, m, ns)) > 64 || OverCap(cfg, |KeptNow(cfg, m, ns)|)
  }

  // A merge at this instant would alter the view.
  ghost predicate WouldAlter(sc: Schema, cfg: Config, m: ViewV, ns: int) {
    Pending(m, TTLCutoff(cfg, ns), Milli(ns)) && !Refused(sc, cfg, m, ns)
  }

  // Whether a merge at this instant alters the view, told from what it leaves: the view as
  // it was when refused, else no delta rows and what was kept.
  lemma AlteredBy(sc: Schema, cfg: Config, m: ViewV, gate: bool, ns: int, m': ViewV)
    requires var kept := Survivors(sc, m, gate, TTLCutoff(cfg, ns), TTLCutoff(cfg, ns), Milli(ns));
             if LiveWidth(sc, kept) > 64 || OverCap(cfg, |kept|) then m' == m
             else m'.delta.rows == [] && Abs(m') == kept
    ensures Altered(m, m') <==> WouldAlter(sc, cfg, m, ns)
  {
    hide Retain, Abs, LiveWidth, TTLCutoff, Milli;
  }

  // A base within the cap and within a key is only ever refused for what delta adds; so
  // the trigger asks for every merge that will be refused.
  lemma RefusedHasDelta(sc: Schema, cfg: Config, m: ViewV, ns: int)
    requires ViewOK(sc, m) && !OverCap(cfg, |m.base.rows|) && Refused(sc, cfg, m, ns)
    ensures |m.delta.rows| > 0
  {
    hide ViewOK, Retain, LiveWidth, TTLCutoff, Milli, Abs;
    if |m.delta.rows| == 0 {
      KeptAreRows(sc, m, TTLCutoff(cfg, ns), Milli(ns));
    }
  }

  // Without delta rows the merge keeps some of the base's rows, under a layout no wider.
  lemma KeptAreRows(sc: Schema, m: ViewV, cutoff: int, now: int)
    requires ViewOK(sc, m) && |m.delta.rows| == 0
    ensures |Retain(Abs(m), cutoff, now)| <= |m.base.rows| && LiveWidth(sc, Retain(Abs(m), cutoff, now)) <= 64
  {
    hide ViewOK, SnapOK, LiveWidth, MapOf, Retain;
    BaseAlone(sc, m);
    var b := NewView(sc, m.base);
    LiveFitsDicts(sc, b, cutoff, now);
    FewerKept(Abs(m), cutoff, now);
  }

  // The base by itself, which denotes the same table.
  lemma BaseAlone(sc: Schema, m: ViewV)
    requires ViewOK(sc, m) && |m.delta.rows| == 0
    ensures var b := NewView(sc, m.base);
            ViewOK(sc, b) && Abs(b) == Abs(m) && CombOf(b) == m.base.dicts
    ensures |Abs(m)| == |m.base.rows| && sc.indexDims <= |m.base.dicts|
              && Packing.Width(IndexCards(sc, m.base.dicts)) <= 64
  {
    hide ViewOK, SnapOK, MapOf, CombOf;
    ViewParts(sc, m);
    NewViewOK(sc, m.base);
    BaseInComb(sc, m);
    NoRows(CombOf(m), m.delta.rows);
    Aggregate.MapOfCard(sc, m.base.dicts, m.base.rows);
    FreshComb(sc, m.base);
  }

  lemma ViewParts(sc: Schema, m: ViewV)
    requires ViewOK(sc, m)
    ensures SnapOK(sc, m.base) && DictsOK(sc, m.base.dicts) && RowsIn(sc, m.base.dicts, m.base.rows)
    ensures UniqueIds(m.base.rows) && |m.base.dicts| == |sc.dims| >= sc.indexDims
    ensures Packing.Width(IndexCards(sc, m.base.dicts)) <= 64
              && Abs(m) == MapOf(CombOf(m), m.base.rows) + MapOf(CombOf(m), m.delta.rows)
  {
    hide RowsIn, UniqueIds, Scalars, Shadowing, DeltaOK, MapOf, DictOK;
  }

  lemma FreshComb(sc: Schema, s: SnapV)
    requires |s.dicts| == |sc.dims|
    ensures CombOf(NewView(sc, s)) == s.dicts
  {
    var ds := CombOf(NewView(sc, s));
    assert forall d :: 0 <= d < |ds| ==> ds[d] == s.dicts[d] + [] == s.dicts[d];
  }

  lemma NoRows(ds: Dicts, rows: seq<Row>)
    requires |rows| == 0
    ensures MapOf(ds, rows) == map[]
  {
  }

  lemma FewerKept(m: Contents, cutoff: int, now: int)
    ensures |Retain(m, cutoff, now)| <= |m|
  {
    var r := Retain(m, cutoff, now);
    assert r.Keys <= m.Keys;
    KeyCard(r.Keys, m.Keys);
  }

  lemma {:induction false} KeyCard(a: set<Tuple>, b: set<Tuple>)
    requires a <= b
    ensures |a| <= |b|
  {
    if a == {} {
    } else {
      var t :| t in a;
      KeyCard(a - {t}, b - {t});
    }
  }

  lemma DropsAreRows(sc: Schema, m: ViewV, cutoff: int, now: int)
    requires ViewOK(sc, m) && |m.delta.rows| == 0
    ensures Retain(Abs(m), cutoff, now) != Abs(m) <==>
              exists r: nat :: r < |m.base.rows| && !Oracle.Kept(EntryOf(m.base.rows[r]), cutoff, now)
  {
    hide ViewOK, Abs, Decode, MapOf;
    var (all, kept) := (Abs(m), Retain(Abs(m), cutoff, now));
    if kept != all {
      var t := Lost(all, cutoff, now);
      var s := LiveFind(sc, m, t);
      LiveAbs(sc, m, s);
    }
    if r: nat :| r < |m.base.rows| && !Oracle.Kept(EntryOf(m.base.rows[r]), cutoff, now) {
      Unshadowed(sc, m, r);
      LiveAbs(sc, m, B(r));
    }
  }

  lemma Unshadowed(sc: Schema, m: ViewV, r: nat)
    requires ViewOK(sc, m) && |m.delta.rows| == 0 && r < |m.base.rows|
    ensures IsLive(m, B(r))
  {
  }

  lemma NothingLost(all: Contents, cutoff: int, now: int)
    requires forall t :: t in all ==> Oracle.Kept(all[t], cutoff, now)
    ensures Retain(all, cutoff, now) == all
  {
  }

  lemma Lost(all: Contents, cutoff: int, now: int) returns (t: Tuple)
    requires Retain(all, cutoff, now) != all
    ensures t in all && !Oracle.Kept(all[t], cutoff, now)
  {
    if forall t :: t in all ==> Oracle.Kept(all[t], cutoff, now) {
      NothingLost(all, cutoff, now);
    }
    t :| t in all && !Oracle.Kept(all[t], cutoff, now);
  }

  // The trigger compares with now-TTL in whole milliseconds, the merge rounds the
  // difference down: they part by one millisecond when the TTL's sub-millisecond part
  // exceeds the clock's.
  lemma CutoffRounding(cfg: Config, ns: int)
    requires cfg.ttl > 0
    ensures Milli(ns) - cfg.ttl / MILLI == TTLCutoff(cfg, ns) + (if cfg.ttl % MILLI > ns % MILLI then 1 else 0)
  {
  }

  // Nothing but age can ask for a merge.
  ghost predicate Quiet(m: ViewV, now: int) {
    |m.delta.rows| == 0 && |m.base.rows| > 0 && !(m.base.minExpire != 0 && m.base.minExpire <= now)
  }

  // The trigger's cutoff is later than the merge's by this much.
  function Slack(cfg: Config, ns: int): int { if cfg.ttl % MILLI > ns % MILLI then 1 else 0 }

  // The oldest row is on the wrong side of one of the two cutoffs: exactly on the boundary
  // when they differ; any old row stamped 0, which the minimum cannot tell from none; any
  // negative stamp while TTL is off, since the merge then still compares with 0.
  ghost predicate Mistaken(cfg: Config, m: ViewV, ns: int) {
    var (least, cutoff) := (m.base.minUpdated, TTLCutoff(cfg, ns));
    Quiet(m, Milli(ns)) &&
    if cfg.ttl <= 0 then least < 0
    else if ZeroForgotten(m.base.rows) then (least < cutoff + Slack(cfg, ns) <==> cutoff <= 0)
    else if least == 0 then cutoff > 0
    else Slack(cfg, ns) == 1 && least == cutoff
  }

  lemma PendingExact(sc: Schema, cfg: Config, m: ViewV, ns: int)
    requires ViewOK(sc, m)
    ensures (Triggered(cfg, m, Milli(ns)) <==> Pending(m, TTLCutoff(cfg, ns), Milli(ns))) <==> !Mistaken(cfg, m, ns)
  {
    hide Keyed, RowsIn, DictsOK, Shadowing, DeltaOK, Abs, Retain, MinUpdated, MinExpire, TTLCutoff, Milli,
      ZeroForgotten;
    var (rows, now, cutoff) := (m.base.rows, Milli(ns), TTLCutoff(cfg, ns));
    if |m.delta.rows| == 0 {
      DropsAreRows(sc, m, cutoff, now);
      ExpiryShortcut(rows, now);
      CutoffCases(cfg, ns);
      if |rows| > 0 {
        var oldest := Oldest(rows);
        OldestDecides(rows, oldest, cutoff, now);
      } else {
        EmptyMinima();
      }
    }
  }

  // It also asks for merges that are refused, and so alter nothing.
  ghost predicate Misfires(sc: Schema, cfg: Config, m: ViewV, ns: int) {
    if Refused(sc, cfg, m, ns) then Triggered(cfg, m, Milli(ns)) else Mistaken(cfg, m, ns)
  }

  // NeedsCompaction is right exactly when it does not misfire.
  lemma TriggerExact(sc: Schema, cfg: Config, m: ViewV, ns: int)
    requires ViewOK(sc, m)
    ensures (Triggered(cfg, m, Milli(ns)) <==> WouldAlter(sc, cfg, m, ns)) <==> !Misfires(sc, cfg, m, ns)
  {
    hide ViewOK, Triggered, Pending, Mistaken, Refused;
    PendingExact(sc, cfg, m, ns);
  }

  // In a store, whose base is within the cap, it asks for every merge that is refused.
  lemma MisfiresInStore(sc: Schema, cfg: Config, m: ViewV, ns: int)
    requires ViewOK(sc, m) && !OverCap(cfg, |m.base.rows|)
    ensures Misfires(sc, cfg, m, ns) <==> Refused(sc, cfg, m, ns) || Mistaken(cfg, m, ns)
  {
    hide ViewOK, Refused, Mistaken;
    if Refused(sc, cfg, m, ns) {
      RefusedHasDelta(sc, cfg, m, ns);
    }
  }

  // The least stamp, and what the recorded minimum makes of it.
  lemma Oldest(rows: seq<Row>) returns (u: int)
    requires |rows| > 0
    ensures LeastUpdated(rows, u)
    ensures ZeroForgotten(rows) ==> u == 0 < MinUpdated(rows)
    ensures !ZeroForgotten(rows) ==> u == MinUpdated(rows)
  {
    hide MinUpdated;
    MinUpdatedExact(rows);
    u := if ZeroForgotten(rows) then 0 else MinUpdated(rows);
    if ZeroForgotten(rows) {
      ForgottenShape(rows);
    }
  }

  lemma EmptyMinima()
    ensures MinUpdated([]) == 0 && MinExpire([]) == 0
  {
  }

  lemma CutoffCases(cfg: Config, ns: int)
    ensures cfg.ttl > 0 ==>
              Milli(ns) - cfg.ttl / MILLI == TTLCutoff(cfg, ns) + (if cfg.ttl % MILLI > ns % MILLI then 1 else 0)
    ensures cfg.ttl <= 0 ==> TTLCutoff(cfg, ns) == 0
  {
    if cfg.ttl > 0 {
      CutoffRounding(cfg, ns);
    }
  }

  lemma OldestDecides(rows: seq<Row>, oldest: int, cutoff: int, now: int)
    requires |rows| > 0 && LeastUpdated(rows, oldest)
    ensures (exists r: nat :: r < |rows| && !Oracle.Kept(EntryOf(rows[r]), cutoff, now))
            <==> oldest < cutoff || exists r :: 0 <= r < |rows| && Expired(rows[r].expire, now)
  {
    if oldest < cutoff {
      var r :| 0 <= r < |rows| && rows[r].updated == oldest;
      assert !Oracle.Kept(EntryOf(rows[r]), cutoff, now);
    }
    if r :| 0 <= r < |rows| && Expired(rows[r].expire, now) {
      assert !Oracle.Kept(EntryOf(rows[r]), cutoff, now);
    }
    if r: nat :| r < |rows| && !Oracle.Kept(EntryOf(rows[r]), cutoff, now) {
      assert oldest <= rows[r].updated;
    }
  }

  // Stamps at or below 0 that age is not told from.
  ghost predicate UntoldAge(cfg: Config, m: ViewV, cutoff: int) {
    if cfg.ttl <= 0 then m.base.minUpdated < 0
    else cutoff > 0 && (if ZeroForgotten(m.base.rows) then cutoff <= m.base.minUpdated else m.base.minUpdated == 0)
  }

  // With a TTL of whole milliseconds only such stamps, and refusals, can mislead it.
  lemma WholeMillisecondsExact(sc: Schema, cfg: Config, m: ViewV, ns: int)
    requires ViewOK(sc, m) && cfg.ttl % MILLI == 0
    ensures (Triggered(cfg, m, Milli(ns)) <==> WouldAlter(sc, cfg, m, ns))
            <==> !(if Refused(sc, cfg, m, ns) then Triggered(cfg, m, Milli(ns))
                   else Quiet(m, Milli(ns)) && UntoldAge(cfg, m, TTLCutoff(cfg, ns)))
  {
    hide ViewOK, WouldAlter, Triggered, Refused, ZeroForgotten;
    TriggerExact(sc, cfg, m, ns);
    if |m.base.rows| > 0 && ZeroForgotten(m.base.rows) {
      MinimaOf(sc, m);
      ForgottenShape(m.base.rows);
    }
  }

  lemma MinimaOf(sc: Schema, m: ViewV)
    requires ViewOK(sc, m)
    ensures m.base.minUpdated == MinUpdated(m.base.rows)
  {
  }

  // ---- What a merge does to dictionaries alone ----

  // Some combined dictionary holds a value no entry of m uses.
  ghost predicate Unused(ds: Dicts, m: Contents) {
    exists d, x :: 0 <= d < |ds| && x in ds[d] && x !in ValuesOf(m, d)
  }

  // A merge changes the dictionaries exactly when it renumbers and finds such a value; the
  // trigger never asks for that alone.
  lemma DictsChange(sc: Schema, m: ViewV, gate: bool, cut: int, retryCut: int, now: int, ds: Dicts)
    requires ViewOK(sc, m) && DictsAfter(sc, m, gate, cut, retryCut, now, ds)
    ensures ds != CombOf(m) <==>
              Renumbering(sc, m, gate) && Unused(CombOf(m), Survivors(sc, m, gate, cut, retryCut, now))
  {
    hide ViewOK, Renumbering, Retain, Abs, Subsequence, CombOf, ValuesOf;
    CombWidths(sc, m);
    if Renumbering(sc, m, gate) && !Unused(CombOf(m), Survivors(sc, m, gate, cut, retryCut, now)) {
      forall d | 0 <= d < |ds| ensures ds[d] == CombOf(m)[d] {
        WholeSubsequence(ds[d], CombOf(m)[d]);
      }
    }
  }

  lemma CombWidths(sc: Schema, m: ViewV)
    requires ViewOK(sc, m)
    ensures |CombOf(m)| == |m.base.dicts| == |sc.dims| && forall d :: 0 <= d < |CombOf(m)| ==> Distinct(CombOf(m)[d])
  {
    assert forall d :: 0 <= d < |CombOf(m)| ==> DictOK(CombOf(m)[d], sc.dims[d].isInt);
  }

  lemma {:induction false} WholeSubsequence(a: seq<Value>, b: seq<Value>)
    requires Subsequence(a, b) && Distinct(b) && forall x :: x in b ==> x in a
    ensures a == b
  {
    if |b| == 0 {
      NothingIn(a);
    } else {
      var (x, init) := (b[|b| - 1], b[..|b| - 1]);
      InitWithout(b);
      assert x in a;
      if a[|a| - 1] == x {
        assert a == a[..|a| - 1] + [x] && b == init + [x];
        InitHolds(a[..|a| - 1], init, x);
        WholeSubsequence(a[..|a| - 1], init);
      } else {
        SubsequenceIn(a, init);
        assert false;
      }
    }
  }

  lemma NothingIn(a: seq<Value>)
    requires Subsequence(a, [])
    ensures a == []
  {
  }

  lemma InitWithout(b: seq<Value>)
    requires |b| > 0 && Distinct(b)
    ensures b[|b| - 1] in b && b[|b| - 1] !in b[..|b| - 1] && Distinct(b[..|b| - 1])
  {
  }

  lemma InitHolds(a: seq<Value>, b: seq<Value>, x: Value)
    requires x !in b && forall y :: y in b + [x] ==> y in a + [x]
    ensures forall y :: y in b ==> y in a
  {
    forall y | y in b ensures y in a {
      assert y in b + [x];
    }
  }

  lemma {:induction false} SubsequenceIn(a: seq<Value>, b: seq<Value>)
    requires Subsequence(a, b)
    ensures forall x :: x in a ==> x in b
  {
    if |a| == 0 {
    } else {
      var n := |b| - 1;
      assert a == a[..|a| - 1] + [a[|a| - 1]] && b == b[..n] + [b[n]];
      SubsequenceIn(if a[|a| - 1] == b[n] then a[..|a| - 1] else a, b[..n]);
    }
  }

  // ---- TTL switched off ----

  // A TTL of zero does not switch age off: whatever is stamped below 0 is still refused.
  lemma TTLOffReads(sc: Schema, cfg: Config, ns: int, recs: seq<Record>)
    requires cfg.ttl <= 0
    ensures (forall i :: 0 <= i < |recs| ==> !Read(sc, recs[i], TTLCutoff(cfg, ns)).Skip?)
            <==> forall i :: 0 <= i < |recs| && |recs[i].dims| == |sc.dims| && |recs[i].mets| == |sc.metrics| ==>
              recs[i].updated >= 0
  {
    hide TupleOf;
    forall i | 0 <= i < |recs|
      ensures Read(sc, recs[i], TTLCutoff(cfg, ns)).Skip?
              <==> |recs[i].dims| == |sc.dims| && |recs[i].mets| == |sc.metrics| && recs[i].updated < 0
    {
    }
  }

  // What reclaiming would keep if only expiry counted.
  ghost function Unexpired(m: Contents, now: int): Contents {
    map t | t in m && !Expired(m[t].expire, now) :: m[t]
  }

  // And what is stored with such a stamp is dropped by the next merge.
  lemma TTLOffKeeps(cfg: Config, ns: int, m: Contents, now: int)
    requires cfg.ttl <= 0
    ensures Retain(m, TTLCutoff(cfg, ns), now) == Unexpired(m, now)
            <==> forall t :: t in m && !Expired(m[t].expire, now) ==> m[t].updated >= 0
  {
    var (kept, all) := (Retain(m, TTLCutoff(cfg, ns), now), Unexpired(m, now));
    if forall t :: t in m && !Expired(m[t].expire, now) ==> m[t].updated >= 0 {
      assert kept == all;
    } else {
      var t :| t in m && !Expired(m[t].expire, now) && m[t].updated < 0;
      assert t in all && t !in kept;
    }
  }

  // ---- Merges and queries ----

  // Reclaiming is invisible: an entry a merge drops as expired was already unseen, so
  // when no entry is TTL-old every later query answers as before.
  lemma CompactionInvisible(sc: Schema, m: Contents, cutoff: int, now: int, groups: seq<Group>, later: int)
    requires now <= later && forall t :: t in m ==> m[t].updated >= cutoff
    ensures Selected(sc, Retain(m, cutoff, now), groups, later) == Selected(sc, m, groups, later)
  {
    hide MatchesAny;
  }

  // The decoded rows of a snapshot.
  function DecodedRows(ds: Dicts, rows: seq<Row>): seq<(Tuple, Entry)> {
    if |rows| == 0 then []
    else DecodedRows(ds, rows[..|rows| - 1]) + [(Decode(ds, rows[|rows| - 1].ids), EntryOf(rows[|rows| - 1]))]
  }

  lemma {:induction false} DecodedCount(sc: Schema, ds: Dicts, rows: seq<Row>, t: Tuple, e: Entry)
    requires DictsOK(sc, ds) && RowsIn(sc, ds, rows) && UniqueIds(rows)
    ensures multiset(DecodedRows(ds, rows))[(t, e)] == if t in MapOf(ds, rows) && MapOf(ds, rows)[t] == e then 1 else 0
  {
    hide DictsOK, InRange, Decode;
    if |rows| == 0 {
    } else {
      var init := rows[..|rows| - 1];
      DecodedCount(sc, ds, init, t, e);
      Query.LastIsNew(sc, ds, rows);
      var last := rows[|rows| - 1];
      assert multiset(DecodedRows(ds, rows))
             == multiset(DecodedRows(ds, init)) + multiset{(Decode(ds, last.ids), EntryOf(last))};
    }
  }

  // Two snapshots of one map hold the same decoded rows, each as often.
  lemma MergesAgree(sc: Schema, a: SnapV, b: SnapV)
    requires SnapOK(sc, a) && SnapOK(sc, b) && MapOf(a.dicts, a.rows) == MapOf(b.dicts, b.rows)
    ensures multiset(DecodedRows(a.dicts, a.rows)) == multiset(DecodedRows(b.dicts, b.rows))
  {
    hide MapOf, DecodedRows, Keyed, Scalars;
    forall x: (Tuple, Entry)
      ensures multiset(DecodedRows(a.dicts, a.rows))[x] == multiset(DecodedRows(b.dicts, b.rows))[x]
    {
      DecodedCount(sc, a.dicts, a.rows, x.0, x.1);
      DecodedCount(sc, b.dicts, b.rows, x.0, x.1);
    }
  }

  // So the renumbering and the id-stable merge of one view agree row for row.
  lemma PathsAgree(sc: Schema, m: ViewV, cutoff: int, now: int, a: Snapshot, b: Snapshot)
    requires Merge.MergeOK(sc, m, cutoff, now, a) && Merge.MergeOK(sc, m, cutoff, now, b)
    ensures multiset(DecodedRows(Entries(a.dicts), a.rows)) == multiset(DecodedRows(Entries(b.dicts), b.rows))
  {
    hide MapOf, DecodedRows, Retain, Abs, SnapOK;
    MergesAgree(sc, a.Model(), b.Model());
  }
}
