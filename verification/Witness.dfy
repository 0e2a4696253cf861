// Inputs on which a promise fails: one label, one metric, a row or two.
module Witness {
  import Bits
  import opened Packing
  import opened Decimal
  import opened Table
  import opened Oracle
  import Upsert
  import Unmerged
  import opened Store
  import Compaction
  import Aggregate
  import Collision
  import PlanAll

  // One row per stamp, each under its own label.
  function Stamped(stamps: seq<int>): SnapV
    requires 1 <= |stamps| <= 2
  {
    var rows := seq(|stamps|, i requires 0 <= i < |stamps| => Row([i], [0], stamps[i], 0));
    SnapV([[Str([97]), Str([98])]], [0], rows, seq(|stamps|, (i: nat) => i), MaxUpdated(rows), MinUpdated(rows), 0)
  }

  lemma StampedOK(stamps: seq<int>)
    requires 1 <= |stamps| <= 2
    ensures SnapOK(ONE_LABEL, Stamped(stamps)) && ViewOK(ONE_LABEL, NewView(ONE_LABEL, Stamped(stamps)))
    ensures Stamped(stamps).minExpire == 0
  {
    hide MaxUpdated, MinUpdated;
    var s := Stamped(stamps);
    var none: seq<nat> := [];
    assert [2][1..] == none && Width(none) == 0 && DictBits(2) == 1;
    assert IndexCards(ONE_LABEL, s.dicts) == [2];
    forall i: nat | i < |s.rows| ensures KeyOf([0], [i]) == i {
      assert Bits.Pow2(0) == 1;
      assert [i][1..] == none;
    }
    NeverExpires(s.rows);
    NewViewOK(ONE_LABEL, s);
  }

  lemma {:induction false} NeverExpires(rows: seq<Row>)
    requires forall r :: 0 <= r < |rows| ==> rows[r].expire == 0
    ensures MinExpire(rows) == 0
  {
    if |rows| == 0 {
    } else {
      NeverExpires(rows[..|rows| - 1]);
    }
  }

  // The row stamped 0 comes first and is forgotten: the recorded minimum is 5.
  lemma ZeroStamp()
    ensures SnapOK(ONE_LABEL, Stamped([0, 5])) && Stamped([0, 5]).minUpdated == 5
    ensures ZeroForgotten(Stamped([0, 5]).rows) && !LeastUpdated(Stamped([0, 5]).rows, 5)
  {
    StampedOK([0, 5]);
    var rows := Stamped([0, 5]).rows;
    assert rows[0].updated == 0 && rows[1].updated == 5;
    assert rows[..1][..0] == [] && MinUpdated(rows[..1]) == 0;
    assert MinUpdated(rows) == 5;
  }

  // ---- The trigger ----

  const BETWEEN := Config(1_500_000, 0, 0, 0)

  // A row stamped 1, a TTL of 1.5 milliseconds, a clock 100 nanoseconds past the third
  // millisecond: the trigger asks for a merge that changes nothing.
  lemma TriggerMisfires()
    ensures var m := NewView(ONE_LABEL, Stamped([1]));
            && ViewOK(ONE_LABEL, m) && Misfires(ONE_LABEL, BETWEEN, m, 3_000_100)
                 && !Refused(ONE_LABEL, BETWEEN, m, 3_000_100)
            && Triggered(BETWEEN, m, Milli(3_000_100))
                 && !WouldAlter(ONE_LABEL, BETWEEN, m, 3_000_100)
  {
    hide ViewOK, Pending, Refused;
    var m := NewView(ONE_LABEL, Stamped([1]));
    StampedOK([1]);
    var rows := Stamped([1]).rows;
    assert rows[..0] == [] && MinUpdated(rows) == 1;
    assert rows[0].updated == 1;
    assert !ZeroForgotten(rows);
    assert Milli(3_000_100) == 3 && TTLCutoff(BETWEEN, 3_000_100) == 1;
    assert m.delta.rows == [];
    if Refused(ONE_LABEL, BETWEEN, m, 3_000_100) {
      RefusedHasDelta(ONE_LABEL, BETWEEN, m, 3_000_100);
    }
    TriggerExact(ONE_LABEL, BETWEEN, m, 3_000_100);
  }

  // ---- Merges that are refused ----

  lemma {:induction false} AllKept(sc: Schema, ds: Dicts, rows: seq<Row>, now: int)
    requires Unmerged.Unstamped(rows)
    ensures Retain(MapOf(ds, rows), 0, now) == MapOf(ds, rows)
  {
    hide Decode;
    if |rows| == 0 {
    } else {
      AllKept(sc, ds, rows[..|rows| - 1], now);
    }
  }

  // An unmerged view without a TTL: everything would be kept.
  lemma UnmergedKept(sc: Schema, ds: Dicts, rows: seq<Row>, cfg: Config, ns: int)
    requires sc.Valid() && DictsOK(sc, ds) && RowsIn(sc, ds, rows) && UniqueIds(rows) && Unmerged.Unstamped(rows)
    requires cfg.ttl <= 0 && |rows| > 0
    ensures var m := Unmerged.RowsView(sc, ds, rows);
            && ViewOK(sc, m) && Triggered(cfg, m, Milli(ns)) && KeptNow(cfg, m, ns) == MapOf(ds, rows)
            && |KeptNow(cfg, m, ns)| == |rows|
  {
    hide ViewOK, MapOf, Abs, DictsOK, RowsIn, UniqueIds, Retain, Milli;
    Unmerged.RowsViewOK(sc, ds, rows);
    AllKept(sc, ds, rows, Milli(ns));
    Aggregate.MapOfCard(sc, ds, rows);
  }

  const ONE_ROW := Config(0, 1, 0, 0)

  // Two delta rows and a cap of one: the trigger asks, the merge is refused, and the view
  // stays as it is.
  lemma CapRefused(ns: int)
    ensures var m := Collision.PairView(ONE_LABEL, Collision.LoneRow(1, 1, 0, 0), Collision.LoneRow(1, 1, 0, 1));
            && ViewOK(ONE_LABEL, m) && Triggered(ONE_ROW, m, Milli(ns)) && OverCap(ONE_ROW, |KeptNow(ONE_ROW, m, ns)|)
            && Misfires(ONE_LABEL, ONE_ROW, m, ns) && !WouldAlter(ONE_LABEL, ONE_ROW, m, ns)
  {
    hide ViewOK, KeptNow, Pending, Triggered, Milli;
    var (x, y) := (Collision.LoneRow(1, 1, 0, 0), Collision.LoneRow(1, 1, 0, 1));
    assert x.ids[0] == 0 && y.ids[0] == 1;
    Collision.TwoEachOK(ONE_LABEL);
    Collision.TwoRowsIn(ONE_LABEL, 0, x, y);
    UnmergedKept(ONE_LABEL, Collision.TwoEach(ONE_LABEL), [x, y], ONE_ROW, ns);
  }

  // Sixteen labels, every one with seventeen values: 80 bits.
  const WIDE := Schema(seq(16, (i: nat) => Dim(seq(i, (_: nat) => 'a'), false)), 16, ["m"])

  function WideDicts(): Dicts {
    seq(16, (_: nat) => seq(17, i requires 0 <= i < 17 => Str([i])))
  }

  function WideRows(): seq<Row> {
    seq(17, (i: nat) => Row(seq(16, (_: nat) => i), [0], 0, 0))
  }

  const NO_LIMITS := Config(0, 0, 0, 0)

  // Seventeen delta rows no packed key can hold: the same.
  lemma KeyRefused(ns: int)
    ensures var m := Unmerged.RowsView(WIDE, WideDicts(), WideRows());
            && ViewOK(WIDE, m) && Triggered(NO_LIMITS, m, Milli(ns))
                 && Compaction.LiveWidth(WIDE, KeptNow(NO_LIMITS, m, ns)) == 80
            && Misfires(WIDE, NO_LIMITS, m, ns) && !WouldAlter(WIDE, NO_LIMITS, m, ns)
  {
    hide ViewOK, KeptNow, Pending, Triggered, Milli, Compaction.LiveWidth;
    WideOK();
    UnmergedKept(WIDE, WideDicts(), WideRows(), NO_LIMITS, ns);
    WideWidth();
  }

  lemma WideOK()
    ensures WIDE.Valid() && DictsOK(WIDE, WideDicts()) && RowsIn(WIDE, WideDicts(), WideRows())
    ensures UniqueIds(WideRows()) && Unmerged.Unstamped(WideRows())
  {
    var ds: Dicts := WideDicts();
    var rows := WideRows();
    forall i, j | 0 <= i < j < 16 ensures WIDE.dims[i].name != WIDE.dims[j].name {
      assert |WIDE.dims[i].name| == i && |WIDE.dims[j].name| == j;
    }
    forall i, j | 0 <= i < j < 17 ensures rows[i].ids != rows[j].ids {
      assert rows[i].ids[0] == i && rows[j].ids[0] == j;
    }
    forall d: nat, i, j | d < 16 && 0 <= i < j < 17 ensures ds[d][i] != ds[d][j] {
      assert ds[d][i].text[0] == i && ds[d][j].text[0] == j;
    }
  }

  lemma WideWidth()
    ensures Compaction.LiveWidth(WIDE, MapOf(WideDicts(), WideRows())) == 80
  {
    hide MapOf, DictsOK, RowsIn, UniqueIds, ValuesOf, Width;
    var m := MapOf(WideDicts(), WideRows());
    WideOK();
    MapOfLists(WIDE, WideDicts(), WideRows());
    var cards := seq(WIDE.indexDims, (d: nat) => |ValuesOf(m, d)|);
    forall d: nat | d < 16 ensures |ValuesOf(m, d)| == 17 {
      Aggregate.DistinctIsValues(WIDE, WideDicts(), WideRows(), m, d);
      SeventeenIds(d);
    }
    assert cards == seq(16, (_: nat) => 17);
    WidthSame(16, 17);
    assert DictBits(17) == 5;
  }

  lemma SeventeenIds(d: nat)
    requires d < 16
    ensures |Aggregate.IdSet(WideRows(), d)| == 17
  {
    var (rows, ids) := (WideRows(), Aggregate.IdSet(WideRows(), d));
    forall x: nat ensures x in ids <==> 0 <= x < 17 {
      if x < 17 {
        assert rows[x] in rows && rows[x].ids[d] == x;
      }
    }
    PlanAll.SpanCard(0, 17, ids);
  }

  lemma {:induction false} WidthSame(n: nat, card: nat)
    ensures Width(seq(n, (_: nat) => card)) == n * DictBits(card)
  {
    hide DictBits;
    var cards := seq(n, (_: nat) => card);
    if n == 0 {
    } else {
      assert cards[1..] == seq(n - 1, (_: nat) => card);
      WidthSame(n - 1, card);
      OneMoreWidth(cards, DictBits(card), n);
    }
  }

  lemma OneMoreWidth(cards: seq<nat>, bits: nat, n: nat)
    requires |cards| == n > 0 && DictBits(cards[0]) == bits && Width(cards[1..]) == (n - 1) * bits
    ensures Width(cards) == n * bits
  {
    hide DictBits;
    assert (n - 1) * bits + bits == n * bits;
  }

  // ---- TTL off ----

  const NO_TTL := Config(0, 0, 0, 0)

  // With TTL off, a well-formed record stamped -1 is not stored.
  lemma NegativeRecord(ns: int)
    ensures Read(ONE_LABEL, Record([[97]], [1], -1, None), TTLCutoff(NO_TTL, ns)).Skip?
    ensures ApplyAll(ONE_LABEL, map[], [Record([[97]], [1], -1, None)], TTLCutoff(NO_TTL, ns), false) == Some(map[])
  {
    var recs := [Record([[97]], [1], -1, None)];
    assert recs[..0] == [];
    assert ApplyAll(ONE_LABEL, map[], recs[..0], 0, false) == Some(map[]);
  }

  // Stored, it does not survive a merge, although it never expires.
  lemma NegativeRow(ns: int, now: int)
    ensures var m := NewView(ONE_LABEL, Stamped([-1]));
            ViewOK(ONE_LABEL, m) && Abs(m) != map[] && Retain(Abs(m), TTLCutoff(NO_TTL, ns), now) == map[]
  {
    hide MapOf, Decode, ViewOK, Abs;
    StampedOK([-1]);
    var s := Stamped([-1]);
    NewViewOK(ONE_LABEL, s);
    OneRow(s);
  }

  lemma OneRow(s: SnapV)
    requires SnapOK(ONE_LABEL, s) && |s.rows| == 1 && s.rows[0].updated < 0
    ensures MapOf(s.dicts, s.rows) != map[]
    ensures forall t :: t in MapOf(s.dicts, s.rows) ==> MapOf(s.dicts, s.rows)[t].updated < 0
  {
    hide MapOf, Decode, Keyed, Scalars, UniqueIds;
    forall t | t in MapOf(s.dicts, s.rows) ensures MapOf(s.dicts, s.rows)[t].updated < 0 {
      var r := MapOfKey(s.dicts, s.rows, t);
      MapOfLookup(ONE_LABEL, s.dicts, s.rows, 0);
    }
    MapOfLookup(ONE_LABEL, s.dicts, s.rows, 0);
  }

  // A dictionary value no row uses: a merge drops it and changes nothing else, and the
  // trigger does not ask for that.
  lemma IdleGarbage(ns: int)
    requires ns >= 0
    ensures var m := NewView(ONE_LABEL, Stamped([1]));
            && ViewOK(ONE_LABEL, m) && !Triggered(NO_LIMITS, m, Milli(ns)) && !WouldAlter(ONE_LABEL, NO_LIMITS, m, ns)
            && GateOpen(NO_LIMITS, 0, Milli(ns)) && Unused(Upsert.CombOf(m), KeptNow(NO_LIMITS, m, ns))
  {
    hide ViewOK, Refused, MapOf, Retain;
    var (s, m) := (Stamped([1]), NewView(ONE_LABEL, Stamped([1])));
    StampedOK([1]);
    assert s.rows[..0] == [] && MinUpdated(s.rows) == 1;
    PendingExact(ONE_LABEL, NO_LIMITS, m, ns);
    FreshComb(ONE_LABEL, s);
    NewViewOK(ONE_LABEL, s);
    OnlyFirst(s);
    assert Str([98]) in Upsert.CombOf(m)[0];
  }

  lemma OnlyFirst(s: SnapV)
    requires s == Stamped([1])
    ensures Str([98]) !in ValuesOf(MapOf(s.dicts, s.rows), 0)
  {
    hide MapOf;
    forall t | t in MapOf(s.dicts, s.rows) ensures t == [Str([97])] {
      var r := MapOfKey(s.dicts, s.rows, t);
      assert r == 0 && Decode(s.dicts, s.rows[0].ids) == [Str([97])];
    }
  }
}
