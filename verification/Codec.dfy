// Round trip and decoder soundness of the snapshot file.
module Codec {
  import opened Packing
  import opened Decimal
  import opened Table
  import opened Oracle
  import opened Bytes
  import opened Format

  // ---- Items read back ----

  lemma TextBack(isInt: bool, i: nat, s: Text)
    requires |s| < TWO32 && (isInt ==> ParseInt(s).Some?)
    ensures ReadsBack(TextItem(isInt), PutText, i, s)
  {
    WordSizes();
    forall r: Text ensures TextItem(isInt)(i, PutText(s) + r) == Got(s, r) {
      CatAssoc(LE(|s|, 4), s, r);
      GetPut(|s|, 4, s + r);
      assert (s + r)[..|s|] == s && (s + r)[|s|..] == r;
    }
  }

  ghost predicate TextsOK(isInt: bool, raw: seq<Text>) {
    && |raw| < TWO32 && Distinct(Meanings(isInt, raw))
    && forall i :: 0 <= i < |raw| ==> |raw[i]| < TWO32 && (isInt ==> ParseInt(raw[i]).Some?)
  }

  lemma DictBack(sc: Schema, d: nat, raw: seq<Text>)
    requires TextsOK(IsInt(sc, d), raw)
    ensures ReadsBack(DictItem(sc), PutDict, d, raw)
  {
    hide GetMany, PutMany, ReadsBack, LE;
    WordSizes();
    var isInt := IsInt(sc, d);
    forall i: nat | i < |raw| ensures ReadsBack(TextItem(isInt), PutText, i, raw[i]) {
      TextBack(isInt, i, raw[i]);
    }
    forall r: Text ensures DictItem(sc)(d, PutDict(raw) + r) == Got(raw, r) {
      CatAssoc(LE(|raw|, 4), PutMany(PutText, raw), r);
      GetPut(|raw|, 4, PutMany(PutText, raw) + r);
      ManyRoundTrip(TextItem(isInt), PutText, raw, r);
    }
    ReadsAre(DictItem(sc), PutDict, d, raw);
  }

  lemma ReadsAre<T>(p: (nat, Text) -> Parsed<T>, e: T -> Text, i: nat, v: T)
    requires forall r: Text :: p(i, e(v) + r) == Got(v, r)
    ensures ReadsBack(p, e, i, v)
  {
  }

  lemma IdBack(card: nat, i: nat, id: nat)
    requires id < card <= TWO32
    ensures ReadsBack(IdItem(card), PutId, i, id)
  {
    WordSizes();
    forall r: Text ensures IdItem(card)(i, PutId(id) + r) == Got(id, r) {
      GetPut(id, 4, r);
    }
  }

  lemma IdsBack(cards: seq<nat>, n: nat, d: nat, col: seq<nat>)
    requires |col| == n && CardAt(cards, d) <= TWO32 && forall r :: 0 <= r < n ==> col[r] < CardAt(cards, d)
    ensures ReadsBack(IdsItem(cards, n), PutIds, d, col)
  {
    hide GetMany, PutMany, ReadsBack;
    forall i: nat | i < n ensures ReadsBack(IdItem(CardAt(cards, d)), PutId, i, col[i]) {
      IdBack(CardAt(cards, d), i, col[i]);
    }
    forall r: Text ensures IdsItem(cards, n)(d, PutIds(col) + r) == Got(col, r) {
      ManyRoundTrip(IdItem(CardAt(cards, d)), PutId, col, r);
    }
    ReadsAre(IdsItem(cards, n), PutIds, d, col);
  }

  lemma IntBack(i: nat, v: int)
    requires Int64(v)
    ensures ReadsBack(IntItem(), PutInt, i, v)
  {
    WordSizes();
    SignedOfWord(v);
    forall r: Text ensures IntItem()(i, PutInt(v) + r) == Got(v, r) {
      GetPut(Word(v), 8, r);
    }
  }

  ghost predicate AllInt64(col: seq<int>) { forall r :: 0 <= r < |col| ==> Int64(col[r]) }

  lemma ColumnBack(col: seq<int>, rest: Text)
    requires AllInt64(col)
    ensures GetMany(IntItem(), PutInts(col) + rest, |col|) == Got(col, rest)
  {
    hide GetMany, PutMany, ReadsBack;
    forall i: nat | i < |col| ensures ReadsBack(IntItem(), PutInt, i, col[i]) {
      IntBack(i, col[i]);
    }
    ManyRoundTrip(IntItem(), PutInt, col, rest);
  }

  lemma IntsBack(n: nat, m: nat, col: seq<int>)
    requires |col| == n && AllInt64(col)
    ensures ReadsBack(IntsItem(n), PutInts, m, col)
  {
    hide GetMany, PutMany, ReadsBack;
    forall r: Text ensures IntsItem(n)(m, PutInts(col) + r) == Got(col, r) {
      ColumnBack(col, r);
    }
    ReadsAre(IntsItem(n), PutInts, m, col);
  }

  // Columns that a file can hold.
  ghost predicate TablesOK(sc: Schema, n: nat, t: Tables) {
    && |t.raw| == |t.ids| == |sc.dims| && |t.mets| == |sc.metrics| && |t.updated| == |t.expire| == n
    && (forall d: nat :: d < |t.raw| ==> TextsOK(IsInt(sc, d), t.raw[d]))
    && (forall d: nat :: d < |t.ids| ==> |t.ids[d]| == n && forall r :: 0 <= r < n ==> t.ids[d][r] < |t.raw[d]|)
    && (forall m: nat :: m < |t.mets| ==> |t.mets[m]| == n && AllInt64(t.mets[m]))
    && AllInt64(t.updated) && AllInt64(t.expire)
  }

  lemma DictsBack(sc: Schema, t: Tables, n: nat, rest: Text)
    requires TablesOK(sc, n, t)
    ensures GetMany(DictItem(sc), PutMany(PutDict, t.raw) + rest, |sc.dims|) == Got(t.raw, rest)
  {
    hide GetMany, PutMany, ReadsBack, TextsOK;
    forall d: nat | d < |t.raw| ensures ReadsBack(DictItem(sc), PutDict, d, t.raw[d]) {
      DictBack(sc, d, t.raw[d]);
    }
    ManyRoundTrip(DictItem(sc), PutDict, t.raw, rest);
  }

  lemma IdColumnsBack(sc: Schema, t: Tables, n: nat, rest: Text)
    requires TablesOK(sc, n, t)
    ensures GetMany(IdsItem(Lengths(t.raw), n), PutMany(PutIds, t.ids) + rest, |sc.dims|) == Got(t.ids, rest)
  {
    hide GetMany, PutMany, ReadsBack;
    forall d: nat | d < |t.ids| ensures ReadsBack(IdsItem(Lengths(t.raw), n), PutIds, d, t.ids[d]) {
      assert TextsOK(IsInt(sc, d), t.raw[d]);
      IdsBack(Lengths(t.raw), n, d, t.ids[d]);
    }
    ManyRoundTrip(IdsItem(Lengths(t.raw), n), PutIds, t.ids, rest);
  }

  lemma MetColumnsBack(sc: Schema, t: Tables, n: nat, rest: Text)
    requires TablesOK(sc, n, t)
    ensures GetMany(IntsItem(n), PutMany(PutInts, t.mets) + rest, |sc.metrics|) == Got(t.mets, rest)
  {
    hide GetMany, PutMany, ReadsBack, TextsOK;
    forall m: nat | m < |t.mets| ensures ReadsBack(IntsItem(n), PutInts, m, t.mets[m]) {
      IntsBack(n, m, t.mets[m]);
    }
    ManyRoundTrip(IntsItem(n), PutInts, t.mets, rest);
  }

  lemma TablesBack(sc: Schema, n: nat, t: Tables)
    requires TablesOK(sc, n, t)
    ensures GetTables(sc, n, PutTables(t)) == Got(t, [])
  {
    hide GetMany, PutMany, PutInts;
    var (u, e) := (PutInts(t.updated), PutInts(t.expire));
    var m := PutMany(PutInts, t.mets) + (u + e);
    var i := PutMany(PutIds, t.ids) + m;
    DictsBack(sc, t, n, i);
    IdColumnsBack(sc, t, n, m);
    MetColumnsBack(sc, t, n, u + e);
    ColumnBack(t.updated, e);
    ColumnBack(t.expire, []);
    assert e + [] == e;
  }

  lemma HeaderBack(fp: nat, cutoff: int, maxUpdated: int, n: nat, tables: Text)
    requires fp < TWO64 && Int64(maxUpdated) && n < TWO64 && n <= |tables|
    ensures GetHeader(fp, cutoff, PutBody(fp, maxUpdated, n, tables))
            == if cutoff > 0 && maxUpdated < cutoff then StaleHeader else Header(maxUpdated, n, tables)
  {
    hide LE, UnLE;
    WordSizes();
    var b4 := LE(n, 8) + tables;
    var b3 := PutInt(maxUpdated) + b4;
    var b2 := LE(fp, 8) + b3;
    var b1 := LE(VERSION, 4) + b2;
    assert (MAGIC + b1)[..|MAGIC|] == MAGIC && (MAGIC + b1)[|MAGIC|..] == b1;
    GetPut(VERSION, 4, b2);
    GetPut(fp, 8, b3);
    IntBack(0, maxUpdated);
    ReadBack(IntItem(), PutInt, 0, maxUpdated, b4);
    GetPut(n, 8, tables);
  }

  lemma SealBack(crc: Text -> nat, body: Text)
    ensures var data := Seal(crc, body);
            |data| == |body| + 4 && data[..|data| - 4] == body && UnLE(data[|data| - 4..]) == crc(body) % TWO32
  {
    WordSizes();
    var sum := crc(body) % TWO32;
    UnLEOfLE(sum, 4);
    Remainder(sum, TWO32, 0, sum);
    var data := Seal(crc, body);
    assert data[..|data| - 4] == body && data[|data| - 4..] == LE(sum, 4);
  }

  // The byte key under which delta and group-by index a row of ids: distinct rows of
  // one width never share it.
  lemma IdKeyInjective(a: seq<nat>, b: seq<nat>)
    requires |a| == |b| && (forall i :: 0 <= i < |a| ==> a[i] < TWO32 && b[i] < TWO32)
    ensures PutIds(a) == PutIds(b) <==> a == b
  {
    hide GetMany, PutMany, ReadsBack;
    forall i: nat | i < |a|
      ensures ReadsBack(IdItem(TWO32), PutId, i, a[i]) && ReadsBack(IdItem(TWO32), PutId, i, b[i])
    {
      IdBack(TWO32, i, a[i]);
      IdBack(TWO32, i, b[i]);
    }
    ManyRoundTrip(IdItem(TWO32), PutId, a, []);
    ManyRoundTrip(IdItem(TWO32), PutId, b, []);
  }

  // ---- Snapshots ----

  // Everything a base snapshot promises except that tuples are unique; an empty one
  // may carry any position.
  ghost predicate Coherent(sc: Schema, s: SnapV) {
    && sc.Valid() && DictsOK(sc, s.dicts) && RowsIn(sc, s.dicts, s.rows) && Keyed(sc, s)
    && (|s.rows| > 0 ==> s.maxUpdated == MaxUpdated(s.rows))
    && s.minUpdated == MinUpdated(s.rows) && s.minExpire == MinExpire(s.rows)
  }

  // A coherent snapshot is a valid one exactly when no tuple repeats and an empty
  // snapshot's position is 0.
  lemma CoherentIsValid(sc: Schema, s: SnapV)
    requires Coherent(sc, s)
    ensures SnapOK(sc, s) <==> UniqueIds(s.rows) && (|s.rows| == 0 ==> s.maxUpdated == 0)
  {
  }

  // The field widths of the file hold the snapshot's numbers.
  ghost predicate Narrow(s: SnapV) {
    && Int64(s.maxUpdated) && |s.rows| < TWO64
    && (forall d :: 0 <= d < |s.dicts| ==> |s.dicts[d]| < TWO32)
    && (forall d, i :: 0 <= d < |s.dicts| && 0 <= i < |s.dicts[d]| && s.dicts[d][i].Str? ==>
         |s.dicts[d][i].text| < TWO32)
    && (forall r :: 0 <= r < |s.rows| ==>
         Int64(s.rows[r].updated) && Int64(s.rows[r].expire) && AllInt64(s.rows[r].mets))
  }

  lemma IntsAreShort(n: int)
    requires Int64(n)
    ensures |FormatInt(n)| < TWO32
  {
    assert Pow10(10) == 10_000_000_000;
    assert Pow10(20) == 100_000_000_000_000_000_000;
    DigitsShort(if n < 0 then -n else n, 20);
  }

  lemma SpellBack(isInt: bool, v: Value)
    requires KindOK(v, isInt)
    ensures Meaning(isInt, Spell(v)) == v && (isInt ==> ParseInt(Spell(v)).Some?)
  {
    if isInt {
      ParseOfFormat(v.n);
    }
  }

  lemma SpellingsOK(isInt: bool, dict: seq<Value>)
    requires DictOK(dict, isInt) && |dict| < TWO32
    requires forall i :: 0 <= i < |dict| && dict[i].Str? ==> |dict[i].text| < TWO32
    ensures Meanings(isInt, Spellings(dict)) == dict && TextsOK(isInt, Spellings(dict))
  {
    hide Spell, Meaning;
    forall i | 0 <= i < |dict|
      ensures Meaning(isInt, Spellings(dict)[i]) == dict[i] && |Spellings(dict)[i]| < TWO32
                && (isInt ==> ParseInt(Spellings(dict)[i]).Some?)
    {
      SpellBack(isInt, dict[i]);
      SpellShort(dict[i], isInt);
    }
  }

  lemma SpellShort(v: Value, isInt: bool)
    requires KindOK(v, isInt) && (v.Str? ==> |v.text| < TWO32)
    ensures |Spell(v)| < TWO32
  {
    if v.Num? {
      IntsAreShort(v.n);
    }
  }

  lemma DictsAgain(sc: Schema, s: SnapV)
    requires Coherent(sc, s) && Narrow(s)
    ensures DictsFrom(sc, AllSpellings(s.dicts)) == s.dicts
    ensures forall d: nat :: d < |s.dicts| ==> TextsOK(IsInt(sc, d), AllSpellings(s.dicts)[d])
  {
    hide Keyed, RowsIn, Meanings, Spellings, TextsOK, MaxUpdated, MinUpdated, MinExpire;
    forall d: nat | d < |s.dicts|
      ensures Meanings(IsInt(sc, d), AllSpellings(s.dicts)[d]) == s.dicts[d]
                && TextsOK(IsInt(sc, d), AllSpellings(s.dicts)[d])
    {
      SpellingsOK(sc.dims[d].isInt, s.dicts[d]);
    }
  }

  lemma TablesFit(sc: Schema, s: SnapV)
    requires Coherent(sc, s) && Narrow(s)
    ensures TablesOK(sc, |s.rows|, TablesOf(sc, AllSpellings(s.dicts), s.rows))
  {
    hide Keyed, TextsOK, MaxUpdated, MinUpdated, MinExpire, Spellings;
    DictsAgain(sc, s);
    var t := TablesOf(sc, AllSpellings(s.dicts), s.rows);
    forall d: nat | d < |t.ids|
      ensures |t.ids[d]| == |s.rows| && forall r :: 0 <= r < |s.rows| ==> t.ids[d][r] < |t.raw[d]|
    {
      forall r | 0 <= r < |s.rows| ensures t.ids[d][r] < |t.raw[d]| {
        assert InRange(s.dicts, s.rows[r].ids);
      }
    }
  }

  // Recomputing shifts, keys and minima from the columns gives the snapshot back.
  lemma SnapAgain(sc: Schema, s: SnapV)
    requires Coherent(sc, s) && Narrow(s)
    ensures SnapFrom(sc, s.maxUpdated, |s.rows|, TablesOf(sc, AllSpellings(s.dicts), s.rows)) == s
    ensures Acceptable(sc, |s.rows|, TablesOf(sc, AllSpellings(s.dicts), s.rows), s)
  {
    hide TablesOf, Spellings, Meanings, Layout, MaxUpdated, MinUpdated, MinExpire, Width;
    DictsAgain(sc, s);
    var t := TablesOf(sc, AllSpellings(s.dicts), s.rows);
    TablesParts(sc, AllSpellings(s.dicts), s.rows);
    ColumnsRoundTrip(sc, AllSpellings(s.dicts), s.rows);
    ShiftsAgain(sc, s);
    assert Lengths(t.raw) == Cards(s.dicts) by {
      LengthsAre(s.dicts);
    }
    var keys := seq(|s.rows|, r requires 0 <= r < |s.rows| => KeyAt(s.shifts, s.rows[r]));
    assert keys == s.keys;
  }

  lemma LengthsAre(ds: Dicts)
    ensures Lengths(AllSpellings(ds)) == Cards(ds)
  {
  }

  lemma TablesParts(sc: Schema, raw: seq<seq<Text>>, rows: seq<Row>)
    ensures TablesOf(sc, raw, rows).raw == raw
  {
  }

  lemma ShiftsAgain(sc: Schema, s: SnapV)
    requires Coherent(sc, s)
    ensures ShiftsOf(Take(Cards(s.dicts), sc.indexDims)) == s.shifts
    ensures Width(Take(Cards(s.dicts), sc.indexDims)) <= 64
    ensures |s.shifts| <= |sc.dims| == |s.dicts|
  {
    LayoutIsShifts(s.shifts, IndexCards(sc, s.dicts));
  }

  lemma {:induction false} IntsLength(col: seq<int>)
    ensures |PutInts(col)| == 8 * |col|
  {
    if |col| == 0 {
    } else {
      IntsLength(col[..|col| - 1]);
    }
  }

  lemma TablesLong(t: Tables)
    ensures |t.expire| <= |PutTables(t)|
  {
    IntsLength(t.expire);
  }

  // Whatever well-formed columns are written, the reader gets as far as its last checks.
  lemma WrittenParses(sc: Schema, fp: nat, crc: Text -> nat, cutoff: int, maxUpdated: int, n: nat, t: Tables)
    requires fp < TWO64 && Int64(maxUpdated) && n < TWO64 && TablesOK(sc, n, t)
    ensures Parse(sc, fp, crc, cutoff, Seal(crc, PutBody(fp, maxUpdated, n, PutTables(t))))
            == if cutoff > 0 && maxUpdated < cutoff then Stale
               else if Acceptable(sc, n, t, SnapFrom(sc, maxUpdated, n, t))
               then Loaded(t, SnapFrom(sc, maxUpdated, n, t)) else Corrupt
  {
    hide SnapFrom, Acceptable, GetTables, PutTables, GetHeader, PutBody, LE, UnLE, Seal, TextsOK, AllInt64;
    var body := PutBody(fp, maxUpdated, n, PutTables(t));
    TablesLong(t);
    TablesBack(sc, n, t);
    HeaderBack(fp, cutoff, maxUpdated, n, PutTables(t));
    SealBack(crc, body);
    BodyLength(fp, maxUpdated, n, PutTables(t));
  }

  // Decoding what was encoded returns an equal snapshot, shifts, keys and minima
  // included, unless its position is already older than the cutoff.
  lemma RoundTrip(sc: Schema, fp: nat, crc: Text -> nat, cutoff: int, s: SnapV)
    requires Coherent(sc, s) && Narrow(s) && fp < TWO64
    ensures Parse(sc, fp, crc, cutoff, Encode(sc, fp, crc, s))
            == if cutoff > 0 && s.maxUpdated < cutoff then Stale
               else Loaded(TablesOf(sc, AllSpellings(s.dicts), s.rows), s)
  {
    hide Coherent, SnapFrom, Acceptable, PutTables, TablesOK, PutBody, TablesOf, Seal, Parse;
    TablesFit(sc, s);
    WrittenParses(sc, fp, crc, cutoff, s.maxUpdated, |s.rows|, TablesOf(sc, AllSpellings(s.dicts), s.rows));
    SnapAgain(sc, s);
  }

  lemma BodyLength(fp: nat, maxUpdated: int, n: nat, tables: Text)
    ensures |PutBody(fp, maxUpdated, n, tables)| == 36 + |tables|
  {
  }

  // A valid snapshot survives the round trip as long as it is not stale.
  lemma ValidRoundTrip(sc: Schema, fp: nat, crc: Text -> nat, cutoff: int, s: SnapV)
    requires SnapOK(sc, s) && Narrow(s) && fp < TWO64
    ensures Parse(sc, fp, crc, cutoff, Encode(sc, fp, crc, s)).Stale? <==> cutoff > 0 && s.maxUpdated < cutoff
    ensures cutoff <= 0 || s.maxUpdated >= cutoff ==>
              Parse(sc, fp, crc, cutoff, Encode(sc, fp, crc, s))
              == Loaded(TablesOf(sc, AllSpellings(s.dicts), s.rows), s)
  {
    hide TablesOf, Encode, Parse, AllSpellings;
    assert Coherent(sc, s);
    RoundTrip(sc, fp, crc, cutoff, s);
  }

  // An empty snapshot has position 0, so with a TTL in force it is always refused.
  lemma EmptyIsStale(sc: Schema, fp: nat, crc: Text -> nat, cutoff: int, shifts: seq<nat>)
    requires sc.Valid() && Layout(shifts, seq(sc.indexDims, (_: nat) => 0)) && fp < TWO64 && cutoff > 0
    ensures Parse(sc, fp, crc, cutoff, Encode(sc, fp, crc, EmptySnap(sc, shifts))).Stale?
  {
    hide Encode, Parse, Layout;
    EmptySnapOK(sc, shifts);
    ValidRoundTrip(sc, fp, crc, cutoff, EmptySnap(sc, shifts));
  }

  // ---- What an accepted file is ----

  lemma TextSound(isInt: bool, i: nat, x: Text)
    requires TextItem(isInt)(i, x).Got?
    ensures var (s, r) := (TextItem(isInt)(i, x).val, TextItem(isInt)(i, x).rest);
            x == PutText(s) + r && |s| < TWO32 && (isInt ==> ParseInt(s).Some?)
  {
    WordSizes();
    PutGet(x, 4);
    var (n, y) := (GetLE(x, 4).val, GetLE(x, 4).rest);
    assert y == y[..n] + y[n..];
    CatAssoc(LE(n, 4), y[..n], y[n..]);
  }

  lemma DictSound(sc: Schema, d: nat, x: Text)
    requires DictItem(sc)(d, x).Got?
    ensures var (raw, r) := (DictItem(sc)(d, x).val, DictItem(sc)(d, x).rest);
            x == PutDict(raw) + r && TextsOK(IsInt(sc, d), raw)
  {
    hide GetMany, PutMany, PutText, TextItem, LE, UnLE;
    WordSizes();
    var isInt := IsInt(sc, d);
    PutGet(x, 4);
    var (n, y) := (GetLE(x, 4).val, GetLE(x, 4).rest);
    forall i: nat, z: Text | i < n && TextItem(isInt)(i, z).Got?
      ensures z == PutText(TextItem(isInt)(i, z).val) + TextItem(isInt)(i, z).rest
      ensures TextOK(isInt)(i, TextItem(isInt)(i, z).val)
    {
      TextSound(isInt, i, z);
    }
    ManySound(TextItem(isInt), PutText, y, n);
    ManyEach(TextItem(isInt), TextOK(isInt), y, n);
    var (raw, r) := (GetMany(TextItem(isInt), y, n).val, GetMany(TextItem(isInt), y, n).rest);
    CatAssoc(LE(n, 4), PutMany(PutText, raw), r);
    assert forall i: nat :: i < n ==> TextOK(isInt)(i, raw[i]);
  }

  function TextOK(isInt: bool): (nat, Text) -> bool {
    (i: nat, s: Text) => |s| < TWO32 && (isInt ==> ParseInt(s).Some?)
  }

  lemma IdSound(card: nat, i: nat, x: Text)
    requires IdItem(card)(i, x).Got?
    ensures x == PutId(IdItem(card)(i, x).val) + IdItem(card)(i, x).rest && IdItem(card)(i, x).val < card
  {
    PutGet(x, 4);
  }

  function Below(card: nat): (nat, nat) -> bool { (i: nat, id: nat) => id < card }

  // A column of ids below the card.
  ghost predicate IdColumn(col: seq<nat>, n: nat, card: nat) {
    |col| == n && forall r :: 0 <= r < n ==> col[r] < card
  }

  lemma IdsSound(cards: seq<nat>, n: nat, d: nat, x: Text)
    requires IdsItem(cards, n)(d, x).Got?
    ensures x == PutIds(IdsItem(cards, n)(d, x).val) + IdsItem(cards, n)(d, x).rest
    ensures IdColumn(IdsItem(cards, n)(d, x).val, n, CardAt(cards, d))
  {
    hide GetMany, PutMany, PutId, IdItem;
    var card := CardAt(cards, d);
    forall i: nat, z: Text | i < n && IdItem(card)(i, z).Got?
      ensures z == PutId(IdItem(card)(i, z).val) + IdItem(card)(i, z).rest
      ensures Below(card)(i, IdItem(card)(i, z).val)
    {
      IdSound(card, i, z);
    }
    ManySound(IdItem(card), PutId, x, n);
    ManyEach(IdItem(card), Below(card), x, n);
    var col := GetMany(IdItem(card), x, n).val;
    assert forall i: nat :: i < n ==> Below(card)(i, col[i]);
  }

  lemma IntSound(i: nat, x: Text)
    requires IntItem()(i, x).Got?
    ensures x == PutInt(IntItem()(i, x).val) + IntItem()(i, x).rest && Int64(IntItem()(i, x).val)
  {
    WordSizes();
    PutGet(x, 8);
    WordOfSigned(GetLE(x, 8).val);
  }

  function Fits64(): (nat, int) -> bool { (i: nat, v: int) => Int64(v) }

  lemma IntsSound(n: nat, x: Text)
    requires GetMany(IntItem(), x, n).Got?
    ensures x == PutInts(GetMany(IntItem(), x, n).val) + GetMany(IntItem(), x, n).rest
    ensures |GetMany(IntItem(), x, n).val| == n && AllInt64(GetMany(IntItem(), x, n).val)
  {
    hide GetMany, PutMany, PutInt, IntItem;
    forall i: nat, z: Text | i < n && IntItem()(i, z).Got?
      ensures z == PutInt(IntItem()(i, z).val) + IntItem()(i, z).rest
      ensures Fits64()(i, IntItem()(i, z).val)
    {
      IntSound(i, z);
    }
    ManySound(IntItem(), PutInt, x, n);
    ManyEach(IntItem(), Fits64(), x, n);
    var col := GetMany(IntItem(), x, n).val;
    assert forall i: nat :: i < n ==> Fits64()(i, col[i]);
  }

  // ---- Column groups ----

  ghost function DictQ(sc: Schema): (nat, seq<Text>) -> bool {
    (d: nat, raw: seq<Text>) => TextsOK(IsInt(sc, d), raw)
  }

  lemma DictsSound(sc: Schema, b: Text)
    requires GetMany(DictItem(sc), b, |sc.dims|).Got?
    ensures var (raw, r) := (GetMany(DictItem(sc), b, |sc.dims|).val, GetMany(DictItem(sc), b, |sc.dims|).rest);
            b == PutMany(PutDict, raw) + r && |raw| == |sc.dims| && forall d: nat :: d < |raw| ==>
              TextsOK(IsInt(sc, d), raw[d])
  {
    hide GetMany, PutMany, PutDict, DictItem, TextsOK;
    var n := |sc.dims|;
    forall i: nat, z: Text | i < n && DictItem(sc)(i, z).Got?
      ensures z == PutDict(DictItem(sc)(i, z).val) + DictItem(sc)(i, z).rest
      ensures DictQ(sc)(i, DictItem(sc)(i, z).val)
    {
      DictSound(sc, i, z);
    }
    ManySound(DictItem(sc), PutDict, b, n);
    ManyEach(DictItem(sc), DictQ(sc), b, n);
    var raw := GetMany(DictItem(sc), b, n).val;
    assert forall i: nat :: i < n ==> DictQ(sc)(i, raw[i]);
  }

  ghost function IdsQ(cards: seq<nat>, n: nat): (nat, seq<nat>) -> bool {
    (d: nat, col: seq<nat>) => IdColumn(col, n, CardAt(cards, d))
  }

  lemma IdColumnsSound(cards: seq<nat>, n: nat, b: Text, nd: nat)
    requires GetMany(IdsItem(cards, n), b, nd).Got?
    ensures var (ids, r) := (GetMany(IdsItem(cards, n), b, nd).val, GetMany(IdsItem(cards, n), b, nd).rest);
            b == PutMany(PutIds, ids) + r && |ids| == nd && forall d: nat :: d < nd ==>
              IdColumn(ids[d], n, CardAt(cards, d))
  {
    hide GetMany, PutMany, PutIds, IdsItem, IdColumn;
    forall i: nat, z: Text | i < nd && IdsItem(cards, n)(i, z).Got?
      ensures z == PutIds(IdsItem(cards, n)(i, z).val) + IdsItem(cards, n)(i, z).rest
      ensures IdsQ(cards, n)(i, IdsItem(cards, n)(i, z).val)
    {
      IdsSound(cards, n, i, z);
    }
    ManySound(IdsItem(cards, n), PutIds, b, nd);
    ManyEach(IdsItem(cards, n), IdsQ(cards, n), b, nd);
    var ids := GetMany(IdsItem(cards, n), b, nd).val;
    assert forall i: nat :: i < nd ==> IdsQ(cards, n)(i, ids[i]);
  }

  ghost function IntsQ(n: nat): (nat, seq<int>) -> bool {
    (m: nat, col: seq<int>) => |col| == n && AllInt64(col)
  }

  lemma MetColumnsSound(n: nat, b: Text, nm: nat)
    requires GetMany(IntsItem(n), b, nm).Got?
    ensures var (mets, r) := (GetMany(IntsItem(n), b, nm).val, GetMany(IntsItem(n), b, nm).rest);
            b == PutMany(PutInts, mets) + r && |mets| == nm && forall m: nat :: m < nm ==>
              |mets[m]| == n && AllInt64(mets[m])
  {
    hide GetMany, PutMany, PutInts, AllInt64;
    forall i: nat, z: Text | i < nm && IntsItem(n)(i, z).Got?
      ensures z == PutInts(IntsItem(n)(i, z).val) + IntsItem(n)(i, z).rest
      ensures IntsQ(n)(i, IntsItem(n)(i, z).val)
    {
      IntsSound(n, z);
    }
    ManySound(IntsItem(n), PutInts, b, nm);
    ManyEach(IntsItem(n), IntsQ(n), b, nm);
    var mets := GetMany(IntsItem(n), b, nm).val;
    assert forall i: nat :: i < nm ==> IntsQ(n)(i, mets[i]);
  }

  // The columns read are well formed, and are exactly what the bytes say.
  lemma TablesSound(sc: Schema, n: nat, b: Text)
    requires GetTables(sc, n, b).Got?
    ensures TablesOK(sc, n, GetTables(sc, n, b).val)
    ensures b == PutTables(GetTables(sc, n, b).val) + GetTables(sc, n, b).rest
  {
    hide GetMany, PutMany, PutInts, TextsOK, AllInt64;
    var t := GetTables(sc, n, b).val;
    var r0 := GetMany(DictItem(sc), b, |sc.dims|).rest;
    var r1 := GetMany(IdsItem(Lengths(t.raw), n), r0, |sc.dims|).rest;
    var r2 := GetMany(IntsItem(n), r1, |sc.metrics|).rest;
    var r3 := GetMany(IntItem(), r2, n).rest;
    DictsSound(sc, b);
    IdColumnsSound(Lengths(t.raw), n, r0, |sc.dims|);
    MetColumnsSound(n, r1, |sc.metrics|);
    IntsSound(n, r2);
    IntsSound(n, r3);
    TablesJoin(t, GetTables(sc, n, b).rest);
    forall d: nat | d < |t.ids| ensures |t.ids[d]| == n && forall r :: 0 <= r < n ==> t.ids[d][r] < |t.raw[d]| {
      assert IdColumn(t.ids[d], n, CardAt(Lengths(t.raw), d));
    }
  }

  lemma TablesJoin(t: Tables, rest: Text)
    ensures PutTables(t) + rest
            == PutMany(PutDict, t.raw)
               + (PutMany(PutIds, t.ids)
                  + (PutMany(PutInts, t.mets) + (PutInts(t.updated) + (PutInts(t.expire) + rest))))
  {
    hide PutMany, PutInts;
    var (a, b, c, d, e) := (PutMany(PutDict, t.raw), PutMany(PutIds, t.ids), PutMany(PutInts, t.mets),
      PutInts(t.updated), PutInts(t.expire));
    CatAssoc(a, b + (c + (d + e)), rest);
    CatAssoc(b, c + (d + e), rest);
    CatAssoc(c, d + e, rest);
    CatAssoc(d, e, rest);
  }

  lemma HeaderSound(fp: nat, cutoff: int, body: Text)
    requires GetHeader(fp, cutoff, body).Header? && fp < TWO64
    ensures var h := GetHeader(fp, cutoff, body);
            body == PutBody(fp, h.maxUpdated, h.n, h.rest) && Int64(h.maxUpdated) && h.n < TWO64
              && !(cutoff > 0 && h.maxUpdated < cutoff)
  {
    hide LE, UnLE, PutInt, Signed;
    WordSizes();
    var r0 := GetBytes(body, |MAGIC|).rest;
    assert body == MAGIC + r0;
    var r1 := GetLE(r0, 4).rest;
    var r2 := GetLE(r1, 8).rest;
    var r3 := GetInt(r2).rest;
    PutGet(r0, 4);
    PutGet(r1, 8);
    IntSound(0, r2);
    PutGet(r3, 8);
  }

  lemma SealSound(crc: Text -> nat, data: Text)
    requires |data| >= 4 && crc(data[..|data| - 4]) % TWO32 == UnLE(data[|data| - 4..])
    ensures data == Seal(crc, data[..|data| - 4])
  {
    LEOfUnLE(data[|data| - 4..]);
    assert data == data[..|data| - 4] + data[|data| - 4..];
  }

  // ---- The decoded snapshot ----

  lemma MeaningsOK(isInt: bool, raw: seq<Text>)
    requires TextsOK(isInt, raw)
    ensures DictOK(Meanings(isInt, raw), isInt)
  {
  }

  lemma RowsSound(sc: Schema, n: nat, t: Tables)
    requires TablesOK(sc, n, t)
    ensures RowsIn(sc, DictsFrom(sc, t.raw), RowsFrom(t, n))
    ensures TablesOf(sc, t.raw, RowsFrom(t, n)) == t
  {
    hide TextsOK, AllInt64, Meanings;
    var rows := RowsFrom(t, n);
    var t' := TablesOf(sc, t.raw, rows);
    forall d: nat | d < |t.ids| ensures t'.ids[d] == t.ids[d] {
    }
    forall m: nat | m < |t.mets| ensures t'.mets[m] == t.mets[m] {
    }
    assert t'.ids == t.ids && t'.mets == t.mets && t'.updated == t.updated && t'.expire == t.expire;
    forall r | 0 <= r < n ensures InRange(DictsFrom(sc, t.raw), rows[r].ids) {
      forall d | 0 <= d < |t.ids| ensures rows[r].ids[d] < |DictsFrom(sc, t.raw)[d]| {
        assert rows[r].ids[d] == t.ids[d][r];
      }
    }
  }

  lemma SnapSound(sc: Schema, maxUpdated: int, n: nat, t: Tables)
    requires sc.Valid() && TablesOK(sc, n, t) && Acceptable(sc, n, t, SnapFrom(sc, maxUpdated, n, t))
    ensures Coherent(sc, SnapFrom(sc, maxUpdated, n, t))
  {
    hide TextsOK, AllInt64, Meanings, RowsFrom, MaxUpdated, MinUpdated, MinExpire, Width, TablesOf;
    var s := SnapFrom(sc, maxUpdated, n, t);
    RowsSound(sc, n, t);
    forall d | 0 <= d < |s.dicts| ensures DictOK(s.dicts[d], sc.dims[d].isInt) {
      assert TextsOK(IsInt(sc, d), t.raw[d]);
      MeaningsOK(IsInt(sc, d), t.raw[d]);
    }
    CardsAre(sc, t.raw);
    assert Take(Cards(s.dicts), sc.indexDims) == IndexCards(sc, s.dicts);
    forall r | 0 <= r < |s.rows| ensures s.keys[r] == KeyOf(s.shifts, s.rows[r].ids) {
      assert InRange(s.dicts, s.rows[r].ids);
    }
  }

  lemma CardsAre(sc: Schema, raw: seq<seq<Text>>)
    ensures Cards(DictsFrom(sc, raw)) == Lengths(raw)
  {
    hide Meanings;
  }

  lemma SnapNarrow(sc: Schema, maxUpdated: int, n: nat, t: Tables)
    requires TablesOK(sc, n, t) && Int64(maxUpdated) && n < TWO64
    ensures Narrow(SnapFrom(sc, maxUpdated, n, t))
  {
    hide MaxUpdated, MinUpdated, MinExpire, Width, TablesOf;
    var s := SnapFrom(sc, maxUpdated, n, t);
    forall d | 0 <= d < |s.dicts|
      ensures |s.dicts[d]| < TWO32 && forall i :: 0 <= i < |s.dicts[d]| && s.dicts[d][i].Str? ==>
                |s.dicts[d][i].text| < TWO32
    {
      assert TextsOK(IsInt(sc, d), t.raw[d]);
    }
    forall r | 0 <= r < n ensures Int64(s.rows[r].updated) && Int64(s.rows[r].expire) && AllInt64(s.rows[r].mets) {
    }
  }

  // Every accepted file is the sealed writing of its columns, and its snapshot is in
  // range, duplicate-free in its dictionaries, correctly keyed in ascending order, with
  // exact minima and (when it has rows) an exact position not older than the cutoff.
  lemma Sound(sc: Schema, fp: nat, crc: Text -> nat, cutoff: int, data: Text)
    requires sc.Valid() && fp < TWO64 && Parse(sc, fp, crc, cutoff, data).Loaded?
    ensures var (t, s) := (Parse(sc, fp, crc, cutoff, data).t, Parse(sc, fp, crc, cutoff, data).snap);
            && Coherent(sc, s) && Narrow(s) && !(cutoff > 0 && s.maxUpdated < cutoff)
            && s.dicts == DictsFrom(sc, t.raw) && t == TablesOf(sc, t.raw, s.rows)
            && (forall d: nat :: d < |t.raw| ==> TextsOK(IsInt(sc, d), t.raw[d]))
            && data == Seal(crc, PutBody(fp, s.maxUpdated, |s.rows|, PutTables(t)))
  {
    hide Coherent, Narrow, Acceptable, GetTables, PutTables, TablesOf, GetHeader, PutBody, Seal, UnLE, TextsOK,
      DictsFrom, Meanings, MaxUpdated, MinUpdated, MinExpire;
    var body := data[..|data| - 4];
    SealSound(crc, data);
    var h := GetHeader(fp, cutoff, body);
    HeaderSound(fp, cutoff, body);
    TablesSound(sc, h.n, h.rest);
    var t := GetTables(sc, h.n, h.rest).val;
    assert PutTables(t) + [] == PutTables(t);
    SnapSound(sc, h.maxUpdated, h.n, t);
    SnapNarrow(sc, h.maxUpdated, h.n, t);
    RowsSound(sc, h.n, t);
  }

  // ---- Re-encoding ----

  // Integer entries are stored without plus sign or needless leading zeros.
  ghost predicate Canonical(sc: Schema, raw: seq<seq<Text>>) {
    forall d: nat, i: nat :: d < |raw| && i < |raw[d]| && IsInt(sc, d) ==> Plain(raw[d][i])
  }

  lemma CanonicalIsSpelling(sc: Schema, raw: seq<seq<Text>>)
    requires forall d: nat :: d < |raw| ==> TextsOK(IsInt(sc, d), raw[d])
    ensures Canonical(sc, raw) <==> raw == AllSpellings(DictsFrom(sc, raw))
  {
    hide Plain, Denoted, FormatInt, ParseInt, Numeral64;
    var again := AllSpellings(DictsFrom(sc, raw));
    forall d: nat, i: nat | d < |raw| && i < |raw[d]|
      ensures again[d][i] == raw[d][i] <==> (IsInt(sc, d) ==> Plain(raw[d][i]))
    {
      ParseMeans(raw[d][i]);
      PrintedIsPlain(Denoted(raw[d][i]), raw[d][i]);
      assert TextsOK(IsInt(sc, d), raw[d]);
      assert again[d][i] == Spell(Meaning(IsInt(sc, d), raw[d][i]));
    }
    if Canonical(sc, raw) {
      forall d: nat | d < |raw| ensures raw[d] == again[d] {
        forall i: nat | i < |raw[d]| ensures again[d][i] == raw[d][i] {
        }
      }
    }
  }

  // Re-encoding a decoded file reproduces its bytes exactly when its integer entries
  // are canonical: the reader itself does not check that.
  lemma ReEncode(sc: Schema, fp: nat, crc: Text -> nat, cutoff: int, data: Text)
    requires sc.Valid() && fp < TWO64 && Parse(sc, fp, crc, cutoff, data).Loaded?
    ensures Encode(sc, fp, crc, Parse(sc, fp, crc, cutoff, data).snap) == data <==>
              Canonical(sc, Parse(sc, fp, crc, cutoff, data).t.raw)
  {
    hide Parse, Coherent, Narrow, PutTables, PutBody, Seal, TextsOK, DictsFrom, AllSpellings, Canonical, TablesOf;
    var (t, s) := (Parse(sc, fp, crc, cutoff, data).t, Parse(sc, fp, crc, cutoff, data).snap);
    Sound(sc, fp, crc, cutoff, data);
    RoundTrip(sc, fp, crc, cutoff, s);
    CanonicalIsSpelling(sc, t.raw);
    TablesParts(sc, AllSpellings(s.dicts), s.rows);
  }

  // With string dimensions only, every accepted file is the writer's own.
  lemma StringsReEncode(sc: Schema, fp: nat, crc: Text -> nat, cutoff: int, data: Text)
    requires sc.Valid() && fp < TWO64 && Parse(sc, fp, crc, cutoff, data).Loaded?
    requires forall d :: 0 <= d < |sc.dims| ==> !sc.dims[d].isInt
    ensures Encode(sc, fp, crc, Parse(sc, fp, crc, cutoff, data).snap) == data
  {
    hide Parse, Encode;
    ReEncode(sc, fp, crc, cutoff, data);
  }

  // ---- The bytes themselves ----

  // "FCSNAP01" and version 2 stand at the head of every file written and of every file
  // accepted.
  lemma HeadOfFile(sc: Schema, fp: nat, crc: Text -> nat, cutoff: int, data: Text)
    requires fp < TWO64
    requires (sc.Valid() && Parse(sc, fp, crc, cutoff, data).Loaded?) || exists s :: data == Encode(sc, fp, crc, s)
    ensures |data| >= 12 && data[..12] == [70, 67, 83, 78, 65, 80, 48, 49, 2, 0, 0, 0]
  {
    hide Parse, PutTables, TablesOf, Coherent, Narrow, DictsFrom, TextsOK, PutInt, AllSpellings;
    if sc.Valid() && Parse(sc, fp, crc, cutoff, data).Loaded? {
      Sound(sc, fp, crc, cutoff, data);
      var (t, s) := (Parse(sc, fp, crc, cutoff, data).t, Parse(sc, fp, crc, cutoff, data).snap);
      SealedHead(fp, crc, s.maxUpdated, |s.rows|, PutTables(t));
    } else {
      var s :| data == Encode(sc, fp, crc, s);
      SealedHead(fp, crc, s.maxUpdated, |s.rows|, PutTables(TablesOf(sc, AllSpellings(s.dicts), s.rows)));
    }
  }

  lemma SealedHead(fp: nat, crc: Text -> nat, maxUpdated: int, n: nat, tables: Text)
    ensures var data := Seal(crc, PutBody(fp, maxUpdated, n, tables));
            |data| >= 12 && data[..12] == [70, 67, 83, 78, 65, 80, 48, 49, 2, 0, 0, 0]
  {
    hide PutInt, LE;
    var rest := LE(fp, 8) + (PutInt(maxUpdated) + (LE(n, 8) + tables));
    LowId(2);
    var body := PutBody(fp, maxUpdated, n, tables);
    assert body == MAGIC + (LE(VERSION, 4) + rest);
    assert body[..12] == MAGIC + LE(VERSION, 4);
    assert Seal(crc, body)[..12] == body[..12];
  }

  const SAMPLE_SCHEMA := Schema([Dim("c", false), Dim("n", true)], 1, ["m"])

  // One row: UK (of US, UK), 5, metric -1, stamped 7, expiring at 9.
  const SAMPLE := SnapV([[Str([85, 83]), Str([85, 75])], [Num(5)]], [0], [Row([1, 0], [-1], 7, 9)], [1], 7, 7, 9)

  lemma {:induction false} NoBytes(k: nat)
    ensures LE(0, k) == seq(k, (_: nat) => 0)
  {
    if k == 0 {
    } else {
      NoBytes(k - 1);
    }
  }

  lemma LowWord(n: byte, k: nat)
    requires k > 0
    ensures LE(n, k) == [n] + seq(k - 1, (_: nat) => 0)
  {
    NoBytes(k - 1);
  }

  lemma {:induction false} FullBytes(k: nat)
    ensures LE(Pow256(k) - 1, k) == seq(k, (_: nat) => 255)
  {
    if k == 0 {
    } else {
      FullBytes(k - 1);
      LowByte(255, Pow256(k - 1) - 1);
      assert Pow256(k) - 1 == 255 + 256 * (Pow256(k - 1) - 1);
    }
  }

  lemma MinusOne()
    ensures PutInt(-1) == [255, 255, 255, 255, 255, 255, 255, 255]
  {
    hide LE, Pow256;
    FullBytes(8);
    WordSizes();
    assert Word(-1) == Pow256(8) - 1;
  }

  lemma LowInt(n: byte)
    ensures PutInt(n) == LE(n, 8) == [n, 0, 0, 0, 0, 0, 0, 0]
  {
    hide LE;
    LowWord(n, 8);
    assert Word(n) == n;
  }

  lemma LowId(n: byte)
    ensures PutId(n) == LE(n, 4) == [n, 0, 0, 0]
  {
    hide LE;
    LowWord(n, 4);
  }

  lemma One<T>(put: T -> Text, x: T)
    ensures PutMany(put, [x]) == put(x)
  {
    assert [x][..0] == [] && [x][1..] == [];
  }

  lemma Two<T>(put: T -> Text, x: T, y: T)
    ensures PutMany(put, [x, y]) == put(x) + put(y)
  {
    assert [x, y] == [x] + [y];
    PutManyAdd(put, [x], y);
    One(put, x);
  }

  lemma SampleDicts()
    ensures PutMany(PutDict, [[[85, 83], [85, 75]], [[53]]])
            == [2, 0, 0, 0, 2, 0, 0, 0, 85, 83, 2, 0, 0, 0, 85, 75] + [1, 0, 0, 0, 1, 0, 0, 0, 53]
  {
    hide LE, PutMany, PutDict;
    Two(PutDict, [[85, 83], [85, 75]], [[53]]);
    CountryDict();
    NumberDict();
  }

  lemma CountryDict()
    ensures PutDict([[85, 83], [85, 75]]) == [2, 0, 0, 0, 2, 0, 0, 0, 85, 83, 2, 0, 0, 0, 85, 75]
  {
    hide LE, PutMany;
    LowId(2);
    Two(PutText, [85, 83], [85, 75]);
  }

  lemma NumberDict()
    ensures PutDict([[53]]) == [1, 0, 0, 0, 1, 0, 0, 0, 53]
  {
    hide LE, PutMany;
    LowId(1);
    One(PutText, [53]);
  }

  lemma SampleColumns()
    ensures PutMany(PutIds, [[1], [0]]) == [1, 0, 0, 0, 0, 0, 0, 0]
    ensures PutMany(PutInts, [[-1]]) == [255, 255, 255, 255, 255, 255, 255, 255]
    ensures PutInts([7]) == [7, 0, 0, 0, 0, 0, 0, 0] && PutInts([9]) == [9, 0, 0, 0, 0, 0, 0, 0]
  {
    hide LE, PutMany, PutInt;
    LowId(0);
    LowId(1);
    One(PutId, 1);
    One(PutId, 0);
    Two(PutIds, [1], [0]);
    MinusOne();
    One(PutInt, -1);
    One(PutInts, [-1]);
    LowInt(7);
    LowInt(9);
    One(PutInt, 7);
    One(PutInt, 9);
  }

  lemma SampleParts()
    ensures TablesOf(SAMPLE_SCHEMA, AllSpellings(SAMPLE.dicts), SAMPLE.rows)
            == Tables([[[85, 83], [85, 75]], [[53]]], [[1], [0]], [[-1]], [7], [9])
  {
    assert FormatInt(5) == [53];
    var raw := AllSpellings(SAMPLE.dicts);
    assert raw[0] == [[85, 83], [85, 75]] && raw[1] == [[53]];
    assert raw == [[[85, 83], [85, 75]], [[53]]];
    var t := TablesOf(SAMPLE_SCHEMA, raw, SAMPLE.rows);
    assert t.ids[0] == [1] && t.ids[1] == [0] && t.mets[0] == [-1];
  }

  // A whole file, byte for byte up to its checksum: head, fingerprint 258, position, row
  // count, dictionaries, id columns, metrics, stamps, expiries.
  lemma SampleFile(crc: Text -> nat)
    ensures var data := Encode(SAMPLE_SCHEMA, 258, crc, SAMPLE);
            |data| == 97 && data[..93] == SampleBody() && UnLE(data[93..]) == crc(data[..93]) % 0x1_0000_0000
  {
    hide PutInt, TablesOf, AllSpellings, PutTables, UnLE, LE, SampleBody;
    SampleBodyIs();
    var body := SampleBody();
    var data := Seal(crc, body);
    assert data[..93] == body && data[93..] == LE(crc(body) % TWO32, 4);
    WordSizes();
    UnLEOfLE(crc(body) % TWO32, 4);
  }

  function SampleBody(): Text {
    [70, 67, 83, 78, 65, 80, 48, 49] + [2, 0, 0, 0] + [2, 1, 0, 0, 0, 0, 0, 0] + [7, 0, 0, 0, 0, 0, 0, 0]
    + [1, 0, 0, 0, 0, 0, 0, 0]
    + ([2, 0, 0, 0, 2, 0, 0, 0, 85, 83, 2, 0, 0, 0, 85, 75] + [1, 0, 0, 0, 1, 0, 0, 0, 53])
    + [1, 0, 0, 0, 0, 0, 0, 0] + [255, 255, 255, 255, 255, 255, 255, 255]
    + [7, 0, 0, 0, 0, 0, 0, 0] + [9, 0, 0, 0, 0, 0, 0, 0]
  }

  lemma SampleBodyIs()
    ensures |SampleBody()| == 93
    ensures PutBody(258, 7, 1, PutTables(TablesOf(SAMPLE_SCHEMA, AllSpellings(SAMPLE.dicts), SAMPLE.rows)))
            == SampleBody()
  {
    hide PutInt, TablesOf, AllSpellings, LE, PutMany, PutDict, PutIds, PutInts;
    SampleParts();
    SampleDicts();
    SampleColumns();
    LowId(2);
    LowInt(7);
    LowInt(1);
    TwoByteWord();
    Ten(MAGIC, LE(2, 4), LE(258, 8), PutInt(7), LE(1, 8), PutMany(PutDict, [[[85, 83], [85, 75]], [[53]]]),
      PutMany(PutIds, [[1], [0]]), PutMany(PutInts, [[-1]]), PutInts([7]), PutInts([9]));
  }

  lemma TwoByteWord()
    ensures LE(258, 8) == [2, 1, 0, 0, 0, 0, 0, 0]
  {
    LowWord(1, 7);
    assert 258 % 256 == 2 && 258 / 256 == 1;
  }

  lemma Ten(a: Text, b: Text, c: Text, d: Text, e: Text, f: Text, g: Text, h: Text, i: Text, j: Text)
    ensures a + (b + (c + (d + (e + (f + (g + (h + (i + j))))))))
            == a + b + c + d + e + f + g + h + i + j
  {
  }

  // ---- What the reader does not refuse ----

  const ONE_INT := Schema([Dim("n", true)], 1, ["m"])

  // "010"
  const OCTAL: Text := [48, 49, 48]

  // One entry takes one bit.
  lemma OneBit()
    ensures Width([1]) == 1 && Layout([0], [1])
  {
    var none: seq<nat> := [];
    assert [1][1..] == none;
    assert Width(none) == 0;
  }

  // A non-canonical integer is accepted when no other spelling of it is stored.
  lemma LoneOctalAccepted(fp: nat, crc: Text -> nat) returns (data: Text)
    requires fp < TWO64
    ensures Parse(ONE_INT, fp, crc, 0, data).Loaded?
    ensures !Canonical(ONE_INT, Parse(ONE_INT, fp, crc, 0, data).t.raw)
  {
    hide Parse, PutTables, PutBody, Seal, LE;
    var t := Tables([[OCTAL]], [[]], [[]], [], []);
    assert ParseInt(OCTAL) == Some(10) by {
      assert ParseDigits(OCTAL[..2][..1]) == Some(0);
      assert ParseDigits(OCTAL[..2]) == Some(1);
    }
    data := Seal(crc, PutBody(fp, 0, 0, PutTables(t)));
    WrittenParses(ONE_INT, fp, crc, 0, 0, 0, t);
    OneBit();
    assert Lengths(t.raw) == [1] && Take([1], 1) == [1];
    assert Acceptable(ONE_INT, 0, t, SnapFrom(ONE_INT, 0, 0, t));
    assert Unsigned(OCTAL)[0] == 48 && t.raw[0][0] == OCTAL;
  }

  // So is a file without rows that claims a position.
  lemma EmptyWithPosition(fp: nat, crc: Text -> nat) returns (data: Text)
    requires fp < TWO64
    ensures Parse(ONE_LABEL, fp, crc, 0, data).Loaded?
    ensures var s := Parse(ONE_LABEL, fp, crc, 0, data).snap;
            s.rows == [] && s.maxUpdated == 7 && !SnapOK(ONE_LABEL, s)
  {
    hide Parse, PutTables, PutBody, Seal, LE;
    var t := Tables([[]], [[]], [[]], [], []);
    data := Seal(crc, PutBody(fp, 7, 0, PutTables(t)));
    WrittenParses(ONE_LABEL, fp, crc, 0, 7, 0, t);
    NarrowEmpty(1);
    assert Lengths(t.raw) == [0] && Take([0], 1) == [0] == seq(1, (_: nat) => 0);
    assert Acceptable(ONE_LABEL, 0, t, SnapFrom(ONE_LABEL, 7, 0, t));
  }

  // Two rows of one tuple are accepted: uniqueness is the writer's promise, not the
  // reader's check.
  lemma RepeatedTupleAccepted(fp: nat, crc: Text -> nat) returns (data: Text)
    requires fp < TWO64
    ensures Parse(ONE_LABEL, fp, crc, 0, data).Loaded?
    ensures !SnapOK(ONE_LABEL, Parse(ONE_LABEL, fp, crc, 0, data).snap)
  {
    hide Parse, Encode;
    var row := Row([0], [0], 1, 0);
    var s := SnapV([[Str([97])]], [0], [row, row], [0, 0], 1, 1, 0);
    OneBit();
    assert [row, row][..1] == [row] && [row][..0] == [];
    assert IndexCards(ONE_LABEL, s.dicts) == [1];
    assert KeyOf([0], [0]) == 0;
    assert MinUpdated([row]) == 1 && MinExpire([row]) == 0 && MaxUpdated([row]) == 1;
    assert Keyed(ONE_LABEL, s);
    assert Coherent(ONE_LABEL, s);
    assert !UniqueIds(s.rows) by {
      assert s.rows[0].ids == s.rows[1].ids;
    }
    data := Encode(ONE_LABEL, fp, crc, s);
    RoundTrip(ONE_LABEL, fp, crc, 0, s);
  }
}
