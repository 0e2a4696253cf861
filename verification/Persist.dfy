// Writing and reading the snapshot file step by step.
module Persist {
  import Packing
  import opened Decimal
  import opened Table
  import opened Dictionary
  import Engine
  import opened Oracle
  import opened Bytes
  import opened Format
  import opened Codec
  import Build
  import Merge

  // ---- Writer ----

  method WriteDict(d: Dict) returns (b: Text)
    ensures b == PutDict(Spellings(d.vals))
  {
    hide LE, PutText, Spell;
    var entries: Text := [];
    for id := 0 to |d.vals|
      invariant entries == PutMany(PutText, Spellings(d.vals)[..id])
    {
      var s := d.Spelling(id);
      assert Spellings(d.vals)[..id + 1] == Spellings(d.vals)[..id] + [s];
      PutManyAdd(PutText, Spellings(d.vals)[..id], s);
      entries := entries + PutText(s);
    }
    assert Spellings(d.vals)[..|d.vals|] == Spellings(d.vals);
    b := LE(|d.vals|, 4) + entries;
  }

  method WriteIds(rows: seq<Row>, d: nat) returns (b: Text)
    ensures b == PutIds(IdCol(rows, d))
  {
    hide LE, PutId;
    b := [];
    for r := 0 to |rows|
      invariant b == PutIds(IdCol(rows, d)[..r])
    {
      assert IdCol(rows, d)[..r + 1] == IdCol(rows, d)[..r] + [IdAt(rows[r], d)];
      PutManyAdd(PutId, IdCol(rows, d)[..r], IdAt(rows[r], d));
      b := b + PutId(IdAt(rows[r], d));
    }
    assert IdCol(rows, d)[..|rows|] == IdCol(rows, d);
  }

  method WriteInts(col: seq<int>) returns (b: Text)
    ensures b == PutInts(col)
  {
    hide PutInt;
    b := [];
    for r := 0 to |col|
      invariant b == PutInts(col[..r])
    {
      assert col[..r + 1] == col[..r] + [col[r]];
      PutManyAdd(PutInt, col[..r], col[r]);
      b := b + PutInt(col[r]);
    }
    assert col[..|col|] == col;
  }

  method WriteDicts(sc: Schema, dicts: seq<Dict>) returns (b: Text)
    ensures b == PutMany(PutDict, AllSpellings(Entries(dicts)))
  {
    hide PutDict, Spellings;
    ghost var raw := AllSpellings(Entries(dicts));
    b := [];
    for d := 0 to |dicts|
      invariant b == PutMany(PutDict, raw[..d])
    {
      var one := WriteDict(dicts[d]);
      assert raw[..d + 1] == raw[..d] + [raw[d]];
      PutManyAdd(PutDict, raw[..d], raw[d]);
      b := b + one;
    }
    assert raw[..|dicts|] == raw;
  }

  // Columns one after the other: dimensions, metrics, updated, expire.
  method WriteColumns(sc: Schema, rows: seq<Row>, ghost raw: seq<seq<Text>>) returns (b: Text)
    ensures PutMany(PutDict, raw) + b == PutTables(TablesOf(sc, raw, rows))
  {
    hide PutIds, PutInts, IdCol, MetCol, UpdatedCol, ExpireCol;
    ghost var t := TablesOf(sc, raw, rows);
    var ids: Text := [];
    for d := 0 to |sc.dims|
      invariant ids == PutMany(PutIds, t.ids[..d])
    {
      var one := WriteIds(rows, d);
      assert t.ids[..d + 1] == t.ids[..d] + [t.ids[d]];
      PutManyAdd(PutIds, t.ids[..d], t.ids[d]);
      ids := ids + one;
    }
    assert t.ids[..|sc.dims|] == t.ids;
    var mets: Text := [];
    for m := 0 to |sc.metrics|
      invariant mets == PutMany(PutInts, t.mets[..m])
    {
      var one := WriteInts(MetCol(rows, m));
      assert t.mets[..m + 1] == t.mets[..m] + [t.mets[m]];
      PutManyAdd(PutInts, t.mets[..m], t.mets[m]);
      mets := mets + one;
    }
    assert t.mets[..|sc.metrics|] == t.mets;
    var updated := WriteInts(UpdatedCol(rows));
    var expire := WriteInts(ExpireCol(rows));
    b := ids + (mets + (updated + expire));
  }

  // The file is Encode of the base snapshot; the delta is not persisted.
  method WriteSnapshot(sc: Schema, fp: nat, crc: Text -> nat, snap: Engine.Snapshot) returns (data: Text)
    requires snap.Valid(sc)
    ensures data == Encode(sc, fp, crc, snap.Model())
  {
    hide Engine.Snapshot.Valid, PutMany, PutTables, LE, PutInt, TablesOf, AllSpellings;
    var dicts := WriteDicts(sc, snap.dicts);
    var cols := WriteColumns(sc, snap.rows, AllSpellings(Entries(snap.dicts)));
    var tables := dicts + cols;
    var body := MAGIC + (LE(VERSION, 4) + (LE(fp, 8) + (PutInt(snap.maxUpdated) + (LE(|snap.rows|, 8) + tables))));
    data := body + LE(crc(body) % TWO32, 4);
  }

  // ---- Reader ----

  // The bytes not read yet.
  class Cursor {
    const body: Text
    var cur: nat

    ghost predicate Valid()
      reads this
    {
      cur <= |body|
    }

    ghost function Rest(): Text
      requires Valid()
      reads this
    {
      body[cur..]
    }

    constructor (body: Text)
      ensures Valid() && this.body == body && Rest() == body
    {
      this.body := body;
      cur := 0;
    }

    method Rd(n: nat) returns (ok: bool, b: Text)
      requires Valid()
      modifies this
      ensures Valid()
      ensures match GetBytes(old(Rest()), n)
              case Fail => !ok && cur == old(cur)
              case Got(v, r) => ok && b == v && Rest() == r
    {
      if cur + n > |body| {
        return false, [];
      }
      b := body[cur..cur + n];
      assert b == body[cur..][..n] && body[cur + n..] == body[cur..][n..];
      cur := cur + n;
      ok := true;
    }

    method RdLE(k: nat) returns (ok: bool, v: nat)
      requires Valid()
      modifies this
      ensures Valid()
      ensures match GetLE(old(Rest()), k)
              case Fail => !ok
              case Got(n, r) => ok && v == n && Rest() == r
    {
      var b;
      ok, b := Rd(k);
      v := if ok then UnLE(b) else 0;
    }

    method RdInt() returns (ok: bool, v: int)
      requires Valid()
      modifies this
      ensures Valid()
      ensures match GetInt(old(Rest()))
              case Fail => !ok
              case Got(n, r) => ok && v == n && Rest() == r
    {
      var w;
      ok, w := RdLE(8);
      v := Signed(w);
    }

    // One stored dictionary, interned as it is read.
    method RdDict(isInt: bool) returns (ok: bool, d: Dict, ghost raw: seq<Text>)
      requires Valid()
      modifies this
      ensures Valid() && fresh(d)
      ensures match GetDict(isInt, old(Rest()))
              case Fail => !ok
              case Got(texts, r) => ok && raw == texts && Rest() == r && d.Valid() && d.numeric == isInt
                                    && d.vals == Meanings(isInt, raw)
    {
      hide GetLE, Dict.Valid, Meaning, GetMany, GetText, Distinct, Meanings;
      var cnt;
      raw := [];
      d := new Dict(isInt);
      ok, cnt := RdLE(4);
      if !ok {
        return;
      }
      ghost var start := Rest();
      NothingRead(isInt, start);
      for i := 0 to cnt
        invariant Valid() && fresh(d) && d.Valid() && d.numeric == isInt
        invariant GetMany(TextItem(isInt), start, i) == Got(raw, Rest()) && |raw| == i
        invariant |d.vals| <= i && (|d.vals| == i <==> Distinct(Meanings(isInt, raw)))
        invariant |d.vals| == i ==> d.vals == Meanings(isInt, raw)
      {
        ghost var raw0, vals0 := raw, d.vals;
        TextsStep(isInt, start, i, raw, Rest());
        var s;
        ok, s := RdText(isInt);
        if !ok {
          ManyFails(TextItem(isInt), start, i + 1, cnt);
          return;
        }
        raw := raw + [s];
        MeaningKind(isInt, s);
        var id := d.GetOrAdd(Meaning(isInt, s));
        Interned(isInt, raw0, s, vals0, d.vals);
      }
      ok := |d.vals| == cnt;
    }

    method RdText(isInt: bool) returns (ok: bool, s: Text)
      requires Valid()
      modifies this
      ensures Valid()
      ensures match GetText(isInt, old(Rest()))
              case Fail => !ok
              case Got(t, r) => ok && s == t && Rest() == r && (isInt ==> ParseInt(s).Some?)
    {
      hide GetLE, ParseInt;
      var n;
      s := [];
      ok, n := RdLE(4);
      if ok {
        ok, s := Rd(n);
        ok := ok && !(isInt && ParseInt(s).None?);
      }
    }

    method RdIds(card: nat, n: nat) returns (ok: bool, col: seq<nat>)
      requires Valid()
      modifies this
      ensures Valid()
      ensures match GetMany(IdItem(card), old(Rest()), n)
              case Fail => !ok
              case Got(c, r) => ok && col == c && Rest() == r
    {
      hide GetLE;
      col := [];
      ok := true;
      for i := 0 to n
        invariant Valid() && GetMany(IdItem(card), old(Rest()), i) == Got(col, Rest()) && ok
      {
        var v;
        ok, v := RdLE(4);
        if !ok || v >= card {
          ManyFails(IdItem(card), old(Rest()), i + 1, n);
          return false, col;
        }
        col := col + [v];
      }
    }

    method RdInts(n: nat) returns (ok: bool, col: seq<int>)
      requires Valid()
      modifies this
      ensures Valid()
      ensures match GetMany(IntItem(), old(Rest()), n)
              case Fail => !ok
              case Got(c, r) => ok && col == c && Rest() == r
    {
      hide GetInt;
      col := [];
      ok := true;
      for i := 0 to n
        invariant Valid() && GetMany(IntItem(), old(Rest()), i) == Got(col, Rest()) && ok
      {
        var v;
        ok, v := RdInt();
        if !ok {
          ManyFails(IntItem(), old(Rest()), i + 1, n);
          return;
        }
        col := col + [v];
      }
    }
  }

  lemma NothingRead(isInt: bool, start: Text)
    ensures GetMany(TextItem(isInt), start, 0) == Got([], start) && Meanings(isInt, []) == []
              && Distinct(Meanings(isInt, []))
  {
  }

  lemma TextsStep(isInt: bool, start: Text, i: nat, raw: seq<Text>, b: Text)
    requires GetMany(TextItem(isInt), start, i) == Got(raw, b)
    ensures GetMany(TextItem(isInt), start, i + 1)
            == match GetText(isInt, b) case Fail => Fail case Got(v, r) => Got(raw + [v], r)
  {
  }

  lemma MeaningKind(isInt: bool, s: Text)
    requires isInt ==> ParseInt(s).Some?
    ensures KindOK(Meaning(isInt, s), isInt)
  {
  }

  // Interning keeps counting exactly while the entries stay distinct.
  lemma Interned(isInt: bool, raw: seq<Text>, s: Text, vals: seq<Value>, vals': seq<Value>)
    requires |vals| <= |raw| && (|vals| == |raw| <==> Distinct(Meanings(isInt, raw)))
    requires |vals| == |raw| ==> vals == Meanings(isInt, raw)
    requires vals' == if Meaning(isInt, s) in vals then vals else vals + [Meaning(isInt, s)]
    ensures var raw' := raw + [s];
            |vals'| <= |raw'| && (|vals'| == |raw'| <==> Distinct(Meanings(isInt, raw')))
              && (|vals'| == |raw'| ==> vals' == Meanings(isInt, raw'))
  {
    hide Meaning;
    var (m, m') := (Meanings(isInt, raw), Meanings(isInt, raw + [s]));
    assert m' == m + [Meaning(isInt, s)];
    if |vals| == |raw| && Meaning(isInt, s) in vals {
      var i :| 0 <= i < |vals| && vals[i] == Meaning(isInt, s);
      assert m'[i] == m'[|raw|];
    }
    if !Distinct(m) {
      var i, j :| 0 <= i < j < |m| && m[i] == m[j];
      assert m'[i] == m'[j];
    }
  }

  // ---- The whole file ----

  lemma NoDicts(sc: Schema, start: Text)
    ensures GetMany(DictItem(sc), start, 0) == Got([], start)
  {
  }

  lemma DictsStep(sc: Schema, start: Text, d: nat, raw: seq<seq<Text>>, b: Text)
    requires d < |sc.dims| && GetMany(DictItem(sc), start, d) == Got(raw, b)
    ensures GetMany(DictItem(sc), start, d + 1)
            == match GetDict(sc.dims[d].isInt, b) case Fail => Fail case Got(v, r) => Got(raw + [v], r)
  {
  }

  lemma IdsStep(cards: seq<nat>, n: nat, start: Text, d: nat, ids: seq<seq<nat>>, b: Text)
    requires d < |cards| && GetMany(IdsItem(cards, n), start, d) == Got(ids, b)
    ensures GetMany(IdsItem(cards, n), start, d + 1)
            == match GetMany(IdItem(cards[d]), b, n) case Fail => Fail case Got(v, r) => Got(ids + [v], r)
  {
  }

  method ReadDicts(c: Cursor, sc: Schema) returns (ok: bool, dicts: seq<Dict>, ghost raw: seq<seq<Text>>)
    requires c.Valid()
    modifies c
    ensures c.Valid() && fresh(dicts)
    ensures match GetMany(DictItem(sc), old(c.Rest()), |sc.dims|)
            case Fail => !ok
            case Got(r, rest) => ok && raw == r && c.Rest() == rest && AllValid(sc, dicts)
                                 && Entries(dicts) == DictsFrom(sc, raw)
  {
    hide GetDict, GetMany, Dict.Valid, Meanings;
    ok, dicts, raw := true, [], [];
    NoDicts(sc, c.Rest());
    for d := 0 to |sc.dims|
      invariant c.Valid() && ok && fresh(dicts) && |dicts| == |raw| == d
      invariant GetMany(DictItem(sc), old(c.Rest()), d) == Got(raw, c.Rest())
      invariant forall k :: 0 <= k < d ==>
                  dicts[k].Valid() && dicts[k].numeric == sc.dims[k].isInt
                  && dicts[k].vals == Meanings(IsInt(sc, k), raw[k])
    {
      DictsStep(sc, old(c.Rest()), d, raw, c.Rest());
      ghost var texts;
      var one;
      ok, one, texts := c.RdDict(sc.dims[d].isInt);
      if !ok {
        ManyFails(DictItem(sc), old(c.Rest()), d + 1, |sc.dims|);
        return;
      }
      dicts, raw := dicts + [one], raw + [texts];
    }
    assert Entries(dicts) == DictsFrom(sc, raw);
  }

  method ReadIdColumns(c: Cursor, cards: seq<nat>, n: nat) returns (ok: bool, ids: seq<seq<nat>>)
    requires c.Valid()
    modifies c
    ensures c.Valid()
    ensures match GetMany(IdsItem(cards, n), old(c.Rest()), |cards|)
            case Fail => !ok
            case Got(v, rest) => ok && ids == v && c.Rest() == rest
  {
    ok, ids := true, [];
    for d := 0 to |cards|
      invariant c.Valid() && ok && GetMany(IdsItem(cards, n), old(c.Rest()), d) == Got(ids, c.Rest())
    {
      IdsStep(cards, n, old(c.Rest()), d, ids, c.Rest());
      var col;
      ok, col := c.RdIds(cards[d], n);
      if !ok {
        ManyFails(IdsItem(cards, n), old(c.Rest()), d + 1, |cards|);
        return;
      }
      ids := ids + [col];
    }
  }

  method ReadMetColumns(c: Cursor, n: nat, nm: nat) returns (ok: bool, mets: seq<seq<int>>)
    requires c.Valid()
    modifies c
    ensures c.Valid()
    ensures match GetMany(IntsItem(n), old(c.Rest()), nm)
            case Fail => !ok
            case Got(v, rest) => ok && mets == v && c.Rest() == rest
  {
    ok, mets := true, [];
    for m := 0 to nm
      invariant c.Valid() && ok && GetMany(IntsItem(n), old(c.Rest()), m) == Got(mets, c.Rest())
    {
      var col;
      ok, col := c.RdInts(n);
      if !ok {
        ManyFails(IntsItem(n), old(c.Rest()), m + 1, nm);
        return;
      }
      mets := mets + [col];
    }
  }

  method ReadTables(c: Cursor, sc: Schema, n: nat) returns (ok: bool, t: Tables, dicts: seq<Dict>)
    requires c.Valid()
    modifies c
    ensures c.Valid() && fresh(dicts)
    ensures match GetTables(sc, n, old(c.Rest()))
            case Fail => !ok
            case Got(v, rest) => ok && t.ids == v.ids && t.mets == v.mets && t.updated == v.updated
                                 && t.expire == v.expire
                                 && c.Rest() == rest && AllValid(sc, dicts) && Entries(dicts) == DictsFrom(sc, v.raw)
  {
    hide GetMany, AllValid, Meanings;
    ghost var raw;
    t := Tables([], [], [], [], []);
    ok, dicts, raw := ReadDicts(c, sc);
    if !ok {
      return;
    }
    var cards := Cards(Entries(dicts));
    CardsAre(sc, raw);
    var ids, mets, updated, expire;
    RawLength(sc, old(c.Rest()));
    ok, ids := ReadIdColumns(c, cards, n);
    if !ok {
      return;
    }
    ok, mets := ReadMetColumns(c, n, |sc.metrics|);
    if !ok {
      return;
    }
    ok, updated := c.RdInts(n);
    if !ok {
      return;
    }
    ok, expire := c.RdInts(n);
    t := Tables([], ids, mets, updated, expire);
  }

  lemma RawLength(sc: Schema, b: Text)
    ensures GetMany(DictItem(sc), b, |sc.dims|).Got? ==> |GetMany(DictItem(sc), b, |sc.dims|).val| == |sc.dims|
  {
    ManyLength(DictItem(sc), b, |sc.dims|);
  }

  method ReadHeader(c: Cursor, fp: nat, cutoff: int) returns (h: Header)
    requires c.Valid() && c.cur == 0
    modifies c
    ensures c.Valid() && h == GetHeader(fp, cutoff, c.body) && (h.Header? ==> c.Rest() == h.rest)
  {
    hide GetLE, GetInt;
    ghost var body := c.body;
    assert c.Rest() == body;
    var ok, magic := c.Rd(|MAGIC|);
    if !ok || magic != MAGIC {
      return BadHeader;
    }
    var version, stamp, position, rows;
    ok, version := c.RdLE(4);
    if !ok || version != VERSION {
      return BadHeader;
    }
    ok, stamp := c.RdLE(8);
    if !ok || stamp != fp {
      return BadHeader;
    }
    ok, position := c.RdInt();
    if !ok {
      return BadHeader;
    }
    if cutoff > 0 && position < cutoff {
      return StaleHeader;
    }
    ok, rows := c.RdLE(8);
    if !ok || rows > |c.body| {
      return BadHeader;
    }
    h := Header(position, rows, c.body[c.cur..]);
  }

  datatype Reading = Refused | TooOld | Read(snap: Engine.Snapshot)

  // Largest stamp, from 0.
  method NewestStamp(rows: seq<Row>) returns (max: int)
    ensures max == MaxUpdated(rows)
  {
    max := 0;
    for r := 0 to |rows|
      invariant max == MaxUpdated(rows[..r])
    {
      assert rows[..r + 1][..r] == rows[..r];
      if rows[r].updated > max {
        max := rows[r].updated;
      }
    }
    assert rows[..|rows|] == rows;
  }

  method InKeyOrder(keys: seq<nat>) returns (ok: bool)
    ensures ok <==> Ascending(keys)
  {
    for r := 0 to |keys|
      invariant Ascending(keys[..r])
    {
      if r > 0 && keys[r - 1] > keys[r] {
        return false;
      }
      AscendingNext(keys, r);
    }
    assert keys[..|keys|] == keys;
    ok := true;
  }

  lemma AscendingNext(keys: seq<nat>, r: nat)
    requires r < |keys| && Ascending(keys[..r]) && (r > 0 ==> keys[r - 1] <= keys[r])
    ensures Ascending(keys[..r + 1])
  {
    forall i | 0 <= i < r ensures keys[i] <= keys[r] {
      assert keys[..r][i] <= keys[..r][r - 1];
    }
  }

  // Shifts, keys and minima are recomputed, not read.
  method Rebuild(sc: Schema, maxUpdated: int, n: nat, t: Tables, dicts: seq<Dict>, ghost raw: seq<seq<Text>>)
    returns (ok: bool, snap: Engine.Snapshot)
    requires sc.Valid() && AllValid(sc, dicts) && Entries(dicts) == DictsFrom(sc, raw)
               && TablesOK(sc, n, t.(raw := raw))
    ensures fresh(snap)
    ensures var full := t.(raw := raw);
            && (ok <==> Acceptable(sc, n, full, SnapFrom(sc, maxUpdated, n, full)))
            && (ok ==> snap.dicts == dicts && snap.Model() == SnapFrom(sc, maxUpdated, n, full))
  {
    hide AllValid, MaxUpdated, MinUpdated, MinExpire, Packing.Layout, Meanings, TextsOK, AllInt64, Packing.Width,
      RowsIn;
    ghost var full := t.(raw := raw);
    ghost var ds := DictsFrom(sc, raw);
    RowsSame(t, full, n);
    RowsSound(sc, n, full);
    CardsAre(sc, raw);
    var rows := RowsFrom(t, n);
    snap := new Engine.Snapshot(dicts, []);
    if n > 0 {
      var max := NewestStamp(rows);
      if max != maxUpdated {
        return false, snap;
      }
    }
    var sh := Packing.ComputeShifts(Cards(Entries(dicts)), sc.indexDims);
    if sh.Overflow? {
      return false, snap;
    }
    LayoutIsShifts(sh.shifts, Cards(ds)[..sc.indexDims]);
    assert Cards(ds)[..sc.indexDims] == IndexCards(sc, ds);
    var keys := Build.RowKeys(sc, ds, sh.shifts, rows);
    KeysAre(sh.shifts, keys, rows);
    var sorted := InKeyOrder(keys);
    if !sorted {
      return false, snap;
    }
    snap := Merge.Assemble(dicts, sh.shifts, rows, keys);
    snap.maxUpdated := maxUpdated;
    ok := true;
  }

  lemma RowsSame(t: Tables, full: Tables, n: nat)
    requires full.ids == t.ids && full.mets == t.mets && full.updated == t.updated && full.expire == t.expire
    ensures RowsFrom(full, n) == RowsFrom(t, n)
  {
    forall r: nat | r < n ensures RowFrom(full, r) == RowFrom(t, r) {
    }
  }

  lemma KeysAre(shifts: seq<nat>, keys: seq<nat>, rows: seq<Row>)
    requires Build.KeysOfIds(shifts, keys, rows)
    ensures keys == seq(|rows|, r requires 0 <= r < |rows| => KeyAt(shifts, rows[r]))
  {
  }

  // Reads a file: what comes out is what the bytes mean.
  method ReadSnapshot(sc: Schema, fp: nat, crc: Text -> nat, cutoff: int, data: Text) returns (r: Reading)
    requires sc.Valid() && fp < TWO64
    ensures match Parse(sc, fp, crc, cutoff, data)
            case Corrupt => r.Refused?
            case Stale => r.TooOld?
            case Loaded(t, s) => r.Read? && fresh(r.snap) && AllValid(sc, r.snap.dicts) && r.snap.Model() == s
  {
    hide AllValid, GetHeader, GetTables, SnapFrom, Acceptable, TablesOK, PutTables, UnLE, PutBody;
    if |data| < LEAST_FILE {
      return Refused;
    }
    var body, tail := data[..|data| - 4], data[|data| - 4..];
    if crc(body) % TWO32 != UnLE(tail) {
      return Refused;
    }
    var c := new Cursor(body);
    var h := ReadHeader(c, fp, cutoff);
    match h
    case BadHeader => r := Refused;
    case StaleHeader => r := TooOld;
    case Header(maxUpdated, n, rest) =>
      ghost var p := GetTables(sc, n, rest);
      var ok, t, dicts := ReadTables(c, sc, n);
      if !ok {
        return Refused;
      }
      TablesSound(sc, n, rest);
      var end := c.cur == |c.body|;
      EndIsEmpty(c, end);
      var snap;
      ok, snap := Rebuild(sc, maxUpdated, n, t, dicts, p.val.raw);
      assert t.(raw := p.val.raw) == p.val;
      r := if ok && end then Read(snap) else Refused;
  }

  lemma EndIsEmpty(c: Cursor, end: bool)
    requires c.Valid() && (end <==> c.cur == |c.body|)
    ensures end <==> c.Rest() == []
  {
  }
}
