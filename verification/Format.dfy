// The snapshot file: its bytes, and the reader as a function of the bytes.
module Format {
  import opened Packing
  import opened Decimal
  import opened Table
  import opened Oracle
  import opened Bytes

  // "FCSNAP01"
  const MAGIC: Text := [70, 67, 83, 78, 65, 80, 48, 49]
  const VERSION: nat := 2

  // ---- Items ----

  function PutText(s: Text): Text { LE(|s|, 4) + s }

  // A dictionary entry; an integer dimension refuses what does not parse.
  function GetText(isInt: bool, b: Text): Parsed<Text> {
    match GetLE(b, 4)
    case Fail => Fail
    case Got(n, r) =>
      match GetBytes(r, n)
      case Fail => Fail
      case Got(s, r') => if isInt && ParseInt(s).None? then Fail else Got(s, r')
  }

  function TextItem(isInt: bool): (nat, Text) -> Parsed<Text> {
    (i: nat, b: Text) => GetText(isInt, b)
  }

  function Meaning(isInt: bool, s: Text): Value {
    if isInt && ParseInt(s).Some? then Num(ParseInt(s).value) else Str(s)
  }

  function Meanings(isInt: bool, raw: seq<Text>): (vs: seq<Value>)
    ensures |vs| == |raw|
  {
    seq(|raw|, i requires 0 <= i < |raw| => Meaning(isInt, raw[i]))
  }

  function PutDict(raw: seq<Text>): Text { LE(|raw|, 4) + PutMany(PutText, raw) }

  // A dictionary: no two entries may name one value.
  ghost function GetDict(isInt: bool, b: Text): Parsed<seq<Text>> {
    match GetLE(b, 4)
    case Fail => Fail
    case Got(n, r) =>
      match GetMany(TextItem(isInt), r, n)
      case Fail => Fail
      case Got(raw, r') => if Distinct(Meanings(isInt, raw)) then Got(raw, r') else Fail
  }

  function IsInt(sc: Schema, d: nat): bool { d < |sc.dims| && sc.dims[d].isInt }

  ghost function DictItem(sc: Schema): (nat, Text) -> Parsed<seq<Text>> {
    (d: nat, b: Text) => GetDict(IsInt(sc, d), b)
  }

  function PutId(id: nat): Text { LE(id, 4) }

  function GetId(card: nat, b: Text): Parsed<nat> {
    match GetLE(b, 4)
    case Fail => Fail
    case Got(v, r) => if v >= card then Fail else Got(v, r)
  }

  function IdItem(card: nat): (nat, Text) -> Parsed<nat> {
    (i: nat, b: Text) => GetId(card, b)
  }

  function PutIds(col: seq<nat>): Text { PutMany(PutId, col) }

  function CardAt(cards: seq<nat>, d: nat): nat { if d < |cards| then cards[d] else 0 }

  function IdsItem(cards: seq<nat>, n: nat): (nat, Text) -> Parsed<seq<nat>> {
    (d: nat, b: Text) => GetMany(IdItem(CardAt(cards, d)), b, n)
  }

  function PutInt(v: int): Text { LE(Word(v), 8) }

  function GetInt(b: Text): Parsed<int> {
    match GetLE(b, 8)
    case Fail => Fail
    case Got(w, r) => Got(Signed(w), r)
  }

  function IntItem(): (nat, Text) -> Parsed<int> {
    (i: nat, b: Text) => GetInt(b)
  }

  function PutInts(col: seq<int>): Text { PutMany(PutInt, col) }

  function IntsItem(n: nat): (nat, Text) -> Parsed<seq<int>> {
    (m: nat, b: Text) => GetMany(IntItem(), b, n)
  }

  // ---- Columns ----

  function IdCol(rows: seq<Row>, d: nat): (c: seq<nat>)
    ensures |c| == |rows|
  {
    seq(|rows|, r requires 0 <= r < |rows| => IdAt(rows[r], d))
  }

  function MetCol(rows: seq<Row>, m: nat): (c: seq<int>)
    ensures |c| == |rows|
  {
    seq(|rows|, r requires 0 <= r < |rows| => MetAt(rows[r], m))
  }

  function UpdatedCol(rows: seq<Row>): (c: seq<int>)
    ensures |c| == |rows|
  {
    seq(|rows|, r requires 0 <= r < |rows| => rows[r].updated)
  }

  function ExpireCol(rows: seq<Row>): (c: seq<int>)
    ensures |c| == |rows|
  {
    seq(|rows|, r requires 0 <= r < |rows| => rows[r].expire)
  }

  // The column-major content of a file.
  datatype Tables = Tables(raw: seq<seq<Text>>, ids: seq<seq<nat>>, mets: seq<seq<int>>, updated: seq<int>,
          expire: seq<int>)

  function TablesOf(sc: Schema, raw: seq<seq<Text>>, rows: seq<Row>): Tables {
    Tables(raw, seq(|sc.dims|, (d: nat) => IdCol(rows, d)), seq(|sc.metrics|, (m: nat) => MetCol(rows, m)),
      UpdatedCol(rows), ExpireCol(rows))
  }

  function Cell<T>(cols: seq<seq<T>>, c: nat, r: nat, none: T): T {
    if c < |cols| && r < |cols[c]| then cols[c][r] else none
  }

  function IntAt(col: seq<int>, r: nat): int { if r < |col| then col[r] else 0 }

  function RowFrom(t: Tables, r: nat): Row {
    Row(seq(|t.ids|, (d: nat) => Cell(t.ids, d, r, 0)), seq(|t.mets|, (m: nat) => Cell(t.mets, m, r, 0)),
      IntAt(t.updated, r), IntAt(t.expire, r))
  }

  function RowsFrom(t: Tables, n: nat): (rows: seq<Row>)
    ensures |rows| == n
  {
    seq(n, (r: nat) => RowFrom(t, r))
  }

  // Columns and back.
  lemma ColumnsRoundTrip(sc: Schema, raw: seq<seq<Text>>, rows: seq<Row>)
    requires forall r :: 0 <= r < |rows| ==> |rows[r].ids| == |sc.dims| && |rows[r].mets| == |sc.metrics|
    ensures RowsFrom(TablesOf(sc, raw, rows), |rows|) == rows
  {
    var t := TablesOf(sc, raw, rows);
    forall r: nat | r < |rows| ensures RowFrom(t, r) == rows[r] {
      assert RowFrom(t, r).ids == rows[r].ids;
      assert RowFrom(t, r).mets == rows[r].mets;
    }
  }

  // ---- The file ----

  function PutTables(t: Tables): Text {
    PutMany(PutDict, t.raw)
    + (PutMany(PutIds, t.ids) + (PutMany(PutInts, t.mets) + (PutInts(t.updated) + PutInts(t.expire))))
  }

  function PutBody(fp: nat, maxUpdated: int, n: nat, tables: Text): Text {
    MAGIC + (LE(VERSION, 4) + (LE(fp, 8) + (PutInt(maxUpdated) + (LE(n, 8) + tables))))
  }

  // The trailing checksum covers the body only.
  function Seal(crc: Text -> nat, body: Text): Text {
    body + LE(crc(body) % TWO32, 4)
  }

  function Spellings(dict: seq<Value>): (raw: seq<Text>)
    ensures |raw| == |dict|
  {
    seq(|dict|, i requires 0 <= i < |dict| => Spell(dict[i]))
  }

  function AllSpellings(ds: Dicts): (raw: seq<seq<Text>>)
    ensures |raw| == |ds|
  {
    seq(|ds|, d requires 0 <= d < |ds| => Spellings(ds[d]))
  }

  // What SaveSnapshot writes.
  function Encode(sc: Schema, fp: nat, crc: Text -> nat, s: SnapV): Text {
    Seal(crc, PutBody(fp, s.maxUpdated, |s.rows|, PutTables(TablesOf(sc, AllSpellings(s.dicts), s.rows))))
  }

  datatype Header = BadHeader | StaleHeader | Header(maxUpdated: int, n: nat, rest: Text)

  // Magic, version, fingerprint, then the position (checked against the cutoff before
  // anything else is read), then the row count.
  function GetHeader(fp: nat, cutoff: int, body: Text): Header {
    match GetBytes(body, |MAGIC|)
    case Fail => BadHeader
    case Got(m, r0) =>
      if m != MAGIC then BadHeader
      else
        match GetLE(r0, 4)
        case Fail => BadHeader
        case Got(v, r1) =>
          if v != VERSION then BadHeader
          else
            match GetLE(r1, 8)
            case Fail => BadHeader
            case Got(f, r2) =>
              if f != fp then BadHeader
              else
                match GetInt(r2)
                case Fail => BadHeader
                case Got(u, r3) =>
                  if cutoff > 0 && u < cutoff then StaleHeader
                  else
                    match GetLE(r3, 8)
                    case Fail => BadHeader
                    case Got(n, r4) => if n > |body| then BadHeader else Header(u, n, r4)
  }

  function Lengths(raw: seq<seq<Text>>): seq<nat> {
    seq(|raw|, d requires 0 <= d < |raw| => |raw[d]|)
  }

  ghost function GetTables(sc: Schema, n: nat, b: Text): Parsed<Tables> {
    match GetMany(DictItem(sc), b, |sc.dims|)
    case Fail => Fail
    case Got(raw, r0) =>
      match GetMany(IdsItem(Lengths(raw), n), r0, |sc.dims|)
      case Fail => Fail
      case Got(ids, r1) =>
        match GetMany(IntsItem(n), r1, |sc.metrics|)
        case Fail => Fail
        case Got(mets, r2) =>
          match GetMany(IntItem(), r2, n)
          case Fail => Fail
          case Got(updated, r3) =>
            match GetMany(IntItem(), r3, n)
            case Fail => Fail
            case Got(expire, r4) => Got(Tables(raw, ids, mets, updated, expire), r4)
  }

  function DictsFrom(sc: Schema, raw: seq<seq<Text>>): (ds: Dicts)
    ensures |ds| == |raw|
  {
    seq(|raw|, d requires 0 <= d < |raw| => Meanings(IsInt(sc, d), raw[d]))
  }

  function ShiftsOf(cards: seq<nat>): (s: seq<nat>)
    ensures |s| == |cards|
  {
    seq(|cards|, i requires 0 <= i < |cards| => Width(cards[i + 1..]))
  }

  lemma LayoutIsShifts(shifts: seq<nat>, cards: seq<nat>)
    requires Layout(shifts, cards)
    ensures shifts == ShiftsOf(cards)
  {
  }

  function Take<T>(s: seq<T>, n: nat): seq<T> { if n <= |s| then s[..n] else s }

  function KeyAt(shifts: seq<nat>, row: Row): nat {
    if |shifts| <= |row.ids| then KeyOf(shifts, row.ids) else 0
  }

  // The snapshot recomputed from the stored columns.
  function SnapFrom(sc: Schema, maxUpdated: int, n: nat, t: Tables): SnapV {
    var (ds, rows) := (DictsFrom(sc, t.raw), RowsFrom(t, n));
    var shifts := ShiftsOf(Take(Cards(ds), sc.indexDims));
    SnapV(ds, shifts, rows, seq(n, r requires 0 <= r < n => KeyAt(shifts, rows[r])), maxUpdated, MinUpdated(rows),
      MinExpire(rows))
  }

  // What the reader still checks once all columns are in.
  ghost predicate Acceptable(sc: Schema, n: nat, t: Tables, s: SnapV) {
    && (n > 0 ==> MaxUpdated(s.rows) == s.maxUpdated)
    && Width(Take(Lengths(t.raw), sc.indexDims)) <= 64
    && Ascending(s.keys)
  }

  datatype Loading = Corrupt | Stale | Loaded(t: Tables, snap: SnapV)

  ghost function ParseBody(sc: Schema, fp: nat, cutoff: int, body: Text): Loading {
    match GetHeader(fp, cutoff, body)
    case BadHeader => Corrupt
    case StaleHeader => Stale
    case Header(maxUpdated, n, rest) =>
      match GetTables(sc, n, rest)
      case Fail => Corrupt
      case Got(t, r) =>
        var s := SnapFrom(sc, maxUpdated, n, t);
        if r == [] && Acceptable(sc, n, t, s) then Loaded(t, s) else Corrupt
  }

  const LEAST_FILE: nat := 40

  // The reader as a function of the file's bytes.
  ghost function Parse(sc: Schema, fp: nat, crc: Text -> nat, cutoff: int, data: Text): Loading {
    if |data| < LEAST_FILE then Corrupt
    else
      var (body, tail) := (data[..|data| - 4], data[|data| - 4..]);
      if crc(body) % TWO32 != UnLE(tail) then Corrupt else ParseBody(sc, fp, cutoff, body)
  }
}
