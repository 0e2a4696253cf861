// The naive reference table: one entry per full dimension tuple, read by linear
// scan. Everything the engine answers is compared with this module.
module Oracle {
  import opened Decimal
  import opened Table

  // ---- Records ----

  // expireAt None is Go's zero time: the record never expires.
  datatype Record = Record(dims: seq<Text>, mets: seq<int>, updated: int, expireAt: Option<int>)

  function ExpireMilli(expireAt: Option<int>): int {
    match expireAt
    case None => 0
    case Some(t) => t
  }

  predicate RefVisible(expireAt: Option<int>, now: int) {
    expireAt.None? || now < expireAt.value
  }

  // The stored expiry means what the record said, except for an expiry stamped
  // exactly at the epoch: stored as 0, it reads back as "never".
  lemma StoredExpiry(expireAt: Option<int>, now: int)
    ensures RefVisible(expireAt, now) == !Expired(ExpireMilli(expireAt), now)
            <==> !(expireAt == Some(0) && now >= 0)
  {
  }

  // The value a spelling names in dimension d: integers are identified by number.
  function ValueOf(sc: Schema, d: nat, s: Text): Option<Value>
    requires d < |sc.dims|
  {
    if sc.dims[d].isInt then
      match ParseInt(s)
      case None => None
      case Some(n) => Some(Num(n))
    else Some(Str(s))
  }

  function Spell(v: Value): Text {
    match v
    case Str(s) => s
    case Num(n) => FormatInt(n)
  }

  // Two spellings name one value exactly when their canonical spellings are equal.
  lemma CanonicalIdentity(sc: Schema, d: nat, a: Text, b: Text)
    requires d < |sc.dims| && ValueOf(sc, d, a).Some? && ValueOf(sc, d, b).Some?
    ensures ValueOf(sc, d, a) == ValueOf(sc, d, b)
            <==> Spell(ValueOf(sc, d, a).value) == Spell(ValueOf(sc, d, b).value)
  {
    if sc.dims[d].isInt {
      ParseOfFormat(ParseInt(a).value);
      ParseOfFormat(ParseInt(b).value);
    }
  }

  // The tuple of the first n spellings; None when one is not an integer.
  function TupleOf(sc: Schema, dims: seq<Text>, n: nat): Option<Tuple>
    requires n <= |dims| == |sc.dims|
    ensures TupleOf(sc, dims, n).Some? ==> |TupleOf(sc, dims, n).value| == n
  {
    if n == 0 then Some([])
    else
      match TupleOf(sc, dims, n - 1)
      case None => None
      case Some(t) =>
        match ValueOf(sc, n - 1, dims[n - 1])
        case None => None
        case Some(v) => Some(t + [v])
  }

  // What a spelling names: on a string dimension the label itself, byte for byte; on an
  // integer dimension the integer its digits denote.
  ghost predicate Names(sc: Schema, d: nat, s: Text, v: Value)
    requires d < |sc.dims|
  {
    if sc.dims[d].isInt then Numeral64(s) && v == Num(Denoted(s)) else v == Str(s)
  }

  lemma ValueNames(sc: Schema, d: nat, s: Text, v: Value)
    requires d < |sc.dims|
    ensures ValueOf(sc, d, s) == Some(v) <==> Names(sc, d, s, v)
    ensures ValueOf(sc, d, s).None? <==> sc.dims[d].isInt && !Numeral64(s)
  {
    ParseMeans(s);
  }

  ghost predicate NamesTuple(sc: Schema, dims: seq<Text>, t: Tuple) {
    |t| == |dims| == |sc.dims| && forall d :: 0 <= d < |t| ==> Names(sc, d, dims[d], t[d])
  }

  lemma {:induction false} TupleNames(sc: Schema, dims: seq<Text>, n: nat)
    requires n <= |dims| == |sc.dims|
    ensures TupleOf(sc, dims, n).Some? <==> forall d :: 0 <= d < n && sc.dims[d].isInt ==> Numeral64(dims[d])
    ensures TupleOf(sc, dims, n).Some? ==>
              forall d :: 0 <= d < n ==> Names(sc, d, dims[d], TupleOf(sc, dims, n).value[d])
  {
    hide Names, Numeral64, ValueOf;
    if n == 0 {
    } else {
      TupleNames(sc, dims, n - 1);
      var v := ValueOf(sc, n - 1, dims[n - 1]);
      ValueNames(sc, n - 1, dims[n - 1], if v.Some? then v.value else Str([]));
    }
  }

  lemma NamesOne(sc: Schema, dims: seq<Text>, t: Tuple, t': Tuple)
    requires NamesTuple(sc, dims, t) && NamesTuple(sc, dims, t')
    ensures t == t'
  {
  }

  // Two lists of spellings name one tuple exactly when every label is the same and every
  // integer is.
  lemma TuplesMeet(sc: Schema, a: seq<Text>, b: seq<Text>, s: Tuple, t: Tuple)
    requires NamesTuple(sc, a, s) && NamesTuple(sc, b, t)
    ensures s == t <==>
              forall d :: 0 <= d < |sc.dims| ==>
                if sc.dims[d].isInt then Denoted(a[d]) == Denoted(b[d]) else a[d] == b[d]
  {
    hide Numeral64, Denoted;
    forall d | 0 <= d < |sc.dims|
      ensures s[d] == t[d] <==> if sc.dims[d].isInt then Denoted(a[d]) == Denoted(b[d]) else a[d] == b[d]
    {
      assert Names(sc, d, a[d], s[d]) && Names(sc, d, b[d], t[d]);
    }
  }

  datatype Reading = Bad | Skip | Use(tuple: Tuple, entry: Entry)

  // How one record is received: arity first, then TTL, then the integer dimensions,
  // so a record older than the cutoff is never parsed.
  function Read(sc: Schema, rec: Record, cutoff: int): Reading {
    if |rec.dims| != |sc.dims| || |rec.mets| != |sc.metrics| then Bad
    else if rec.updated < cutoff then Skip
    else
      match TupleOf(sc, rec.dims, |rec.dims|)
      case None => Bad
      case Some(t) => Use(t, Entry(rec.mets, rec.updated, ExpireMilli(rec.expireAt)))
  }

  // The record cannot be received: wrong width, or, unless it is too old to be looked at,
  // an integer dimension spelled as anything but a 64-bit numeral.
  ghost predicate Malformed(sc: Schema, rec: Record, cutoff: int) {
    || |rec.dims| != |sc.dims| || |rec.mets| != |sc.metrics|
    || (rec.updated >= cutoff && exists d :: 0 <= d < |sc.dims| && sc.dims[d].isInt && !Numeral64(rec.dims[d]))
  }

  function EntryFor(rec: Record): Entry { Entry(rec.mets, rec.updated, ExpireMilli(rec.expireAt)) }

  lemma ReadMeans(sc: Schema, rec: Record, cutoff: int)
    ensures Read(sc, rec, cutoff).Bad? <==> Malformed(sc, rec, cutoff)
    ensures Read(sc, rec, cutoff).Skip? <==> !Malformed(sc, rec, cutoff) && rec.updated < cutoff
    ensures match Read(sc, rec, cutoff)
            case Use(t, e) => NamesTuple(sc, rec.dims, t) && e == EntryFor(rec)
            case _ => true
  {
    hide Names, Numeral64, TupleOf;
    if |rec.dims| == |sc.dims| {
      TupleNames(sc, rec.dims, |rec.dims|);
    }
  }

  // ---- Updates ----

  // A newer or equally old record replaces the entry; while blocked, no new tuple.
  function Upsert(m: Contents, t: Tuple, e: Entry, blocked: bool): Contents {
    if t in m && m[t].updated > e.updated then m
    else if blocked && t !in m then m
    else m[t := e]
  }

  // A batch is the left fold of the rule; one bad record refuses all of it.
  function ApplyAll(sc: Schema, m: Contents, recs: seq<Record>, cutoff: int, blocked: bool): Option<Contents> {
    if |recs| == 0 then Some(m)
    else
      var n := |recs| - 1;
      match ApplyAll(sc, m, recs[..n], cutoff, blocked)
      case None => None
      case Some(m') =>
        match Read(sc, recs[n], cutoff)
        case Bad => None
        case Skip => Some(m')
        case Use(t, e) => Some(Upsert(m', t, e, blocked))
  }

  // ---- What a batch leaves, record by record ----

  // Record i, among the first n, names tuple t and is young enough to count.
  ghost predicate Tells(sc: Schema, recs: seq<Record>, cutoff: int, n: nat, i: nat, t: Tuple) {
    i < n <= |recs| && recs[i].updated >= cutoff && NamesTuple(sc, recs[i].dims, t)
  }

  // Among those it is the last of the newest, and the table held nothing newer.
  ghost predicate Wins(sc: Schema, m: Contents, recs: seq<Record>, cutoff: int, n: nat, i: nat, t: Tuple) {
    && Tells(sc, recs, cutoff, n, i, t) && (t in m ==> m[t].updated <= recs[i].updated)
    && forall j: nat :: Tells(sc, recs, cutoff, n, j, t) ==>
      if j <= i then recs[j].updated <= recs[i].updated else recs[j].updated < recs[i].updated
  }

  // What t holds afterwards: what the winning record says, or what it held before.
  ghost predicate Latest(sc: Schema, m: Contents, recs: seq<Record>, cutoff: int, n: nat, t: Tuple, e: Entry) {
    && (forall i: nat :: Wins(sc, m, recs, cutoff, n, i, t) ==> e == EntryFor(recs[i]))
    && ((forall i: nat :: !Wins(sc, m, recs, cutoff, n, i, t)) ==> t in m && e == m[t])
  }

  // The table m' that n records leave of m, at tuple t: stored if it was or, unless blocked,
  // some record names it.
  ghost predicate LeftAt(sc: Schema, m: Contents, recs: seq<Record>, cutoff: int, blocked: bool, n: nat, m': Contents,
          t: Tuple)
  {
    && (t in m' <==> t in m || (!blocked && exists i: nat :: Tells(sc, recs, cutoff, n, i, t)))
    && (t in m' ==> Latest(sc, m, recs, cutoff, n, t, m'[t]))
  }

  // Nothing told so far is newer than what is stored.
  ghost predicate NoneNewer(sc: Schema, m: Contents, recs: seq<Record>, cutoff: int, n: nat, m': Contents, t: Tuple) {
    t in m' ==> (t in m ==> m[t].updated <= m'[t].updated)
                && forall i: nat :: Tells(sc, recs, cutoff, n, i, t) ==> recs[i].updated <= m'[t].updated
  }

  lemma TellsNext(sc: Schema, recs: seq<Record>, cutoff: int, n: nat, i: nat, t: Tuple)
    requires n < |recs|
    ensures Tells(sc, recs, cutoff, n + 1, i, t)
            <==> Tells(sc, recs, cutoff, n, i, t)
                 || (i == n && recs[n].updated >= cutoff && NamesTuple(sc, recs[n].dims, t))
  {
  }

  lemma TellsBelow(sc: Schema, recs: seq<Record>, cutoff: int, n: nat, t: Tuple)
    ensures forall i: nat :: Tells(sc, recs, cutoff, n, i, t) ==> i < n
  {
  }

  // A record that does not tell of t changes nothing there.
  lemma LeftSame(sc: Schema, m: Contents, recs: seq<Record>, cutoff: int, blocked: bool, n: nat, was: Contents,
          m': Contents, t: Tuple)
    requires n < |recs| && LeftAt(sc, m, recs, cutoff, blocked, n, was, t) && NoneNewer(sc, m, recs, cutoff, n, was, t)
    requires (t in m' <==> t in was) && (t in m' ==> m'[t] == was[t])
    requires !(recs[n].updated >= cutoff && NamesTuple(sc, recs[n].dims, t))
    ensures LeftAt(sc, m, recs, cutoff, blocked, n + 1, m', t) && NoneNewer(sc, m, recs, cutoff, n + 1, m', t)
  {
    hide Tells, NamesTuple, Wins;
    SameTellers(sc, m, recs, cutoff, n, n + 1, t);
  }

  lemma SameTellers(sc: Schema, m: Contents, recs: seq<Record>, cutoff: int, n: nat, n': nat, t: Tuple)
    requires n' == n + 1 <= |recs| && !(recs[n].updated >= cutoff && NamesTuple(sc, recs[n].dims, t))
    ensures forall i: nat :: Tells(sc, recs, cutoff, n', i, t) <==> Tells(sc, recs, cutoff, n, i, t)
    ensures forall i: nat :: Wins(sc, m, recs, cutoff, n', i, t) <==> Wins(sc, m, recs, cutoff, n, i, t)
  {
    hide Tells, NamesTuple;
    forall i: nat ensures Tells(sc, recs, cutoff, n', i, t) <==> Tells(sc, recs, cutoff, n, i, t) {
      TellsNext(sc, recs, cutoff, n, i, t);
    }
  }

  // A record that does tells the rule at work.
  lemma LeftTold(sc: Schema, m: Contents, recs: seq<Record>, cutoff: int, blocked: bool, n: nat, was: Contents,
          t: Tuple)
    requires n < |recs| && LeftAt(sc, m, recs, cutoff, blocked, n, was, t) && NoneNewer(sc, m, recs, cutoff, n, was, t)
    requires recs[n].updated >= cutoff && NamesTuple(sc, recs[n].dims, t)
    ensures var m' := Upsert(was, t, EntryFor(recs[n]), blocked);
            LeftAt(sc, m, recs, cutoff, blocked, n + 1, m', t) && NoneNewer(sc, m, recs, cutoff, n + 1, m', t)
  {
    hide Tells, NamesTuple;
    var m' := Upsert(was, t, EntryFor(recs[n]), blocked);
    var n' := n + 1;
    forall i: nat ensures Tells(sc, recs, cutoff, n', i, t) <==> Tells(sc, recs, cutoff, n, i, t) || i == n {
      TellsNext(sc, recs, cutoff, n, i, t);
    }
    TellsBelow(sc, recs, cutoff, n, t);
    if t in was && was[t].updated > recs[n].updated {
      forall i: nat ensures Wins(sc, m, recs, cutoff, n', i, t) <==> Wins(sc, m, recs, cutoff, n, i, t) {
        if Wins(sc, m, recs, cutoff, n, i, t) {
          assert was[t] == EntryFor(recs[i]);
        }
      }
    } else if t in was || !blocked {
      assert m' == was[t := EntryFor(recs[n])];
      assert Tells(sc, recs, cutoff, n', n, t);
      forall j: nat | Tells(sc, recs, cutoff, n', j, t) ensures j <= n && recs[j].updated <= recs[n].updated {
        assert j == n || Tells(sc, recs, cutoff, n, j, t);
      }
      assert Wins(sc, m, recs, cutoff, n', n, t);
    }
  }

  // A batch is refused exactly when some record is malformed. Otherwise every tuple is
  // stored that was, or that some record names, and holds what the last of its newest
  // records says.
  lemma {:induction false} BatchLeaves(sc: Schema, m: Contents, recs: seq<Record>, cutoff: int, blocked: bool, n: nat)
    requires n <= |recs|
    ensures ApplyAll(sc, m, recs[..n], cutoff, blocked).None?
            <==> exists i :: 0 <= i < n && Malformed(sc, recs[i], cutoff)
    ensures match ApplyAll(sc, m, recs[..n], cutoff, blocked)
            case None => true
            case Some(m') => forall t :: LeftAt(sc, m, recs, cutoff, blocked, n, m', t)
                                         && NoneNewer(sc, m, recs, cutoff, n, m', t)
  {
    hide LeftAt, NoneNewer, Malformed, Read, Upsert, ApplyAll;
    if n == 0 {
      assert ApplyAll(sc, m, recs[..0], cutoff, blocked) == Some(m) by {
        NoRecords(sc, m, recs[..0], cutoff, blocked);
      }
      forall t ensures LeftAt(sc, m, recs, cutoff, blocked, 0, m, t) && NoneNewer(sc, m, recs, cutoff, 0, m, t) {
        NothingTold(sc, m, recs, cutoff, blocked, t);
      }
    } else {
      BatchLeaves(sc, m, recs, cutoff, blocked, n - 1);
      ApplyNext(sc, m, recs, cutoff, blocked, n - 1);
      ReadMeans(sc, recs[n - 1], cutoff);
      var was := ApplyAll(sc, m, recs[..n - 1], cutoff, blocked);
      if was.Some? && !Malformed(sc, recs[n - 1], cutoff) {
        var m' := ApplyAll(sc, m, recs[..n], cutoff, blocked).value;
        forall t
          ensures LeftAt(sc, m, recs, cutoff, blocked, n, m', t) && NoneNewer(sc, m, recs, cutoff, n, m', t)
        {
          LeftNext(sc, m, recs, cutoff, blocked, n - 1, was.value, m', t);
        }
      }
    }
  }

  lemma NoRecords(sc: Schema, m: Contents, recs: seq<Record>, cutoff: int, blocked: bool)
    requires recs == []
    ensures ApplyAll(sc, m, recs, cutoff, blocked) == Some(m)
  {
  }

  lemma ApplyNext(sc: Schema, m: Contents, recs: seq<Record>, cutoff: int, blocked: bool, n: nat)
    requires n < |recs|
    ensures ApplyAll(sc, m, recs[..n + 1], cutoff, blocked)
            == match (ApplyAll(sc, m, recs[..n], cutoff, blocked), Read(sc, recs[n], cutoff))
               case (None, _) => None
               case (_, Bad) => None
               case (Some(was), Skip) => Some(was)
               case (Some(was), Use(t, e)) => Some(Upsert(was, t, e, blocked))
  {
    hide Read, Upsert;
    assert recs[..n + 1][..n] == recs[..n];
  }

  lemma NothingTold(sc: Schema, m: Contents, recs: seq<Record>, cutoff: int, blocked: bool, t: Tuple)
    ensures LeftAt(sc, m, recs, cutoff, blocked, 0, m, t) && NoneNewer(sc, m, recs, cutoff, 0, m, t)
  {
  }

  lemma LeftNext(sc: Schema, m: Contents, recs: seq<Record>, cutoff: int, blocked: bool, n: nat, was: Contents,
          m': Contents, t: Tuple)
    requires n < |recs| && LeftAt(sc, m, recs, cutoff, blocked, n, was, t) && NoneNewer(sc, m, recs, cutoff, n, was, t)
    requires match Read(sc, recs[n], cutoff)
             case Bad => false
             case Skip => m' == was
             case Use(u, e) => m' == Upsert(was, u, e, blocked)
    ensures LeftAt(sc, m, recs, cutoff, blocked, n + 1, m', t) && NoneNewer(sc, m, recs, cutoff, n + 1, m', t)
  {
    hide LeftAt, NoneNewer, Malformed, NamesTuple;
    var r := Read(sc, recs[n], cutoff);
    ReadMeans(sc, recs[n], cutoff);
    if r.Use? && r.tuple == t {
      LeftTold(sc, m, recs, cutoff, blocked, n, was, t);
    } else {
      if r.Use? && NamesTuple(sc, recs[n].dims, t) {
        NamesOne(sc, recs[n].dims, t, r.tuple);
      }
      LeftSame(sc, m, recs, cutoff, blocked, n, was, m', t);
    }
  }

  // Two records that differ in one label are two entries.
  lemma LabelsApart(sc: Schema, m: Contents, a: Record, b: Record, cutoff: int, d: nat)
    requires a.updated >= cutoff && b.updated >= cutoff && !Malformed(sc, a, cutoff) && !Malformed(sc, b, cutoff)
    requires d < |sc.dims| && !sc.dims[d].isInt && a.dims[d] != b.dims[d]
    ensures exists s, t :: s != t && NamesTuple(sc, a.dims, s) && NamesTuple(sc, b.dims, t) && s[d] == Str(a.dims[d])
                           && t[d] == Str(b.dims[d]) && ApplyAll(sc, m, [a, b], cutoff, false).Some?
                           && ApplyAll(sc, m, [a, b], cutoff, false).value.Keys == m.Keys + {s, t}
  {
    hide Malformed, Names, Read;
    var recs := [a, b];
    BatchLeaves(sc, m, recs, cutoff, false, 2);
    assert recs[..2] == recs;
    ReadMeans(sc, a, cutoff);
    ReadMeans(sc, b, cutoff);
    var (s, t) := (Read(sc, a, cutoff).tuple, Read(sc, b, cutoff).tuple);
    LabelIs(sc, a.dims, s, d);
    LabelIs(sc, b.dims, t, d);
    var m' := ApplyAll(sc, m, recs, cutoff, false).value;
    forall u ensures u in m'.Keys <==> u in m.Keys + {s, t} {
      TwoTell(sc, a, b, cutoff, s, t, u);
      assert LeftAt(sc, m, recs, cutoff, false, 2, m', u);
    }
  }

  // A string dimension holds the label given.
  lemma LabelIs(sc: Schema, dims: seq<Text>, t: Tuple, d: nat)
    requires NamesTuple(sc, dims, t) && d < |sc.dims| && !sc.dims[d].isInt
    ensures t[d] == Str(dims[d]) && Spell(t[d]) == dims[d]
  {
    assert Names(sc, d, dims[d], t[d]);
  }

  lemma TwoTell(sc: Schema, a: Record, b: Record, cutoff: int, s: Tuple, t: Tuple, u: Tuple)
    requires a.updated >= cutoff && b.updated >= cutoff && NamesTuple(sc, a.dims, s) && NamesTuple(sc, b.dims, t)
    ensures (exists i: nat :: Tells(sc, [a, b], cutoff, 2, i, u)) <==> u == s || u == t
  {
    hide NamesTuple;
    assert Tells(sc, [a, b], cutoff, 2, 0, s) && Tells(sc, [a, b], cutoff, 2, 1, t);
    if i: nat :| Tells(sc, [a, b], cutoff, 2, i, u) {
      if i == 0 {
        NamesOne(sc, a.dims, u, s);
      } else {
        NamesOne(sc, b.dims, u, t);
      }
    }
  }

  // Records refused by the row cap.
  function Dropped(sc: Schema, m: Contents, recs: seq<Record>, cutoff: int, blocked: bool): nat {
    if |recs| == 0 then 0
    else
      var n := |recs| - 1;
      var before := Dropped(sc, m, recs[..n], cutoff, blocked);
      match (ApplyAll(sc, m, recs[..n], cutoff, blocked), Read(sc, recs[n], cutoff))
      case (Some(m'), Use(t, e)) => before + (if blocked && t !in m' then 1 else 0)
      case _ => before
  }

  // While the cap blocks, the set of stored tuples never changes.
  lemma {:induction false} BlockedKeepsTuples(sc: Schema, m: Contents, recs: seq<Record>, cutoff: int)
    ensures match ApplyAll(sc, m, recs, cutoff, true)
            case None => true
            case Some(m') => m'.Keys == m.Keys
  {
    if |recs| == 0 {
    } else {
      BlockedKeepsTuples(sc, m, recs[..|recs| - 1], cutoff);
    }
  }

  // What a merge keeps.
  predicate Kept(e: Entry, cutoff: int, now: int) {
    e.updated >= cutoff && !Expired(e.expire, now)
  }

  function Retain(m: Contents, cutoff: int, now: int): Contents {
    map t | t in m && Kept(m[t], cutoff, now) :: m[t]
  }

  // ---- Queries ----

  datatype Range = Range(min: int, max: int)

  datatype Cond = Cond(dim: string, value: Text, ins: seq<Text>, range: Option<Range>)

  type Group = seq<Cond>

  predicate MatchesCond(sc: Schema, t: Tuple, c: Cond) {
    var d := sc.DimIndex(c.dim);
    if d < 0 || d >= |t| then false
    else if c.range.Some? then
      (match t[d]
       case Num(n) => c.range.value.min <= n <= c.range.value.max
       case Str(s) =>
         match ParseInt(s)
         case None => false
         case Some(n) => c.range.value.min <= n <= c.range.value.max)
    else if |c.ins| > 0 then exists i :: 0 <= i < |c.ins| && ValueOf(sc, d, c.ins[i]) == Some(t[d])
    else ValueOf(sc, d, c.value) == Some(t[d])
  }

  // A condition asks for what its spellings name.
  lemma CondNames(sc: Schema, t: Tuple, c: Cond, d: nat)
    requires d < |t| == |sc.dims| && sc.DimIndex(c.dim) == d && c.range.None?
    ensures MatchesCond(sc, t, c) <==>
              if |c.ins| > 0 then exists i :: 0 <= i < |c.ins| && Names(sc, d, c.ins[i], t[d])
              else Names(sc, d, c.value, t[d])
  {
    hide Names, ValueOf;
    ValueNames(sc, d, c.value, t[d]);
    forall i | 0 <= i < |c.ins| ensures ValueOf(sc, d, c.ins[i]) == Some(t[d]) <==> Names(sc, d, c.ins[i], t[d]) {
      ValueNames(sc, d, c.ins[i], t[d]);
    }
  }

  predicate Matches(sc: Schema, t: Tuple, g: Group) {
    forall i :: 0 <= i < |g| ==> MatchesCond(sc, t, g[i])
  }

  predicate MatchesAny(sc: Schema, t: Tuple, groups: seq<Group>) {
    exists g :: 0 <= g < |groups| && Matches(sc, t, groups[g])
  }

  // The entries a query ranges over: visible, and matching at least one group.
  function Selected(sc: Schema, m: Contents, groups: seq<Group>, now: int): Contents {
    map t | t in m && !Expired(m[t].expire, now) && MatchesAny(sc, t, groups) :: m[t]
  }

  function Metric(e: Entry, i: nat): int {
    if i < |e.mets| then e.mets[i] else 0
  }

  ghost function SumOf(m: Contents, i: nat): int
    decreases |m|
  {
    if m == map[] then 0
    else
      var t :| t in m;
      Metric(m[t], i) + SumOf(m - {t}, i)
  }

  // The order of the scan does not matter.
  lemma {:induction false} SumInsert(m: Contents, t: Tuple, e: Entry, i: nat)
    requires t !in m
    ensures SumOf(m[t := e], i) == SumOf(m, i) + Metric(e, i)
    decreases |m|
  {
    var m' := m[t := e];
    assert m' != map[] by { assert t in m'; }
    var p :| p in m' && SumOf(m', i) == Metric(m'[p], i) + SumOf(m' - {p}, i);
    if p == t {
      assert m' - {p} == m;
    } else {
      var rest := m - {p};
      assert m' - {p} == rest[t := e];
      assert m == rest[p := m[p]];
      SumInsert(rest, t, e, i);
      SumInsert(rest, p, m[p], i);
    }
  }

  ghost function ValuesOf(m: Contents, d: nat): set<Value> {
    set t | t in m && d < |t| :: t[d]
  }

  ghost predicate LeastMetric(m: Contents, i: nat, x: int) {
    (forall t :: t in m ==> x <= Metric(m[t], i)) && (exists t :: t in m && Metric(m[t], i) == x)
  }

  ghost predicate GreatestMetric(m: Contents, i: nat, x: int) {
    (forall t :: t in m ==> Metric(m[t], i) <= x) && (exists t :: t in m && Metric(m[t], i) == x)
  }

  // Largest updated over the entries, never below 0: the sync position.
  ghost predicate Newest(m: Contents, u: int) {
    && u >= 0
    && (forall t :: t in m ==> m[t].updated <= u)
    && (u == 0 || exists t :: t in m && m[t].updated == u)
  }
}
