# facetta: the read-optimised table refines the naive one

facetta keeps an in-memory aggregation table: one row per full tuple of dimension
values, with metrics, an update stamp and an expiry. Readers load one pointer to an
immutable view; a single writer publishes new views. Behind that stand packed 64-bit
index keys, dictionaries with a combined id space, a copy-on-write delta overlay, a
two-way merge that may renumber dictionaries, a planner that turns conditions into key
intervals, bitmaps, a binary snapshot format, and a store with a row cap and TTL.

The repository's tests compare all of this with a naive table: a map from tuple to record
and a linear scan. This project states that naive table once (`Oracle.dfy`) and proves
the engine against it.

## How it is built

- `Bits`, `Packing`, `Decimal`, `Bytes`: words, keys, decimal integers, byte sequences.
- `Table`: rows, dictionaries, snapshots, deltas and views as values, the invariant they
  keep (`ViewOK`), and `Abs`, the map a view denotes.
- `Oracle`: the reference table: how a record is read, the upsert rule, batches, what a
  merge retains, what a query selects, sums and extremes.
- `Dictionary`, `Engine`: the mutable objects (dictionary, snapshot, delta, view). Each
  has a `Model()` value, and each method says what becomes of it.
- `Upsert`: copy-on-write batches. `Live`, `Zip`, `Renumber`, `Merge`, `Compaction`: the
  merge and both its dictionary paths. `Build`: a rebuild from a dump.
- `Scratch`, `Conditions`, `Refusal`, `Resolve`, `Planner`, `Odometer`, `Expand`, `Walk`,
  `PlanGroup`, `Match`, `PlanAll`, `Query`: planning, interval expansion, budgets, row
  tests and the sweep. `Reach` says what planning should take in, of the query and the
  table alone; `Pins` ties the planner's pools to it. `Aggregate`, `GroupBy`, `Collision`:
  the other two query kinds.
- `Format`, `Codec`, `Persist`: the file as a function of bytes, its laws, and the
  step-by-step writer and reader.
- `Store`, `Runs`: the state machine and whole runs. `Witness`: inputs on which a promise
  fails, over the smallest views (`Unmerged`). `Insertion`: the step of every insertion
  sort.

Code that works step by step in the source is a method over classes, arrays or reassigned
sequences here, proved against functions of the old state; the laws are lemmas about
those functions. The main results:

- **Runs.** `Runs.Run` executes any list of events (batches, merges by either path,
  rebuilds, restores, loads and evaluations by any number of readers) on the real
  methods. The store then stands for the reference table run on the same events, where a
  rebuild may keep any newest record of a tuple (`Runs.DumpIsOracle`: it comes to the
  reference table and nothing else if and only if no tie is live). Each
  query (sums, aggregates or groups) was answered from the table its reader had loaded,
  however many writer steps came between, and refused exactly when malformed or when the
  rows it reaches exceed the budget. Held views need no copying: every writer method modifies the store object only.
- **Planning.** For every group `Reach.PrefixDepth` says how deep the covered prefix of
  the index goes: the last equality on a dimension pins it, the first IN lists candidates,
  and a dimension with candidates joins unless the combinations cost more than a scan or
  outnumber the free slots. The intervals cover exactly the base rows holding that prefix
  (`PlanGroup.Plan`, `PlanAll.PlanLoop`), in one interval for every pick of list entries
  that names a row; so the slots left to each group, the depths and the budget refusal are
  determined (`PlanAll.RoomsUnique`, `Query.DecidedOnce`). On the stack, and wherever there
  is a slot for every combination, slots never decide (`Query.StackNeverStarves`), and the
  refusal follows from the query and the table alone (`Query.StackDecided`); in any
  workspace that is so for lists demanding up to 4096 slots beyond one a group
  (`Query.SmallDecided`).
- **Merge.** Strict monotonicity of the renumbering, per dimension, and the order
  isomorphism of packing keep the base sorted; keys of dropped delta rows are never
  looked at. The output denotes exactly the retained map.
- **Queries.** The intervals, the hull, the sort and the high-water sweep together equal
  filtering every row and counting each once. A query that is not refused is right
  whether or not all its conditions are well formed.
- **Spellings.** A label is stored, matched, grouped by and saved byte for byte; an integer
  is what its digits denote, however spelled, and is printed as its one plain numeral
  (`Decimal.PrintedIsPlain`, `Oracle.TuplesMeet`, `GroupBy.KeyIsLabel`). So what a batch
  leaves is said of the records alone (`Oracle.BatchLeaves`).
- **Dictionaries.** A merge renumbers exactly when due or when an id fits no key, and
  unforced renumberings of a run are at least the interval apart (`Runs.DueRenumbers`,
  `Runs.EarlyKeepsIds`, `Runs.RenumberingsApart`).
- **Files.** Round trip for every valid snapshot, and a description of every file the
  reader accepts.

## Where the code is not what one would like, and when

Each item keeps the code as it is, names the lemma with an input on which the expected
property fails, and the lemma saying exactly when it holds.

- Two newest records of one tuple with one stamp: a rebuild may keep either
  (`Build.TieIsOpen`). It is the reference table, whichever it keeps, if and only if no
  two newest records of a tuple differ while one of them is unexpired
  (`Build.BuiltIsOracle`).
- A row stamped 0 is taken for "none seen" by the minimum of stamps
  (`Witness.ZeroStamp`); the minimum is exact if and only if none was forgotten
  (`Table.MinUpdatedExact`).
- An expiry stamped exactly at the epoch reads back as "never" once the clock is past it,
  and only that one does (`Oracle.StoredExpiry` is both).
- `store.go:54` says the idle trigger reports whether a merge would change the view. It
  also asks when the merge will be refused, for the row cap (`Witness.CapRefused`) or for
  the key width (`Witness.KeyRefused`). It rounds a TTL with a sub-millisecond part
  otherwise than the merge does (`Witness.TriggerMisfires`), and its minimum cannot tell a
  stamp of 0 from none. It is right if and only if it does not misfire
  (`Store.TriggerExact`, for every valid view; in a store that means: not refused and not
  mistaken about age). A merge at one instant alters the view exactly when
  `Store.WouldAlter` says so: that is part of the contract of `Store.Store.Compact`.
- The trigger never asks for dictionaries alone: a merge may drop an unused dictionary
  value and change nothing else (`Witness.IdleGarbage`). It changes the dictionaries if and
  only if it renumbers and some value is unused (`Store.DictsChange`).
- `schema.go:148` says a TTL of zero disables eviction by age; the cutoff is then 0, and a
  record stamped -1 is not stored (`Witness.NegativeRecord`), nor kept by a merge
  (`Witness.NegativeRow`). With TTL off nothing is dropped for age if and only if no stamp
  is negative (`Store.TTLOffReads`, `Store.TTLOffKeeps`).
- Planning stops at the first condition no row can satisfy, so a malformed condition behind
  it is not reported (`Refusal.HiddenMalformed`). A group is refused if and only if some
  condition is malformed and all earlier ones are usable (`Refusal.RefusedIff`); a query is
  refused whatever the table holds if and only if some group's malformed condition has
  nothing but well-formed ranges before it (`Refusal.AlwaysRefusedIff`).
- Group-by stores the column number of a distinct value in one byte. When two distinct
  columns share it while one varies inside a group, a view of two rows makes the query
  count two values as one (`Collision.CollisionMiscounts`); every column of every result
  is right if and only if that never happens (`Collision.MeansUnlessCollides`). At most
  256 columns suffice (`GroupBy.FewColumnsExact`).
- The schema's documentation (`schema.go:53-54`) says snapshots with non-canonical
  integers are refused; the reader accepts a lone `010` (`Codec.LoneOctalAccepted`).
  Re-encoding reproduces a file if and only if its integers are plain numerals
  (`Codec.ReEncode`).
- The reader checks neither that tuples are unique (`Codec.RepeatedTupleAccepted`) nor the
  position of a file without rows (`Codec.EmptyWithPosition`); an accepted file is a valid
  table if and only if both are as they should be (`Codec.CoherentIsValid`).
- Saving and loading is the identity except for a position older than a positive cutoff
  (`Codec.ValidRoundTrip`); an empty snapshot always is (`Codec.EmptyIsStale`).

## Model

| member | source | states |
|---|---|---|
| Bits.OrIsSum | snapshot.go:78-84 | `\|` of a multiple of 2^s with a number below 2^s is their sum, which is why shifted ids never disturb each other |
| Bits.OrBits | view.go:98-102 | bit by bit, `\|` on words is logical or |
| Bitmap.BitSet | view.go:98-102 | after setting bit i, exactly i and the bits that were set read as set, whatever word they lie in |
| Bitmap.Zeros | agg.go:158-163 | (n+63)/64 zero words hold n bits, all clear |
| Packing.DictBitsLeast | snapshot.go:52-57 | dictBits(n) holds every id below n, and no smaller positive width does |
| Packing.ComputeShifts | snapshot.go:59-76 | overflow exactly when the widths of the index dimensions sum past 64; otherwise every dimension sits directly above all later ones |
| Packing.KeyBound | snapshot.go:59-84 | keys of ids that fit stay below 2^width, hence below 2^64 |
| Packing.KeyOrder | snapshot.go:78-84 | packing is an order isomorphism: keys compare as the id prefixes compare lexicographically, and are equal only for equal prefixes |
| Packing.LexRemap | snapshot.go:301-306 | lexicographic order survives any remap that is strictly monotone in every dimension |
| Packing.KeyRemap | snapshot.go:301-306 | so keys computed from remapped ids under a new layout keep the order of the old keys |
| Packing.PackKey | snapshot.go:78-84 | the loop of shifts and `\|` computes the sum of id times 2^shift |
| Packing.PrefixRange | query.go:215-221 | a key lies between lo64 and hi64 of a k-dimension prefix exactly when its ids start with that prefix |
| Packing.PrefixTop | query.go:219 | `lo64 \| (1<<shift - 1)` is lo64 plus 2^shift - 1 |
| Packing.WidthMono | snapshot.go:59-68 | smaller dictionaries never need a wider key |
| Decimal.ParseOfFormat | dict.go:81-88 | formatting an int64 and parsing it back is the identity, over the whole range |
| Decimal.CanonicalSpelling | schema.go:47-50 | every accepted spelling of an integer has one canonical spelling with the same value |
| Decimal.ParseMeans | view.go:61-72 | an integer dimension accepts exactly an optional sign and digits that denote a 64-bit integer, and takes them for the positional value of the digits: `+1` and `01` are 1 |
| Decimal.PrintedIsPlain | dict.go:81-88 | an integer is printed as the one numeral that denotes it and has no plus sign and no leading zero, except 0 itself |
| Decimal.PrintedIsShortest | schema.go:47-50 | no accepted spelling of an integer is shorter than the printed one, and no other is as short |
| Table.DecodeInjective | view.go:80-89 | in-range id tuples decode to equal value tuples only when equal: base and extra ids share one injective space |
| Table.MapOfLookup | view.go:112-133 | in a table of unique tuples each row is the entry of its own tuple |
| Table.ListsUnique | reference_test.go:53-62 | a set of rows denotes one map only |
| Table.MapOfExtend | view.go:147-150 | extending dictionaries leaves the map denoted by existing rows unchanged |
| Table.MapOfReplace | view.go:228-238 | replacing a row in place replaces exactly its tuple's entry |
| Table.MaxUpdatedExact | snapshot.go:424-427 | the position is an attained upper bound of the stamps, or 0 |
| Table.MinExpireExact | snapshot.go:33-40 | minExpire is the least non-zero expiry, and 0 only when nothing expires, for every table |
| Table.ExpiryShortcut | query.go:592-602 | one comparison with minExpire decides whether any row is expired |
| Table.MinUpdatedExact | snapshot.go:33-40 | minUpdated is the least stamp if and only if no row stamped 0 was forgotten before a later positive one |
| Table.NewViewOK | view.go:43-49 | a view over a fresh valid base is valid and denotes exactly the base |
| Table.EmptySnapOK | snapshot.go:86-98 | the empty snapshot is valid and denotes the empty table |
| Oracle.StoredExpiry | snapshot.go:42-50 | the stored expiry means what the record said, except exactly for an expiry stamped at the epoch once the clock is past it |
| Oracle.CanonicalIdentity | reference_test.go:28-49 | two spellings name one value exactly when their canonical spellings are equal |
| Oracle.TuplesMeet | reference_test.go:28-49 | two records' spellings name one tuple exactly when every label is the same, byte for byte, and every integer denoted is |
| Oracle.ReadMeans | view.go:177-226 | a record is refused exactly for its width or, unless it is too old to be looked at, for an integer dimension that is no 64-bit numeral; otherwise its tuple holds the labels given and the integers denoted |
| Oracle.BatchLeaves | view.go:144-272 | a batch is refused exactly when some record is malformed; otherwise exactly the tuples stored before or, unless blocked, named by a record are stored, each holding what the last of its newest records says unless the table had something newer |
| Oracle.LabelsApart | view.go:210-225 | two records that differ in one label are two entries, each under its whole label |
| Oracle.CondNames | query.go:151-169 | an equality or IN asks for the label spelled, or the integer denoted |
| Oracle.BlockedKeepsTuples | view.go:246-249 | while the cap blocks, a batch never changes the set of stored tuples |
| Oracle.SumInsert | reference_test.go:318-334 | a table's sum does not depend on the order of the scan |
| Dictionary.Dict.GetOrAdd | dict.go:39-59 | a known value keeps its id; a new one is appended, and the dictionary stays injective and dense |
| Dictionary.Dict.AddFrom | dict.go:61-69 | copies one entry of another dictionary, adding it only when absent |
| Dictionary.Dict.Lookup | dict.go:71-79 | finds exactly the interned values |
| Dictionary.Dict.Clone | dict.go:97-103 | a fresh dictionary with the same entries; the original is not touched |
| Engine.LowerBound | query.go:220 | first index whose key is not below the bound |
| Engine.UpperBound | query.go:221 | first index whose key is above the bound |
| Engine.Snapshot.TrackMin | snapshot.go:33-40 | one step of both minima, 0 standing for none |
| Engine.Snapshot.FindRow | view.go:112-133 | returns the row of the id tuple, or -1 exactly when the base has none |
| Engine.Delta.Replace | view.go:228-238 | the row of the tuple is replaced whole, index and order unchanged, position and expiry flag raised |
| Engine.Delta.Append | view.go:250-262 | a new row at the end, indexed under its tuple |
| Engine.View.Over | view.go:43-49 | an empty overlay over the base, as valid as the base is |
| Upsert.Intern | view.go:193-225 | the value's combined id, cloning extras only when this batch does not own them: a shared dictionary is never changed |
| Upsert.Resolve | view.go:186-226 | every dimension resolved in the combined id space, extras only growing; refused exactly when an integer does not parse |
| Upsert.UpsertHit | view.go:228-238 | a newer or equal record on a delta row is the reference upsert and keeps the whole view invariant |
| Upsert.UpsertMiss | view.go:239-266 | a record without delta row (stale against base, blocked, or appended and shadowing) is the reference upsert and keeps the whole view invariant |
| Upsert.ApplyRecord | view.go:177-270 | one record: refused, skipped or upserted as the reference reads it |
| Upsert.ApplyDelta | view.go:144-272 | a batch is the left fold of the reference rule with the same count of dropped records; one bad record refuses all; nothing existing is modified |
| Live.LiveFind | view.go:35-41 | every entry of the map is one visible row |
| Live.LiveAbs | view.go:35-41 | every visible row is the entry of its tuple |
| Live.LiveDistinct | view.go:35-41 | no two visible rows share a tuple |
| Renumber.IdentityRenumbers | snapshot.go:318-323 | without a remap ids mean what they meant |
| Renumber.CompactDict | snapshot.go:279-297 | the compacted dictionary holds the marked entries in old order, and the remap is their rank |
| Zip.ZipRows | snapshot.go:393-423 | the two-pointer zip outputs exactly the surviving rows, each once, in ascending key order |
| Merge.BaseStaysSorted | snapshot.go:301-306 | surviving base rows keep ascending keys under the new ids and layout |
| Merge.SortPerm | snapshot.go:334-346 | a permutation of the delta rows by ascending key |
| Merge.ZipDenotes | snapshot.go:307-431 | the zipped rows denote the old map minus TTL-old and expired entries |
| Merge.ZipMerge | snapshot.go:307-431 | overflow exactly when the new layout is wider than 64; otherwise a valid snapshot of exactly the retained map |
| Compaction.MarkUsed | snapshot.go:256-278 | marks exactly the ids used by surviving rows |
| Compaction.CompactedLiveDicts | snapshot.go:279-297 | compacted dictionaries hold exactly the values of surviving rows, as a subsequence of the old ones |
| Compaction.LiveFitsDicts | store.go:135-137 | the layout of the live values is never wider than the id-stable one |
| Compaction.StableDicts | snapshot.go:240-253 | id-stable dictionaries are base followed by extras, so every combined id keeps its meaning |
| Compaction.MergeView | snapshot.go:238-299 | both merge paths denote the retained map; they overflow exactly when the live (renumbering) or combined (id-stable) widths pass 64 |
| Build.FoldIsNewest | reference_test.go:53-67 | folding a dump into an empty table keeps a newest record of every tuple |
| Build.SortRows | snapshot.go:152-180 | a permutation by key, tuple, newest first |
| Build.HeadFirst | snapshot.go:191-202 | the first row of a tuple in that order is one of its newest |
| Build.Dedupe | snapshot.go:199-219 | keeps exactly the first rows of each tuple that have not expired |
| Build.BuiltIsOracle | snapshot.go:106-221 | every map a build may leave is the reference table after replace, TTL and reclaim, if and only if no two newest records of a tuple differ while one of them is unexpired |
| Build.RetainIsBuilt | snapshot.go:106-221 | the reference table is always among the admissible builds |
| Build.TieIsOpen | snapshot.go:164-180 | a dump of two records of one tuple and stamp has a live tie at every clock, and two different tables are admissible builds of it |
| Build.BuildFromRecords | snapshot.go:106-221 | refused exactly on a bad record; overflow exactly when the dump's index values need more than 64 bits; otherwise a valid snapshot with one row per tuple whose newest record has not expired, carrying a newest record's data |
| Scratch.GroupIvDemand | scratch.go:100-111 | the clamped loop computes min(product of the IN lengths, 1048576) |
| Scratch.MeasureShape | scratch.go:124-141 | counts every kind of condition and sums the demands |
| Scratch.Route | scratch.go:317-339 | the workspace is stack-sized exactly within 16 groups, 32 equalities, 16 INs of 128 values, 16 ranges, 16 aggregates and, with lists, a demand of 16; it has 16 interval slots on the stack and one for each group, plus 4096 with lists, in the pool; and it always has room for what planning appends |
| Scratch.QueryScratch.PushIv | query.go:346-347 | an interval is appended within the capacity |
| Conditions.InvalidIsMalformed | query.go:90-170 | a condition is refused exactly when it is malformed, whatever the table holds |
| Refusal.RefusedIff | query.go:90-170 | a group is refused exactly when some condition is malformed and every earlier one can be satisfied by the table |
| Refusal.AlwaysRefusedIff | query.go:87-170 | a query is refused by every valid table exactly when some group has a malformed condition with only well-formed ranges before it |
| Refusal.HiddenMalformed | query.go:162-165 | an empty table answers a query whose second condition names no dimension |
| Conditions.DeadMatchesNothing | query.go:162-165 | a dead group matches no row of the view |
| Conditions.EqMeaning | query.go:151-169 | the resolved id matches a row exactly when the reference condition matches its tuple |
| Conditions.InMeaning | query.go:110-145 | the sorted id window matches a row exactly when the reference IN matches its tuple |
| Conditions.RangeMeaning | query.go:95-104 | the range window matches a row exactly when the reference range matches its tuple |
| Resolve.LookupValue | view.go:51-78 | a spelling's combined id through base then extras, absent, or invalid |
| Resolve.CollectIds | query.go:112-132 | the ids of the listed values the table knows, one for every such list entry, and whether one is a base id |
| Resolve.PlanIn | query.go:106-150 | one IN condition: invalid, dead, or a sorted window with its base reachability |
| PlanGroup.PlanConds | query.go:87-170 | all conditions of a group, stopping at the first that is invalid or absent |
| Packing.KeyTake | query.go:215-218 | only the index dimensions enter the key |
| Expand.RangeOf | query.go:215-221 | the two binary searches return precisely the rows carrying the prefix |
| Expand.EqCover | query.go:246-253 | a dimension is pinned exactly when an equality stands on it, by the last one |
| Expand.CandCover | query.go:260-274 | an unpinned index dimension has candidates exactly when an IN stands on it: the base-resident prefix of its first window, never empty; a pinned one has none |
| Pins.PinsStep | query.go:90-170 | each resolved condition keeps the pools in step with the query: last equality, first list, and whether the base can match at all |
| Pins.CoverIsPins | query.go:240-274 | the cover built from the pools is the one the query spells: pinned by its last equality, listed by its first IN with as many candidates as base values it lists |
| Pins.WithinIsPrefix | query.go:315-331 | a base row lies within the cover to depth k exactly when its values satisfy the first k pins of the query |
| Pins.DepthAre | query.go:286-301 | the depth the loop stops at is the depth the query has |
| Pins.CountedAre | query.go:332-374 | the intervals a walk emits are as many as the picks of list entries, repetitions included, that name a base row |
| Reach.DepthUnique | query.go:286-301 | that depth is the only number whose earlier dimensions all join the prefix and which itself does not |
| Reach.ListedJoins | query.go:286-301 | a listed dimension joins the prefix exactly when some base value is listed, one binary search for every combination costs no more probes than there are rows, and there is a slot for each |
| Reach.ExpandedIsCheap | query.go:286-301 | so a prefix that expands a list costs no more probes than the scan it replaces |
| Reach.MatchIsReached | query.go:315-331 | every base row satisfying a group is among those it reaches, whatever the room |
| Reach.CombosBound | scratch.go:80-111 | expansion never asks for more slots than the product of the lengths of the group's lists |
| Reach.RoomIsEnough | scratch.go:80-111 | with that many slots, or without a list, the depth is the one without a limit: the room test never decides |
| Expand.ImpossibleMatchesNothing | query.go:176-185 | when some id is delta-only no base row satisfies the group |
| Odometer.RankInjective | query.go:310-314 | a mixed-radix reading is determined by its number |
| Odometer.Advance | query.go:360-373 | the carry loop moves to the next reading, and reports wrap-around exactly at the last |
| Walk.Depth | query.go:286-301 | every dimension before the depth is pinned or has candidates that neither cost more than a scan nor outnumber the slots, and the one at the depth has not; the combinations fit |
| Walk.WalkAll | query.go:332-374 | exactly combos combinations are visited, and one interval emitted for each that some row carries; the rows of each are covered and inside the hull, and no interval covers a row outside the candidates |
| Walk.WalkCovers | query.go:322-331 | every base row within the cover lies in an emitted interval and in the hull |
| Walk.WalkEmits | query.go:303-374 | the emitted intervals take in exactly the base rows within the cover, and the hull holds them all |
| PlanGroup.PlanPrefix | query.go:195-226 | without IN: the rows carrying the longest pinned prefix and no other, in one interval; every row exactly when dimension 0 is not pinned |
| PlanGroup.PlanExpand | query.go:238-376 | the rows within the cover to the exact depth and no other, one slot kept per later group; a full scan exactly at depth 0 |
| PlanGroup.PlanIntervals | query.go:186-376 | the new intervals cover exactly the rows the group reaches in the room there is, and are as many as its picks of list entries that name a base row |
| PlanGroup.Plan | query.go:76-227 | a group's plan decides every row as the reference does, is refused exactly as its conditions say, and its new intervals cover exactly the rows the group reaches in the room there is, one for every pick of list entries naming a base row: none when dead or unknown to the base |
| PlanAll.InsertionSort | query.go:548-553 | sorts the intervals by lo in place, keeping them all |
| PlanAll.CoverStep | query.go:566-577 | under the high-water mark an interval adds exactly its rows not covered before |
| PlanAll.ScanRows | query.go:564-581 | the budget total is the number of rows the intervals cover, each once, plus the delta rows |
| PlanAll.DemandIsProduct | scratch.go:85-111 | below the clamp the measured demand is the true sum of products |
| PlanAll.PlanLoop | query.go:535-546 | every group planned within the workspace, refused exactly when one is invalid; the intervals cover exactly the rows some group reaches in the slots the groups before it left |
| PlanAll.RoomsUnique | query.go:535-546 | the slots each group is left follow from the query, the view and the capacity alone |
| PlanAll.RoomDecidesNothing | scratch.go:80-111 | when the slots cover the product demand of all groups, or nothing is listed, those are the rows reached without any limit |
| Match.MatchOneIn | query.go:445-457 | linear probe and binary search both decide membership |
| Match.MatchRanges | query.go:464-482 | range conditions decided on the number behind the combined id |
| Match.MatchBaseRow | query.go:484-498 | hull prefilter, equality, IN and range tests together decide the reference match of a base row |
| Match.MatchDeltaRow | query.go:502-512 | the same for a delta row |
| Match.AnyBase | query.go:666-674 | a base row is counted at its first matching group, hence once |
| Query.PlanGroups | query.go:531-587 | plans, sorted intervals covering exactly the reached rows, and a refusal exactly when reached plus delta rows exceed the budget |
| Query.QueryClock | query.go:592-602 | whether per-row expiry is looked at, with the clock sampled when it is |
| Query.ClockShortcut | query.go:595-600 | skipping the per-row checks never lets an expired row through |
| Query.TestBase | query.go:654-675 | a base row counts exactly when not shadowed, not expired and matching some group |
| Query.SumBase | query.go:646-678 | the sweep sums exactly the matching rows, and visits each covered row once and no other |
| Query.SumDelta | query.go:679-699 | the delta scan adds exactly the matching delta rows |
| Query.VisitsAreCovered | query.go:559-583 | the rows visited are the covered ones, each once, so as many as the budget counted |
| Query.HitsAreSelected | query.go:635-699 | the counted rows are exactly the entries the reference selects, each once |
| Query.SumsAreOracle | reference_test.go:318-334 | so their sums are the reference's |
| Query.StackNeverStarves | scratch.go:144-160 | on a shape routed to the stack the query reaches what it would reach with slots without end: the room test never fires |
| Query.StackDecided | query.go:559-583 | there the query is refused for its budget exactly when it is planned and the rows it reaches without limit, plus delta, exceed it |
| Query.SmallReachesAll | scratch.go:317-339 | in every workspace, a query whose lists demand no more than one slot a group and 4096 besides reaches what it would reach with slots without end |
| Query.SmallDecided | query.go:559-583 | its budget refusal follows from the query and the table alone |
| Query.SlotsLeft | query.go:535-546 | exactly the slots every group is left in any workspace: of a fresh pool the first has 4097, each later one a slot more for every group before it, less what those took |
| Query.DecidedOnce | query.go:559-583 | two answers to one query over one view and workspace agree on the budget refusal |
| Query.QueryGroups | query.go:609-699 | the answer is the reference's sums over the view's map at the sampled clock; refused exactly when empty, invalid, or reaching more rows than the budget; the base rows visited are exactly those reached, each once |
| Aggregate.ResolveAggs | agg.go:36-80 | accepts exactly the well-formed aggregates, each with its column |
| Aggregate.FoldAgg | agg.go:82-117 | one row folded in place into every accumulator and bitmap |
| Aggregate.DistinctIsValues | agg.go:88-98 | counting distinct ids counts distinct values |
| Aggregate.ColumnIsOracle | agg.go:243-260 | a finished column is the reference aggregate of the folded rows; empty minimum, maximum and average have no value |
| Aggregate.AggBase | agg.go:177-218 | the sweep folds exactly the matching base rows |
| Aggregate.QueryAggs | agg.go:119-261 | every output column is the reference aggregate over the selection; bad aggregates are refused first, then exactly the empty, invalid and over-budget queries; the base rows visited are exactly those reached, each once |
| GroupBy.SeenNext | groupby.go:161-165 | the seen set after a visit is exactly the (column byte, group, id) triples met |
| GroupBy.DistinctNext | groupby.go:159-172 | a distinct column served exactly by the seen set counts an id the first time only |
| GroupBy.GroupsNext | groupby.go:130-191 | a visit keeps all keys, counts and accumulators equal to those of the rows seen |
| GroupBy.Grouped.Visit | groupby.go:130-191 | one row folded into its group, created on first sight |
| GroupBy.NoCollisionExact | groupby.go:35-41 | without a byte collision the seen set serves every distinct column exactly |
| GroupBy.FewColumnsExact | groupby.go:148 | at most 256 columns never collide |
| GroupBy.FoldGroups | groupby.go:130-191 | after any number of visits the state is exactly the groups of the rows visited |
| GroupBy.ComputedIsPartition | groupby.go:242-281 | whatever a query computes from a valid view partitions the oracle's selection |
| Collision.CollisionMiscounts | groupby.go:162-166 | whenever two distinct columns collide, a valid view of two rows exists whose every result counts two values as one |
| Unmerged.RowsViewOK | view.go:43-49 | any rows without stamps make a valid view nothing was merged into, which denotes exactly them |
| Collision.MeansUnlessCollides | groupby.go:35-41 | every column of every result over every valid view is the reference aggregate if and only if no two distinct columns collide |
| GroupBy.KeyTotal | groupby.go:261-272 | the key comparison is total on keys of one width |
| GroupBy.KeyTrans | groupby.go:261-272 | and transitive |
| GroupBy.TextOrder | groupby.go:267-273 | strings compare by the first byte where they part, smaller first, a prefix before what it begins |
| GroupBy.KeyOrder | groupby.go:267-275 | keys compare by the first by dimension where they part |
| GroupBy.SortGroups | groupby.go:255-276 | distinct keys come out strictly ascending, every group once |
| GroupBy.KeysTell | groupby.go:137-141 | equal spelled keys mean equal ids of the by dimensions |
| GroupBy.GroupIsShare | groupby.go:130-191 | a group's rows denote exactly the selected entries with its by values |
| GroupBy.GroupedIsPartition | groupby.go:242-281 | the finished rows partition the selection, with the reference aggregates of each share |
| GroupBy.OneGroupEach | groupby.go:49-52 | every selected entry is counted in exactly one group |
| GroupBy.KeyIsLabel | groupby.go:137-141 | the group an entry is counted in carries its record's label, byte for byte, or the plain numeral of the integer its record denoted |
| GroupBy.QueryGroupBy | groupby.go:53-282 | keys strictly increasing by the first by dimension and byte where they part, spelled as stored labels or plain numerals; an exact partition of the selection, every column the reference aggregate when nothing collides or there are at most 256; refused exactly when empty, invalid or over budget; the base rows visited are exactly those reached, each once |
| Bytes.UnLEOfLE | persist.go:80-81 | reading k little-endian bytes returns the number's low k bytes |
| Bytes.LEAt | persist.go:80-81 | byte i of a word weighs 256 to the i |
| Bytes.SignedOfWord | persist.go:85-122 | int64 through uint64 and back is the identity |
| Bytes.ManyRoundTrip | persist.go:87-108 | a list of items that read back individually reads back whole, whatever follows |
| Bytes.ManySound | persist.go:187-226 | a list that was read is what was written, byte for byte |
| Format.ColumnsRoundTrip | persist.go:95-108 | rows to columns and back is the identity |
| Codec.IdKeyInjective | view.go:104-110 | rows of ids below 2^32 share an index key only when equal |
| Codec.SnapAgain | persist.go:262-285 | shifts, keys and minima recomputed from the stored columns are the snapshot's own |
| Codec.RoundTrip | persist.go:61-286 | decoding what was encoded returns an equal snapshot, or refuses it as stale exactly when its position is older than a positive cutoff |
| Codec.ValidRoundTrip | persist.go:61-286 | the same for every valid base snapshot |
| Codec.EmptyIsStale | persist.go:170-177 | with a TTL in force an empty snapshot is always refused |
| Codec.WrittenParses | persist.go:125-286 | any well-formed columns are read up to the last checks, which alone decide |
| Codec.Sound | persist.go:130-286 | an accepted file is the sealed writing of its columns: in-range ids, duplicate-free dictionaries, correct ascending keys, exact minima and, with rows, an exact position |
| Codec.CoherentIsValid | persist.go:260-262 | an accepted snapshot is a valid table exactly when no tuple repeats and an empty one has position 0 |
| Codec.RepeatedTupleAccepted | persist.go:279-284 | the reader accepts a file with a repeated tuple |
| Codec.EmptyWithPosition | persist.go:260-262 | the reader accepts a file without rows that claims a position |
| Codec.ReEncode | persist.go:61-286 | re-encoding reproduces the bytes if and only if no stored integer has a plus sign or a needless leading zero |
| Codec.StringsReEncode | persist.go:61-286 | with string dimensions only it always does |
| Codec.HeadOfFile | persist.go:15-20 | every file written and every file accepted begins with the bytes of FCSNAP01 and of version 2, least significant first |
| Codec.SampleFile | persist.go:76-114 | one whole file byte for byte: head, fingerprint, position, row count, dictionaries, id columns, metrics, stamps, expiries, and the checksum of all that |
| Codec.LoneOctalAccepted | persist.go:202-213 | a lone "010" is accepted for an integer dimension |
| Persist.WriteSnapshot | persist.go:76-114 | the writer emits exactly the encoding |
| Persist.Cursor.Rd | persist.go:139-146 | reads n bytes and advances, or fails without moving |
| Persist.Cursor.RdDict | persist.go:187-221 | a stored dictionary is interned in order, refused exactly on an unparsable integer or a repeated value |
| Persist.Cursor.RdIds | persist.go:224-233 | a column of ids, refused exactly when one is out of range |
| Persist.ReadHeader | persist.go:157-184 | magic, version, fingerprint, position against the cutoff, row bound, in that order |
| Persist.Rebuild | persist.go:259-285 | recomputed shifts, keys and minima, refused on a wrong position, an overflowing layout or descending keys |
| Persist.ReadSnapshot | persist.go:125-286 | the step-by-step reader decides and builds exactly what the bytes mean |
| Store.Store.constructor | store.go:26-33 | a new store is empty, unblocked and valid |
| Store.Store.Apply | store.go:98-110 | the published table becomes the reference fold: refused, leaving the view, exactly when some record is malformed; otherwise every tuple holds what the last of its newest records says (`Oracle.BatchLeaves`) |
| Store.Store.Compact | store.go:140-171 | fails with overflow if and only if the live index values need more than 64 bits, whatever the gate; refused over the cap; otherwise denotes the retained map with an empty delta; a finished merge at least the interval after the last renumbering records its time and leaves exactly the used values in every dictionary, an earlier one whose ids fit a key keeps every combined id and the time; a failure leaves view and lastDictCompact unchanged; at one instant it alters the view exactly when something is pending and it is not refused |
| Store.GateDecides | store.go:145-167 | what the gate does to dictionaries and to the recorded time, in milliseconds of clock and interval |
| Store.LiveOverflow | store.go:145-153 | live data that overflows always reaches the renumbering attempt |
| Store.Store.ReplaceAll | store.go:176-193 | refused exactly on a bad record, on more than 64 key bits, or when the build is over the cap, leaving the view; otherwise the table is the build |
| Store.Store.LoadSnapshot | persist.go:46-59 | corrupt, stale or oversized files leave everything as it was; otherwise the whole view is replaced, and is valid exactly when the decoded snapshot is |
| Store.Store.SaveSnapshot | persist.go:33-41 | writes the base only |
| Store.Store.SyncPosition | store.go:38-52 | the largest stamp of the table the view denotes, none when that is 0 |
| Store.PositionIsNewest | view.go:91-96 | the larger of the two maintained maxima is exact although base rows may be shadowed |
| Store.Store.NeedsCompaction | store.go:54-72 | asks exactly when a merge at this instant would drain delta or change the table, if and only if that merge is not refused and the oldest stamp is not mistaken |
| Store.CutoffRounding | store.go:67-78 | the trigger's and the merge's cutoffs differ by one millisecond exactly when the TTL's sub-millisecond part exceeds the clock's |
| Store.AgeLimit | store.go:74-79 | a stamp is too old exactly when its whole millisecond had passed a TTL ago; with TTL off, when it is negative |
| Store.TriggerExact | store.go:54-72 | on every valid view the trigger agrees with what a merge would alter if and only if it does not misfire: not asking for a merge refused for cap or key width, nor with the oldest stamp on the wrong side of one of the two cutoffs |
| Store.MisfiresInStore | store.go:54-72 | in a store, whose base is within the cap, every merge that would be refused is asked for, so the trigger misfires exactly when refused or mistaken about age |
| Store.RefusedHasDelta | store.go:156-161 | a base within the cap is only refused for what delta rows add |
| Store.AlteredBy | store.go:140-171 | what a merge leaves differs from the view exactly when there was something to drain or drop and it was not refused |
| Store.DictsChange | snapshot.go:240-299 | a merge changes the combined dictionaries exactly when it renumbers and some value is used by no kept entry |
| Store.WholeMillisecondsExact | store.go:54-72 | with a TTL of whole milliseconds only a refused merge, or a forgotten or unrecognised stamp at or below 0, misleads it, and each such one does |
| Store.TTLOffReads | schema.go:147-149 | with TTL off no record is skipped for age if and only if none is stamped below 0 |
| Store.TTLOffKeeps | schema.go:147-149 | with TTL off a merge keeps every unexpired entry if and only if none is stamped below 0 |
| Witness.NegativeRecord | view.go:177-185 | with TTL off a well-formed record stamped -1 is not stored |
| Witness.NegativeRow | snapshot.go:301-317 | with TTL off a stored row stamped -1 is dropped by a merge |
| Witness.TriggerMisfires | store.go:54-72 | a valid view, TTL and clock at which the trigger asks for a merge that changes nothing |
| Witness.CapRefused | store.go:156-161 | a valid view of two delta rows under a cap of one: the trigger asks, the merge is refused, nothing changes |
| Witness.KeyRefused | store.go:145-155 | a valid view whose rows need 80 key bits: the trigger asks, the merge overflows, nothing changes |
| Witness.IdleGarbage | store.go:54-72 | a valid view with an unused dictionary value: a renumbering merge would drop it, and the trigger does not ask |
| Witness.ZeroStamp | snapshot.go:33-40 | a valid snapshot whose row stamped 0 is forgotten by the minimum |
| Store.CompactionInvisible | store.go:129-135 | a merge that drops only expired entries leaves every later query's selection unchanged |
| Store.MergesAgree | snapshot.go:229-237 | two merges of one map hold the same multiset of decoded rows |
| Store.PathsAgree | snapshot.go:229-237 | the renumbering and the id-stable merge of one view hold the same rows, value by value, each as often |
| Runs.Run | store.go:91-193 | after any sequence of batches, merges, rebuilds, restores, loads and evaluations the store stands for the reference table, a rebuild keeping a newest record of every tuple; before every event its view is valid and its base within the cap; every query, of sums, aggregates or groups, was answered from the table its reader had loaded, at the clock it sampled, and refused exactly when malformed or over budget on the view it had loaded |
| Runs.DumpIsOracle | reference_test.go:64-89 | in a run, a rebuild comes to the reference table and to nothing else if and only if no two newest records of a tuple differ while one is unexpired |
| Runs.StackJudged | query.go:559-583 | in a run, a stack-sized query of any kind is refused for its budget exactly when the rows it reaches without limit exceed it |
| Runs.SmallJudged | query.go:559-583 | the same for a query in any workspace whose lists demand no more than one slot a group and 4096 besides |
| Runs.DueRenumbers | store.go:145-167 | in a run, a merge that is due and not refused renumbers: base dictionaries hold exactly the values in use, and its time is recorded |
| Runs.EarlyKeepsIds | store.go:145-167 | in a run, a merge that is not due and whose ids fit a key keeps every combined id and the recorded time |
| Runs.RenumberingsApart | store.go:145-167 | in a run, from one renumbering to the next unforced one at least the interval passes, unless the clock was turned back between |
| Runs.LoadedAt | query.go:635-641 | a reader keeps the table of the moment it loaded until it loads again |
| Runs.BlockedRunKeepsTuples | store.go:86-110 | over a whole blocked run no batch changes the set of stored tuples |
| Runs.SaveThenRestore | persist.go:33-59 | restoring a saved base brings back exactly its table |

## Left out

- Columns: rows are stored row by row here, where the source keeps one slice per column; the file format is column by column in both.
- Metrics are integers, so sums do not depend on order; averages are exact rationals. In the file a metric is the two's complement word of that integer instead of IEEE bits. Rounding and NaN inputs are not modelled; an empty minimum, maximum or average is an explicit "no value".
- Stamps and expiries are whole milliseconds in records; durations and clock readings of the store are nanoseconds. The reference test compares finer times.
- The reference test joins dimension spellings with a separator byte; here the tuple of values itself is the key.
- Index maps are keyed by id tuples instead of their byte strings; `Codec.IdKeyInjective` says the byte strings tell the same tuples apart.
- Id and offset widths: dictionaries past 2^32 entries and windows past 2^31 conditions are not modelled; the codec states its bounds as `Narrow`.
- Sorting of delta rows, dump rows, large interval lists and groups is by insertion, standing for the library sort's contract; `sort.Search` is a binary search.
- Error texts and the distinction between causes of a refused query; schema validation beyond `Schema.Valid`.
- File system work (temporary file, rename, fsync), the checksum (an arbitrary function of the bytes) and the schema fingerprint (an arbitrary number).
- The atomic pointer and the mutex: view swaps and writer steps are atomic. Statistics counters, the background compactor and its tickers, and the test-only `seed`.
- The scratch pool's retention guard and what the pool hands back: any earlier capacities are allowed.
- Runs.Run: restored files hold valid tables, which the reader does not check (`Codec.CoherentIsValid`).
- Store.Store.ReplaceAll: which of two tied newest records a build keeps is left open, as the sort leaves it.
