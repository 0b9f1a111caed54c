/** What the release gate asks of the correctness evidence, and the accounting identities this forces. */
module Coverage {
  import opened Prelude
  import opened Evidence

  const END_TO_END := "independent-end-to-end"

  const REQUIRED_CATEGORIES: seq<string> :=
    ["no_loss", "multiple_simultaneous_losses", "loss_in_different_rounds", "reset_restoring_wire"]

  const REQUIRED_CHANNELS: seq<string> := ["X_ERROR", "DEPOLARIZE1", "DEPOLARIZE2"]

  /** The hash of a prediction vector. */
  type Digest = seq<Octet> -> string

  predicate EndToEnd(c: Case) {
    c.level == END_TO_END
  }

  // ------------------------------------------------------- details of a case

  function Singles(allowed: seq<nat>): (n: nat)
    ensures n <= |allowed|
  {
    if allowed == [] then 0 else Singles(allowed[..|allowed| - 1]) + if allowed[|allowed| - 1] == 1 then 1 else 0
  }

  function CaseNote(decoder: string, c: Case, what: Problem): Gap {
    OnCase(what, decoder, c.name)
  }

  function Require(ok: bool, gap: Gap): seq<Gap> {
    if ok then [] else [gap]
  }

  predicate HalvesAgree(predictions: seq<Octet>) {
    predictions[..|predictions| / 2] == predictions[|predictions| / 2..]
  }

  function PredictionGaps(decoder: string, c: Case, b: Backend, rows: nat, hash: Digest): seq<Gap> {
    if b.predictions.Some? && |b.predictions.value| == rows then
      Require(b.invariance == Some(HalvesAgree(b.predictions.value)), CaseNote(decoder, c, InvarianceFlag))
      + Require(b.digest == hash(b.predictions.value), CaseNote(decoder, c, PredictionHash))
    else [CaseNote(decoder, c, PredictionCount)]
  }

  function DetailGaps(decoder: string, c: Case, b: Backend, rows: nat, singles: nat, hash: Digest): seq<Gap> {
    PredictionGaps(decoder, c, b, rows, hash)
    + Require(b.checkedRows == Some(rows), CaseNote(decoder, c, CheckedRowCount))
    + Require(b.uniqueRows == Some(singles), CaseNote(decoder, c, UniqueCount))
    + Require(b.tieRows == Some(rows - singles), CaseNote(decoder, c, TieCount))
    + Require(!b.rejectedRows, CaseNote(decoder, c, RejectedRowsFound))
    + Require(b.flippedRejected, CaseNote(decoder, c, FlippedAnswerMissing))
    + Require(b.invariance == Some(true), CaseNote(decoder, c, InvarianceNotShown))
    + Require(decoder !in c.mismatches, CaseNote(decoder, c, MismatchesRecorded))
  }

  function BackendGaps(decoder: string, c: Case, hash: Digest): seq<Gap> {
    var backend := Lookup(c.backends, decoder);
    if backend.None? then [CaseNote(decoder, c, NotExecuted)]
    else if c.rows.None? || c.rows.value <= 0 then [CaseNote(decoder, c, RowCountMissing)]
    else if decoder !in c.allowed || |c.allowed[decoder]| != c.rows.value then
      [CaseNote(decoder, c, AllowedCount)]
    else DetailGaps(decoder, c, backend.value, c.rows.value, Singles(c.allowed[decoder]), hash)
  }

  function AllBackendGaps(decoder: string, cases: seq<Case>, hash: Digest): seq<Gap> {
    if cases == [] then []
    else AllBackendGaps(decoder, cases[..|cases| - 1], hash) + OwnGaps(decoder, cases[|cases| - 1], hash)
  }

  function OwnGaps(decoder: string, c: Case, hash: Digest): seq<Gap> {
    if EndToEnd(c) then BackendGaps(decoder, c, hash) else []
  }

  predicate AnyEndToEnd(cases: seq<Case>) {
    exists c :: c in cases && EndToEnd(c)
  }

  function CaseGapsOf(decoder: string, cases: seq<Case>, hash: Digest): seq<Gap> {
    Require(AnyEndToEnd(cases), Note(NoEndToEndCase, decoder))
    + AllBackendGaps(decoder, cases, hash)
  }

  method CorrectnessCaseGaps(decoder: string, cases: seq<Case>, hash: Digest) returns (gaps: seq<Gap>)
    ensures gaps == CaseGapsOf(decoder, cases, hash)
  {
    hide BackendGaps;
    gaps := Require(AnyEndToEnd(cases), Note(NoEndToEndCase, decoder));
    ghost var first := gaps;
    for i := 0 to |cases|
      invariant gaps == first + AllBackendGaps(decoder, cases[..i], hash)
    {
      assert cases[..i + 1][..i] == cases[..i];
      if EndToEnd(cases[i]) {
        gaps := gaps + BackendGaps(decoder, cases[i], hash);
      }
    }
    assert cases[..|cases|] == cases;
  }

  /** The details of a case agree with each other, and they show what the suite has to show for the decoder. */
  predicate Sound(decoder: string, c: Case, hash: Digest) {
    && Lookup(c.backends, decoder).Some?
    && c.rows.Some? && c.rows.value > 0
    && decoder in c.allowed && |c.allowed[decoder]| == c.rows.value
    && SoundBackend(Lookup(c.backends, decoder).value, c.rows.value, Singles(c.allowed[decoder]), hash)
    && decoder !in c.mismatches
  }

  predicate SoundBackend(b: Backend, rows: nat, singles: nat, hash: Digest) {
    && b.checkedRows == Some(rows) && b.uniqueRows == Some(singles) && b.tieRows == Some(rows - singles)
    && b.predictions.Some? && |b.predictions.value| == rows
    && HalvesAgree(b.predictions.value) && b.invariance == Some(true)
    && b.digest == hash(b.predictions.value)
    && !b.rejectedRows && b.flippedRejected
  }

  lemma {:induction false} NoDetailGapIff(decoder: string, c: Case, b: Backend, rows: nat, singles: nat, hash: Digest)
    ensures DetailGaps(decoder, c, b, rows, singles, hash) == [] <==>
      SoundBackend(b, rows, singles, hash) && decoder !in c.mismatches
  {
    hide CaseNote, HalvesAgree;
  }

  lemma {:induction false} NoBackendGapIff(decoder: string, c: Case, hash: Digest)
    ensures BackendGaps(decoder, c, hash) == [] <==> Sound(decoder, c, hash)
  {
    hide CaseNote, DetailGaps, SoundBackend, Singles;
    if Lookup(c.backends, decoder).Some? && c.rows.Some? && c.rows.value > 0 && decoder in c.allowed {
      NoDetailGapIff(decoder, c, Lookup(c.backends, decoder).value, c.rows.value, Singles(c.allowed[decoder]), hash);
    }
  }

  /** No gap: there is an end-to-end case, and every end-to-end case is sound for the decoder. */
  lemma {:induction false} NoCaseGapIff(decoder: string, cases: seq<Case>, hash: Digest)
    ensures CaseGapsOf(decoder, cases, hash) == [] <==>
      AnyEndToEnd(cases) && forall c :: c in cases && EndToEnd(c) ==> Sound(decoder, c, hash)
  {
    hide Sound, EndToEnd;
    NoBackendGapsIff(decoder, cases, hash);
  }

  lemma {:induction false} NoBackendGapsIff(decoder: string, cases: seq<Case>, hash: Digest)
    ensures AllBackendGaps(decoder, cases, hash) == [] <==>
      forall c :: c in cases && EndToEnd(c) ==> Sound(decoder, c, hash)
  {
    hide Sound, BackendGaps, EndToEnd;
    if cases != [] {
      var front, c := cases[..|cases| - 1], cases[|cases| - 1];
      NoBackendGapsIff(decoder, front, hash);
      NoBackendGapIff(decoder, c, hash);
      assert forall x :: x in cases <==> x in front || x == c;
    }
  }

  /** Placeholder invariance compares two halves, so evidence without a gap has an even number of rows in every case. */
  lemma {:induction false} AcceptedRowsAreEven(decoder: string, cases: seq<Case>, c: Case, hash: Digest)
    requires CaseGapsOf(decoder, cases, hash) == [] && c in cases && EndToEnd(c)
    ensures c.rows.Some? && c.rows.value % 2 == 0
  {
    hide AllBackendGaps, EndToEnd;
    NoCaseGapIff(decoder, cases, hash);
    var p := Lookup(c.backends, decoder).value.predictions.value;
    assert |p[..|p| / 2]| == |p[|p| / 2..]|;
  }

  // ------------------------------------------------------ recomputed totals

  function OrZero(n: Option<int>): int {
    if n.Some? then n.value else 0
  }

  function Checked(backends: seq<Named<Backend>>): int {
    if backends == [] then 0
    else Checked(backends[..|backends| - 1]) + OrZero(backends[|backends| - 1].value.checkedRows)
  }

  function Ties(backends: seq<Named<Backend>>): int {
    if backends == [] then 0
    else Ties(backends[..|backends| - 1]) + OrZero(backends[|backends| - 1].value.tieRows)
  }

  function Uniques(backends: seq<Named<Backend>>): int {
    if backends == [] then 0
    else Uniques(backends[..|backends| - 1]) + OrZero(backends[|backends| - 1].value.uniqueRows)
  }

  /** What an end-to-end case contributes; other cases contribute nothing. */
  function Within(c: Case, n: int): int {
    if EndToEnd(c) then n else 0
  }

  function TotalChecked(cases: seq<Case>): int {
    if cases == [] then 0
    else TotalChecked(cases[..|cases| - 1]) + Within(cases[|cases| - 1], Checked(cases[|cases| - 1].backends))
  }

  function TotalTies(cases: seq<Case>): int {
    if cases == [] then 0
    else TotalTies(cases[..|cases| - 1]) + Within(cases[|cases| - 1], Ties(cases[|cases| - 1].backends))
  }

  function TotalUniques(cases: seq<Case>): int {
    if cases == [] then 0
    else TotalUniques(cases[..|cases| - 1]) + Within(cases[|cases| - 1], Uniques(cases[|cases| - 1].backends))
  }

  function EndToEndRows(cases: seq<Case>): int {
    if cases == [] then 0
    else EndToEndRows(cases[..|cases| - 1]) + Within(cases[|cases| - 1], OrZero(cases[|cases| - 1].rows))
  }

  function AllRows(cases: seq<Case>): int {
    if cases == [] then 0 else AllRows(cases[..|cases| - 1]) + OrZero(cases[|cases| - 1].rows)
  }

  function Pairs(cases: seq<Case>): int {
    if cases == [] then 0 else Pairs(cases[..|cases| - 1]) + cases[|cases| - 1].placeholderPairs
  }

  function Exercised(histories: seq<History>, category: string): nat {
    if histories == [] then 0
    else Exercised(histories[..|histories| - 1], category) + OneOf(histories[|histories| - 1], category)
  }

  function OneOf(h: History, category: string): nat {
    if h.exercised && h.category == category then 1 else 0
  }

  function CategoryCount(cases: seq<Case>, category: string): nat {
    if cases == [] then 0
    else CategoryCount(cases[..|cases| - 1], category) + Exercised(cases[|cases| - 1].histories, category)
  }

  function AllChannels(cases: seq<Case>): set<string> {
    if cases == [] then {} else AllChannels(cases[..|cases| - 1]) + cases[|cases| - 1].channels
  }

  function PointsOf(cases: seq<Case>): seq<Point> {
    seq(|cases|, i requires 0 <= i < |cases| => Point(cases[i].name, cases[i].detectors, cases[i].level))
  }

  function SeedsOf(cases: seq<Case>): seq<string> {
    seq(|cases|, i requires 0 <= i < |cases| => cases[i].seed)
  }

  function CategoryCounts(cases: seq<Case>): map<string, int> {
    map c | c in REQUIRED_CATEGORIES :: CategoryCount(cases, c)
  }

  datatype Summary = Summary(categories: map<string, int>, singleLoss: nat, channels: set<string>, points: seq<Point>,
                             pairs: int, rows: int, checked: int, ties: int, seeds: seq<string>)

  function Recomputed(cases: seq<Case>): Summary {
    Summary(CategoryCounts(cases), CategoryCount(cases, "single_loss"), AllChannels(cases), PointsOf(cases),
            Pairs(cases), AllRows(cases), TotalChecked(cases), TotalTies(cases), SeedsOf(cases))
  }

  function Get(counts: map<string, nat>, category: string): nat {
    if category in counts then counts[category] else 0
  }

  method CountHistories(histories: seq<History>, before: map<string, nat>) returns (counts: map<string, nat>)
    ensures forall c :: Get(counts, c) == Get(before, c) + Exercised(histories, c)
  {
    counts := before;
    for i := 0 to |histories|
      invariant forall c :: Get(counts, c) == Get(before, c) + Exercised(histories[..i], c)
    {
      assert histories[..i + 1][..i] == histories[..i];
      var h := histories[i];
      if h.exercised {
        counts := counts[h.category := Get(counts, h.category) + 1];
      }
    }
    assert histories[..|histories|] == histories;
  }

  method CountRows(backends: seq<Named<Backend>>) returns (checked: int, ties: int)
    ensures checked == Checked(backends) && ties == Ties(backends)
  {
    checked, ties := 0, 0;
    for i := 0 to |backends|
      invariant checked == Checked(backends[..i]) && ties == Ties(backends[..i])
    {
      assert backends[..i + 1][..i] == backends[..i];
      ties := ties + OrZero(backends[i].value.tieRows);
      checked := checked + OrZero(backends[i].value.checkedRows);
    }
    assert backends[..|backends|] == backends;
  }

  method RecomputedCoverage(cases: seq<Case>) returns (s: Summary)
    ensures s == Recomputed(cases)
  {
    hide Exercised, Checked, Ties;
    var counts: map<string, nat> := map[];
    var channels: set<string> := {};
    var points: seq<Point> := [];
    var seeds: seq<string> := [];
    var pairs, rows, checked, ties := 0, 0, 0, 0;
    for i := 0 to |cases|
      invariant forall c :: Get(counts, c) == CategoryCount(cases[..i], c)
      invariant channels == AllChannels(cases[..i])
      invariant points == PointsOf(cases[..i]) && seeds == SeedsOf(cases[..i])
      invariant pairs == Pairs(cases[..i]) && rows == AllRows(cases[..i])
      invariant checked == TotalChecked(cases[..i]) && ties == TotalTies(cases[..i])
    {
      assert cases[..i + 1][..i] == cases[..i];
      var c := cases[i];
      counts := CountHistories(c.histories, counts);
      channels := channels + c.channels;
      points := points + [Point(c.name, c.detectors, c.level)];
      seeds := seeds + [c.seed];
      pairs := pairs + c.placeholderPairs;
      rows := rows + OrZero(c.rows);
      if EndToEnd(c) {
        var checkedHere, tiesHere := CountRows(c.backends);
        checked, ties := checked + checkedHere, ties + tiesHere;
      }
    }
    assert cases[..|cases|] == cases;
    s := Summary(map c | c in REQUIRED_CATEGORIES :: Get(counts, c), Get(counts, "single_loss"), channels, points,
                 pairs, rows, checked, ties, seeds);
    assert s.categories == CategoryCounts(cases);
  }

  // ------------------------------------------------------ declared totals

  function ExpectedField(s: Summary, field: FieldName): Field {
    match field
    case HistoryCategories => Counts(s.categories)
    case SingleLossHistories => Count(s.singleLoss)
    case NoiseChannels => Channels(s.channels)
    case CircuitPoints => Points(s.points)
    case PlaceholderPairs => Count(s.pairs)
    case TotalRows => Count(s.rows)
    case CheckedRows => Count(s.checked)
    case AllowedTieRows => Count(s.ties)
    case Seeds => SeedList(s.seeds)
  }

  const SUMMARY_FIELDS: seq<FieldName> :=
    [HistoryCategories, SingleLossHistories, NoiseChannels, CircuitPoints, PlaceholderPairs, TotalRows, CheckedRows,
     AllowedTieRows, Seeds]

  predicate Consistent(declared: map<FieldName, Field>, s: Summary, field: FieldName) {
    field in declared && declared[field] == ExpectedField(s, field)
  }

  predicate AllConsistent(declared: map<FieldName, Field>, s: Summary) {
    forall field :: field in SUMMARY_FIELDS ==> Consistent(declared, s, field)
  }

  predicate CategoriesCovered(s: Summary) {
    forall c :: c in REQUIRED_CATEGORIES ==> c in s.categories && s.categories[c] > 0
  }

  predicate ChannelsCovered(s: Summary) {
    forall c :: c in REQUIRED_CHANNELS ==> c in s.channels
  }

  function SummaryGaps(evidence: Correctness): seq<Gap> {
    var s := Recomputed(evidence.cases);
    Require(AllConsistent(evidence.declared, s), Note(DeclaredCoverageDiffers, ""))
    + Require(CategoriesCovered(s), Note(HistoriesMissing, ""))
    + Require(ChannelsCovered(s), Note(ChannelsMissing, ""))
    + Require(|s.points| >= 2, Note(CircuitPointsMissing, ""))
    + Require(s.pairs > 0, Note(PlaceholderPairsMissing, ""))
    + Require(s.checked > 0, Note(NoCheckedRows, ""))
    + Require(s.seeds != [], Note(NoSeeds, ""))
  }

  /** What a summary without a gap says of the cases. */
  predicate SummaryOk(evidence: Correctness) {
    var cases := evidence.cases;
    && (forall field :: field in SUMMARY_FIELDS ==>
      field in evidence.declared && evidence.declared[field] == ExpectedField(Recomputed(cases), field))
    && (forall category :: category in REQUIRED_CATEGORIES ==> ShowsCategory(cases, category))
    && (forall channel :: channel in REQUIRED_CHANNELS ==> exists c :: c in cases && channel in c.channels)
    && |cases| >= 2 && Pairs(cases) > 0 && TotalChecked(cases) > 0
  }

  /** Some case exercises a history of the category. */
  predicate ShowsCategory(cases: seq<Case>, category: string) {
    exists c :: c in cases && exists h :: h in c.histories && h.exercised && h.category == category
  }

  lemma {:induction false} ExercisedIff(histories: seq<History>, category: string)
    ensures Exercised(histories, category) > 0 <==> exists h :: h in histories && h.exercised && h.category == category
  {
    if histories != [] {
      var front, last := histories[..|histories| - 1], histories[|histories| - 1];
      ExercisedIff(front, category);
      assert forall h :: h in histories <==> h in front || h == last;
    }
  }

  lemma {:induction false} CategoryCountedIff(cases: seq<Case>, category: string)
    ensures CategoryCount(cases, category) > 0 <==> ShowsCategory(cases, category)
  {
    hide Exercised;
    if cases != [] {
      var front, last := cases[..|cases| - 1], cases[|cases| - 1];
      CategoryCountedIff(front, category);
      ExercisedIff(last.histories, category);
      assert forall c :: c in cases <==> c in front || c == last;
    }
  }

  lemma {:induction false} ChannelSeenIff(cases: seq<Case>, channel: string)
    ensures channel in AllChannels(cases) <==> exists c :: c in cases && channel in c.channels
  {
    if cases != [] {
      var front, last := cases[..|cases| - 1], cases[|cases| - 1];
      ChannelSeenIff(front, channel);
      assert forall c :: c in cases <==> c in front || c == last;
    }
  }

  /**
   The summary has no gap exactly when the declared fields are the recomputed ones, every required category and channel
   is exercised by some case, and there are two cases, a placeholder pair and a checked row.
  */
  lemma {:induction false} NoSummaryGapIff(evidence: Correctness)
    ensures SummaryGaps(evidence) == [] <==> SummaryOk(evidence)
  {
    hide CategoryCount, AllChannels, TotalChecked, TotalTies, ShowsCategory, ExpectedField, Pairs;
    var cases := evidence.cases;
    var s := Recomputed(cases);
    forall category | category in REQUIRED_CATEGORIES
      ensures category in s.categories && s.categories[category] > 0 <==> ShowsCategory(cases, category)
    {
      CategoryCountedIff(cases, category);
    }
    forall channel | channel in REQUIRED_CHANNELS
      ensures channel in s.channels <==> exists c :: c in cases && channel in c.channels
    {
      ChannelSeenIff(cases, channel);
    }
    NoFlagGapIff(evidence, s);
  }

  lemma {:induction false} NoFlagGapIff(evidence: Correctness, s: Summary)
    requires s == Recomputed(evidence.cases)
    ensures SummaryGaps(evidence) == [] <==>
      && AllConsistent(evidence.declared, s) && CategoriesCovered(s) && ChannelsCovered(s)
      && |evidence.cases| >= 2 && s.pairs > 0 && s.checked > 0
  {
    hide CategoryCounts, AllChannels, TotalChecked, TotalTies, AllConsistent, CategoriesCovered, ChannelsCovered, Pairs;
    assert |s.seeds| == |s.points| == |evidence.cases|;
  }

  method CorrectnessSummaryGaps(evidence: Correctness) returns (gaps: seq<Gap>)
    ensures gaps == SummaryGaps(evidence)
    ensures gaps == [] <==> SummaryOk(evidence)
  {
    NoSummaryGapIff(evidence);
    hide SummaryOk;
    hide AllConsistent, CategoriesCovered, ChannelsCovered, Recomputed, Require;
    var s := RecomputedCoverage(evidence.cases);
    gaps := Require(AllConsistent(evidence.declared, s),
                    Note(DeclaredCoverageDiffers, ""));
    gaps := gaps + Require(CategoriesCovered(s), Note(HistoriesMissing, ""));
    gaps := gaps + Require(ChannelsCovered(s), Note(ChannelsMissing, ""));
    gaps := gaps + Require(|s.points| >= 2, Note(CircuitPointsMissing, ""));
    gaps := gaps + Require(s.pairs > 0, Note(PlaceholderPairsMissing, ""));
    gaps := gaps + Require(s.checked > 0, Note(NoCheckedRows, ""));
    gaps := gaps + Require(s.seeds != [], Note(NoSeeds, ""));
  }

  // ------------------------------------------------------------- accounting

  function Names<T(==)>(entries: seq<Named<T>>): set<string> {
    set e | e in entries :: e.name
  }

  /** The backends of every end-to-end case are among these decoders. */
  predicate BackendsAmong(cases: seq<Case>, decoders: set<string>) {
    forall c :: c in cases && EndToEnd(c) ==> DistinctNames(c.backends) && Names(c.backends) <= decoders
  }

  lemma {:induction false} LookupFinds<T>(entries: seq<Named<T>>, i: nat)
    requires DistinctNames(entries) && i < |entries|
    ensures Lookup(entries, entries[i].name) == Some(entries[i].value)
  {
    if i > 0 {
      assert entries[1..][i - 1] == entries[i];
      assert entries[0].name != entries[i].name;
      LookupFinds(entries[1..], i - 1);
    }
  }

  lemma {:induction false} LookupInNames<T>(entries: seq<Named<T>>, name: string)
    ensures Lookup(entries, name).Some? <==> name in Names(entries)
  {
    if entries != [] {
      LookupInNames(entries[1..], name);
      assert forall e :: e in entries <==> e == entries[0] || e in entries[1..];
    }
  }

  lemma {:induction false} CountNames<T>(entries: seq<Named<T>>)
    requires DistinctNames(entries)
    ensures |Names(entries)| == |entries|
  {
    if entries != [] {
      var front, last := entries[..|entries| - 1], entries[|entries| - 1];
      CountNames(front);
      assert Names(entries) == Names(front) + {last.name};
      assert last.name !in Names(front);
    }
  }

  /** Every backend has `rows` checked rows, each either unique or a tie. */
  lemma {:induction false} BackendTotals(backends: seq<Named<Backend>>, rows: int)
    requires forall e :: e in backends ==>
      e.value.checkedRows == Some(rows) && OrZero(e.value.uniqueRows) + OrZero(e.value.tieRows) == rows
    ensures Checked(backends) == |backends| * rows
    ensures Checked(backends) == Uniques(backends) + Ties(backends)
  {
    if backends != [] {
      var front, last := backends[..|backends| - 1], backends[|backends| - 1];
      assert last in backends;
      BackendTotals(front, rows);
      assert (|front| + 1) * rows == |front| * rows + rows;
    }
  }

  lemma {:induction false} CaseTotals(c: Case, decoders: set<string>, hash: Digest)
    requires DistinctNames(c.backends) && Names(c.backends) <= decoders && decoders != {}
    requires forall d :: d in decoders ==> Sound(d, c, hash)
    ensures Checked(c.backends) == |decoders| * OrZero(c.rows)
    ensures Checked(c.backends) == Uniques(c.backends) + Ties(c.backends)
  {
    hide HalvesAgree, Singles;
    forall d | d in decoders ensures d in Names(c.backends) {
      LookupInNames(c.backends, d);
    }
    assert Names(c.backends) == decoders;
    CountNames(c.backends);
    var d0 :| d0 in decoders;
    assert Sound(d0, c, hash);
    forall e | e in c.backends
      ensures e.value.checkedRows == Some(c.rows.value)
        && OrZero(e.value.uniqueRows) + OrZero(e.value.tieRows) == c.rows.value
    {
      var i :| 0 <= i < |c.backends| && c.backends[i] == e;
      LookupFinds(c.backends, i);
      assert Sound(e.name, c, hash);
    }
    BackendTotals(c.backends, c.rows.value);
  }

  lemma {:induction false} AllTotals(cases: seq<Case>, decoders: set<string>, hash: Digest)
    requires decoders != {} && BackendsAmong(cases, decoders)
    requires forall d, c :: d in decoders && c in cases && EndToEnd(c) ==> Sound(d, c, hash)
    ensures TotalChecked(cases) == |decoders| * EndToEndRows(cases)
    ensures TotalChecked(cases) == TotalUniques(cases) + TotalTies(cases)
  {
    hide Sound, EndToEnd, Checked, Uniques, Ties;
    if cases != [] {
      var front, c := cases[..|cases| - 1], cases[|cases| - 1];
      assert c in cases && forall x :: x in front ==> x in cases;
      AllTotals(front, decoders, hash);
      if EndToEnd(c) {
        CaseTotals(c, decoders, hash);
        Distribute(|decoders|, EndToEndRows(front), OrZero(c.rows));
      }
    }
  }

  lemma {:induction false} Distribute(n: int, a: int, b: int)
    ensures n * (a + b) == n * a + n * b
  {
  }

  predicate NoCaseGaps(decoders: set<string>, cases: seq<Case>, hash: Digest) {
    forall d :: d in decoders ==> CaseGapsOf(d, cases, hash) == []
  }

  /**
   Accounting: if no decoder that appears as a backend has a case gap, the recomputed checked rows are the number of
   decoders times the rows of the end-to-end cases, and they split into unique-optimum rows and tie rows.
  */
  lemma {:induction false} CheckedRowsAreAccounted(cases: seq<Case>, decoders: set<string>, hash: Digest)
    requires decoders != {} && BackendsAmong(cases, decoders) && NoCaseGaps(decoders, cases, hash)
    ensures var s := Recomputed(cases);
      && s.checked == |decoders| * EndToEndRows(cases)
      && s.checked == TotalUniques(cases) + s.ties
      && s.checked > 0
  {
    hide CaseGapsOf, Sound, EndToEnd, CategoryCounts, AllChannels, TotalChecked, TotalTies, TotalUniques, EndToEndRows;
    forall d | d in decoders
      ensures AnyEndToEnd(cases) && forall c :: c in cases && EndToEnd(c) ==> Sound(d, c, hash)
    {
      NoCaseGapIff(d, cases, hash);
    }
    AllTotals(cases, decoders, hash);
    var d0 :| d0 in decoders;
    RowsArePositive(d0, cases, hash);
    assert |decoders| >= 1;
    PositiveProduct(|decoders|, EndToEndRows(cases));
  }

  lemma {:induction false} PositiveProduct(n: int, m: int)
    requires n >= 1 && m >= 1
    ensures n * m >= 1
  {
  }

  lemma {:induction false} RowsArePositive(decoder: string, cases: seq<Case>, hash: Digest)
    requires forall c :: c in cases && EndToEnd(c) ==> Sound(decoder, c, hash)
    ensures EndToEndRows(cases) >= 0 && (AnyEndToEnd(cases) ==> EndToEndRows(cases) >= 1)
  {
    hide SoundBackend, EndToEnd;
    if cases != [] {
      var front, c := cases[..|cases| - 1], cases[|cases| - 1];
      assert c in cases && forall x :: x in front ==> x in cases;
      assert forall x :: x in cases ==> x in front || x == c;
      RowsArePositive(decoder, front, hash);
    }
  }

  /** An accepted declared summary satisfies the same identity. */
  lemma {:induction false} DeclaredRowsAreAccounted(evidence: Correctness, decoders: set<string>, hash: Digest)
    requires decoders != {} && BackendsAmong(evidence.cases, decoders) && NoCaseGaps(decoders, evidence.cases, hash)
    requires SummaryGaps(evidence) == []
    ensures CheckedRows in evidence.declared && AllowedTieRows in evidence.declared
    ensures evidence.declared[CheckedRows] == Count(|decoders| * EndToEndRows(evidence.cases))
    ensures evidence.declared[AllowedTieRows]
      == Count(|decoders| * EndToEndRows(evidence.cases) - TotalUniques(evidence.cases))
  {
    hide Recomputed, CategoriesCovered, ChannelsCovered, EndToEndRows, TotalUniques, NoCaseGaps, BackendsAmong;
    CheckedRowsAreAccounted(evidence.cases, decoders, hash);
    var s := Recomputed(evidence.cases);
    assert AllConsistent(evidence.declared, s);
    assert CheckedRows in SUMMARY_FIELDS && AllowedTieRows in SUMMARY_FIELDS;
    assert Consistent(evidence.declared, s, CheckedRows) && Consistent(evidence.declared, s, AllowedTieRows);
  }
}
