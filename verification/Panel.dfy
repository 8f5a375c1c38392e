/**
 One epoch's solver-panel session: which submissions get the paid panel, how the budget is reserved,
 refunded and spent, and the append-only log that carries measured solve rates from epoch to epoch.
 A hash is `None` where the source treats it as missing: absent or empty.
 */
module Panel {
  import opened Common
  import opened Selections

  type Hash = string
  type Digest = string

  const INFRA_ERROR_CLASSES: set<string> :=
    {"provider_error", "parse_error", "timeout_error", "verifier_error", "truncation_error"}

  /** The deterministic keys of one attempt row. */
  datatype Attempt = Attempt(id: string, passed: bool, errorClass: string)

  predicate Genuine(attempt: Attempt) {
    attempt.errorClass !in INFRA_ERROR_CLASSES
  }

  function GenuineOf(rows: seq<Attempt>): (kept: seq<Attempt>)
    ensures forall i :: 0 <= i < |kept| ==> Genuine(kept[i])
  {
    if rows == [] then [] else (if Genuine(rows[0]) then [rows[0]] else []) + GenuineOf(rows[1..])
  }

  function Passes(rows: seq<Attempt>): (n: nat)
    ensures n <= |rows|
  {
    if rows == [] then 0 else (if rows[0].passed then 1 else 0) + Passes(rows[1..])
  }

  /** No genuine attempt is no measurement, never difficulty zero. */
  function CleanRate(rows: seq<Attempt>): Option<real> {
    var genuine := GenuineOf(rows);
    if genuine == [] then None else Some(Passes(genuine) as real / |genuine| as real)
  }

  lemma {:induction false} GenuineConcat(a: seq<Attempt>, b: seq<Attempt>)
    ensures GenuineOf(a + b) == GenuineOf(a) + GenuineOf(b)
  {
    if a == [] {
      assert a + b == b;
    } else {
      assert (a + b)[1..] == a[1..] + b;
      GenuineConcat(a[1..], b);
    }
  }

  lemma {:induction false} GenuineIsIdempotent(rows: seq<Attempt>)
    ensures GenuineOf(GenuineOf(rows)) == GenuineOf(rows)
  {
    if rows != [] {
      var others := GenuineOf(rows[1..]);
      GenuineIsIdempotent(rows[1..]);
      if Genuine(rows[0]) {
        assert ([rows[0]] + others)[1..] == others;
        assert GenuineOf([rows[0]] + others) == [rows[0]] + GenuineOf(others);
      } else {
        assert [] + others == others;
      }
    }
  }

  /** What the cache stores measures the same as what the panel returned. */
  lemma StoredRowsGiveTheRate(rows: seq<Attempt>)
    ensures CleanRate(GenuineOf(rows)) == CleanRate(rows)
  {
    GenuineIsIdempotent(rows);
  }

  /** A failed provider, parser or verifier anywhere among the attempts leaves the rate alone. */
  lemma InfraRowsDoNotMoveTheRate(a: seq<Attempt>, row: Attempt, b: seq<Attempt>)
    requires !Genuine(row)
    ensures CleanRate(a + [row] + b) == CleanRate(a + b)
  {
    GenuineConcat(a, b);
    GenuineConcat(a, [row] + b);
    assert ([row] + b)[1..] == b && [] + GenuineOf(b) == GenuineOf(b);
    assert GenuineOf([row] + b) == GenuineOf(b);
    assert a + [row] + b == a + ([row] + b);
  }

  /** An attempt that says something about the task. */
  function Telling(): Attempt -> bool {
    (a: Attempt) => a.errorClass !in
      {"provider_error", "parse_error", "timeout_error", "verifier_error", "truncation_error"}
  }

  /** And solved it. */
  function Solving(): Attempt -> bool {
    (a: Attempt) => Telling()(a) && a.passed
  }

  lemma {:induction false} PassesConcat(a: seq<Attempt>, b: seq<Attempt>)
    ensures Passes(a + b) == Passes(a) + Passes(b)
  {
    if a == [] {
      assert a + b == b;
    } else {
      assert (a + b)[1..] == a[1..] + b;
      PassesConcat(a[1..], b);
    }
  }

  lemma {:induction false} GenuineCounts(rows: seq<Attempt>)
    ensures |GenuineOf(rows)| == |Chosen(rows, Telling())|
    ensures Passes(GenuineOf(rows)) == |Chosen(rows, Solving())|
  {
    if rows == [] {
      CountNothing(Telling());
      CountNothing(Solving());
    } else {
      var front, last := rows[..|rows| - 1], rows[|rows| - 1];
      assert rows == front + [last];
      GenuineCounts(front);
      GenuineConcat(front, [last]);
      PassesConcat(GenuineOf(front), GenuineOf([last]));
      OneRow(last);
      CountAppend(front, last, Telling());
      CountAppend(front, last, Solving());
    }
  }

  lemma GenuineOfAppend(front: seq<Attempt>, last: Attempt)
    ensures Telling()(last) ==> GenuineOf(front + [last]) == GenuineOf(front) + [last]
    ensures !Telling()(last) ==> GenuineOf(front + [last]) == GenuineOf(front)
  {
    GenuineConcat(front, [last]);
    assert [last][1..] == [];
  }

  function Itself(): Attempt -> Attempt {
    a => a
  }

  /** What is kept of the rows: the telling attempts, in order. */
  lemma {:induction false} GenuineAreListed(rows: seq<Attempt>)
    ensures Lists(rows, Telling(), Itself(), GenuineOf(rows))
  {
    if rows == [] {
      ListsNothing(Telling(), Itself());
    } else {
      var front, last := rows[..|rows| - 1], rows[|rows| - 1];
      assert rows == front + [last];
      GenuineAreListed(front);
      GenuineOfAppend(front, last);
      ListsAppend(front, last, Telling(), Itself(), GenuineOf(front));
    }
  }

  lemma OneRow(row: Attempt)
    ensures |GenuineOf([row])| == if Telling()(row) then 1 else 0
    ensures Passes(GenuineOf([row])) == if Solving()(row) then 1 else 0
  {
    assert [row][1..] == [];
    assert GenuineOf([row]) == if Genuine(row) then [row] else [];
  }

  /** `rate` is `part` of `whole`. */
  ghost predicate Ratio(rate: real, part: nat, whole: nat) {
    whole > 0 && rate * whole as real == part as real
  }

  lemma QuotientIsRatio(part: nat, whole: nat)
    requires whole > 0
    ensures Ratio(part as real / whole as real, part, whole)
  {
  }

  /** The rate is solved over telling attempts, counted by position; there is none exactly when none tells. */
  lemma CleanRateIs(rows: seq<Attempt>)
    ensures CleanRate(rows).None? <==> |Chosen(rows, Telling())| == 0
    ensures CleanRate(rows).Some? ==>
      Ratio(CleanRate(rows).value, |Chosen(rows, Solving())|, |Chosen(rows, Telling())|)
  {
    GenuineCounts(rows);
    var genuine := GenuineOf(rows);
    if genuine != [] {
      QuotientIsRatio(Passes(genuine), |genuine|);
    }
  }

  lemma RateIsAFraction(rows: seq<Attempt>)
    ensures CleanRate(rows).Some? ==> 0.0 <= CleanRate(rows).value <= 1.0
  {
  }

  /******* The cache log *******/

  datatype CacheRecord = CacheRecord(hash: Hash, digest: Digest, rate: real, rows: seq<Attempt>)

  type Index = map<(Hash, Digest), CacheRecord>

  /** The index read from the log: records of other panel configurations are skipped, the last one wins. */
  function Load(log: seq<CacheRecord>, digest: Digest): Index {
    if log == [] then map[]
    else
      var front, record := Load(log[..|log| - 1], digest), log[|log| - 1];
      if record.digest == digest then front[(record.hash, record.digest) := record] else front
  }

  lemma LoadOfAppend(log: seq<CacheRecord>, record: CacheRecord, digest: Digest)
    ensures Load(log + [record], digest)
         == if record.digest == digest then Load(log, digest)[(record.hash, digest) := record] else Load(log, digest)
  {
  }

  /** Record number `i` is the last one of its hash under this configuration. */
  ghost predicate LastOf(log: seq<CacheRecord>, i: nat, hash: Hash, digest: Digest) {
    && i < |log| && log[i].hash == hash && log[i].digest == digest
    && forall j :: i < j < |log| ==> log[j].hash != hash || log[j].digest != digest
  }

  /** The index holds the last record of each hash under this configuration, and nothing else. */
  lemma {:induction false} LoadIsLastRecord(log: seq<CacheRecord>, hash: Hash, digest: Digest, other: Digest)
    ensures (hash, digest) in Load(log, digest) <==> exists i: nat :: LastOf(log, i, hash, digest)
    ensures forall i: nat :: LastOf(log, i, hash, digest) ==> Load(log, digest)[(hash, digest)] == log[i]
    ensures (hash, other) in Load(log, digest) ==> other == digest
  {
    if log != [] {
      var front, n := log[..|log| - 1], |log| - 1;
      LoadIsLastRecord(front, hash, digest, other);
      if log[n].hash == hash && log[n].digest == digest {
        assert LastOf(log, n, hash, digest);
      } else {
        forall i: nat ensures LastOf(front, i, hash, digest) <==> LastOf(log, i, hash, digest) {
        }
      }
    }
  }

  /** Every stored rate is the one its stored rows give, and only genuine attempts are stored. */
  ghost predicate Measured(log: seq<CacheRecord>) {
    forall i :: 0 <= i < |log| ==>
      CleanRate(log[i].rows) == Some(log[i].rate) && forall k :: 0 <= k < |log[i].rows| ==> Genuine(log[i].rows[k])
  }

  lemma {:induction false} IndexIsMeasured(log: seq<CacheRecord>, digest: Digest)
    requires Measured(log)
    ensures forall key :: key in Load(log, digest) ==>
         && key == (Load(log, digest)[key].hash, digest)
         && CleanRate(Load(log, digest)[key].rows) == Some(Load(log, digest)[key].rate)
  {
    if log != [] {
      IndexIsMeasured(log[..|log| - 1], digest);
    }
  }

  /******* Planning and settling one submission *******/

  datatype Plan = Mock | Cached | DryRun | Live | BudgetExhausted | GateFailed

  datatype Entry = Entry(hash: Option<Hash>, source: Plan, rate: Option<real>, attempts: seq<Attempt>)

  /** `digest` is known exactly when the session is active. */
  datatype Setup = Setup(digest: Option<Digest>, dryRun: bool, maxTasks: int)

  datatype Book = Book(budget: int, entries: seq<Entry>, log: seq<CacheRecord>)

  /** A submission and the rows a paid panel run gives it: none when a gate, the holdout or the run fails. */
  datatype Submission = Submission(hash: Option<Hash>, liveRows: seq<Attempt>)

  function CachedRate(setup: Setup, index: Index, hash: Option<Hash>): Option<real> {
    if setup.digest.None? || hash.None? || (hash.value, setup.digest.value) !in index then None
    else Some(index[(hash.value, setup.digest.value)].rate)
  }

  function IndexOf(setup: Setup, log: seq<CacheRecord>): Index {
    if setup.digest.None? then map[] else Load(log, setup.digest.value)
  }

  function PlanFor(setup: Setup, book: Book, hash: Option<Hash>): Plan {
    if setup.digest.None? then Mock
    else if CachedRate(setup, IndexOf(setup, book.log), hash).Some? then Cached
    else if setup.dryRun then DryRun
    else if book.budget <= 0 then BudgetExhausted
    else Live
  }

  /** Some record of the log measured this hash under the session's configuration. */
  ghost predicate Recorded(setup: Setup, log: seq<CacheRecord>, hash: Option<Hash>) {
    setup.digest.Some? && hash.Some? && exists i: nat :: LastOf(log, i, hash.value, setup.digest.value)
  }

  /** Who gets which panel, by the log, the flags and the budget. */
  lemma PlanIff(setup: Setup, book: Book, hash: Option<Hash>)
    ensures var plan, known := PlanFor(setup, book, hash), Recorded(setup, book.log, hash);
      && (plan == Mock <==> setup.digest.None?)
      && (plan == Cached <==> known)
      && (plan == DryRun <==> setup.digest.Some? && !known && setup.dryRun)
      && (plan == BudgetExhausted <==> setup.digest.Some? && !known && !setup.dryRun && book.budget <= 0)
      && (plan == Live <==> setup.digest.Some? && !known && !setup.dryRun && book.budget > 0)
    ensures forall i: nat :: hash.Some? && setup.digest.Some? && LastOf(book.log, i, hash.value, setup.digest.value) ==>
      CachedRate(setup, IndexOf(setup, book.log), hash) == Some(book.log[i].rate)
  {
    if setup.digest.Some? && hash.Some? {
      LoadIsLastRecord(book.log, hash.value, setup.digest.value, setup.digest.value);
    }
  }

  /** The record `_cache_store` writes for a measured run. */
  function Stored(setup: Setup, log: seq<CacheRecord>, hash: Option<Hash>, rows: seq<Attempt>): seq<CacheRecord> {
    if setup.digest.Some? && hash.Some? && CleanRate(rows).Some?
    then log + [CacheRecord(hash.value, setup.digest.value, CleanRate(rows).value, GenuineOf(rows))]
    else log
  }

  /** The plan after the run: a paid run that produced nothing gives its slot back. */
  function SourceOf(setup: Setup, book: Book, submission: Submission): Plan {
    var plan := PlanFor(setup, book, submission.hash);
    if plan == Live && submission.liveRows == [] then GateFailed else plan
  }

  function EntryOf(setup: Setup, book: Book, submission: Submission): Entry {
    var source := SourceOf(setup, book, submission);
    Entry(submission.hash, source,
          if source == Live then CleanRate(submission.liveRows)
          else if source == Cached then CachedRate(setup, IndexOf(setup, book.log), submission.hash)
          else None,
          if source == Live then submission.liveRows else [])
  }

  /** A live plan ends live exactly when the run produced rows; every other plan is what it was. */
  lemma SourceIff(setup: Setup, book: Book, submission: Submission)
    ensures var plan, source := PlanFor(setup, book, submission.hash), SourceOf(setup, book, submission);
      && (source == Live <==> plan == Live && submission.liveRows != [])
      && (source == GateFailed <==> plan == Live && submission.liveRows == [])
      && (plan != Live ==> source == plan)
  {
  }

  /** What the entry tells: the rate this run measured, the one on record, or none; rows only of this run. */
  lemma EntrySays(setup: Setup, book: Book, submission: Submission)
    ensures var e, told := EntryOf(setup, book, submission), |Chosen(submission.liveRows, Telling())|;
      && e.hash == submission.hash && e.source == SourceOf(setup, book, submission)
      && (e.source == Live ==>
          && e.attempts == submission.liveRows
          && (e.rate.Some? <==> told > 0)
          && (e.rate.Some? ==> Ratio(e.rate.value, |Chosen(submission.liveRows, Solving())|, told)))
      && (e.source != Live ==> e.attempts == [])
      && (e.source == Cached ==>
          && e.hash.Some? && setup.digest.Some?
          && exists i: nat :: LastOf(book.log, i, e.hash.value, setup.digest.value) && e.rate == Some(book.log[i].rate))
      && (e.source != Live && e.source != Cached ==> e.rate.None?)
  {
    CleanRateIs(submission.liveRows);
    PlanIff(setup, book, submission.hash);
    var source := SourceOf(setup, book, submission);
    if source == Cached {
      var i: nat :| LastOf(book.log, i, submission.hash.value, setup.digest.value);
      assert EntryOf(setup, book, submission).rate == Some(book.log[i].rate);
    }
  }

  /** One submission from plan to evidence. */
  function Settled(setup: Setup, book: Book, submission: Submission): Book {
    if setup.digest.None? then book
    else
      var entry := EntryOf(setup, book, submission);
      Book(if entry.source == Live then book.budget - 1 else book.budget,
           book.entries + [entry],
           if entry.source == Live then Stored(setup, book.log, submission.hash, submission.liveRows) else book.log)
  }

  function Epoch(setup: Setup, book: Book, submissions: seq<Submission>): Book {
    if submissions == [] then book
    else Settled(setup, Epoch(setup, book, submissions[..|submissions| - 1]), submissions[|submissions| - 1])
  }

  lemma EpochStep(setup: Setup, book: Book, submissions: seq<Submission>, i: nat)
    requires i < |submissions|
    ensures Epoch(setup, book, submissions[..i + 1])
         == Settled(setup, Epoch(setup, book, submissions[..i]), submissions[i])
  {
    assert submissions[..i + 1][..i] == submissions[..i];
  }

  function LiveEntries(entries: seq<Entry>): (n: nat)
    ensures n <= |entries|
  {
    if entries == [] then 0
    else LiveEntries(entries[..|entries| - 1]) + (if entries[|entries| - 1].source == Live then 1 else 0)
  }

  lemma LiveEntriesOfAppend(entries: seq<Entry>, e: Entry)
    ensures LiveEntries(entries + [e]) == LiveEntries(entries) + (if e.source == Live then 1 else 0)
  {
  }

  /******* The session object *******/

  class PanelSession {
    const setup: Setup
    var budgetRemaining: int
    var entries: seq<Entry>
    var cache: Index
    var log: seq<CacheRecord>
    /** Slots taken by `MakePlan` that neither `Refund` nor `Record` has settled. */
    ghost var reserved: nat

    ghost predicate Valid()
      reads this
    {
      && budgetRemaining + LiveEntries(entries) + reserved == setup.maxTasks
      && cache == IndexOf(setup, log)
    }

    ghost function Contents(): Book
      reads this
    {
      Book(budgetRemaining, entries, log)
    }

    constructor (setup: Setup, log: seq<CacheRecord>)
      ensures Valid() && this.setup == setup && reserved == 0
      ensures Contents() == Book(setup.maxTasks, [], log)
    {
      this.setup := setup;
      this.log := log;
      budgetRemaining := setup.maxTasks;
      entries := [];
      cache := map[];
      reserved := 0;
      new;
      if setup.digest.Some? { LoadCache(); }
    }

    method LoadCache()
      requires setup.digest.Some? && cache == map[]
      modifies this`cache
      ensures cache == Load(log, setup.digest.value)
    {
      for n := 0 to |log|
        invariant cache == Load(log[..n], setup.digest.value)
      {
        var record := log[n];
        assert log[..n + 1] == log[..n] + [record];
        LoadOfAppend(log[..n], record, setup.digest.value);
        if record.digest != setup.digest.value { continue; }
        cache := cache[(record.hash, record.digest) := record];
      }
      assert log[..|log|] == log;
    }

    method CacheStore(hash: Hash, rate: real, rows: seq<Attempt>)
      requires setup.digest.Some? && cache == Load(log, setup.digest.value)
      modifies this`cache, this`log
      ensures log == old(log) + [CacheRecord(hash, setup.digest.value, rate, GenuineOf(rows))]
      ensures cache == Load(log, setup.digest.value)
    {
      var record := CacheRecord(hash, setup.digest.value, rate, GenuineOf(rows));
      LoadOfAppend(log, record, setup.digest.value);
      cache := cache[(hash, setup.digest.value) := record];
      log := log + [record];
    }

    method MakePlan(hash: Option<Hash>) returns (plan: Plan)
      requires Valid()
      modifies this`budgetRemaining, this`reserved
      ensures Valid()
      ensures plan == PlanFor(setup, old(Contents()), hash)
      ensures plan == Live ==> budgetRemaining == old(budgetRemaining) - 1 && reserved == old(reserved) + 1
      ensures plan != Live ==> budgetRemaining == old(budgetRemaining) && reserved == old(reserved)
    {
      if setup.digest.None? { return Mock; }
      if CachedRate(setup, cache, hash).Some? { return Cached; }
      if setup.dryRun { return DryRun; }
      if budgetRemaining <= 0 { return BudgetExhausted; }
      budgetRemaining := budgetRemaining - 1;
      reserved := reserved + 1;
      plan := Live;
    }

    method Refund()
      requires Valid() && reserved > 0
      modifies this`budgetRemaining, this`reserved
      ensures Valid() && budgetRemaining == old(budgetRemaining) + 1 && reserved == old(reserved) - 1
    {
      budgetRemaining := budgetRemaining + 1;
      reserved := reserved - 1;
    }

    /** `record` stores what a live run measured, under a known hash. */
    method StoreMeasured(hash: Option<Hash>, rate: Option<real>, rows: seq<Attempt>)
      requires setup.digest.Some? && cache == Load(log, setup.digest.value) && rate == CleanRate(rows)
      modifies this`cache, this`log
      ensures log == Stored(setup, old(log), hash, rows)
      ensures cache == Load(log, setup.digest.value)
    {
      if rate.Some? && hash.Some? { CacheStore(hash.value, rate.value, rows); }
    }

    method Record(plan: Plan, hash: Option<Hash>, rows: seq<Attempt>, cachedRate: Option<real>)
      requires Valid() && (plan == Live ==> reserved > 0 && setup.digest.Some?)
      modifies this`entries, this`cache, this`log, this`reserved
      ensures Valid() && reserved == old(reserved) - (if plan == Live then 1 else 0)
      ensures setup.digest.None? ==> entries == old(entries)
      ensures setup.digest.Some? ==>
           entries == old(entries) + [Entry(
             hash, plan,
             if plan == Live then CleanRate(rows) else if plan == Cached then cachedRate else None,
             if plan == Live then rows else [])]
      ensures log == if plan == Live then Stored(setup, old(log), hash, rows) else old(log)
    {
      if setup.digest.None? { return; }
      assert CleanRate([]).None? && Stored(setup, log, hash, []) == log;
      var entry := Entry(hash, plan, None, []);
      if plan == Live && rows != [] {
        var rate := CleanRate(rows);
        entry := Entry(hash, plan, rate, rows);
        StoreMeasured(hash, rate, rows);
      } else if plan == Cached {
        entry := Entry(hash, plan, cachedRate, []);
      }
      LiveEntriesOfAppend(entries, entry);
      entries := entries + [entry];
      if plan == Live { reserved := reserved - 1; }
    }
  }

  /** One submission is planned, refunded if nothing ran, and recorded. */
  method CalibrateOne(session: PanelSession, submission: Submission)
    requires session.Valid() && session.reserved == 0
    modifies session
    ensures session.Valid() && session.reserved == 0
    ensures session.Contents() == Settled(session.setup, old(session.Contents()), submission)
  {
    var plan := session.MakePlan(submission.hash);
    if plan == Live && submission.liveRows == [] {
      session.Refund();
      plan := GateFailed;
    }
    if plan == Cached {
      session.Record(plan, submission.hash, [], CachedRate(session.setup, session.cache, submission.hash));
    } else if plan != Mock {
      session.Record(plan, submission.hash, submission.liveRows, None);
    }
  }

  /** The session's part of an epoch. */
  method Calibrate(session: PanelSession, submissions: seq<Submission>)
    requires session.Valid() && session.reserved == 0
    modifies session
    ensures session.Valid() && session.reserved == 0
    ensures session.Contents() == Epoch(session.setup, old(session.Contents()), submissions)
  {
    for i := 0 to |submissions|
      invariant session.Valid() && session.reserved == 0
      invariant session.Contents() == Epoch(session.setup, old(session.Contents()), submissions[..i])
    {
      EpochStep(session.setup, old(session.Contents()), submissions, i);
      CalibrateOne(session, submissions[i]);
    }
    assert submissions[..|submissions|] == submissions;
  }

  /******* Whole epochs *******/

  /** Budget left plus paid entries never changes, and the budget does not go below zero. */
  lemma {:induction false} BudgetIsConserved(setup: Setup, book: Book, submissions: seq<Submission>)
    ensures Epoch(setup, book, submissions).budget + LiveEntries(Epoch(setup, book, submissions).entries)
         == book.budget + LiveEntries(book.entries)
    ensures book.budget >= 0 ==> Epoch(setup, book, submissions).budget >= 0
  {
    if submissions != [] {
      var n := |submissions| - 1;
      BudgetIsConserved(setup, book, submissions[..n]);
      var before := Epoch(setup, book, submissions[..n]);
      LiveEntriesOfAppend(before.entries, EntryOf(setup, before, submissions[n]));
    }
  }

  lemma {:induction false} EntryCount(setup: Setup, book: Book, submissions: seq<Submission>)
    requires setup.digest.Some?
    ensures |Epoch(setup, book, submissions).entries| == |book.entries| + |submissions|
  {
    if submissions != [] {
      EntryCount(setup, book, submissions[..|submissions| - 1]);
    }
  }

  /** Entries and log were only appended to. */
  ghost predicate Grown(before: Book, after: Book) {
    before.log <= after.log && before.entries <= after.entries
  }

  lemma SettledGrows(setup: Setup, start: Book, book: Book, submission: Submission)
    requires Grown(start, book)
    ensures Grown(start, Settled(setup, book, submission))
  {
    var after := Settled(setup, book, submission);
    assert book.log <= after.log && book.entries <= after.entries;
  }

  lemma {:induction false} GrowsAlong(setup: Setup, book: Book, submissions: seq<Submission>, i: nat, j: nat)
    requires i <= j <= |submissions|
    ensures Grown(Epoch(setup, book, submissions[..i]), Epoch(setup, book, submissions[..j]))
    decreases j
  {
    if i < j {
      GrowsAlong(setup, book, submissions, i, j - 1);
      EpochStep(setup, book, submissions, j - 1);
      SettledGrows(setup, Epoch(setup, book, submissions[..i]), Epoch(setup, book, submissions[..j - 1]),
                   submissions[j - 1]);
    }
  }

  /** Entry number `i` of an active session is submission `i`'s, planned on what came before it. */
  lemma EntriesInOrder(setup: Setup, book: Book, submissions: seq<Submission>, n: nat, i: nat)
    requires setup.digest.Some? && i < n <= |submissions|
    ensures |Epoch(setup, book, submissions[..n]).entries| == |book.entries| + n
    ensures Epoch(setup, book, submissions[..n]).entries[|book.entries| + i]
         == EntryOf(setup, Epoch(setup, book, submissions[..i]), submissions[i])
  {
    EntryCount(setup, book, submissions[..n]);
    EntryCount(setup, book, submissions[..i]);
    EpochStep(setup, book, submissions, i);
    GrowsAlong(setup, book, submissions, i + 1, n);
  }

  /** A paid run that measured something adds one record: its hash, its rate, its genuine rows. */
  lemma MeasuredRunIsStored(setup: Setup, book: Book, submission: Submission)
    requires setup.digest.Some? && SourceOf(setup, book, submission) == Live
    ensures var after := Settled(setup, book, submission);
      if submission.hash.Some? && |Chosen(submission.liveRows, Telling())| > 0
      then |after.log| == |book.log| + 1 && after.log[..|book.log|] == book.log
           && var record := after.log[|book.log|];
             && record.hash == submission.hash.value && record.digest == setup.digest.value
             && Ratio(record.rate, |Chosen(submission.liveRows, Solving())|, |Chosen(submission.liveRows, Telling())|)
             && record.rows == GenuineOf(submission.liveRows)
      else after.log == book.log
  {
    CleanRateIs(submission.liveRows);
  }

  /** A rehearsal pays for nothing and measures nothing; an inactive session does not even take notes. */
  lemma {:induction false} RehearsalSpendsNothing(setup: Setup, book: Book, submissions: seq<Submission>)
    requires setup.dryRun || setup.digest.None?
    ensures var after := Epoch(setup, book, submissions);
      && after.budget == book.budget && after.log == book.log
      && LiveEntries(after.entries) == LiveEntries(book.entries)
      && (setup.digest.None? ==> after == book)
  {
    if submissions != [] {
      var n := |submissions| - 1;
      var before := Epoch(setup, book, submissions[..n]);
      RehearsalSpendsNothing(setup, book, submissions[..n]);
      LiveEntriesOfAppend(before.entries, EntryOf(setup, before, submissions[n]));
    }
  }

  /** A submission is turned away for want of budget only once every slot has paid for a run. */
  lemma ExhaustedMeansAllSpent(setup: Setup, log: seq<CacheRecord>, submissions: seq<Submission>, i: nat)
    requires setup.maxTasks >= 0 && i < |submissions|
    requires PlanFor(setup, Epoch(setup, Book(setup.maxTasks, [], log), submissions[..i]), submissions[i].hash)
          == BudgetExhausted
    ensures LiveEntries(Epoch(setup, Book(setup.maxTasks, [], log), submissions[..i]).entries) == setup.maxTasks
  {
    BudgetIsConserved(setup, Book(setup.maxTasks, [], log), submissions[..i]);
  }

  /** The log only grows, and stays measured. */
  lemma {:induction false} LogStaysMeasured(setup: Setup, book: Book, submissions: seq<Submission>)
    requires Measured(book.log)
    ensures Measured(Epoch(setup, book, submissions).log)
    ensures book.log <= Epoch(setup, book, submissions).log
  {
    if submissions != [] {
      var n := |submissions| - 1;
      LogStaysMeasured(setup, book, submissions[..n]);
      StoredRowsGiveTheRate(submissions[n].liveRows);
    }
  }

  lemma {:induction false} IndexGrows(log: seq<CacheRecord>, longer: seq<CacheRecord>, digest: Digest)
    requires log <= longer
    ensures Load(log, digest).Keys <= Load(longer, digest).Keys
    decreases |longer|
  {
    if |log| < |longer| {
      IndexGrows(log, longer[..|longer| - 1], digest);
    } else {
      assert log == longer;
    }
  }

  /** Once an epoch has measured a hash, it pays for that hash no more. */
  lemma MeasuredOnceIsNeverLiveAgain(setup: Setup, book: Book, submissions: seq<Submission>, i: nat, j: nat)
    requires setup.digest.Some? && Measured(book.log)
    requires i < j < |submissions| && submissions[i].hash == submissions[j].hash && submissions[i].hash.Some?
    requires PlanFor(setup, Epoch(setup, book, submissions[..i]), submissions[i].hash) == Live
    requires CleanRate(submissions[i].liveRows).Some?
    ensures PlanFor(setup, Epoch(setup, book, submissions[..j]), submissions[j].hash) == Cached
  {
    var here := Epoch(setup, book, submissions[..i]);
    var next := Epoch(setup, book, submissions[..i + 1]);
    var there := Epoch(setup, book, submissions[..j]);
    var hash, digest := submissions[i].hash.value, setup.digest.value;
    assert submissions[..i + 1][..i] == submissions[..i];
    assert submissions[i].liveRows != [];
    LoadOfAppend(here.log, next.log[|here.log|], digest);
    assert (hash, digest) in Load(next.log, digest);
    GrowsAlong(setup, book, submissions, i + 1, j);
    IndexGrows(next.log, there.log, digest);
  }
}
