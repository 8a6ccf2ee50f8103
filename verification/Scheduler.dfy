/** The bounded scheduler of the RAG test workers. Both workers share its loop; they differ in how
    a finished row is tallied. */
module Scheduler {

  datatype Status = Pass | NotPass | Retrieved | EmptyResult | SkippedResult | ErrorResult

  datatype Row = Row(order: nat, status: Status)

  /** The counters of the first worker and of the second. */
  datatype Tally = Verdicts(passed: nat, failed: nat)
    | Retrievals(retrieved: nat, empty: nat, skipped: nat, errors: nat)

  function Add(tally: Tally, status: Status): Tally {
    match tally
    case Verdicts(passed, failed) =>
      if status == Pass then tally.(passed := passed + 1) else tally.(failed := failed + 1)
    case Retrievals(retrieved, empty, skipped, errors) =>
      match status
      case Retrieved => tally.(retrieved := retrieved + 1)
      case EmptyResult => tally.(empty := empty + 1)
      case SkippedResult => tally.(skipped := skipped + 1)
      case _ => tally.(errors := errors + 1)
  }

  function Size(tally: Tally): nat {
    match tally
    case Verdicts(passed, failed) => passed + failed
    case Retrievals(retrieved, empty, skipped, errors) => retrieved + empty + skipped + errors
  }

  function TallyOf(zero: Tally, rows: seq<Row>): Tally {
    if rows == [] then zero else Add(TallyOf(zero, rows[..|rows| - 1]), rows[|rows| - 1].status)
  }

  lemma {:induction false} TallyCountsRows(zero: Tally, rows: seq<Row>)
    ensures Size(TallyOf(zero, rows)) == Size(zero) + |rows|
  {
    if rows != [] { TallyCountsRows(zero, rows[..|rows| - 1]); }
  }

  function Statuses(rows: seq<Row>): seq<Status> {
    seq(|rows|, i requires 0 <= i < |rows| => rows[i].status)
  }

  /** How many rows have a status. */
  function CountOf(rows: seq<Row>, status: Status): nat {
    multiset(Statuses(rows))[status]
  }

  lemma CountOneMore(rows: seq<Row>, row: Row, status: Status)
    ensures CountOf(rows + [row], status) == CountOf(rows, status) + if row.status == status then 1 else 0
  {
    assert Statuses(rows + [row]) == Statuses(rows) + [row.status];
  }

  /** The counters of the first worker: the rows that passed, and all others. */
  lemma {:induction false} VerdictsCountRows(rows: seq<Row>)
    ensures TallyOf(Verdicts(0, 0), rows) == Verdicts(CountOf(rows, Pass), |rows| - CountOf(rows, Pass))
    ensures CountOf(rows, Pass) <= |rows|
  {
    if rows != [] {
      var init, last := rows[..|rows| - 1], rows[|rows| - 1];
      assert init + [last] == rows;
      VerdictsCountRows(init);
      CountOneMore(init, last, Pass);
    }
  }

  /** The counters of the second worker: one for each of three statuses, and one for all others. */
  lemma {:induction false} RetrievalsCountRows(rows: seq<Row>)
    ensures CountOf(rows, Retrieved) + CountOf(rows, EmptyResult) + CountOf(rows, SkippedResult) <= |rows|
    ensures TallyOf(Retrievals(0, 0, 0, 0), rows) ==
            Retrievals(CountOf(rows, Retrieved), CountOf(rows, EmptyResult), CountOf(rows, SkippedResult),
                       |rows| - CountOf(rows, Retrieved) - CountOf(rows, EmptyResult) - CountOf(rows, SkippedResult))
  {
    hide CountOf;
    if rows == [] {
      NoRows();
    } else {
      var init, last := rows[..|rows| - 1], rows[|rows| - 1];
      assert init + [last] == rows;
      RetrievalsCountRows(init);
      CountOneMore(init, last, Retrieved);
      CountOneMore(init, last, EmptyResult);
      CountOneMore(init, last, SkippedResult);
    }
  }

  lemma NoRows()
    ensures forall status :: CountOf([], status) == 0
  {
  }

  /** `_build_retrieval_v2_result` and its error twin, as far as the status goes. */
  function RetrievalStatus(raised: bool, skipped: bool, chunks: nat): Status {
    if raised then ErrorResult
    else if skipped then SkippedResult
    else if chunks > 0 then Retrieved
    else EmptyResult
  }

  /** Each outcome of a retrieval test raises exactly its own counter of the second worker. */
  lemma RetrievalsAreClassified(tally: Tally, raised: bool, skipped: bool, chunks: nat)
    requires tally.Retrievals?
    ensures Add(tally, RetrievalStatus(raised, skipped, chunks)) == Retrievals(
              tally.retrieved + (if !raised && !skipped && chunks > 0 then 1 else 0),
              tally.empty + (if !raised && !skipped && chunks == 0 then 1 else 0),
              tally.skipped + (if !raised && skipped then 1 else 0),
              tally.errors + (if raised then 1 else 0))
  {
  }

  /** What a progress update shows. */
  datatype Progress = Progress(currentIndex: nat, pending: nat, activeCount: nat, total: nat, tally: Tally,
                               completed: nat)

  /** A published progress adds up: nothing is counted twice and nothing is missing. */
  predicate Exact(p: Progress, maxWorkers: nat) {
    && p.currentIndex + p.pending == p.total
    && p.currentIndex == p.completed + p.activeCount
    && p.activeCount <= maxWorkers
    && Size(p.tally) == p.completed
  }

  /** What any thread can see between two steps of the scheduler. */
  datatype Moment = Moment(completed: nat, active: nat, launched: nat)

  predicate Bounded(m: Moment, maxWorkers: nat, total: nat) {
    && m.active <= maxWorkers
    && m.launched <= total
    && m.completed + m.active <= total
    && m.completed + m.active <= m.launched + 1
  }

  /** What `wait` may answer: some of the futures, each once. */
  ghost predicate Honest(wait: set<nat> -> seq<nat>) {
    forall s: set<nat> :: Distinct(wait(s)) && forall i :: i in wait(s) ==> i in s
  }

  ghost predicate Distinct(s: seq<nat>) {
    forall i, j :: 0 <= i < j < |s| ==> s[i] != s[j]
  }

  /** The number of workers: the wanted one, or the nearest that is allowed. */
  function Clamp(concurrency: int): (r: nat)
    ensures 1 <= r <= 8 && (1 <= concurrency <= 8 ==> r == concurrency)
    ensures (concurrency < 1 ==> r == 1) && (concurrency > 8 ==> r == 8)
  {
    if concurrency < 1 then 1 else if concurrency > 8 then 8 else concurrency
  }

  ghost predicate RowsFit(rows: seq<Row>, launched: nat, running: set<nat>, statusOf: nat -> Status) {
    && (forall r :: r in rows ==> r.order < launched && r.order !in running && r.status == statusOf(r.order))
    && (forall i, j :: 0 <= i < j < |rows| ==> rows[i].order != rows[j].order)
  }

  lemma OneMoreRow(rows: seq<Row>, row: Row, launched: nat, running: set<nat>, statusOf: nat -> Status)
    requires RowsFit(rows, launched, running + {row.order}, statusOf)
    requires row.order < launched && row.order !in running && row.status == statusOf(row.order)
    ensures RowsFit(rows + [row], launched, running, statusOf)
  {
  }

  lemma TallyOneMore(zero: Tally, rows: seq<Row>, row: Row)
    ensures TallyOf(zero, rows + [row]) == Add(TallyOf(zero, rows), row.status)
  {
  }

  // --- Turns of the loop, as functions of what was launched, what runs and what was collected ---

  datatype Sched = Sched(launched: nat, futures: set<nat>, rows: seq<Row>)

  datatype Verdict = Going | Finished | Cancelled

  /** What one turn is given: the answer of the cancel poll, and what `wait` answers for a set of futures. */
  datatype Input = Input(cancel: bool, wait: set<nat> -> seq<nat>)

  function Min(a: nat, b: nat): nat { if a < b then a else b }

  function Range(lo: nat, hi: nat): set<nat> {
    if lo < hi then Range(lo, hi - 1) + {hi - 1} else {}
  }

  /** Tests are submitted until all workers are busy or none is left. */
  function Filled(total: nat, workers: nat, s: Sched): Sched {
    var launched := Min(total, |s.rows| + workers);
    Sched(launched, s.futures + Range(s.launched, launched), s.rows)
  }

  lemma FilledIs(total: nat, workers: nat, s: Sched, launched: nat)
    requires launched == if total < |s.rows| + workers then total else |s.rows| + workers
    ensures Filled(total, workers, s) == Sched(launched, s.futures + Range(s.launched, launched), s.rows)
  {
  }

  lemma {:induction false} RangeIs(lo: nat, hi: nat)
    requires lo <= hi
    ensures |Range(lo, hi)| == hi - lo && forall i: nat :: i in Range(lo, hi) <==> lo <= i < hi
  {
    if lo < hi { RangeIs(lo, hi - 1); }
  }

  /** After filling, all workers are busy or no test is left, the running tests are those that ran and the next
      ones in order, and nothing was collected. */
  lemma FillingIsGreedy(total: nat, workers: nat, s: Sched)
    requires |s.rows| + |s.futures| == s.launched <= total && |s.futures| <= workers
    requires forall i :: i in s.futures ==> i < s.launched
    ensures var full := Filled(total, workers, s);
            && s.launched <= full.launched <= total && full.rows == s.rows
            && |full.futures| <= workers && (full.launched == total || |full.futures| == workers)
            && forall i: nat :: i in full.futures <==> i in s.futures || s.launched <= i < full.launched
  {
    var launched := Filled(total, workers, s).launched;
    RangeIs(s.launched, launched);
    assert s.futures !! Range(s.launched, launched);
    assert |s.futures + Range(s.launched, launched)| == |s.futures| + (launched - s.launched);
  }

  function RowsOf(done: seq<nat>, statusOf: nat -> Status): seq<Row> {
    seq(|done|, k requires 0 <= k < |done| => Row(done[k], statusOf(done[k])))
  }

  function ToSet(done: seq<nat>): set<nat> {
    set i | i in done
  }

  /** The answered futures are collected, in the order of the answer. */
  function Collected(s: Sched, done: seq<nat>, statusOf: nat -> Status): Sched {
    Sched(s.launched, s.futures - ToSet(done), s.rows + RowsOf(done, statusOf))
  }

  function Step(total: nat, workers: nat, statusOf: nat -> Status, s: Sched, input: Input): (Sched, Verdict) {
    if input.cancel then (s, Cancelled)
    else
      var full := Filled(total, workers, s);
      if full.futures == {} then (full, Finished)
      else (Collected(full, input.wait(full.futures), statusOf), Going)
  }

  function Steps(total: nat, workers: nat, statusOf: nat -> Status, s: Sched, script: seq<Input>): (Sched, Verdict)
    decreases |script|
  {
    if script == [] then (s, Going)
    else
      var (next, verdict) := Step(total, workers, statusOf, s, script[0]);
      if verdict == Going then Steps(total, workers, statusOf, next, script[1..]) else (next, verdict)
  }

  /** A run is cancelled only by a poll that answered yes. */
  lemma {:induction false} CancelledByAPoll(total: nat, workers: nat, statusOf: nat -> Status, s: Sched,
                                            script: seq<Input>)
    requires Steps(total, workers, statusOf, s, script).1 == Cancelled
    ensures exists k :: 0 <= k < |script| && script[k].cancel
    decreases |script|
  {
    if !script[0].cancel {
      var rest := script[1..];
      CancelledByAPoll(total, workers, statusOf, Step(total, workers, statusOf, s, script[0]).0, rest);
      var k :| 0 <= k < |rest| && rest[k].cancel;
      assert script[k + 1].cancel;
    }
  }

  /** A poll that is reached and answers yes cancels the run on the spot: nothing more is launched or collected. */
  lemma {:induction false} YesCancels(total: nat, workers: nat, statusOf: nat -> Status, s: Sched, script: seq<Input>,
                                      k: nat)
    requires k < |script| && script[k].cancel && Steps(total, workers, statusOf, s, script[..k]).1 == Going
    ensures Steps(total, workers, statusOf, s, script) ==
            (Steps(total, workers, statusOf, s, script[..k]).0, Cancelled)
    decreases k
  {
    if k > 0 {
      var next := Step(total, workers, statusOf, s, script[0]).0;
      assert script[..k][0] == script[0];
      assert script[..k][1..] == script[1..][..k - 1];
      YesCancels(total, workers, statusOf, next, script[1..], k - 1);
    }
  }

  /** After another future is collected. */
  lemma CollectedOneMore(s: Sched, done: seq<nat>, k: nat, statusOf: nat -> Status)
    requires k < |done|
    ensures var before := Collected(s, done[..k], statusOf);
            Collected(s, done[..k + 1], statusOf)
            == Sched(s.launched, before.futures - {done[k]}, before.rows + [Row(done[k], statusOf(done[k]))])
  {
  }

  lemma NoneCollected(s: Sched, statusOf: nat -> Status)
    ensures Collected(s, [], statusOf) == s
  {
  }

  lemma NoneLaunched(futures: set<nat>, lo: nat)
    ensures futures + Range(lo, lo) == futures
  {
  }

  lemma OneLess(futures: set<nat>, idx: nat)
    requires idx in futures
    ensures futures - {idx} + {idx} == futures && |futures - {idx}| == |futures| - 1
  {
  }

  lemma OneMoreLaunched(futures: set<nat>, lo: nat, hi: nat)
    requires lo <= hi
    ensures futures + Range(lo, hi) + {hi} == futures + Range(lo, hi + 1)
  {
  }

  class Worker {
    const total: nat
    const maxWorkers: nat
    const statusOf: nat -> Status
    const zero: Tally

    var launched: nat
    var completed: nat
    var futures: set<nat>
    var activeTests: set<nat>
    var results: seq<Row>
    var tally: Tally
    var published: seq<Progress>
    ghost var submitted: seq<nat>
    ghost var moments: seq<Moment>

    /** The results are those of distinct launched tests that are no longer running. */
    ghost predicate ResultsFit()
      reads this`results, this`launched, this`futures
    {
      RowsFit(results, launched, futures, statusOf)
    }

    ghost predicate HistoryFits()
      reads this`published, this`moments, this`submitted, this`launched
    {
      && (forall p :: p in published ==> Exact(p, maxWorkers) && p.total == total)
      && (forall m :: m in moments ==> Bounded(m, maxWorkers, total))
      && |submitted| == launched && (forall i :: 0 <= i < launched ==> submitted[i] == i)
    }

    ghost predicate Valid()
      reads this
    {
      && 1 <= maxWorkers <= 8
      && launched <= total
      && |futures| <= maxWorkers
      && (forall i :: i in futures ==> i < launched)
      && activeTests == futures
      && completed + |futures| == launched
      && |results| == completed
      && tally == TallyOf(zero, results) && Size(zero) == 0
      && ResultsFit() && HistoryFits()
    }

    constructor (total: nat, concurrency: int, statusOf: nat -> Status, second: bool)
      ensures Valid() && launched == 0
      ensures this.total == total && this.statusOf == statusOf && maxWorkers == Clamp(concurrency)
    {
      this.total := total;
      this.maxWorkers := Clamp(concurrency);
      this.statusOf := statusOf;
      var none := if second then Retrievals(0, 0, 0, 0) else Verdicts(0, 0);
      zero, tally := none, none;
      launched, completed, futures, activeTests, results := 0, 0, {}, {}, [];
      published, submitted, moments := [], [], [];
      new;
      assert ResultsFit() && HistoryFits();
    }

    ghost function View(): Sched
      reads this`launched, this`futures, this`results
    {
      Sched(launched, futures, results)
    }

    /** What an update shows of the present state. */
    ghost function Shown(): Progress
      requires Valid()
      reads this
    {
      Progress(completed + |futures|, total - launched, |futures|, total, tally, completed)
    }

    /** `_set_progress`, called by the scheduler. */
    method SetProgress()
      requires Valid()
      modifies this`published
      ensures Valid() && published == old(published) + [Shown()]
    {
      hide ResultsFit, TallyOf;
      TallyCountsRows(zero, results);
      var activeCount := |activeTests|;
      var left := total - completed - activeCount;
      var pending := if left < 0 then 0 else left;
      published := published + [Progress(completed + activeCount, pending, activeCount, total, tally, completed)];
    }

    ghost method Observe()
      requires Bounded(Moment(completed, |activeTests|, launched), maxWorkers, total)
      requires HistoryFits()
      modifies this`moments
      ensures HistoryFits()
      ensures moments == old(moments) + [Moment(completed, |activeTests|, launched)]
    {
      moments := moments + [Moment(completed, |activeTests|, launched)];
    }

    /** Submit the next test. */
    method LaunchNext()
      requires Valid() && launched < total && |futures| < maxWorkers
      modifies this`launched, this`futures, this`activeTests, this`published, this`submitted, this`moments
      ensures Valid() && launched == old(launched) + 1 && futures == old(futures) + {old(launched)}
      ensures published == old(published) + [Shown()] && submitted == old(submitted) + [old(launched)]
    {
      activeTests := activeTests + {launched};
      Observe();
      futures := futures + {launched};
      submitted := submitted + [launched];
      launched := launched + 1;
      Observe();
      SetProgress();
    }

    /** Take one finished future. */
    method Collect(idx: nat)
      requires Valid() && idx in futures
      modifies this`futures, this`activeTests, this`results, this`completed, this`tally, this`published, this`moments
      ensures Valid() && futures == old(futures) - {idx} && completed == old(completed) + 1
      ensures results == old(results) + [Row(idx, statusOf(idx))] && published == old(published) + [Shown()]
    {
      hide HistoryFits, ResultsFit, TallyOf;
      TakeRow(idx);
      SetProgress();
    }

    /** A future that is done leaves the running ones, and its row joins the results. */
    method TakeRow(idx: nat)
      requires Valid() && idx in futures
      modifies this`futures, this`activeTests, this`results, this`completed, this`tally, this`moments
      ensures Valid() && futures == old(futures) - {idx} && completed == old(completed) + 1
      ensures results == old(results) + [Row(idx, statusOf(idx))]
    {
      hide HistoryFits, TallyOf, RowsFit;
      OneLess(futures, idx);
      futures := futures - {idx};
      activeTests := activeTests - {idx};
      Observe();
      AddRow(idx);
      Observe();
    }

    /** The row of a test that is no longer running joins the results and the counters. */
    method AddRow(idx: nat)
      requires RowsFit(results, launched, futures + {idx}, statusOf) && idx < launched && idx !in futures
      requires |results| == completed && tally == TallyOf(zero, results)
      modifies this`results, this`completed, this`tally
      ensures RowsFit(results, launched, futures, statusOf) && results == old(results) + [Row(idx, statusOf(idx))]
      ensures |results| == completed == old(completed) + 1 && tally == TallyOf(zero, results)
    {
      var row := Row(idx, statusOf(idx));
      TallyOneMore(zero, results, row);
      OneMoreRow(results, row, launched, futures, statusOf);
      results := results + [row];
      completed := completed + 1;
      tally := Add(tally, row.status);
    }

    /** Submit tests until all workers are busy or none is left. */
    method LaunchAll()
      requires Valid()
      modifies this`launched, this`futures, this`activeTests, this`published, this`submitted, this`moments
      ensures Valid() && View() == Filled(total, maxWorkers, old(View()))
    {
      hide ResultsFit, HistoryFits, TallyOf, Range, Filled;
      ghost var start := View();
      NoneLaunched(start.futures, start.launched);
      while launched < total && |futures| < maxWorkers
        invariant Valid() && launched >= start.launched && completed == |start.rows|
        invariant View() == Sched(launched, start.futures + Range(start.launched, launched), start.rows)
        decreases total - launched
      {
        OneMoreLaunched(start.futures, start.launched, launched);
        LaunchNext();
      }
      FilledIs(total, maxWorkers, start, launched);
    }

    /** Collect the futures that `wait` answered with, one after another. */
    method CollectAll(done: seq<nat>)
      requires Valid() && Distinct(done) && forall i :: i in done ==> i in futures
      modifies this`futures, this`activeTests, this`results, this`completed, this`tally, this`published, this`moments
      ensures Valid() && View() == Collected(old(View()), done, statusOf)
      ensures completed == old(completed) + |done|
    {
      ghost var start := View();
      assert done[..0] == [];
      for k := 0 to |done|
        invariant Valid() && View() == Collected(start, done[..k], statusOf) && completed == old(completed) + k
        invariant forall j :: k <= j < |done| ==> done[j] in futures
      {
        CollectedOneMore(start, done, k, statusOf);
        Collect(done[k]);
      }
      assert done[..|done|] == done;
    }

    /** Wait for the running futures and collect those that are done. */
    method WaitAndCollect(wait: set<nat> -> seq<nat>)
      requires Valid() && Honest(wait)
      modifies this`futures, this`activeTests, this`results, this`completed, this`tally, this`published, this`moments
      ensures Valid() && View() == Collected(old(View()), wait(old(futures)), statusOf)
      ensures completed == old(completed) + |wait(old(futures))|
    {
      var done := wait(futures);
      if done == [] {
        SetProgress();
        NoneCollected(View(), statusOf);
      } else {
        CollectAll(done);
      }
    }

    /** One turn of the scheduler loop: poll, fill the workers, wait, collect. */
    method Turn(input: Input) returns (verdict: Verdict)
      requires Valid() && Honest(input.wait)
      modifies this
      ensures Valid()
      ensures (View(), verdict) == Step(total, maxWorkers, statusOf, old(View()), input)
      ensures verdict == Finished ==> launched == total && futures == {}
      ensures verdict == Going ==> Filled(total, maxWorkers, old(View())).futures != {}
      ensures verdict == Going ==>
                completed == old(completed) + |input.wait(Filled(total, maxWorkers, old(View())).futures)|
    {
      if input.cancel { return Cancelled; }
      LaunchAll();
      if futures == {} { return Finished; }
      WaitAndCollect(input.wait);
      verdict := Going;
    }

    /** No poll of the script answers yes, every wait for some futures answers with one, and there
        are more turns than tests. */
    ghost predicate RunsToTheEnd(script: seq<Input>)
    {
      && |script| > total
      && (forall k :: 0 <= k < |script| ==> !script[k].cancel)
      && (forall k :: 0 <= k < |script| ==> forall s: set<nat> :: s != {} ==> script[k].wait(s) != [])
    }

    /** The loop for a given script of cancel polls and wait answers, and the final sort. A run that
        finished returns the row of every test, in order; any other the rows of some tests, still in
        order and without repeats. Only a poll that answers yes cancels, and a run whose waits all
        answer finishes. */
    method Run(script: seq<Input>) returns (verdict: Verdict, sorted: seq<Row>)
      requires Valid() && forall k :: 0 <= k < |script| ==> Honest(script[k].wait)
      modifies this
      ensures Valid()
      ensures (View(), verdict) == Steps(total, maxWorkers, statusOf, old(View()), script)
      ensures verdict == Cancelled ==> exists k :: 0 <= k < |script| && script[k].cancel
      ensures RunsToTheEnd(script) ==> verdict == Finished
      ensures Ascending(sorted) && multiset(sorted) == multiset(results)
      ensures forall r :: r in sorted ==> r.order < total && r.status == statusOf(r.order)
      ensures verdict == Finished ==>
                |sorted| == total && forall i :: 0 <= i < total ==> sorted[i] == Row(i, statusOf(i))
    {
      ghost var start := View();
      verdict := Loop(script);
      if verdict == Cancelled { CancelledByAPoll(total, maxWorkers, statusOf, start, script); }
      sorted := SortByOrder(results);
      SortedRowsFit(sorted);
    }

    /** The loop alone. */
    method Loop(script: seq<Input>) returns (verdict: Verdict)
      requires Valid() && forall k :: 0 <= k < |script| ==> Honest(script[k].wait)
      modifies this
      ensures Valid()
      ensures (View(), verdict) == Steps(total, maxWorkers, statusOf, old(View()), script)
      ensures RunsToTheEnd(script) ==> verdict == Finished
      ensures verdict == Finished ==> launched == total && futures == {}
    {
      hide ResultsFit, HistoryFits, Filled, Collected;
      ghost var run := Steps(total, maxWorkers, statusOf, View(), script);
      verdict := Going;
      var k := 0;
      while k < |script| && verdict == Going
        invariant k <= |script| && Valid()
        invariant verdict == Going ==> Steps(total, maxWorkers, statusOf, View(), script[k..]) == run
        invariant verdict != Going ==> (View(), verdict) == run
        invariant verdict == Finished ==> launched == total && futures == {}
        invariant RunsToTheEnd(script) ==> verdict == Finished || (verdict == Going && completed >= k)
        decreases |script| - k
      {
        assert script[k..][1..] == script[k + 1..];
        verdict := Turn(script[k]);
        k := k + 1;
      }
    }

    /** What the invariant says of the rows survives the sort. */
    lemma SortedRowsFit(sorted: seq<Row>)
      requires Valid() && Ascending(sorted) && multiset(sorted) == multiset(results)
      ensures forall r :: r in sorted ==> r.order < total && r.status == statusOf(r.order)
      ensures launched == total && futures == {} ==>
                |sorted| == total && forall i :: 0 <= i < total ==> sorted[i] == Row(i, statusOf(i))
    {
      forall r | r in sorted ensures r in results {
        assert r in multiset(sorted);
      }
      assert |multiset(sorted)| == |multiset(results)|;
      if launched == total && futures == {} {
        AscendingFromZero(sorted, total);
        assert forall i :: 0 <= i < total ==> sorted[i] in sorted;
      }
    }
  }

  // --- Sorting by order ---

  predicate Ascending(rows: seq<Row>) {
    forall i, j :: 0 <= i < j < |rows| ==> rows[i].order < rows[j].order
  }

  /** Where a row goes: after the rows with a smaller order, before those with a larger one. */
  lemma InsertedAscending(sorted: seq<Row>, k: nat, row: Row)
    requires k <= |sorted| && Ascending(sorted)
    requires k > 0 ==> sorted[k - 1].order < row.order
    requires k < |sorted| ==> sorted[k].order > row.order
    ensures Ascending(sorted[..k] + [row] + sorted[k..])
  {
  }

  method InsertByOrder(sorted: seq<Row>, row: Row) returns (r: seq<Row>)
    requires Ascending(sorted) && forall s :: s in sorted ==> s.order != row.order
    ensures Ascending(r) && multiset(r) == multiset(sorted) + multiset{row}
  {
    var k := |sorted|;
    while k > 0 && sorted[k - 1].order > row.order
      invariant 0 <= k <= |sorted|
      invariant k < |sorted| ==> sorted[k].order > row.order
    {
      k := k - 1;
    }
    assert k > 0 ==> sorted[k - 1] in sorted;
    InsertedAscending(sorted, k, row);
    r := sorted[..k] + [row] + sorted[k..];
    assert sorted == sorted[..k] + sorted[k..];
  }

  method SortByOrder(rows: seq<Row>) returns (r: seq<Row>)
    requires forall i, j :: 0 <= i < j < |rows| ==> rows[i].order != rows[j].order
    ensures Ascending(r) && multiset(r) == multiset(rows)
  {
    r := [];
    for k := 0 to |rows|
      invariant Ascending(r) && multiset(r) == multiset(rows[..k])
    {
      forall s | s in r ensures s.order != rows[k].order {
        assert s in multiset(r);
        assert s in rows[..k];
      }
      assert rows[..k + 1] == rows[..k] + [rows[k]];
      r := InsertByOrder(r, rows[k]);
    }
    assert rows[..|rows|] == rows;
  }

  /** Strictly ascending orders below `n`, `n` of them, are exactly 0 to n - 1. */
  lemma AscendingFromZero(rows: seq<Row>, n: nat)
    requires Ascending(rows) && |rows| == n && forall r :: r in rows ==> r.order < n
    ensures forall i :: 0 <= i < n ==> rows[i].order == i
  {
    forall i | 0 <= i < n ensures rows[i].order == i {
      AtLeastIndex(rows, i);
      AtMostIndex(rows, i);
    }
  }

  lemma {:induction false} AtLeastIndex(rows: seq<Row>, i: nat)
    requires Ascending(rows) && i < |rows|
    ensures rows[i].order >= i
  {
    if i > 0 { AtLeastIndex(rows, i - 1); }
  }

  lemma {:induction false} AtMostIndex(rows: seq<Row>, i: nat)
    requires Ascending(rows) && i < |rows| && forall r :: r in rows ==> r.order < |rows|
    ensures rows[i].order <= i
    decreases |rows| - i
  {
    if i + 1 < |rows| {
      AtMostIndex(rows, i + 1);
    } else {
      assert rows[i] in rows;
    }
  }
}
