/** The bounded bookkeeping of an indexing run: the largest removals, the embedding history, the
    recent skips, and the phase timings. */
module Bookkeeping {
  import opened MapSum

  /** The first `n`, or all if there are fewer. */
  function Take<T>(s: seq<T>, n: nat): seq<T> {
    if |s| <= n then s else s[..n]
  }

  /** The last `n`, or all if there are fewer. */
  function Last<T>(s: seq<T>, n: nat): seq<T> {
    if |s| <= n then s else s[|s| - n..]
  }

  lemma TakeAndLast<T>(s: seq<T>, n: nat)
    ensures |Take(s, n)| == |Last(s, n)| == if |s| < n then |s| else n
    ensures exists rest :: s == Take(s, n) + rest
    ensures exists rest :: s == rest + Last(s, n)
  {
    assert s == Take(s, n) + s[|Take(s, n)|..];
    assert s == s[..|s| - |Last(s, n)|] + Last(s, n);
  }

  // --- The largest removals ---

  datatype Removal = Removal(source: string, filename: string, removed: int, original: int, prepared: int)

  ghost predicate Descending(s: seq<Removal>) {
    forall i, j :: 0 <= i < j < |s| ==> s[i].removed >= s[j].removed
  }

  /** The entries with a given count, in order. */
  function WithCount(s: seq<Removal>, removed: int): seq<Removal> {
    if s == [] then []
    else WithCount(s[..|s| - 1], removed) + if s[|s| - 1].removed == removed then [s[|s| - 1]] else []
  }

  /** Insert behind the entries that are at least as large. */
  function Insert(s: seq<Removal>, x: Removal): (r: seq<Removal>)
    ensures |r| == |s| + 1
  {
    if s != [] && s[|s| - 1].removed < x.removed then Insert(s[..|s| - 1], x) + [s[|s| - 1]]
    else s + [x]
  }

  /** `list.sort(key=removed_chars, reverse=True)`, which keeps equal entries in order. */
  function SortDescending(s: seq<Removal>): (r: seq<Removal>)
    ensures |r| == |s|
  {
    if s == [] then [] else Insert(SortDescending(s[..|s| - 1]), s[|s| - 1])
  }

  lemma {:induction false} InsertKeepsDescending(s: seq<Removal>, x: Removal)
    requires Descending(s)
    ensures Descending(Insert(s, x))
    ensures forall k :: 0 <= k <= |s| ==>
              Insert(s, x)[k].removed <= (if s == [] || s[0].removed < x.removed then x.removed else s[0].removed)
    ensures Insert(s, x)[|s|].removed ==
            if s != [] && s[|s| - 1].removed < x.removed then s[|s| - 1].removed else x.removed
  {
    if s != [] && s[|s| - 1].removed < x.removed {
      var init, last := s[..|s| - 1], s[|s| - 1];
      InsertKeepsDescending(init, x);
      var r := Insert(init, x);
      assert r[|init|].removed >= last.removed;
      forall i | 0 <= i < |r| ensures r[i].removed >= last.removed {
        assert i < |init| ==> r[i].removed >= r[|init|].removed;
      }
    }
  }

  lemma WithCountSnoc(s: seq<Removal>, x: Removal, removed: int)
    ensures WithCount(s + [x], removed) == WithCount(s, removed) + if x.removed == removed then [x] else []
  {
  }

  lemma {:induction false} InsertIsStable(s: seq<Removal>, x: Removal, removed: int)
    requires Descending(s)
    ensures WithCount(Insert(s, x), removed) == WithCount(s, removed) + if x.removed == removed then [x] else []
  {
    if s != [] && s[|s| - 1].removed < x.removed {
      var init, last := s[..|s| - 1], s[|s| - 1];
      InsertIsStable(init, x, removed);
      WithCountSnoc(Insert(init, x), last, removed);
      if removed == last.removed {
        assert WithCount(init, removed) + [] == WithCount(init, removed);
      } else {
        assert WithCount(init, removed) + [] == WithCount(init, removed);
        assert WithCount(Insert(init, x), removed) + [] == WithCount(Insert(init, x), removed);
      }
    } else {
      WithCountSnoc(s, x, removed);
    }
  }

  /** The sort is descending and stable. */
  lemma {:induction false} SortIsStable(s: seq<Removal>)
    ensures Descending(SortDescending(s))
    ensures forall removed :: WithCount(SortDescending(s), removed) == WithCount(s, removed)
  {
    if s != [] {
      var init, last := s[..|s| - 1], s[|s| - 1];
      SortIsStable(init);
      InsertKeepsDescending(SortDescending(init), last);
      forall removed ensures WithCount(SortDescending(s), removed) == WithCount(s, removed) {
        InsertIsStable(SortDescending(init), last, removed);
      }
    }
  }

  lemma {:induction false} WithCountNonempty(s: seq<Removal>, i: nat)
    requires i < |s|
    ensures WithCount(s, s[i].removed) != []
  {
    if i < |s| - 1 {
      assert s[..|s| - 1][i] == s[i];
      WithCountNonempty(s[..|s| - 1], i);
    }
  }

  lemma {:induction false} WithCountIsFrom(s: seq<Removal>, removed: int)
    requires WithCount(s, removed) != []
    ensures exists i :: 0 <= i < |s| && s[i].removed == removed
  {
    if s[|s| - 1].removed != removed {
      assert WithCount(s[..|s| - 1], removed) + [] == WithCount(s[..|s| - 1], removed);
      WithCountIsFrom(s[..|s| - 1], removed);
      var i :| 0 <= i < |s| - 1 && s[..|s| - 1][i].removed == removed;
      assert s[i].removed == removed;
    }
  }

  ghost predicate SameCounts(a: seq<Removal>, b: seq<Removal>) {
    forall removed :: WithCount(a, removed) == WithCount(b, removed)
  }

  /** The last entry of one has the smallest count, and so has the last entry of the other. */
  lemma LastIsNoSmaller(a: seq<Removal>, b: seq<Removal>)
    requires a != [] && b != [] && Descending(a) && SameCounts(a, b)
    ensures b[|b| - 1].removed >= a[|a| - 1].removed
  {
    WithCountNonempty(b, |b| - 1);
    WithCountIsFrom(a, b[|b| - 1].removed);
  }

  /** Being descending and stable leaves only one list: any stable descending sort is this one. */
  lemma {:induction false} StableSortIsUnique(a: seq<Removal>, b: seq<Removal>)
    requires Descending(a) && Descending(b) && SameCounts(a, b)
    ensures a == b
  {
    if a == [] || b == [] {
      if b != [] { WithCountNonempty(b, 0); }
      if a != [] { WithCountNonempty(a, 0); }
    } else {
      LastIsNoSmaller(a, b);
      LastIsNoSmaller(b, a);
      SameLast(a, b);
      InitsHaveSameCounts(a, b);
      StableSortIsUnique(a[..|a| - 1], b[..|b| - 1]);
      assert a == a[..|a| - 1] + [a[|a| - 1]] && b == b[..|b| - 1] + [b[|b| - 1]];
    }
  }

  lemma InitsHaveSameCounts(a: seq<Removal>, b: seq<Removal>)
    requires a != [] && b != [] && a[|a| - 1] == b[|b| - 1] && SameCounts(a, b)
    ensures SameCounts(a[..|a| - 1], b[..|b| - 1])
  {
    var x, y := a[..|a| - 1], b[..|b| - 1];
    forall removed ensures WithCount(x, removed) == WithCount(y, removed) {
      WithoutLast(a, b, removed);
    }
  }

  lemma {:induction false} SameLast(a: seq<Removal>, b: seq<Removal>)
    requires a != [] && b != [] && a[|a| - 1].removed == b[|b| - 1].removed
    requires WithCount(a, a[|a| - 1].removed) == WithCount(b, a[|a| - 1].removed)
    ensures a[|a| - 1] == b[|b| - 1]
  {
    var w := WithCount(a, a[|a| - 1].removed);
    assert w[|w| - 1] == a[|a| - 1];
    assert w[|w| - 1] == b[|b| - 1];
  }

  lemma WithoutLast(a: seq<Removal>, b: seq<Removal>, removed: int)
    requires a != [] && b != [] && a[|a| - 1] == b[|b| - 1]
    requires WithCount(a, removed) == WithCount(b, removed)
    ensures WithCount(a[..|a| - 1], removed) == WithCount(b[..|b| - 1], removed)
  {
    var x, y := WithCount(a[..|a| - 1], removed), WithCount(b[..|b| - 1], removed);
    if a[|a| - 1].removed == removed {
      assert (x + [a[|a| - 1]])[..|x|] == x && (y + [a[|a| - 1]])[..|y|] == y;
      assert |x| == |y|;
    } else {
      assert x + [] == x && y + [] == y;
    }
  }

  /** Inserting into the first `n` loses nothing that belongs to the first `n`. */
  lemma {:induction false} InsertIntoFirst(s: seq<Removal>, x: Removal, n: nat)
    requires Descending(s)
    ensures Take(Insert(Take(s, n), x), n) == Take(Insert(s, x), n)
  {
    if |s| > n {
      var init, last := s[..|s| - 1], s[|s| - 1];
      assert Take(init, n) == Take(s, n);
      if last.removed < x.removed {
        InsertIntoFirst(init, x, n);
        assert Take(Insert(init, x) + [last], n) == Take(Insert(init, x), n);
      } else {
        assert n > 0 ==> s[n - 1].removed >= last.removed;
        assert Insert(Take(s, n), x) == Take(s, n) + [x];
      }
    }
  }

  lemma {:induction false} SortOfDescending(s: seq<Removal>)
    requires Descending(s)
    ensures SortDescending(s) == s
  {
    if s != [] {
      SortOfDescending(s[..|s| - 1]);
      assert s == s[..|s| - 1] + [s[|s| - 1]];
      assert |s| > 1 ==> s[|s| - 2].removed >= s[|s| - 1].removed;
    }
  }

  lemma SortOneMore(s: seq<Removal>, x: Removal)
    ensures SortDescending(s + [x]) == Insert(SortDescending(s), x)
  {
  }

  lemma FirstIsDescending(s: seq<Removal>, n: nat)
    requires Descending(s)
    ensures Descending(Take(s, n))
  {
  }

  /** Sorting one more into the first `n` of a sorted list gives the first `n` of the sorted longer list. */
  lemma SortOfFirst(s: seq<Removal>, x: Removal, n: nat)
    ensures Take(SortDescending(Take(SortDescending(s), n) + [x]), n) == Take(SortDescending(s + [x]), n)
  {
    hide SortDescending, Insert, Take, Descending;
    var all := SortDescending(s);
    SortIsStable(s);
    FirstIsDescending(all, n);
    SortOfDescending(Take(all, n));
    SortOneMore(Take(all, n), x);
    SortOneMore(s, x);
    InsertIntoFirst(all, x, n);
  }

  // --- The history of embedded pages ---

  datatype HistoryRow = HistoryRow(path: string, chars: int, chunks: int, status: string)

  /** The newest row first; a second row about the same page replaces the first. */
  function Push(rows: seq<HistoryRow>, row: HistoryRow): seq<HistoryRow> {
    if rows != [] && rows[0].path == row.path then [row] + rows[1..] else [row] + rows
  }

  function PushAll(rows: seq<HistoryRow>): seq<HistoryRow> {
    if rows == [] then [] else Push(PushAll(rows[..|rows| - 1]), rows[|rows| - 1])
  }

  /** The row behind a run of rows about one page. */
  predicate EndsRun(rows: seq<HistoryRow>, i: nat)
    requires i < |rows|
  {
    i == |rows| - 1 || rows[i].path != rows[i + 1].path
  }

  /** The places of these rows, newest first: just the ends of the runs. */
  ghost predicate RunEnds(rows: seq<HistoryRow>, places: seq<nat>) {
    && (forall j, k :: 0 <= j < k < |places| ==> places[j] > places[k])
    && (forall i: nat :: i in places <==> i < |rows| && EndsRun(rows, i))
  }

  ghost predicate TakenFrom(rows: seq<HistoryRow>, places: seq<nat>, shown: seq<HistoryRow>) {
    |shown| == |places| && forall k :: 0 <= k < |places| ==> places[k] < |rows| && shown[k] == rows[places[k]]
  }

  /** What the history shows: of every run of rows about one page the last, and the newest first. */
  lemma {:induction false} HistoryShowsLastOfRuns(rows: seq<HistoryRow>) returns (places: seq<nat>)
    ensures RunEnds(rows, places) && TakenFrom(rows, places, PushAll(rows))
  {
    hide EndsRun, RunEnds, TakenFrom;
    if |rows| <= 1 {
      places := if rows == [] then [] else [0];
      AtMostOneRun(rows);
    } else {
      var init, last := rows[..|rows| - 1], rows[|rows| - 1];
      var before := HistoryShowsLastOfRuns(init);
      NewestFirst(init, before, PushAll(init));
      places := [|init|] + if init[|init| - 1].path == last.path then before[1..] else before;
      assert init + [last] == rows;
      RunsOneMore(init, last, before, places);
      ShownOneMore(init, last, before, PushAll(init), places);
    }
  }

  lemma AtMostOneRun(rows: seq<HistoryRow>)
    requires |rows| <= 1
    ensures var places := if rows == [] then [] else [0];
            RunEnds(rows, places) && TakenFrom(rows, places, PushAll(rows))
  {
    if rows != [] {
      assert PushAll(rows[..0]) == [];
      assert PushAll(rows) == rows;
    }
  }

  /** The newest row ends a run, so it stands first. */
  lemma NewestFirst(rows: seq<HistoryRow>, places: seq<nat>, shown: seq<HistoryRow>)
    requires rows != [] && RunEnds(rows, places) && TakenFrom(rows, places, shown)
    ensures places != [] && places[0] == |rows| - 1 && shown != [] && shown[0] == rows[|rows| - 1]
  {
    assert EndsRun(rows, |rows| - 1);
    var k :| 0 <= k < |places| && places[k] == |rows| - 1;
    assert places[0] in places;
  }

  /** The ends of the runs after one more row. */
  lemma RunsOneMore(rows: seq<HistoryRow>, last: HistoryRow, before: seq<nat>, places: seq<nat>)
    requires rows != [] && RunEnds(rows, before) && before != [] && before[0] == |rows| - 1
    requires places == [|rows|] + if rows[|rows| - 1].path == last.path then before[1..] else before
    ensures RunEnds(rows + [last], places)
  {
    var all, n := rows + [last], |rows|;
    forall i: nat ensures i in places <==> i < |all| && EndsRun(all, i) {
      if i < n - 1 {
        assert EndsRun(all, i) <==> EndsRun(rows, i);
        assert i in before <==> i in before[1..];
      } else if i == n - 1 {
        assert i !in before[1..];
        assert before[0] in before;
      } else {
        assert i > n ==> i !in before && i !in before[1..];
      }
    }
    forall j, k | 0 <= j < k < |places| ensures places[j] > places[k] {
      assert places[k] in before;
    }
  }

  lemma ShownOneMore(rows: seq<HistoryRow>, last: HistoryRow, before: seq<nat>, shown: seq<HistoryRow>,
                     places: seq<nat>)
    requires rows != [] && before != [] && TakenFrom(rows, before, shown) && shown[0] == rows[|rows| - 1]
    requires places == [|rows|] + if rows[|rows| - 1].path == last.path then before[1..] else before
    ensures TakenFrom(rows + [last], places, Push(shown, last))
  {
  }

  lemma PushOntoFirst(rows: seq<HistoryRow>, row: HistoryRow, n: nat)
    requires n > 0
    ensures Take(Push(Take(rows, n), row), n) == Take(Push(rows, row), n)
  {
  }

  /** The bounded lists of the `stats` dict, beside everything they were ever given. */
  class Lists<Entry> {
    var largestPrepareRemovals: seq<Removal>
    var embeddingHistory: seq<HistoryRow>
    var recentSkips: seq<Entry>
    var skipLog: seq<Entry>
    ghost var removals: seq<Removal>
    ghost var rows: seq<HistoryRow>

    /** Each list is what the unbounded one would show of its first eight or last twelve. */
    ghost predicate Valid()
      reads this
    {
      && largestPrepareRemovals == Take(SortDescending(removals), 8)
      && embeddingHistory == Take(PushAll(rows), 8)
      && recentSkips == Last(skipLog, 12)
    }

    constructor ()
      ensures Valid() && removals == [] && rows == [] && skipLog == []
    {
      largestPrepareRemovals, embeddingHistory, recentSkips, skipLog := [], [], [], [];
      removals, rows := [], [];
    }

    /** `remember_prepare_removal`: append, sort, cut after eight. */
    method RememberPrepareRemoval(removal: Removal)
      requires Valid()
      modifies this`largestPrepareRemovals, this`removals
      ensures Valid() && removals == old(removals) + if removal.removed > 0 then [removal] else []
    {
      hide SortDescending, Take;
      if removal.removed <= 0 { return; }
      SortOfFirst(removals, removal, 8);
      removals := removals + [removal];
      var rows := SortDescending(largestPrepareRemovals + [removal]);
      largestPrepareRemovals := Take(rows, 8);
    }

    /** `remember_embedding_history`. */
    method RememberEmbeddingHistory(row: HistoryRow)
      requires Valid()
      modifies this`embeddingHistory, this`rows
      ensures Valid() && rows == old(rows) + [row]
    {
      PushOntoFirst(PushAll(rows), row, 8);
      assert (rows + [row])[..|rows|] == rows;
      rows := rows + [row];
      if embeddingHistory != [] && embeddingHistory[0].path == row.path {
        embeddingHistory := [row] + embeddingHistory[1..];
      } else {
        embeddingHistory := [row] + embeddingHistory;
      }
      embeddingHistory := Take(embeddingHistory, 8);
    }

    /** The part of `record_page_skip` that logs the skip. */
    method RememberSkip(entry: Entry)
      requires Valid()
      modifies this`recentSkips, this`skipLog
      ensures Valid() && skipLog == old(skipLog) + [entry]
    {
      skipLog := skipLog + [entry];
      recentSkips := recentSkips + [entry];
      recentSkips := Last(recentSkips, 12);
    }
  }

  // --- Phase timings ---

  /** `int((now - started) * 1000)` for a clock that does not run backwards. */
  function Millis(started: real, now: real): nat
    requires started <= now
  {
    ((now - started) * 1000.0).Floor
  }

  /** A closed stretch of time in one phase. */
  datatype Segment = Segment(phase: string, from: real, to: real)

  /** The segments follow one another from `from` to `to`. */
  predicate Chained(segments: seq<Segment>, from: real, to: real) {
    if segments == [] then from == to
    else
      var last := segments[|segments| - 1];
      Chained(segments[..|segments| - 1], from, last.from) && last.from <= last.to == to
  }

  function Recorded(durations: map<string, nat>, phase: string): nat {
    if phase in durations then durations[phase] else 0
  }

  /** The milliseconds recorded for each phase: every segment is floored on its own. */
  function Durations(segments: seq<Segment>): map<string, nat> {
    if segments == [] then map[]
    else
      var before, last := Durations(segments[..|segments| - 1]), segments[|segments| - 1];
      before[last.phase := Recorded(before, last.phase) +
                           if last.from <= last.to then Millis(last.from, last.to) else 0]
  }

  /** The time really spent in a phase, and in how many segments. */
  function TimeIn(segments: seq<Segment>, phase: string): real {
    if segments == [] then 0.0
    else
      var last := segments[|segments| - 1];
      TimeIn(segments[..|segments| - 1], phase) + if last.phase == phase then last.to - last.from else 0.0
  }

  function CountIn(segments: seq<Segment>, phase: string): nat {
    if segments == [] then 0
    else CountIn(segments[..|segments| - 1], phase) + if segments[|segments| - 1].phase == phase then 1 else 0
  }

  /** The segments in a phase are just those that name it. */
  lemma {:induction false} CountInCounts(segments: seq<Segment>, phase: string)
    ensures CountIn(segments, phase) ==
            multiset(seq(|segments|, i requires 0 <= i < |segments| => segments[i].phase))[phase]
  {
    if segments != [] {
      var n := |segments| - 1;
      CountInCounts(segments[..n], phase);
      var names := seq(n + 1, i requires 0 <= i < n + 1 => segments[i].phase);
      assert names == seq(n, i requires 0 <= i < n => segments[..n][i].phase) + [segments[n].phase];
    }
  }

  /** The recorded milliseconds of all phases never exceed the time they cover, and miss less than
      one for each segment. */
  lemma {:induction false} DurationsAreClose(segments: seq<Segment>, from: real, to: real)
    requires Chained(segments, from, to)
    ensures Sum(Durations(segments)) as real <= (to - from) * 1000.0
    ensures if segments == [] then from == to
            else (to - from) * 1000.0 < (Sum(Durations(segments)) + |segments|) as real
  {
    if segments != [] {
      var init, last := segments[..|segments| - 1], segments[|segments| - 1];
      DurationsAreClose(init, from, last.from);
      SumSet(Durations(init), last.phase, Recorded(Durations(init), last.phase) + Millis(last.from, last.to));
    }
  }

  /** The same for each phase alone. */
  lemma {:induction false} PhaseIsClose(segments: seq<Segment>, from: real, to: real, phase: string)
    requires Chained(segments, from, to)
    ensures Recorded(Durations(segments), phase) as real <= TimeIn(segments, phase) * 1000.0
    ensures if CountIn(segments, phase) == 0 then TimeIn(segments, phase) == 0.0
            else
              TimeIn(segments, phase) * 1000.0 <
              (Recorded(Durations(segments), phase) + CountIn(segments, phase)) as real
  {
    if segments != [] {
      var init, last := segments[..|segments| - 1], segments[|segments| - 1];
      PhaseIsClose(init, from, last.from, phase);
    }
  }

  // --- The sequence of phases ---

  /** A call of `_set_phase`. */
  datatype Mark = Mark(phase: string, at: real)

  /** What the calls so far amount to. */
  datatype Timing = Idle | Open(first: real, closed: seq<Segment>, phase: string, since: real)

  /** Entering another phase closes the open segment; naming the same phase again leaves it open. */
  function Entered(t: Timing, mark: Mark): Timing {
    match t
    case Idle => Open(mark.at, [], mark.phase, mark.at)
    case Open(first, closed, phase, since) =>
      if phase == mark.phase then t
      else Open(first, closed + [Segment(phase, since, mark.at)], mark.phase, mark.at)
  }

  function AfterMarks(marks: seq<Mark>): Timing {
    if marks == [] then Idle else Entered(AfterMarks(marks[..|marks| - 1]), marks[|marks| - 1])
  }

  /** Every segment there is at the end. */
  function AllClosed(t: Timing, end: real): seq<Segment> {
    match t
    case Idle => []
    case Open(_, closed, phase, since) => closed + [Segment(phase, since, end)]
  }

  /** The call that enters another phase than the one before it. */
  predicate StartsRun(marks: seq<Mark>, i: nat)
    requires i < |marks|
  {
    i == 0 || marks[i].phase != marks[i - 1].phase
  }

  /** A call that names the phase that is open already. */
  predicate Continues(marks: seq<Mark>, last: Mark) {
    marks != [] && marks[|marks| - 1].phase == last.phase
  }

  ghost predicate RunStarts(marks: seq<Mark>, places: seq<nat>) {
    && (forall j, k :: 0 <= j < k < |places| ==> places[j] < places[k])
    && (forall i: nat :: i in places <==> i < |marks| && StartsRun(marks, i))
  }

  function From(segments: seq<Segment>, k: nat): real
    requires k < |segments|
  {
    segments[k].from
  }

  /** One segment for each place, from its call to the call at the next place. */
  ghost predicate FromTo(marks: seq<Mark>, places: seq<nat>, segments: seq<Segment>, end: real) {
    && |segments| == |places|
    && forall k :: 0 <= k < |places| ==>
         && places[k] < |marks|
         && segments[k].phase == marks[places[k]].phase && segments[k].from == marks[places[k]].at
         && segments[k].to == if k == |places| - 1 then end else From(segments, k + 1)
  }

  /** What the segments are: one for each run of calls that name one phase, from its first call to the first
      call of the next run. */
  lemma {:induction false} SegmentsAreRuns(marks: seq<Mark>, end: real) returns (places: seq<nat>)
    ensures RunStarts(marks, places) && FromTo(marks, places, AllClosed(AfterMarks(marks), end), end)
    ensures marks != [] ==> AfterMarks(marks).Open? && AfterMarks(marks).phase == marks[|marks| - 1].phase
  {
    hide StartsRun, RunStarts, FromTo, AllClosed, Continues;
    if marks == [] {
      places := [];
      NoMarks(end);
    } else {
      var init, last := marks[..|marks| - 1], marks[|marks| - 1];
      assert init + [last] == marks;
      var till := if Continues(init, last) then end else last.at;
      var before := SegmentsAreRuns(init, till);
      places := before + if Continues(init, last) then [] else [|init|];
      StartsOneMore(init, last, before, places);
      SegmentsOneMore(init, last, before, till, places, end);
    }
  }

  lemma NoMarks(end: real)
    ensures RunStarts([], []) && FromTo([], [], AllClosed(AfterMarks([]), end), end)
  {
  }

  lemma StartsOneMore(marks: seq<Mark>, last: Mark, before: seq<nat>, places: seq<nat>)
    requires RunStarts(marks, before)
    requires places == before + if Continues(marks, last) then [] else [|marks|]
    ensures RunStarts(marks + [last], places)
  {
    var all, n := marks + [last], |marks|;
    forall i: nat ensures i in places <==> i < |all| && StartsRun(all, i) {
      if i < n {
        assert StartsRun(all, i) <==> StartsRun(marks, i);
      } else {
        assert i !in before;
      }
    }
    forall k | 0 <= k < |before| ensures before[k] < n {
      assert before[k] in before;
    }
  }

  lemma SegmentsOneMore(marks: seq<Mark>, last: Mark, before: seq<nat>, till: real, places: seq<nat>, end: real)
    requires marks != [] ==> AfterMarks(marks).Open? && AfterMarks(marks).phase == marks[|marks| - 1].phase
    requires till == if Continues(marks, last) then end else last.at
    requires FromTo(marks, before, AllClosed(AfterMarks(marks), till), till)
    requires places == before + if Continues(marks, last) then [] else [|marks|]
    ensures FromTo(marks + [last], places, AllClosed(AfterMarks(marks + [last]), end), end)
  {
    assert (marks + [last])[..|marks|] == marks;
    var segments := AllClosed(AfterMarks(marks), till);
    if Continues(marks, last) {
      SameRun(marks, last, before, segments, end);
      assert places == before;
    } else {
      NewRun(marks, last, before, segments, end);
    }
  }

  lemma SameRun(marks: seq<Mark>, last: Mark, places: seq<nat>, segments: seq<Segment>, end: real)
    requires FromTo(marks, places, segments, end)
    ensures FromTo(marks + [last], places, segments, end)
  {
  }

  lemma NewRun(marks: seq<Mark>, last: Mark, places: seq<nat>, segments: seq<Segment>, end: real)
    requires FromTo(marks, places, segments, last.at)
    ensures FromTo(marks + [last], places + [|marks|], segments + [Segment(last.phase, last.at, end)], end)
  {
    var all := segments + [Segment(last.phase, last.at, end)];
    assert forall k :: 0 <= k < |segments| ==> From(all, k) == From(segments, k);
  }

  predicate InOrder(start: real, marks: seq<Mark>, end: real) {
    && (forall i :: 0 <= i < |marks| ==> start <= marks[i].at <= end && marks[i].phase != "")
    && (forall i, j :: 0 <= i < j < |marks| ==> marks[i].at <= marks[j].at)
  }

  lemma {:induction false} MarksChain(start: real, marks: seq<Mark>, end: real)
    requires InOrder(start, marks, end)
    ensures match AfterMarks(marks)
            case Idle => marks == []
            case Open(first, closed, _, since) =>
              && marks != [] && first == marks[0].at && since <= marks[|marks| - 1].at
              && Chained(closed, first, since) && |closed| < |marks|
  {
    if marks != [] {
      var init, last := marks[..|marks| - 1], marks[|marks| - 1];
      MarksChain(start, init, end);
      if init != [] {
        assert init[|init| - 1].at <= last.at;
        ChainedOneMore(start, init, last);
      }
    }
  }

  lemma ChainedOneMore(start: real, init: seq<Mark>, last: Mark)
    requires AfterMarks(init).Open? && AfterMarks(init).since <= last.at
    requires Chained(AfterMarks(init).closed, AfterMarks(init).first, AfterMarks(init).since)
    ensures Chained(Entered(AfterMarks(init), last).closed, AfterMarks(init).first,
                    Entered(AfterMarks(init), last).since)
  {
  }

  /** Over a whole run of phases the recorded durations never exceed the elapsed time, and miss
      less than a millisecond per closed segment of the time since the first phase; there are no
      more segments than calls. */
  lemma {:induction false} PhasesLoseLittle(start: real, marks: seq<Mark>, end: real)
    requires InOrder(start, marks, end) && start <= end
    ensures var segments := AllClosed(AfterMarks(marks), end);
            && |segments| <= |marks|
            && Sum(Durations(segments)) <= Millis(start, end)
            && (marks != [] ==> (end - marks[0].at) * 1000.0 < (Sum(Durations(segments)) + |segments|) as real)
  {
    MarksChain(start, marks, end);
    var t := AfterMarks(marks);
    if t.Open? {
      var segments := AllClosed(t, end);
      assert segments[..|t.closed|] == t.closed;
      DurationsAreClose(segments, t.first, end);
    }
  }

  class PhaseClock {
    var runStarted: real
    var phaseStarted: real
    var currentPhase: string
    var durations: map<string, nat>
    var elapsedMs: nat
    var currentElapsedMs: nat
    ghost var firstPhase: real
    ghost var segments: seq<Segment>
    ghost var latest: real

    ghost function View(): Timing
      reads this
    {
      if currentPhase == "" then Idle else Open(firstPhase, segments, currentPhase, phaseStarted)
    }

    /** The durations are those of the closed segments, which lead up to the open one. */
    ghost predicate Valid()
      reads this
    {
      && runStarted <= firstPhase <= phaseStarted <= latest
      && durations == Durations(segments) && Chained(segments, firstPhase, phaseStarted)
      && (currentPhase == "" ==> segments == [])
    }

    constructor (now: real)
      ensures Valid() && runStarted == latest == now && View() == Idle && durations == map[]
    {
      runStarted, phaseStarted, firstPhase, latest := now, now, now, now;
      currentPhase, durations, elapsedMs, currentElapsedMs := "", map[], 0, 0;
      segments := [];
    }

    /** Add the open segment, which ends now, to its phase. */
    method CloseSegment(now: real)
      requires Valid() && currentPhase != "" && latest <= now
      modifies this`durations, this`segments
      ensures segments == old(segments) + [Segment(currentPhase, phaseStarted, now)]
      ensures durations == Durations(segments) && Chained(segments, firstPhase, now)
      ensures durations ==
                old(durations)[currentPhase := Recorded(old(durations), currentPhase) + Millis(phaseStarted, now)]
    {
      var add := Millis(phaseStarted, now);
      var so := if currentPhase in durations then durations[currentPhase] else 0;
      durations := durations[currentPhase := so + add];
      ghost var before := segments;
      segments := segments + [Segment(currentPhase, phaseStarted, now)];
      assert segments[..|before|] == before;
    }

    /** `_set_phase`. */
    method SetPhase(phase: string, now: real)
      requires Valid() && latest <= now && phase != ""
      modifies this
      ensures Valid() && View() == Entered(old(View()), Mark(phase, now))
      ensures latest == now && runStarted == old(runStarted)
      ensures elapsedMs == Millis(runStarted, now) && currentElapsedMs == 0
    {
      if currentPhase != "" && currentPhase != phase {
        CloseSegment(now);
        phaseStarted := now;
      } else if currentPhase == "" {
        phaseStarted := now;
        firstPhase := now;
      }
      currentPhase := phase;
      currentElapsedMs := 0;
      elapsedMs := Millis(runStarted, now);
      latest := now;
    }

    /** `_finish_timing`: the open segment is closed too, and nothing else is recorded. */
    method FinishTiming(now: real)
      requires Valid() && latest <= now
      modifies this
      ensures runStarted == old(runStarted) && elapsedMs == Millis(runStarted, now)
      ensures segments == AllClosed(old(View()), now) && durations == Durations(segments)
      ensures Sum(durations) <= elapsedMs
      ensures old(View()).Open? ==> (now - old(View()).first) * 1000.0 < (Sum(durations) + |segments|) as real
    {
      if currentPhase != "" {
        CloseSegment(now);
        DurationsAreClose(segments, firstPhase, now);
        currentElapsedMs := Millis(phaseStarted, now);
      } else {
        currentElapsedMs := 0;
      }
      elapsedMs := Millis(runStarted, now);
      latest := now;
    }
  }

  /** A whole run of the clock: its durations are those of the calls made. */
  method TimePhases(start: real, marks: seq<Mark>, end: real) returns (durations: map<string, nat>, elapsedMs: nat)
    requires InOrder(start, marks, end) && start <= end
    ensures durations == Durations(AllClosed(AfterMarks(marks), end)) && elapsedMs == Millis(start, end)
    ensures Sum(durations) <= elapsedMs
    ensures marks != [] ==> (end - marks[0].at) * 1000.0 < (Sum(durations) + |marks|) as real
  {
    var clock := new PhaseClock(start);
    for k := 0 to |marks|
      invariant clock.Valid() && clock.runStarted == start && clock.View() == AfterMarks(marks[..k])
      invariant clock.latest == if k == 0 then start else marks[k - 1].at
    {
      assert marks[..k + 1][..k] == marks[..k];
      clock.SetPhase(marks[k].phase, marks[k].at);
    }
    assert marks[..|marks|] == marks;
    clock.FinishTiming(end);
    PhasesLoseLittle(start, marks, end);
    durations, elapsedMs := clock.durations, clock.elapsedMs;
  }
}
