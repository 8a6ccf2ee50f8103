/** The record of a create-collection job: the worker, its progress callback and the cancel route
    update it under one lock, and every interleaving of those sections is a run. */
module CollectionJob {

  datatype Status = Running | Success | Cancelled | Failed

  /** Where the worker is. `stopped` is what indexing reports in `stats["cancelled"]`. */
  datatype Pc =
    | Indexing(stopped: bool)
    | Returned(stopped: bool)
    | Decided(stopped: bool, cancelled: bool)
    | Logged(stopped: bool, cancelled: bool)
    | Raised
    | Done

  /** The job dict, the worker, how often collection metadata was written, and whether a cancel
      was acknowledged. */
  datatype State = State(
    status: Status, cancelRequested: bool, cancelledField: bool, phase: string,
    processed: nat, total: nat, pc: Pc, metaWrites: nat, acknowledged: bool)

  datatype Action =
    | CancelRoute
    | Poll
    | Progress(shown: nat, shownPhase: string)
    | Return
    | Decide
    | WriteLog
    | WriteMeta
    | Raise
    | Fail

  /** What the cancel route answers. */
  datatype Answer = Answer(status: Status, cancelRequested: bool)

  function Initial(total: nat): State {
    State(Running, false, false, "", 0, total, Indexing(false), 0, false)
  }

  predicate Enabled(s: State, a: Action) {
    match a
    case CancelRoute => true
    case Poll => s.pc.Indexing?
    case Progress(_, _) => s.pc.Indexing?
    case Return => s.pc.Indexing?
    case Decide => s.pc.Returned?
    case WriteLog => s.pc.Decided?
    case WriteMeta => s.pc.Logged?
    // Errors while metadata is written are suppressed, so they cannot fail the job.
    case Raise => s.pc.Indexing? || s.pc.Decided?
    case Fail => s.pc.Raised?
  }

  function Reply(s: State): Answer {
    if s.status != Running then Answer(s.status, s.cancelRequested) else Answer(Running, true)
  }

  function Do(s: State, a: Action): State
    requires Enabled(s, a)
  {
    match a
    case CancelRoute =>
      if s.status != Running then s
      else s.(cancelRequested := true, phase := "cancelling", acknowledged := true)
    case Poll => s.(pc := Indexing(s.pc.stopped || s.cancelRequested))
    case Progress(shown, shownPhase) => s.(processed := shown, phase := shownPhase, cancelledField := s.pc.stopped)
    case Return => s.(pc := Returned(s.pc.stopped))
    case Decide =>
      var cancelled := s.pc.stopped || s.cancelRequested;
      s.(status := if cancelled then Cancelled else Success,
         processed := if cancelled then s.processed else s.total,
         phase := if cancelled then "cancelled" else "complete",
         cancelledField := cancelled,
         pc := Decided(s.pc.stopped, cancelled))
    case WriteLog => s.(pc := Logged(s.pc.stopped, s.pc.cancelled))
    case WriteMeta =>
      s.(metaWrites := s.metaWrites + (if !s.pc.cancelled && !s.pc.stopped then 1 else 0), pc := Done)
    case Raise => s.(pc := Pc.Raised)
    case Fail => s.(status := Failed, pc := Done)
  }

  /** What the record shows once the job is decided. */
  ghost predicate Shows(s: State) {
    && (s.status == Success ==> s.processed == s.total && s.phase == "complete" && !s.cancelledField)
    && (s.status == Cancelled ==> s.phase == "cancelled" && s.cancelledField && s.cancelRequested)
  }

  /** The invariant that links the worker with the record. */
  ghost predicate Inv(s: State) {
    && Shows(s)
    && (s.acknowledged <==> s.cancelRequested)
    && (s.status == Success ==> !s.cancelRequested && !s.acknowledged)
    && match s.pc
       case Indexing(stopped) => s.status == Running && s.metaWrites == 0 && (stopped ==> s.cancelRequested)
       case Returned(stopped) => s.status == Running && s.metaWrites == 0 && (stopped ==> s.cancelRequested)
       case Decided(stopped, cancelled) =>
         s.status == (if cancelled then Cancelled else Success) && s.metaWrites == 0 && (stopped ==> cancelled)
       case Logged(stopped, cancelled) =>
         s.status == (if cancelled then Cancelled else Success) && s.metaWrites == 0 && (stopped ==> cancelled)
       case Raised => s.status != Failed && s.metaWrites == 0
       case Done => s.status != Running && s.metaWrites == if s.status == Success then 1 else 0
  }

  lemma StepKeepsInv(s: State, a: Action)
    requires Inv(s) && Enabled(s, a)
    ensures Inv(Do(s, a))
  {
  }

  ghost predicate IsRun(states: seq<State>, actions: seq<Action>, total: nat) {
    && |states| == |actions| + 1 && states[0] == Initial(total)
    && forall i :: 0 <= i < |actions| ==> Enabled(states[i], actions[i]) && states[i + 1] == Do(states[i], actions[i])
  }

  lemma {:induction false} EveryRunKeepsInv(states: seq<State>, actions: seq<Action>, total: nat, k: nat)
    requires IsRun(states, actions, total) && k < |states|
    ensures Inv(states[k])
  {
    if k > 0 {
      EveryRunKeepsInv(states, actions, total, k - 1);
      StepKeepsInv(states[k - 1], actions[k - 1]);
    }
  }

  /** What was requested stays requested, and what was decided is never undone into running. */
  lemma {:induction false} RunsAreMonotone(states: seq<State>, actions: seq<Action>, total: nat, j: nat, k: nat)
    requires IsRun(states, actions, total) && j <= k < |states|
    ensures states[j].cancelRequested ==> states[k].cancelRequested
    ensures states[j].acknowledged ==> states[k].acknowledged
    ensures states[j].status != Running ==> states[k].status != Running
    decreases k - j
  {
    hide Inv, Do, Enabled;
    if j < k {
      RunsAreMonotone(states, actions, total, j, k - 1);
      EveryRunKeepsInv(states, actions, total, k - 1);
      RunStep(states, actions, total, k - 1);
      StepIsMonotone(states[k - 1], actions[k - 1]);
    }
  }

  lemma RunStep(states: seq<State>, actions: seq<Action>, total: nat, k: nat)
    requires IsRun(states, actions, total) && k < |actions|
    ensures Enabled(states[k], actions[k]) && states[k + 1] == Do(states[k], actions[k])
  {
  }

  lemma StepIsMonotone(s: State, a: Action)
    requires Inv(s) && Enabled(s, a)
    ensures s.cancelRequested ==> Do(s, a).cancelRequested
    ensures s.acknowledged ==> Do(s, a).acknowledged
    ensures s.status != Running ==> Do(s, a).status != Running
  {
  }

  /** A progress report shows all that it was given, and whether the worker saw a cancel already. */
  lemma ProgressShows(s: State, shown: nat, phase: string)
    requires Enabled(s, Progress(shown, phase))
    ensures var t := Do(s, Progress(shown, phase));
            && t.processed == shown && t.phase == phase && (t.cancelledField <==> s.pc.stopped)
            && t.status == s.status && t.pc == s.pc && t.cancelRequested == s.cancelRequested
  {
  }

  /** The route answers with what the record shows once it has returned, and it takes every cancel that comes
      while the job runs. */
  lemma ReplyShowsTheRecord(s: State)
    ensures var t := Do(s, CancelRoute);
            && Reply(s) == Answer(t.status, t.cancelRequested)
            && (s.status == Running ==> t.cancelRequested && t.phase == "cancelling" && t.acknowledged)
            && t.status == s.status && t.pc == s.pc && t.processed == s.processed && t.metaWrites == s.metaWrites
  {
  }

  /** A cancel that the route acknowledged as running never ends in success: from then on the job
      is running, cancelled or failed, it has ended only as cancelled or failed, and no collection
      metadata is written. */
  lemma AcknowledgedCancelNeverSucceeds(states: seq<State>, actions: seq<Action>, total: nat, j: nat, k: nat)
    requires IsRun(states, actions, total) && j < |actions| && actions[j] == CancelRoute && j < k < |states|
    requires Reply(states[j]) == Answer(Running, true)
    ensures states[k].status != Success && states[k].cancelRequested && states[k].metaWrites == 0
    ensures states[k].pc == Done ==> states[k].status in {Cancelled, Failed}
  {
    EveryRunKeepsInv(states, actions, total, j);
    assert states[j + 1] == Do(states[j], CancelRoute);
    RunsAreMonotone(states, actions, total, j + 1, k);
    EveryRunKeepsInv(states, actions, total, k);
  }

  /** A cancel that comes after the decision changes nothing, and the answer says so: the status
      it reports is not running. */
  lemma LateCancelChangesNothing(states: seq<State>, actions: seq<Action>, total: nat, j: nat)
    requires IsRun(states, actions, total) && j < |actions| && actions[j] == CancelRoute
    ensures Reply(states[j]).status == Running <==> states[j].status == Running
    ensures states[j].status != Running ==> states[j + 1] == states[j] && Reply(states[j]).status == states[j].status
  {
    assert states[j + 1] == Do(states[j], CancelRoute);
  }

  /** Metadata is written only by a job that then stays successful and was never cancelled. */
  lemma MetadataMeansSuccess(states: seq<State>, actions: seq<Action>, total: nat, k: nat)
    requires IsRun(states, actions, total) && k < |states| && states[k].metaWrites > 0
    ensures states[k].metaWrites == 1 && states[k].status == Success && !states[k].cancelRequested
    ensures states[k].pc == Done
  {
    EveryRunKeepsInv(states, actions, total, k);
  }

  // --- How jobs end ---

  /** A cancel came while the job was running. */
  ghost predicate AskedInTime(states: seq<State>, actions: seq<Action>, k: nat)
    requires k <= |actions| < |states|
  {
    exists i :: 0 <= i < k && actions[i] == CancelRoute && states[i].status == Running
  }

  /** The number of pages that indexing showed last. */
  function LastShown(actions: seq<Action>): nat {
    if actions == [] then 0
    else
      var last := actions[|actions| - 1];
      if last.Progress? then last.shown else LastShown(actions[..|actions| - 1])
  }

  /** The phase that the record was given last, by indexing or by the cancel route. */
  function LastPhase(actions: seq<Action>): string {
    if actions == [] then ""
    else
      match actions[|actions| - 1]
      case Progress(_, phase) => phase
      case CancelRoute => "cancelling"
      case _ => LastPhase(actions[..|actions| - 1])
  }

  /** A poll of the worker found a request. */
  ghost predicate SawRequest(states: seq<State>, actions: seq<Action>, k: nat)
    requires k <= |actions| < |states|
  {
    exists i :: 0 <= i < k && actions[i] == Poll && states[i].cancelRequested
  }

  /** What a run leaves in the record, told from its actions. */
  ghost predicate Told(states: seq<State>, actions: seq<Action>, total: nat, k: nat)
    requires k <= |actions| < |states|
  {
    var s := states[k];
    && s.total == total
    && (s.cancelRequested <==> AskedInTime(states, actions, k))
    && (s.pc == Pc.Raised || s.status == Failed <==> Raise in actions[..k])
    && (s.status == Running || s.status == Cancelled ==> s.processed == LastShown(actions[..k]))
    && (s.status == Running ==> s.phase == LastPhase(actions[..k]))
    && (s.pc.Indexing? || s.pc.Returned? ==> (s.pc.stopped <==> SawRequest(states, actions, k)))
  }

  lemma {:induction false} RunsAreTold(states: seq<State>, actions: seq<Action>, total: nat, k: nat)
    requires IsRun(states, actions, total) && k < |states|
    ensures Told(states, actions, total, k)
  {
    if k > 0 {
      RunsAreTold(states, actions, total, k - 1);
      EveryRunKeepsInv(states, actions, total, k - 1);
      RunStep(states, actions, total, k - 1);
      assert actions[..k] == actions[..k - 1] + [actions[k - 1]];
      AskedOneMore(states, actions, k - 1);
      StepIsTold(states[k - 1], actions[k - 1], actions[..k - 1]);
    }
  }

  lemma AskedOneMore(states: seq<State>, actions: seq<Action>, k: nat)
    requires k < |actions| < |states|
    ensures AskedInTime(states, actions, k + 1) <==>
            AskedInTime(states, actions, k) || (actions[k] == CancelRoute && states[k].status == Running)
    ensures SawRequest(states, actions, k + 1) <==>
            SawRequest(states, actions, k) || (actions[k] == Poll && states[k].cancelRequested)
  {
  }

  lemma StepIsTold(s: State, a: Action, before: seq<Action>)
    requires Inv(s) && Enabled(s, a)
    requires s.status == Running || s.status == Cancelled ==> s.processed == LastShown(before)
    requires s.status == Running ==> s.phase == LastPhase(before)
    ensures var t := Do(s, a);
            && t.total == s.total
            && (t.cancelRequested <==> s.cancelRequested || (a == CancelRoute && s.status == Running))
            && (t.pc == Pc.Raised || t.status == Failed <==> s.pc == Pc.Raised || s.status == Failed || a == Raise)
            && (t.status == Running || t.status == Cancelled ==> t.processed == LastShown(before + [a]))
            && (t.status == Running ==> t.phase == LastPhase(before + [a]))
            && (t.pc.Indexing? || t.pc.Returned? ==>
                  (s.pc.Indexing? || s.pc.Returned?) &&
                  (t.pc.stopped <==> s.pc.stopped || (a == Poll && s.cancelRequested)))
  {
    assert (before + [a])[..|before|] == before;
  }

  /** How a job that is over ended: failed if and only if something was raised, else cancelled if and only
      if a cancel came in time, else successful, with its metadata written and all pages shown. */
  lemma HowJobsEnd(states: seq<State>, actions: seq<Action>, total: nat, k: nat)
    requires IsRun(states, actions, total) && k < |states| && states[k].pc == Done
    ensures var s := states[k];
            if Raise in actions[..k] then s.status == Failed && s.metaWrites == 0
            else if AskedInTime(states, actions, k) then
              && s.status == Cancelled && s.metaWrites == 0 && s.phase == "cancelled" && s.cancelledField
              && s.processed == LastShown(actions[..k])
            else
              && s.status == Success && s.metaWrites == 1 && s.phase == "complete" && !s.cancelledField
              && s.processed == total
  {
    RunsAreTold(states, actions, total, k);
    EveryRunKeepsInv(states, actions, total, k);
  }

  /** Each of these ends is the end of some run. A job can even fail after it was decided a success. */
  lemma JobsSucceed(total: nat) returns (states: seq<State>, actions: seq<Action>)
    ensures IsRun(states, actions, total) && states[|actions|].pc == Done && states[|actions|].status == Success
  {
    var start := Initial(total);
    var polled := Do(start, Poll);
    var shown := Do(polled, Progress(total, ""));
    var back := Do(shown, Return);
    var decided := Do(back, Decide);
    var logged := Do(decided, WriteLog);
    actions := [Poll, Progress(total, ""), Return, Decide, WriteLog, WriteMeta];
    states := [start, polled, shown, back, decided, logged, Do(logged, WriteMeta)];
  }

  lemma JobsAreCancelled(total: nat) returns (states: seq<State>, actions: seq<Action>)
    ensures IsRun(states, actions, total) && states[|actions|].pc == Done && states[|actions|].status == Cancelled
  {
    var start := Initial(total);
    var asked := Do(start, CancelRoute);
    var back := Do(asked, Return);
    var decided := Do(back, Decide);
    var logged := Do(decided, WriteLog);
    actions := [CancelRoute, Return, Decide, WriteLog, WriteMeta];
    states := [start, asked, back, decided, logged, Do(logged, WriteMeta)];
  }

  lemma JobsFail(total: nat) returns (states: seq<State>, actions: seq<Action>)
    ensures IsRun(states, actions, total) && states[|actions|].pc == Done && states[|actions|].status == Failed
    ensures exists k :: 0 <= k < |states| && states[k].status == Success
  {
    var start := Initial(total);
    var back := Do(start, Return);
    var decided := Do(back, Decide);
    var raised := Do(decided, Raise);
    actions := [Return, Decide, Raise, Fail];
    states := [start, back, decided, raised, Do(raised, Fail)];
    assert states[2].status == Success;
  }

  lemma JobsFailEarly(total: nat) returns (states: seq<State>, actions: seq<Action>)
    ensures IsRun(states, actions, total) && states[|actions|].pc == Done && states[|actions|].status == Failed
    ensures forall k :: 0 <= k < |states| ==> states[k].status in {Running, Failed}
  {
    var start := Initial(total);
    var polled := Do(start, Poll);
    var raised := Do(polled, Raise);
    actions := [Poll, Raise, Fail];
    states := [start, polled, raised, Do(raised, Fail)];
  }

  /** In particular a job that nobody cancels and in which nothing is raised succeeds. */
  lemma UndisturbedJobsSucceed(states: seq<State>, actions: seq<Action>, total: nat, k: nat)
    requires IsRun(states, actions, total) && k < |states| && states[k].pc == Done
    requires CancelRoute !in actions && Raise !in actions
    ensures states[k].status == Success && states[k].metaWrites == 1 && states[k].processed == total
    ensures states[k].phase == "complete" && !states[k].cancelledField
  {
    HowJobsEnd(states, actions, total, k);
    forall a | a in actions[..k] ensures a in actions {}
  }

  /** The job dict, updated in place by the sections that hold the lock. */
  class Job {
    var status: Status
    var cancelRequested: bool
    var cancelledField: bool
    var phase: string
    var processed: nat
    const total: nat
    ghost var pc: Pc
    ghost var metaWrites: nat
    ghost var acknowledged: bool

    ghost function View(): State
      reads this
    {
      State(status, cancelRequested, cancelledField, phase, processed, total, pc, metaWrites, acknowledged)
    }

    constructor (total: nat)
      ensures View() == Initial(total)
    {
      this.total := total;
      status, cancelRequested, cancelledField, phase, processed := Running, false, false, "", 0;
      pc, metaWrites, acknowledged := Indexing(false), 0, false;
    }

    /** `cancel_create_collection`. */
    method CancelCreateCollection() returns (answer: Answer)
      modifies this
      ensures View() == Do(old(View()), CancelRoute) && answer == Reply(old(View()))
    {
      if status != Running {
        return Answer(status, cancelRequested);
      }
      cancelRequested := true;
      phase := "cancelling";
      acknowledged := true;
      answer := Answer(Running, true);
    }

    /** `should_cancel`. */
    method ShouldCancel() returns (r: bool)
      requires pc.Indexing?
      modifies this`pc
      ensures r == cancelRequested && View() == Do(old(View()), Poll)
    {
      r := cancelRequested;
      pc := Indexing(pc.stopped || r);
    }

    /** `on_progress`, with what indexing reports. */
    method OnProgress(shown: nat, shownPhase: string, stopped: bool)
      requires pc == Indexing(stopped)
      modifies this
      ensures View() == Do(old(View()), Progress(shown, shownPhase))
    {
      processed := shown;
      phase := shownPhase;
      cancelledField := stopped;
    }

    /** The section that decides the final status. */
    method DecideStatus(stopped: bool) returns (cancelled: bool)
      requires pc == Returned(stopped)
      modifies this
      ensures View() == Do(old(View()), Decide) && cancelled == (stopped || old(cancelRequested))
    {
      cancelled := stopped || cancelRequested;
      status := if cancelled then Cancelled else Success;
      processed := if cancelled then processed else total;
      phase := if cancelled then "cancelled" else "complete";
      cancelledField := cancelled;
      pc := Decided(stopped, cancelled);
    }

    /** The section of the failure path. */
    method RecordFailure()
      requires pc == Raised
      modifies this
      ensures View() == Do(old(View()), Fail)
    {
      status := Failed;
      pc := Done;
    }
  }
}
