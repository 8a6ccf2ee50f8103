/** The idle-timer heartbeat: requests in flight keep one heartbeat thread alive, and every
    interleaving of requests and threads at the granularity of the lock sections is a run. */
module IdlePulse {

  /** Where a heartbeat thread is in its loop. A waiting thread that `Event.set` notified will see
      its wait succeed even if the event has been cleared again by then. */
  datatype Pc = AtTop | Waiting(notified: bool) | Checking | Pulsing | Exited

  /** `latePulses` counts the pulses made after the requests the thread served had all ended. */
  datatype Heartbeat = Heartbeat(generation: nat, pc: Pc, latePulses: nat)

  /** The token of one request: its `_done` flag is set before the count is decremented. */
  datatype Token = Open | Ending | Closed

  datatype State = State(inflight: int, generation: nat, stop: bool, beats: seq<Heartbeat>, tokens: seq<Token>)

  /** The atomic steps: the lock sections of a beginning request, of `_IdlePulseToken.end` and of
      `end_proxy_activity`, and the steps of a heartbeat thread. */
  datatype Action =
    | Begin
    | TokenEnd(token: nat)
    | Decrement(token: nat)
    | Enter(beat: nat)
    | TimeOut(beat: nat)
    | Wake(beat: nat)
    | Check(beat: nat)
    | Pulse(beat: nat)

  const INITIAL := State(0, 0, false, [], [])

  predicate Enabled(s: State, a: Action) {
    match a
    case Begin => true
    case TokenEnd(i) => i < |s.tokens|
    case Decrement(i) => i < |s.tokens| && s.tokens[i] == Ending
    case Enter(t) => t < |s.beats| && s.beats[t].pc == AtTop
    case TimeOut(t) => t < |s.beats| && s.beats[t].pc == Waiting(false)
    case Wake(t) => t < |s.beats| && s.beats[t].pc == Waiting(true)
    case Check(t) => t < |s.beats| && s.beats[t].pc == Checking
    case Pulse(t) => t < |s.beats| && s.beats[t].pc == Pulsing
  }

  /** `Event.set` wakes every thread that is waiting at that moment. */
  function Notify(beats: seq<Heartbeat>): (r: seq<Heartbeat>)
    ensures |r| == |beats|
  {
    seq(|beats|, i requires 0 <= i < |beats| =>
      if beats[i].pc.Waiting? then beats[i].(pc := Waiting(true)) else beats[i])
  }

  /** The requests that a thread was started for are over. */
  predicate Superseded(s: State, t: nat)
    requires t < |s.beats|
  {
    s.beats[t].generation != s.generation || s.inflight == 0
  }

  function Moved(s: State, t: nat, pc: Pc): State
    requires t < |s.beats|
  {
    s.(beats := s.beats[t := s.beats[t].(pc := pc)])
  }

  function Do(s: State, a: Action): State
    requires Enabled(s, a)
  {
    match a
    case Begin =>
      var counted := s.(inflight := s.inflight + 1, tokens := s.tokens + [Open]);
      if counted.inflight == 1 then
        counted.(stop := false, generation := s.generation + 1,
                 beats := s.beats + [Heartbeat(s.generation + 1, AtTop, 0)])
      else counted
    case TokenEnd(i) =>
      if s.tokens[i] == Open then s.(tokens := s.tokens[i := Ending]) else s
    case Decrement(i) =>
      var counted := s.(inflight := if s.inflight > 0 then s.inflight - 1 else s.inflight,
                        tokens := s.tokens[i := Closed]);
      if counted.inflight == 0 then counted.(stop := true, beats := Notify(s.beats)) else counted
    case Enter(t) => Moved(s, t, if s.stop then Exited else Waiting(false))
    case TimeOut(t) => Moved(s, t, Checking)
    case Wake(t) => Moved(s, t, Exited)
    case Check(t) => Moved(s, t, if Superseded(s, t) then Exited else Pulsing)
    case Pulse(t) =>
      var late := if Superseded(s, t) then 1 else 0;
      s.(beats := s.beats[t := Heartbeat(s.beats[t].generation, AtTop, s.beats[t].latePulses + late)])
  }

  /** How many tokens have not been decremented yet. */
  function Undecremented(tokens: seq<Token>): nat {
    if tokens == [] then 0
    else Undecremented(tokens[..|tokens| - 1]) + if tokens[|tokens| - 1] == Closed then 0 else 1
  }

  // --- The invariant ---

  /** The count is that of the tokens; generations number the threads. */
  ghost predicate Counted(s: State) {
    && s.inflight == Undecremented(s.tokens)
    && |s.beats| == s.generation
    && forall t :: 0 <= t < |s.beats| ==> s.beats[t].generation == t + 1
  }

  /** While requests are in flight the event is clear and the thread of the current generation is
      in its loop, un-notified; when none is left after some were, the event is set, and no thread is left
      waiting for a timeout. */
  ghost predicate Guarded(s: State) {
    if s.inflight > 0 then
      && !s.stop && s.generation > 0
      && |s.beats| == s.generation
      && s.beats[s.generation - 1].pc !in {Waiting(true), Exited}
    else
      && (s.stop <==> s.generation > 0)
      && forall t :: 0 <= t < |s.beats| ==> s.beats[t].pc != Waiting(false)
  }

  /** A thread whose requests are over pulses at most once more. */
  ghost predicate AtMostOneLatePulse(s: State) {
    forall t :: 0 <= t < |s.beats| ==>
      if Superseded(s, t) then s.beats[t].latePulses + (if s.beats[t].pc == Pulsing then 1 else 0) <= 1
      else s.beats[t].latePulses == 0
  }

  ghost predicate Inv(s: State) {
    Counted(s) && Guarded(s) && AtMostOneLatePulse(s)
  }

  lemma {:induction false} UndecrementedUpdate(tokens: seq<Token>, i: nat, token: Token)
    requires i < |tokens|
    ensures Undecremented(tokens[i := token]) ==
            Undecremented(tokens) - (if tokens[i] == Closed then 0 else 1) + (if token == Closed then 0 else 1)
  {
    var n := |tokens| - 1;
    if i < n {
      UndecrementedUpdate(tokens[..n], i, token);
      assert tokens[i := token][..n] == tokens[..n][i := token];
    } else {
      assert tokens[i := token][..n] == tokens[..n];
    }
  }

  /** The clamp at zero never acts: a token that still has to be decremented was counted. */
  lemma ClampNeverActs(s: State, i: nat)
    requires Inv(s) && Enabled(s, Decrement(i))
    ensures s.inflight > 0 && Do(s, Decrement(i)).inflight == s.inflight - 1
  {
    UndecrementedUpdate(s.tokens, i, Closed);
  }

  lemma BeginKeepsInv(s: State)
    requires Inv(s)
    ensures Inv(Do(s, Begin))
  {
    hide Undecremented;
    OneMoreOpen(s.tokens);
  }

  lemma OneMoreOpen(tokens: seq<Token>)
    ensures Undecremented(tokens + [Open]) == Undecremented(tokens) + 1
  {
    assert (tokens + [Open])[..|tokens|] == tokens;
  }

  lemma TokenEndKeepsInv(s: State, i: nat)
    requires Inv(s) && Enabled(s, TokenEnd(i))
    ensures Inv(Do(s, TokenEnd(i)))
  {
    UndecrementedUpdate(s.tokens, i, Ending);
  }

  lemma DecrementKeepsInv(s: State, i: nat)
    requires Inv(s) && Enabled(s, Decrement(i))
    ensures Inv(Do(s, Decrement(i)))
  {
    UndecrementedUpdate(s.tokens, i, Closed);
  }

  lemma BeatStepsKeepInv(s: State, a: Action)
    requires Inv(s) && Enabled(s, a) && !(a.Begin? || a.TokenEnd? || a.Decrement?)
    ensures Inv(Do(s, a))
  {
  }

  /** Every atomic step keeps the invariant. */
  lemma StepKeepsInv(s: State, a: Action)
    requires Inv(s) && Enabled(s, a)
    ensures Inv(Do(s, a))
  {
    hide Inv;
    match a
    case Begin => BeginKeepsInv(s);
    case TokenEnd(i) => TokenEndKeepsInv(s, i);
    case Decrement(i) => DecrementKeepsInv(s, i);
    case _ => BeatStepsKeepInv(s, a);
  }

  // --- All runs ---

  ghost predicate IsRun(states: seq<State>, actions: seq<Action>) {
    && |states| == |actions| + 1 && states[0] == INITIAL
    && forall i :: 0 <= i < |actions| ==> Enabled(states[i], actions[i]) && states[i + 1] == Do(states[i], actions[i])
  }

  /** In every state of every interleaving: the invariant holds. */
  lemma {:induction false} EveryRunIsSafe(states: seq<State>, actions: seq<Action>, k: nat)
    requires IsRun(states, actions) && k < |states|
    ensures Inv(states[k])
  {
    if k > 0 {
      EveryRunIsSafe(states, actions, k - 1);
      StepKeepsInv(states[k - 1], actions[k - 1]);
    }
  }

  /** What the invariant says while requests are in flight: exactly one thread of the current
      generation exists, it is in its loop, and nothing will wake it but its timeout. */
  lemma OneHeartbeatInFlight(states: seq<State>, actions: seq<Action>, k: nat)
    requires IsRun(states, actions) && k < |states| && states[k].inflight > 0
    ensures var s := states[k];
            && !s.stop
            && (exists t :: 0 <= t < |s.beats| && s.beats[t].generation == s.generation
                 && s.beats[t].pc !in {Waiting(true), Exited}
                 && forall u :: 0 <= u < |s.beats| && u != t ==> s.beats[u].generation != s.generation)
  {
    EveryRunIsSafe(states, actions, k);
    var s := states[k];
    assert s.beats[s.generation - 1].generation == s.generation;
  }

  /** The event reaches every thread: when nothing is in flight, a thread that still waits was notified, and
      all it can do is to wake and exit. */
  lemma NoneIsLeftWaiting(states: seq<State>, actions: seq<Action>, k: nat, t: nat)
    requires IsRun(states, actions) && k < |states| && states[k].inflight == 0
    requires t < |states[k].beats| && states[k].beats[t].pc.Waiting?
    ensures Enabled(states[k], Wake(t)) && !Enabled(states[k], TimeOut(t))
    ensures Do(states[k], Wake(t)).beats[t].pc == Exited
  {
    EveryRunIsSafe(states, actions, k);
  }

  /** Once superseded, always superseded. */
  lemma StaysSuperseded(s: State, a: Action, t: nat)
    requires Inv(s) && Enabled(s, a) && t < |s.beats| && Superseded(s, t)
    ensures t < |Do(s, a).beats| && Superseded(Do(s, a), t)
  {
    if a.Decrement? { ClampNeverActs(s, a.token); }
  }

  /** The pulses a thread can still make grow late by at most one over the rest of any run. */
  lemma LatePulsesAreBounded(states: seq<State>, actions: seq<Action>, k: nat, t: nat)
    requires IsRun(states, actions) && k < |states| && t < |states[k].beats|
    ensures states[k].beats[t].latePulses <= 1
  {
    EveryRunIsSafe(states, actions, k);
  }

  function StepsLeft(pc: Pc): nat {
    match pc
    case Pulsing => 4
    case AtTop => 3
    case Waiting(_) => 2
    case Checking => 1
    case Exited => 0
  }

  /** Every step of a superseded thread brings it closer to its exit. */
  lemma SupersededThreadsWindDown(s: State, a: Action, t: nat)
    requires Inv(s) && Enabled(s, a) && t < |s.beats| && Superseded(s, t)
    requires a in {Enter(t), TimeOut(t), Wake(t), Check(t), Pulse(t)}
    ensures StepsLeft(Do(s, a).beats[t].pc) < StepsLeft(s.beats[t].pc)
  {
  }

  // --- A current thread pulses ---

  /** A period of a thread whose requests are still in flight: it waits, sees the timeout, checks, pulses,
      and is back where it was. */
  lemma CurrentThreadsPulse(s: State, t: nat)
    requires Inv(s) && t < |s.beats| && !Superseded(s, t) && Enabled(s, Enter(t))
    ensures var waiting := Do(s, Enter(t));
            Enabled(waiting, TimeOut(t)) &&
            var woken := Do(waiting, TimeOut(t));
            Enabled(woken, Check(t)) &&
            var checked := Do(woken, Check(t));
            Enabled(checked, Pulse(t)) && Do(checked, Pulse(t)) == s
  {
    var checked := Do(Do(Do(s, Enter(t)), TimeOut(t)), Check(t));
    assert Do(checked, Pulse(t)).beats == s.beats;
  }

  /** The check lets every current thread go on to its pulse, and ends every other. */
  lemma CheckDecides(s: State, t: nat)
    requires Enabled(s, Check(t))
    ensures Enabled(Do(s, Check(t)), Pulse(t)) <==> !Superseded(s, t)
    ensures Superseded(s, t) <==> Do(s, Check(t)).beats[t].pc == Exited
  {
  }

  /** How often an action was taken. */
  function Times(actions: seq<Action>, a: Action): nat {
    if actions == [] then 0
    else Times(actions[..|actions| - 1], a) + if actions[|actions| - 1] == a then 1 else 0
  }

  /** The timeouts of a thread that its pulses have not answered yet. */
  function Unanswered(actions: seq<Action>, t: nat): int {
    Times(actions, TimeOut(t)) - Times(actions, Pulse(t))
  }

  /** Every timeout of a thread is answered by one pulse before the thread waits again; only a thread that
      leaves its loop may leave one unanswered. */
  lemma {:induction false} TimeoutsAreAnswered(states: seq<State>, actions: seq<Action>, k: nat, t: nat)
    requires IsRun(states, actions) && k < |states|
    ensures t >= |states[k].beats| ==> Unanswered(actions[..k], t) == 0
    ensures t < |states[k].beats| ==>
              match states[k].beats[t].pc
              case AtTop => Unanswered(actions[..k], t) == 0
              case Waiting(_) => Unanswered(actions[..k], t) == 0
              case Checking => Unanswered(actions[..k], t) == 1
              case Pulsing => Unanswered(actions[..k], t) == 1
              case Exited => 0 <= Unanswered(actions[..k], t) <= 1
  {
    if k > 0 {
      TimeoutsAreAnswered(states, actions, k - 1, t);
      OneMoreAction(actions, k - 1, TimeOut(t));
      OneMoreAction(actions, k - 1, Pulse(t));
      StepMoves(states[k - 1], actions[k - 1], t);
    }
  }

  lemma OneMoreAction(actions: seq<Action>, k: nat, a: Action)
    requires k < |actions|
    ensures Times(actions[..k + 1], a) == Times(actions[..k], a) + if actions[k] == a then 1 else 0
  {
    assert actions[..k + 1][..k] == actions[..k];
  }

  /** Where one step takes a thread. */
  lemma StepMoves(s: State, a: Action, t: nat)
    requires Enabled(s, a)
    ensures |s.beats| <= |Do(s, a).beats| <= |s.beats| + 1
    ensures t == |s.beats| < |Do(s, a).beats| ==> Do(s, a).beats[t].pc == AtTop && a == Begin
    ensures t < |s.beats| ==>
              match a
              case Enter(u) => u == t ==> s.beats[t].pc == AtTop && Do(s, a).beats[t].pc in {Exited, Waiting(false)}
              case TimeOut(u) => u == t ==> s.beats[t].pc.Waiting? && Do(s, a).beats[t].pc == Checking
              case Wake(u) => u == t ==> s.beats[t].pc.Waiting? && Do(s, a).beats[t].pc == Exited
              case Check(u) => u == t ==> s.beats[t].pc == Checking && Do(s, a).beats[t].pc in {Exited, Pulsing}
              case Pulse(u) => u == t ==> s.beats[t].pc == Pulsing && Do(s, a).beats[t].pc == AtTop
              case _ => SamePlace(s.beats[t].pc, Do(s, a).beats[t].pc)
    ensures t < |s.beats| && a !in {Enter(t), TimeOut(t), Wake(t), Check(t), Pulse(t)} ==>
              SamePlace(s.beats[t].pc, Do(s, a).beats[t].pc)
  {
  }

  predicate SamePlace(a: Pc, b: Pc) {
    a == b || (a.Waiting? && b.Waiting?)
  }

  /** A thread that is current never leaves its loop, so every timeout it had is answered by a pulse, but
      for one that it is just answering. */
  lemma CurrentThreadsAnswer(states: seq<State>, actions: seq<Action>, k: nat, t: nat)
    requires IsRun(states, actions) && k < |states| && t < |states[k].beats| && !Superseded(states[k], t)
    ensures Times(actions[..k], Pulse(t)) ==
            Times(actions[..k], TimeOut(t)) - if states[k].beats[t].pc in {Checking, Pulsing} then 1 else 0
  {
    EveryRunIsSafe(states, actions, k);
    TimeoutsAreAnswered(states, actions, k, t);
  }

  /** When every token has been closed, nothing is in flight and the event is set. */
  lemma AllClosedMeansStopped(states: seq<State>, actions: seq<Action>, k: nat)
    requires IsRun(states, actions) && k < |states|
    requires forall i :: 0 <= i < |states[k].tokens| ==> states[k].tokens[i] == Closed
    ensures states[k].inflight == 0 && (states[k].generation > 0 ==> states[k].stop)
  {
    EveryRunIsSafe(states, actions, k);
    NoneUndecremented(states[k].tokens);
  }

  lemma {:induction false} NoneUndecremented(tokens: seq<Token>)
    requires forall i :: 0 <= i < |tokens| ==> tokens[i] == Closed
    ensures Undecremented(tokens) == 0
  {
    if tokens != [] { NoneUndecremented(tokens[..|tokens| - 1]); }
  }

  // --- The module globals ---

  /** The globals that the lock protects, updated in place by the atomic steps. */
  class Globals {
    var inflight: int
    var generation: nat
    var stop: bool
    var beats: seq<Heartbeat>
    var tokens: seq<Token>

    ghost function View(): State
      reads this
    {
      State(inflight, generation, stop, beats, tokens)
    }

    constructor ()
      ensures View() == INITIAL
    {
      inflight, generation, stop, beats, tokens := 0, 0, false, [], [];
    }

    /** The lock section of `begin_proxy_activity`. */
    method BeginProxyActivity()
      requires Inv(View())
      modifies this
      ensures View() == Do(old(View()), Begin) && Inv(View())
    {
      hide Inv;
      StepKeepsInv(View(), Begin);
      tokens := tokens + [Open];
      inflight := inflight + 1;
      if inflight == 1 {
        stop := false;
        generation := generation + 1;
        beats := beats + [Heartbeat(generation, AtTop, 0)];
      }
    }

    /** `_IdlePulseToken.end`: only the first call goes on to decrement. */
    method EndToken(token: nat) returns (decrement: bool)
      requires Inv(View()) && token < |tokens|
      modifies this`tokens
      ensures View() == Do(old(View()), TokenEnd(token)) && Inv(View())
      ensures decrement <==> old(tokens[token]) == Open
      ensures tokens[token] != Open
    {
      StepKeepsInv(View(), TokenEnd(token));
      if tokens[token] != Open { return false; }
      tokens := tokens[token := Ending];
      decrement := true;
    }

    /** The lock section of `end_proxy_activity`, reached by the one call that may decrement. */
    method EndProxyActivity(token: nat)
      requires Inv(View()) && token < |tokens| && tokens[token] == Ending
      modifies this
      ensures View() == Do(old(View()), Decrement(token)) && Inv(View())
      ensures inflight == old(inflight) - 1
    {
      StepKeepsInv(View(), Decrement(token));
      ClampNeverActs(View(), token);
      tokens := tokens[token := Closed];
      if inflight > 0 {
        inflight := inflight - 1;
      }
      if inflight == 0 {
        stop := true;
        beats := Notify(beats);
      }
    }

    /** One step of a thread in `_heartbeat_loop`. */
    method StepHeartbeat(action: Action) returns (pulsed: bool)
      requires Inv(View()) && Enabled(View(), action) && !(action.Begin? || action.TokenEnd? || action.Decrement?)
      modifies this`beats
      ensures View() == Do(old(View()), action) && Inv(View())
      ensures pulsed <==> action.Pulse?
    {
      StepKeepsInv(View(), action);
      pulsed := false;
      var t := action.beat;
      match beats[t].pc {
        case AtTop => beats := beats[t := beats[t].(pc := if stop then Exited else Waiting(false))];
        case Waiting(notified) => beats := beats[t := beats[t].(pc := if notified then Exited else Checking)];
        case Checking =>
          var over := beats[t].generation != generation || inflight == 0;
          beats := beats[t := beats[t].(pc := if over then Exited else Pulsing)];
        case Pulsing =>
          var late := if beats[t].generation != generation || inflight == 0 then 1 else 0;
          beats := beats[t := Heartbeat(beats[t].generation, AtTop, beats[t].latePulses + late)];
          pulsed := true;
      }
    }
  }
}
