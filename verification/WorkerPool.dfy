/** The worker's task loop: a semaphore bounds the running tasks, each message is answered after its task,
    and a shutdown signal drains the pool.  A state machine over the points where tasks interleave. */
module WorkerPool {
  import opened Basics

  /** One delivery of a message. */
  type Message = nat

  datatype Phase = Looping | Draining | Drained

  /** `held` is a message the loop has taken and is waiting to start.  A running task first gets a result, kept in
      `results`, then answers; `finished` are the messages whose task has given its permit back, and `answers`
      what was sent: true for an ack, false for a nak. */
  datatype State = State(
    free: nat, held: Option<Message>, running: set<Message>, results: map<Message, bool>, finished: set<Message>,
    answers: seq<(Message, bool)>, signalled: bool, phase: Phase)

  datatype Step =
    | Signal
    | TakeSignal
    | Receive(message: Message)
    | Garbled
    | Launch
    | Dispatch(message: Message, ok: bool)
    | Answer(message: Message, sent: bool)
    | Panic(message: Message)
    | AcquireAll

  function Init(capacity: nat): State
  {
    State(capacity, None, {}, map[], {}, [], false, Looping)
  }

  predicate Received(s: State, m: Message)
  {
    s.held == Some(m) || m in s.running || m in s.finished
  }

  /** The permits the drain asks for: the capacity cast to 32 bits. */
  function DrainPermits(capacity: nat): nat
  {
    capacity % 0x1_0000_0000
  }

  /** When a step can happen.  The loop looks at the signal before the stream, but not while it waits for a permit. */
  predicate Enabled(capacity: nat, s: State, step: Step)
  {
    match step
    case Signal => true
    case TakeSignal => s.phase.Looping? && s.held.None? && s.signalled
    case Receive(m) => s.phase.Looping? && s.held.None? && !s.signalled && !Received(s, m)
    case Garbled => s.phase.Looping? && s.held.None? && !s.signalled
    case Launch => s.held.Some? && 0 < s.free
    case Dispatch(m, _) => m in s.running && m !in s.results
    case Answer(m, _) => m in s.running && m in s.results
    case Panic(m) => m in s.running
    case AcquireAll => s.phase.Draining? && DrainPermits(capacity) <= s.free
  }

  function Ended(s: State, m: Message): State
  {
    s.(free := s.free + 1, running := s.running - {m}, results := s.results - {m}, finished := s.finished + {m})
  }

  function Next(s: State, step: Step): State
    requires step.Launch? ==> s.held.Some? && 0 < s.free
    requires step.Answer? ==> step.message in s.results
  {
    match step
    case Signal => s.(signalled := true)
    case TakeSignal => s.(phase := Draining)
    case Receive(m) => s.(held := Some(m))
    case Garbled => s
    case Launch => s.(free := s.free - 1, held := None, running := s.running + {s.held.value})
    case Dispatch(m, ok) => s.(results := s.results[m := ok])
    case Answer(m, sent) => if sent then Ended(s, m).(answers := s.answers + [(m, s.results[m])]) else Ended(s, m)
    case Panic(m) => Ended(s, m)
    case AcquireAll => s.(phase := Drained)
  }

  /** The most permits a semaphore can be made with. */
  const MAX_PERMITS: nat := 0x1FFF_FFFF_FFFF_FFFF

  /** The states of a run of the pool. */
  ghost predicate Run(capacity: nat, steps: seq<Step>, states: seq<State>)
  {
    && capacity <= MAX_PERMITS
    && |states| == |steps| + 1 && states[0] == Init(capacity)
    && forall i {:trigger steps[i]} | 0 <= i < |steps| :: Moves(capacity, states[i], steps[i], states[i + 1])
  }

  predicate Moves(capacity: nat, s: State, step: Step, s': State)
  {
    Enabled(capacity, s, step) && s' == Next(s, step)
  }

  /** Permits are conserved, every message is in one place, only finished messages are answered, and each
      at most once. */
  ghost predicate Inv(capacity: nat, s: State)
  {
    && s.free + |s.running| == capacity
    && s.running !! s.finished && s.results.Keys <= s.running
    && (s.held.Some? ==> s.held.value !in s.running && s.held.value !in s.finished && s.phase.Looping?)
    && (forall i | 0 <= i < |s.answers| :: s.answers[i].0 in s.finished)
    && (forall i, j | 0 <= i < j < |s.answers| :: s.answers[i].0 != s.answers[j].0)
  }

  lemma StepKeepsInv(capacity: nat, s: State, step: Step)
    requires Inv(capacity, s) && Enabled(capacity, s, step)
    ensures Inv(capacity, Next(s, step))
  {
  }

  lemma {:induction false} RunKeepsInv(capacity: nat, steps: seq<Step>, states: seq<State>, n: nat)
    requires Run(capacity, steps, states) && n <= |steps|
    ensures Inv(capacity, states[n])
  {
    if 0 < n {
      RunKeepsInv(capacity, steps, states, n - 1);
      assert Moves(capacity, states[n - 1], steps[n - 1], states[n]);
      StepKeepsInv(capacity, states[n - 1], steps[n - 1]);
    }
  }

  /** Never more tasks than permits, and no message answered twice. */
  lemma BoundedAndAnsweredOnce(capacity: nat, steps: seq<Step>, states: seq<State>, n: nat)
    requires Run(capacity, steps, states) && n <= |steps|
    ensures |states[n].running| <= capacity
    ensures forall i, j | 0 <= i < j < |states[n].answers| :: states[n].answers[i].0 != states[n].answers[j].0
  {
    RunKeepsInv(capacity, steps, states, n);
  }

  /** The task of a message got this result in one of the first `n` steps. */
  ghost predicate Resulted(steps: seq<Step>, n: nat, m: Message, ok: bool)
    requires n <= |steps|
  {
    exists i | 0 <= i < n :: steps[i] == Dispatch(m, ok)
  }

  /** It was answered in one of the first `n` steps, after getting this result. */
  ghost predicate AnsweredAfter(steps: seq<Step>, n: nat, m: Message, ok: bool)
    requires n <= |steps|
  {
    exists j | 0 <= j < n :: steps[j] == Answer(m, true) && Resulted(steps, j, m, ok)
  }

  lemma ResultedStep(steps: seq<Step>, n: nat, m: Message, ok: bool)
    requires n < |steps|
    ensures Resulted(steps, n + 1, m, ok) <==> Resulted(steps, n, m, ok) || steps[n] == Dispatch(m, ok)
  {
  }

  lemma AnsweredStep(steps: seq<Step>, n: nat, m: Message, ok: bool)
    requires n < |steps|
    ensures AnsweredAfter(steps, n + 1, m, ok) <==>
            AnsweredAfter(steps, n, m, ok) || (steps[n] == Answer(m, true) && Resulted(steps, n, m, ok))
  {
  }

  /** A task keeps the one result it got. */
  lemma {:induction false} ResultsAreKept(capacity: nat, steps: seq<Step>, states: seq<State>, n: nat, m: Message,
                                          ok: bool)
    requires Run(capacity, steps, states) && n <= |steps|
    ensures m in states[n].results && states[n].results[m] == ok ==> Resulted(steps, n, m, ok)
    ensures Resulted(steps, n, m, ok) && m in states[n].results ==> states[n].results[m] == ok
    ensures Resulted(steps, n, m, ok) ==> m in states[n].results || m in states[n].finished
  {
    if 0 < n {
      ResultsAreKept(capacity, steps, states, n - 1, m, ok);
      RunKeepsInv(capacity, steps, states, n - 1);
      ResultedStep(steps, n - 1, m, ok);
      assert Moves(capacity, states[n - 1], steps[n - 1], states[n]);
    }
  }

  /** A message is acked exactly if its task had succeeded when it answered, and naked exactly if it had failed. */
  lemma {:induction false} AnswersAreTrue(capacity: nat, steps: seq<Step>, states: seq<State>, n: nat, m: Message,
                                          ok: bool)
    requires Run(capacity, steps, states) && n <= |steps|
    ensures (m, ok) in states[n].answers <==> AnsweredAfter(steps, n, m, ok)
  {
    if 0 < n {
      AnswersAreTrue(capacity, steps, states, n - 1, m, ok);
      AnsweredStep(steps, n - 1, m, ok);
      ResultsAreKept(capacity, steps, states, n - 1, m, ok);
      assert Moves(capacity, states[n - 1], steps[n - 1], states[n]);
      AnswersGrow(states[n - 1], steps[n - 1], states[n], (m, ok));
    }
  }

  lemma {:induction false} AnswersGrow(s: State, step: Step, s': State, x: (Message, bool))
    requires (step.Launch? ==> s.held.Some? && 0 < s.free) && (step.Answer? ==>
             step.message in s.results) && s' == Next(s, step)
    ensures x in s'.answers <==>
            x in s.answers || (step == Answer(x.0, true) && s.results[x.0] == x.1)
  {
    if step.Answer? && step.sent {
      assert s'.answers == s.answers + [(step.message, s.results[step.message])];
    }
  }

  // ---- Messages ----

  lemma ReceivedStays(capacity: nat, s: State, step: Step, m: Message)
    requires Inv(capacity, s) && Enabled(capacity, s, step)
    ensures Received(Next(s, step), m) <==> Received(s, m) || step == Receive(m)
  {
  }

  /** The message was received in one of the first `n` steps. */
  ghost predicate Came(steps: seq<Step>, n: nat, m: Message)
    requires n <= |steps|
  {
    exists i | 0 <= i < n :: steps[i] == Receive(m)
  }

  lemma CameStep(steps: seq<Step>, n: nat, m: Message)
    requires n < |steps|
    ensures Came(steps, n + 1, m) <==> Came(steps, n, m) || steps[n] == Receive(m)
  {
  }

  /** Nothing received is lost track of: it waits, runs or has finished, and nothing else does. */
  lemma {:induction false} MessagesAreConserved(capacity: nat, steps: seq<Step>, states: seq<State>, n: nat, m: Message)
    requires Run(capacity, steps, states) && n <= |steps|
    ensures Received(states[n], m) <==> Came(steps, n, m)
  {
    if 0 < n {
      MessagesAreConserved(capacity, steps, states, n - 1, m);
      CameStep(steps, n - 1, m);
      RunKeepsInv(capacity, steps, states, n - 1);
      assert Moves(capacity, states[n - 1], steps[n - 1], states[n]);
      ReceivedStays(capacity, states[n - 1], steps[n - 1], m);
    }
  }

  // ---- Shutdown ----

  /** Once the loop has taken the signal no task starts any more. */
  lemma {:induction false} NothingStartsAfterSignal(capacity: nat, steps: seq<Step>, states: seq<State>, k: nat, n: nat)
    requires Run(capacity, steps, states) && k <= n <= |steps| && !states[k].phase.Looping?
    ensures !states[n].phase.Looping? && states[n].running <= states[k].running
    ensures forall i | k <= i < n :: !steps[i].Launch? && !steps[i].Receive?
  {
    if k < n {
      NothingStartsAfterSignal(capacity, steps, states, k, n - 1);
      RunKeepsInv(capacity, steps, states, n - 1);
      assert Moves(capacity, states[n - 1], steps[n - 1], states[n]);
    }
  }

  /** A pool that drains waits for exactly its running tasks: each end brings it one closer, nothing else
      changes the count, and with none left it can finish. */
  lemma {:induction false} DrainMakesProgress(capacity: nat, s: State, step: Step)
    requires Inv(capacity, s) && s.phase.Draining? && Enabled(capacity, s, step)
    ensures var s' := Next(s, step);
            if step.Answer? || step.Panic? then |s'.running| == |s.running| - 1 else s'.running == s.running
    ensures s.running == {} ==> Enabled(capacity, s, AcquireAll)
  {
    if s.running == {} {
      TruncationShrinks(capacity);
    }
  }

  lemma TruncationShrinks(capacity: nat)
    ensures DrainPermits(capacity) <= capacity
    ensures DrainPermits(capacity) == capacity <==> capacity < 0x1_0000_0000
    ensures 0x1_0000_0000 <= capacity ==> DrainPermits(capacity) <= capacity - 0x1_0000_0000
  {
  }

  lemma {:induction false} DrainedHasPermits(capacity: nat, steps: seq<Step>, states: seq<State>, n: nat)
    requires Run(capacity, steps, states) && n <= |steps| && states[n].phase.Drained?
    ensures DrainPermits(capacity) <= states[n].free
  {
    if 0 < n {
      RunKeepsInv(capacity, steps, states, n - 1);
      RunKeepsInv(capacity, steps, states, n);
      assert Moves(capacity, states[n - 1], steps[n - 1], states[n]);
      if states[n - 1].phase.Drained? {
        DrainedHasPermits(capacity, steps, states, n - 1);
      }
    }
  }

  /** When the pool reports itself drained no task is running and none is waiting, and every message received
      has finished, provided the capacity fits in 32 bits. */
  lemma DrainedIsIdle(capacity: nat, steps: seq<Step>, states: seq<State>, n: nat, m: Message)
    requires Run(capacity, steps, states) && n <= |steps| && states[n].phase.Drained? && capacity < 0x1_0000_0000
    ensures states[n].running == {} && states[n].held.None?
    ensures m in states[n].finished <==> Came(steps, n, m)
  {
    RunKeepsInv(capacity, steps, states, n);
    DrainedHasPermits(capacity, steps, states, n);
    TruncationShrinks(capacity);
    assert |states[n].running| == 0;
    MessagesAreConserved(capacity, steps, states, n, m);
  }

  /** A larger capacity breaks this: a run that reports itself drained with a task still running. */
  lemma OversizedPoolDrainsEarly(capacity: nat) returns (steps: seq<Step>, states: seq<State>)
    requires 0x1_0000_0000 <= capacity <= MAX_PERMITS
    ensures Run(capacity, steps, states) && |steps| == 5
    ensures states[5].phase.Drained? && states[5].running == {7}
  {
    TruncationShrinks(capacity);
    steps := [Receive(7), Launch, Signal, TakeSignal, AcquireAll];
    var s1 := Next(Init(capacity), Receive(7));
    var s2 := Next(s1, Launch);
    var s3 := Next(s2, Signal);
    var s4 := Next(s3, TakeSignal);
    var s5 := Next(s4, AcquireAll);
    states := [Init(capacity), s1, s2, s3, s4, s5];
    assert s5.running == {7};
  }

  /** A pool of no permits never runs anything. */
  lemma {:induction false} EmptyPoolRunsNothing(steps: seq<Step>, states: seq<State>, n: nat)
    requires Run(0, steps, states) && n <= |steps|
    ensures states[n].running == {} && states[n].free == 0
  {
    RunKeepsInv(0, steps, states, n);
  }

  /** And once it has taken a message it waits for ever: nothing but signals can happen, and they go unheard. */
  lemma {:induction false} EmptyPoolHangs(steps: seq<Step>, states: seq<State>, k: nat, n: nat)
    requires Run(0, steps, states) && k <= n <= |steps| && states[k].held.Some?
    ensures states[n].held == states[k].held && states[n].phase.Looping?
    ensures forall i | k <= i < n :: steps[i] == Signal
  {
    RunKeepsInv(0, steps, states, k);
    if k < n {
      EmptyPoolHangs(steps, states, k, n - 1);
      EmptyPoolRunsNothing(steps, states, n - 1);
      assert Moves(0, states[n - 1], steps[n - 1], states[n]);
    }
  }

  // ---- A message that waits ----

  /** States along `steps` from `s`. */
  ghost predicate Continues(capacity: nat, s: State, steps: seq<Step>, states: seq<State>)
  {
    && |states| == |steps| + 1 && states[0] == s
    && forall i {:trigger steps[i]} | 0 <= i < |steps| :: Moves(capacity, states[i], steps[i], states[i + 1])
  }

  /** The waiting message can still be started. */
  ghost predicate CanLaunch(capacity: nat, s: State)
  {
    exists steps, states :: Continues(capacity, s, steps, states) && Launch in steps
  }

  /** With a task running that holds a permit, two steps of that task free one. */
  lemma {:induction false} TaskEnds(capacity: nat, s: State, m: Message) returns (steps: seq<Step>, states: seq<State>)
    requires Inv(capacity, s) && s.held.Some? && m in s.running
    ensures Continues(capacity, s, steps, states) && states[|steps|].held == s.held && 0 < states[|steps|].free
  {
    if m in s.results {
      steps, states := [Answer(m, true)], [s, Next(s, Answer(m, true))];
    } else {
      var mid := Next(s, Dispatch(m, true));
      steps, states := [Dispatch(m, true), Answer(m, true)], [s, mid, Next(mid, Answer(m, true))];
    }
  }

  lemma {:induction false} LaunchNext(capacity: nat, s: State, steps: seq<Step>, states: seq<State>)
    requires Continues(capacity, s, steps, states) && states[|steps|].held.Some? && 0 < states[|steps|].free
    ensures CanLaunch(capacity, s)
  {
    var last := states[|steps|];
    var more, further := steps + [Launch], states + [Next(last, Launch)];
    forall i | 0 <= i < |more|
      ensures Moves(capacity, further[i], more[i], further[i + 1])
    {
      assert i < |steps| ==> more[i] == steps[i];
    }
    assert more[|steps|] == Launch;
    assert Continues(capacity, s, more, further);
  }

  lemma {:induction false} EmptyPoolNeverLaunches(s: State, steps: seq<Step>, states: seq<State>, n: nat)
    requires Inv(0, s) && Continues(0, s, steps, states) && n <= |steps|
    ensures Inv(0, states[n]) && forall i | 0 <= i < n :: steps[i] != Launch
  {
    if 0 < n {
      EmptyPoolNeverLaunches(s, steps, states, n - 1);
      assert Moves(0, states[n - 1], steps[n - 1], states[n]);
      StepKeepsInv(0, states[n - 1], steps[n - 1]);
    }
  }

  /** In every reachable state a waiting message can still be started exactly when the pool has permits at all. */
  lemma {:induction false} WaitingCanLaunchIff(capacity: nat, steps: seq<Step>, states: seq<State>, n: nat)
    requires Run(capacity, steps, states) && n <= |steps| && states[n].held.Some?
    ensures CanLaunch(capacity, states[n]) <==> 0 < capacity
  {
    RunKeepsInv(capacity, steps, states, n);
    var s := states[n];
    if 0 < s.free {
      LaunchNext(capacity, s, [], [s]);
    } else if 0 < capacity {
      assert 0 < |s.running|;
      var m :| m in s.running;
      var more, further := TaskEnds(capacity, s, m);
      LaunchNext(capacity, s, more, further);
    } else if CanLaunch(capacity, s) {
      var more, further :| Continues(0, s, more, further) && Launch in more;
      EmptyPoolNeverLaunches(s, more, further, |more|);
    }
  }

  /** How many steps the running tasks still have before them. */
  function Pending(s: State): int
  {
    2 * |s.running| - |s.results|
  }

  function Others(steps: seq<Step>, n: nat): nat
    requires n <= |steps|
  {
    if n == 0 then 0 else Others(steps, n - 1) + if steps[n - 1] == Signal then 0 else 1
  }

  lemma {:induction false} EndedPending(s: State, m: Message)
    requires m in s.running
    ensures Pending(Ended(s, m)) == Pending(s) - if m in s.results then 1 else 2
  {
    assert (s.results - {m}).Keys == s.results.Keys - {m};
    assert |s.results.Keys| == |s.results| && |(s.results - {m}).Keys| == |s.results - {m}|;
  }

  lemma {:induction false} DispatchedPending(s: State, m: Message, ok: bool)
    requires m !in s.results
    ensures Pending(s.(results := s.results[m := ok])) == Pending(s) - 1
  {
    assert s.results[m := ok].Keys == s.results.Keys + {m};
    assert |s.results.Keys| == |s.results| && |s.results[m := ok].Keys| == |s.results[m := ok]|;
  }

  lemma {:induction false} WaitingStep(capacity: nat, s: State, step: Step)
    requires Inv(capacity, s) && s.held.Some? && Enabled(capacity, s, step) && step != Launch
    ensures var s' := Next(s, step);
            s'.held == s.held && Pending(s') <= Pending(s) - if step == Signal then 0 else 1
  {
    match step
    case Dispatch(m, ok) => DispatchedPending(s, m, ok);
    case Answer(m, _) => EndedPending(s, m);
    case Panic(m) => EndedPending(s, m);
    case _ =>
  }

  lemma {:induction false} ResultsFit(capacity: nat, s: State)
    requires Inv(capacity, s)
    ensures 0 <= Pending(s) <= 2 * capacity
  {
    SubsetSize(s.results.Keys, s.running);
    assert |s.results.Keys| == |s.results|;
  }

  lemma {:induction false} SubsetSize(a: set<Message>, b: set<Message>)
    requires a <= b
    ensures |a| <= |b|
  {
    assert |b - a| == |b| - |a|;
  }

  /** The message waits, in a sound pool, with at most this much before it. */
  ghost predicate Waits(capacity: nat, s: State, m: Message, pending: int)
  {
    Inv(capacity, s) && s.held == Some(m) && Pending(s) <= pending
  }

  lemma {:induction false} WaitsOn(capacity: nat, s: State, step: Step, t: State, m: Message, pending: int)
    requires Waits(capacity, s, m, pending) && Moves(capacity, s, step, t) && step != Launch
    ensures Waits(capacity, t, m, pending - if step == Signal then 0 else 1)
  {
    StepKeepsInv(capacity, s, step);
    WaitingStep(capacity, s, step);
  }

  /** Step `i` keeps what holds with measure `x`, using up one of it unless it is a signal. */
  predicate Consumes(ok: (State, int) -> bool, steps: seq<Step>, states: seq<State>, i: nat, x: int)
    requires i < |steps| < |states|
  {
    ok(states[i], x) ==> ok(states[i + 1], x - if steps[i] == Signal then 0 else 1)
  }

  lemma {:induction false} MeasuredRun(ok: (State, int) -> bool, steps: seq<Step>, states: seq<State>, n: nat,
                                       start: int)
    requires |states| == |steps| + 1 && n <= |steps| && ok(states[0], start)
    requires forall i, x | 0 <= i < n :: Consumes(ok, steps, states, i, x)
    ensures ok(states[n], start - Others(steps, n))
  {
    if 0 < n {
      MeasuredRun(ok, steps, states, n - 1, start);
      assert Consumes(ok, steps, states, n - 1, start - Others(steps, n - 1));
    }
  }

  /** And it does not wait for long: apart from signals, at most two steps for each running task come before its
      start. */
  lemma {:induction false} WaitIsBounded(capacity: nat, s: State, steps: seq<Step>, states: seq<State>, n: nat)
    requires Inv(capacity, s) && s.held.Some? && Continues(capacity, s, steps, states) && n <= |steps|
    requires forall i | 0 <= i < n :: steps[i] != Launch
    ensures states[n].held == s.held && Others(steps, n) <= Pending(s) <= 2 * capacity
  {
    var m := s.held.value;
    var ok := (t: State, x: int) => Waits(capacity, t, m, x);
    forall i, x | 0 <= i < n
      ensures Consumes(ok, steps, states, i, x)
    {
      if ok(states[i], x) {
        WaitsOn(capacity, states[i], steps[i], states[i + 1], m, x);
      }
    }
    MeasuredRun(ok, steps, states, n, Pending(s));
    ResultsFit(capacity, s);
    ResultsFit(capacity, states[n]);
  }

  // ---- The signal ----

  function Launches(steps: seq<Step>, k: nat, n: nat): nat
    requires k <= n <= |steps|
    decreases n
  {
    if k == n then 0 else Launches(steps, k, n - 1) + if steps[n - 1] == Launch then 1 else 0
  }

  /** Once the signal is there no message is received any more, and at most the one already taken is started. */
  lemma {:induction false} SignalStopsReceiving(capacity: nat, steps: seq<Step>, states: seq<State>, k: nat, n: nat)
    requires Run(capacity, steps, states) && k <= n <= |steps| && states[k].signalled
    ensures states[n].signalled && forall i | k <= i < n :: !steps[i].Receive?
    ensures Launches(steps, k, n) + (if states[n].held.Some? then 1 else 0) <= if states[k].held.Some? then 1 else 0
    decreases n
  {
    if k < n {
      SignalStopsReceiving(capacity, steps, states, k, n - 1);
      assert Moves(capacity, states[n - 1], steps[n - 1], states[n]);
    }
  }

  /** A pool knows of a signal exactly if there was one, and leaves its loop only then. */
  lemma {:induction false} LeavesOnlyOnSignal(capacity: nat, steps: seq<Step>, states: seq<State>, n: nat)
    requires Run(capacity, steps, states) && n <= |steps|
    ensures states[n].signalled <==> exists i | 0 <= i < n :: steps[i] == Signal
    ensures !states[n].phase.Looping? ==> states[n].signalled
  {
    if 0 < n {
      LeavesOnlyOnSignal(capacity, steps, states, n - 1);
      assert Moves(capacity, states[n - 1], steps[n - 1], states[n]);
    }
  }
}
