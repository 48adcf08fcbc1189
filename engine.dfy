/** The stopwatch component's state machine: the `time` and `isRunning`
    state, the Start, Stop and Reset buttons, and the timer tick. */
module Engine {
  import opened ElapsedTime

  /** What can happen to the component: a button press, or the repeating
      timer firing (`Tick`). */
  datatype Command = Start | Stop | Reset | Tick

  /** The component's two pieces of state. */
  datatype State = State(time: Time, isRunning: bool)

  /** The state the component mounts with: zero time, not running. */
  const Initial := State(Zero, false)

  /** The effect of one command. Start and Stop only set the flag; Reset
      clears both; a tick advances the time only while running, since the
      timer exists only then. */
  function Step(s: State, c: Command): (s': State)
    ensures c == Start ==> s'.isRunning && s'.time == s.time
    ensures c == Stop ==> !s'.isRunning && s'.time == s.time
    ensures c == Reset ==> s' == Initial
    ensures c == Tick ==> s'.isRunning == s.isRunning
    ensures c == Tick && !s.isRunning ==> s' == s
    ensures c == Tick && s.isRunning ==> Total(s'.time) == Total(s.time) + 1
    ensures Normalised(s.time) ==> Normalised(s'.time)
  {
    match c
    case Start => s.(isRunning := true)
    case Stop => s.(isRunning := false)
    case Reset => Initial
    case Tick => if s.isRunning then s.(time := UpdateTime(s.time)) else s
  }

  /** The commands applied in order. */
  function Run(s: State, cmds: seq<Command>): State
    decreases |cmds|
  {
    if cmds == [] then s else Run(Step(s, cmds[0]), cmds[1..])
  }

  /** `n` timer ticks in a row. */
  function TickSeq(n: nat): (cmds: seq<Command>)
    ensures |cmds| == n && forall i :: 0 <= i < n ==> cmds[i] == Tick
  {
    if n == 0 then [] else TickSeq(n - 1) + [Tick]
  }

  lemma {:induction false} RunAppend(s: State, xs: seq<Command>, ys: seq<Command>)
    ensures Run(s, xs + ys) == Run(Run(s, xs), ys)
    decreases |xs|
  {
    if xs != [] {
      assert (xs + ys)[1..] == xs[1..] + ys;
      RunAppend(Step(s, xs[0]), xs[1..], ys);
    } else {
      assert xs + ys == ys;
    }
  }

  /** Every reachable state has a normalised time. */
  lemma {:induction false} RunKeepsNormalised(s: State, cmds: seq<Command>)
    requires Normalised(s.time)
    ensures Normalised(Run(s, cmds).time)
    decreases |cmds|
  {
    if cmds != [] {
      RunKeepsNormalised(Step(s, cmds[0]), cmds[1..]);
    }
  }

  /** Whatever happened before, a final Reset restores the initial state. */
  lemma ResetRestoresInitial(s: State, cmds: seq<Command>)
    ensures Run(s, cmds + [Reset]) == Initial
  {
    RunAppend(s, cmds, [Reset]);
  }

  /** Start and Stop are idempotent and neither touches the time. */
  lemma StartStopIdempotent(s: State)
    ensures Step(Step(s, Start), Start) == Step(s, Start)
    ensures Step(Step(s, Stop), Stop) == Step(s, Stop)
    ensures Step(s, Start).time == s.time && Step(s, Stop).time == s.time
  {
  }

  /** While stopped, no number of ticks alters the state. */
  lemma {:induction false} StoppedTicksInert(s: State, n: nat)
    requires !s.isRunning
    ensures Run(s, TickSeq(n)) == s
  {
    if n > 0 {
      RunAppend(s, TickSeq(n - 1), [Tick]);
      StoppedTicksInert(s, n - 1);
    }
  }

  /** While running, `n` ticks advance the time by `n` tick steps. */
  lemma {:induction false} RunningTicks(s: State, n: nat)
    requires s.isRunning
    ensures Run(s, TickSeq(n)) == State(Ticks(s.time, n), true)
  {
    if n > 0 {
      RunAppend(s, TickSeq(n - 1), [Tick]);
      RunningTicks(s, n - 1);
    }
  }

  /** Stop then Start resumes from the preserved time, with no implicit reset. */
  lemma StopStartResumes(s: State, n: nat)
    ensures Run(s, [Stop, Start] + TickSeq(n)).time == Ticks(s.time, n)
  {
    RunAppend(s, [Stop, Start], TickSeq(n));
    assert Run(s, [Stop, Start]) == State(s.time, true);
    RunningTicks(State(s.time, true), n);
  }

  /** Pressing Start on a fresh stopwatch and letting `n` ticks pass shows
      exactly `n` hundredths. */
  lemma ElapsedFromInitial(n: nat)
    ensures Run(Initial, [Start] + TickSeq(n)).time == FromTotal(n)
  {
    RunAppend(Initial, [Start], TickSeq(n));
    assert Run(Initial, [Start]) == State(Zero, true);
    RunningTicks(State(Zero, true), n);
    TicksFromZero(n);
  }

  /** Without a Reset the elapsed total never goes down. */
  lemma {:induction false} TotalMonotone(s: State, cmds: seq<Command>)
    requires Reset !in cmds
    ensures Total(Run(s, cmds).time) >= Total(s.time)
    decreases |cmds|
  {
    if cmds != [] {
      assert Reset !in cmds[1..] by {
        assert forall c :: c in cmds[1..] ==> c in cmds;
      }
      TotalMonotone(Step(s, cmds[0]), cmds[1..]);
    }
  }

  /** The component itself: state updated in place by its handlers. */
  class StopWatch {
    var time: Time
    var isRunning: bool

    /** Every reachable time is normalised. */
    ghost predicate Valid()
      reads this
    {
      Normalised(time)
    }

    function Snapshot(): State
      reads this
    {
      State(time, isRunning)
    }

    /** `useState({hr: 0, min: 0, sec: 0, milisec: 0})` and `useState(false)`. */
    constructor ()
      ensures Valid() && Snapshot() == Initial
    {
      time := Zero;
      isRunning := false;
    }

    /** The Start button: `setIsRunning(true)`. */
    method Start()
      requires Valid()
      modifies this
      ensures Valid() && Snapshot() == Step(old(Snapshot()), Command.Start)
      ensures isRunning && time == old(time)
    {
      isRunning := true;
    }

    /** The Stop button: `setIsRunning(false)`. */
    method Stop()
      requires Valid()
      modifies this
      ensures Valid() && Snapshot() == Step(old(Snapshot()), Command.Stop)
      ensures !isRunning && time == old(time)
    {
      isRunning := false;
    }

    /** `handleReset`: stop and clear the time. */
    method Reset()
      modifies this
      ensures Valid() && Snapshot() == Step(old(Snapshot()), Command.Reset)
      ensures !isRunning && time == Zero
    {
      isRunning := false;
      time := Zero;
    }

    /** One firing of the repeating timer, `setTime(updateTime)`; the timer
        only exists while running, so when stopped nothing changes. */
    method Tick()
      requires Valid()
      modifies this
      ensures Valid() && Snapshot() == Step(old(Snapshot()), Command.Tick)
      ensures isRunning == old(isRunning)
      ensures time == if old(isRunning) then UpdateTime(old(time)) else old(time)
      ensures Total(time) == Total(old(time)) + (if old(isRunning) then 1 else 0)
    {
      if isRunning {
        time := UpdateTime(time);
      }
    }
  }

  /** Stop, Start and one tick on the object: the tick continues from the
      time that Stop preserved. */
  method StopStartTick(w: StopWatch)
    requires w.Valid()
    modifies w
    ensures w.Valid() && w.isRunning
    ensures w.time == UpdateTime(old(w.time))
    ensures Total(w.time) == Total(old(w.time)) + 1
  {
    w.Stop();
    w.Start();
    w.Tick();
  }
}
