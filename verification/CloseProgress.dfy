/** Why the wait in Connection.close() ends (src_py/connection.py).

  While close() waits no call is admitted, so the calls in flight are a fixed sequence. Each waits for
  the engine, compiles, executes and leaves. The engine clears a pending interrupt when an execution
  starts, so one that arrives earlier is lost; close() therefore repeats it. An execution that is not
  interrupted may go on for as long as it likes.
 */
module CloseProgress {
  datatype Phase = Queued(compileSteps: nat) | Compiling(left: nat) | Executing | Leaving | Done

  datatype Calls = Calls(phases: seq<Phase>, interrupted: bool)

  predicate InEngine(p: Phase) {
    p.Compiling? || p.Executing?
  }

  predicate EngineFree(phases: seq<Phase>) {
    forall k :: 0 <= k < |phases| ==> !InEngine(phases[k])
  }

  predicate CanStep(s: Calls, k: nat) {
    k < |s.phases| && s.phases[k] != Done && (s.phases[k].Queued? ==> EngineFree(s.phases))
  }

  /** One step of call k. An uninterrupted execution ends only if it chooses to. */
  function Step(s: Calls, k: nat, finish: bool): Calls
    requires CanStep(s, k)
  {
    match s.phases[k]
    case Queued(n) => s.(phases := s.phases[k := Compiling(n)])
    case Compiling(n) =>
      if n > 0 then s.(phases := s.phases[k := Compiling(n - 1)])
      else Calls(s.phases[k := Executing], false)
    case Executing =>
      if s.interrupted || finish then s.(phases := s.phases[k := Leaving]) else s
    case Leaving => s.(phases := s.phases[k := Done])
  }

  /** At most one call compiles or executes. */
  ghost predicate OneInEngine(phases: seq<Phase>) {
    forall j, k :: 0 <= j < k < |phases| ==>
      !(phases[j].Compiling? || phases[j].Executing?) || !(phases[k].Compiling? || phases[k].Executing?)
  }

  lemma StepKeepsOneInEngine(s: Calls, k: nat, finish: bool)
    requires CanStep(s, k) && OneInEngine(s.phases)
    ensures OneInEngine(Step(s, k, finish).phases)
  {
  }

  function InFlight(phases: seq<Phase>): nat {
    if phases == [] then 0 else (if phases[0] == Done then 0 else 1) + InFlight(phases[1..])
  }

  ghost function PhaseWork(p: Phase): nat {
    match p
    case Queued(n) => n + 4
    case Compiling(n) => n + 3
    case Executing => 2
    case Leaving => 1
    case Done => 0
  }

  ghost function Work(phases: seq<Phase>): nat {
    if phases == [] then 0 else PhaseWork(phases[0]) + Work(phases[1..])
  }

  lemma {:induction false} WorkChange(phases: seq<Phase>, k: nat, p: Phase)
    requires k < |phases|
    ensures Work(phases[k := p]) == Work(phases) - PhaseWork(phases[k]) + PhaseWork(p)
  {
    if k == 0 {
      assert phases[k := p][1..] == phases[1..];
    } else {
      assert phases[k := p][1..] == phases[1..][k - 1 := p];
      WorkChange(phases[1..], k - 1, p);
    }
  }

  /** A step never undoes progress: it takes one off the work, unless it is an uninterrupted execution
      going on. */
  lemma StepReducesWork(s: Calls, k: nat, finish: bool)
    requires CanStep(s, k)
    ensures Work(Step(s, k, finish).phases) ==
            Work(s.phases) - if s.interrupted || finish || !s.phases[k].Executing? then 1 else 0
  {
    WorkChange(s.phases, k, Step(s, k, finish).phases[k]);
  }

  lemma {:induction false} NoneInFlight(phases: seq<Phase>)
    ensures InFlight(phases) == 0 <==> forall k :: 0 <= k < |phases| ==> phases[k] == Done
  {
    if phases != [] {
      NoneInFlight(phases[1..]);
      assert forall k :: 0 < k < |phases| ==> phases[k] == phases[1..][k - 1];
      assert forall k :: 0 <= k < |phases[1..]| ==> phases[1..][k] == phases[k + 1];
    }
  }

  lemma SomeCallCanStep(s: Calls)
    requires InFlight(s.phases) > 0
    ensures exists k :: CanStep(s, k)
  {
    NoneInFlight(s.phases);
    var k :| 0 <= k < |s.phases| && s.phases[k] != Done;
    if EngineFree(s.phases) {
      assert CanStep(s, k);
    } else {
      var j :| 0 <= j < |s.phases| && InEngine(s.phases[j]);
      assert CanStep(s, j);
    }
  }

  // ---------- Any schedule ----------

  /** A call that takes a step, if it can, and whether an uninterrupted execution ends with it. */
  datatype Move = Move(call: nat, finish: bool)

  /** The moves that the calls make after each interrupt, before the next one; there may be none. */
  type Schedule = nat -> seq<Move>

  function Moved(s: Calls, moves: seq<Move>): Calls {
    if moves == [] then s
    else
      var m, before := moves[|moves| - 1], Moved(s, moves[..|moves| - 1]);
      if CanStep(before, m.call) then Step(before, m.call, m.finish) else before
  }

  /** Some call takes a step. */
  predicate Stirs(s: Calls, moves: seq<Move>) {
    && moves != []
    && (Stirs(s, moves[..|moves| - 1]) || CanStep(Moved(s, moves[..|moves| - 1]), moves[|moves| - 1].call))
  }

  /** The calls after n rounds of an interrupt and the moves behind it. */
  function After(s: Calls, schedule: Schedule, n: nat): Calls {
    if n == 0 then s else Moved(After(s, schedule, n - 1).(interrupted := true), schedule(n - 1))
  }

  lemma {:induction false} MovesKeepOneInEngine(s: Calls, moves: seq<Move>)
    requires OneInEngine(s.phases)
    ensures OneInEngine(Moved(s, moves).phases)
  {
    if moves != [] {
      var front, m := moves[..|moves| - 1], moves[|moves| - 1];
      MovesKeepOneInEngine(s, front);
      if CanStep(Moved(s, front), m.call) {
        StepKeepsOneInEngine(Moved(s, front), m.call, m.finish);
      }
    }
  }

  /** Throughout the wait the calls use the engine one after the other. */
  lemma {:induction false} OneAfterTheOther(s: Calls, schedule: Schedule, n: nat)
    requires OneInEngine(s.phases)
    ensures OneInEngine(After(s, schedule, n).phases)
  {
    if n > 0 {
      OneAfterTheOther(s, schedule, n - 1);
      MovesKeepOneInEngine(After(s, schedule, n - 1).(interrupted := true), schedule(n - 1));
    }
  }

  predicate StirsIn(s: Calls, schedule: Schedule, n: nat) {
    Stirs(After(s, schedule, n).(interrupted := true), schedule(n))
  }

  /** How many of the first n rounds stir. */
  function Stirring(s: Calls, schedule: Schedule, n: nat): nat {
    if n == 0 then 0 else Stirring(s, schedule, n - 1) + if StirsIn(s, schedule, n - 1) then 1 else 0
  }

  lemma {:induction false} StirringCounts(s: Calls, schedule: Schedule, n: nat)
    ensures Stirring(s, schedule, n) == |set k: nat | k < n && StirsIn(s, schedule, k)|
  {
    hide StirsIn;
    if n > 0 {
      StirringCounts(s, schedule, n - 1);
      assert (set k: nat | k < n && StirsIn(s, schedule, k)) ==
             (set k: nat | k < n - 1 && StirsIn(s, schedule, k)) + if StirsIn(s, schedule, n - 1) then {n - 1} else {};
    }
  }

  lemma {:induction false} MovesReduceWork(s: Calls, moves: seq<Move>)
    ensures Work(Moved(s, moves).phases) <= Work(s.phases)
    ensures !Stirs(s, moves) ==> Moved(s, moves) == s
    ensures Stirs(s, moves) && s.interrupted ==> Work(Moved(s, moves).phases) < Work(s.phases)
  {
    if moves != [] {
      var front, m := moves[..|moves| - 1], moves[|moves| - 1];
      MovesReduceWork(s, front);
      if CanStep(Moved(s, front), m.call) {
        StepReducesWork(Moved(s, front), m.call, m.finish);
      }
    }
  }

  /** A round either stirs and leaves less work, or leaves all phases as they were. */
  lemma RoundReducesWork(s: Calls, schedule: Schedule, n: nat)
    ensures var before, after := After(s, schedule, n).phases, After(s, schedule, n + 1).phases;
            if StirsIn(s, schedule, n) then Work(after) < Work(before) else after == before
  {
    MovesReduceWork(After(s, schedule, n).(interrupted := true), schedule(n));
  }

  /** Whatever the schedule, the rounds in which some call takes a step are no more than the work there
      was. */
  lemma {:induction false} FewRoundsStir(s: Calls, schedule: Schedule, n: nat)
    ensures Stirring(s, schedule, n) + Work(After(s, schedule, n).phases) <= Work(s.phases)
  {
    hide Work, StirsIn, Moved;
    if n > 0 {
      FewRoundsStir(s, schedule, n - 1);
      RoundReducesWork(s, schedule, n - 1);
    }
  }

  /** Whenever calls are in flight, some call will take a step in this round or a later one. */
  ghost predicate KeepsStirring(s: Calls, schedule: Schedule) {
    forall n: nat :: InFlight(After(s, schedule, n).phases) != 0 ==> StirsLater(s, schedule, n)
  }

  ghost predicate StirsLater(s: Calls, schedule: Schedule, n: nat) {
    exists m: nat :: n <= m && StirsIn(s, schedule, m)
  }

  ghost predicate Ends(s: Calls, schedule: Schedule) {
    exists n: nat :: InFlight(After(s, schedule, n).phases) == 0
  }

  lemma {:induction false} IdleRounds(s: Calls, schedule: Schedule, n: nat, m: nat)
    requires n <= m && forall k: nat :: n <= k < m ==> !StirsIn(s, schedule, k)
    ensures After(s, schedule, m).phases == After(s, schedule, n).phases
  {
    if n < m {
      IdleRounds(s, schedule, n, m - 1);
      RoundReducesWork(s, schedule, m - 1);
    }
  }

  lemma {:induction false} DoneStaysDone(s: Calls, schedule: Schedule, n: nat, m: nat)
    requires n <= m && InFlight(After(s, schedule, n).phases) == 0
    ensures InFlight(After(s, schedule, m).phases) == 0
  {
    if n < m {
      DoneStaysDone(s, schedule, n, m - 1);
      var before := After(s, schedule, m - 1);
      NoneInFlight(before.phases);
      NoneCanMove(before.(interrupted := true), schedule(m - 1));
    }
  }

  lemma {:induction false} NoneCanMove(s: Calls, moves: seq<Move>)
    requires forall k :: 0 <= k < |s.phases| ==> s.phases[k] == Done
    ensures Moved(s, moves) == s
  {
    if moves != [] {
      NoneCanMove(s, moves[..|moves| - 1]);
    }
  }

  lemma NextStir(s: Calls, schedule: Schedule, n: nat) returns (m: nat)
    requires KeepsStirring(s, schedule) && InFlight(After(s, schedule, n).phases) != 0
    ensures n <= m && StirsIn(s, schedule, m)
  {
    hide After, StirsIn, InFlight;
    assert StirsLater(s, schedule, n);
    m :| n <= m && StirsIn(s, schedule, m);
  }

  lemma {:induction false} EndsFrom(s: Calls, schedule: Schedule, n: nat)
    requires KeepsStirring(s, schedule)
    ensures Ends(s, schedule)
    decreases Work(After(s, schedule, n).phases)
  {
    hide After, StirsIn, InFlight, Work;
    if InFlight(After(s, schedule, n).phases) != 0 {
      var m := NextStir(s, schedule, n);
      WorkNeverRises(s, schedule, n, m);
      RoundReducesWork(s, schedule, m);
      EndsFrom(s, schedule, m + 1);
    }
  }

  lemma {:induction false} WorkNeverRises(s: Calls, schedule: Schedule, n: nat, m: nat)
    requires n <= m
    ensures Work(After(s, schedule, m).phases) <= Work(After(s, schedule, n).phases)
  {
    hide After, StirsIn, Work;
    if n < m {
      WorkNeverRises(s, schedule, n, m - 1);
      RoundReducesWork(s, schedule, m - 1);
    }
  }

  /** The wait ends exactly if the calls in flight never come to rest for good. */
  lemma EndsIffKeepsStirring(s: Calls, schedule: Schedule)
    ensures Ends(s, schedule) <==> KeepsStirring(s, schedule)
  {
    if KeepsStirring(s, schedule) {
      EndsFrom(s, schedule, 0);
    }
    if Ends(s, schedule) {
      var end: nat :| InFlight(After(s, schedule, end).phases) == 0;
      forall n: nat | InFlight(After(s, schedule, n).phases) != 0 ensures StirsLater(s, schedule, n) {
        if end <= n {
          DoneStaysDone(s, schedule, end, n);
        } else if forall k: nat :: n <= k < end ==> !StirsIn(s, schedule, k) {
          IdleRounds(s, schedule, n, end);
        }
      }
    }
  }

  /** The wait loop of close(); `rounds` counts the interrupts. */
  method WaitForCalls(calls: seq<Phase>, schedule: Schedule) returns (rounds: nat, final: seq<Phase>)
    requires KeepsStirring(Calls(calls, false), schedule)
    ensures final == After(Calls(calls, false), schedule, rounds).phases
    ensures forall k :: 0 <= k < |final| ==> final[k] == Done
    ensures forall n: nat :: n < rounds ==> InFlight(After(Calls(calls, false), schedule, n).phases) != 0
    ensures Stirring(Calls(calls, false), schedule, rounds) <= Work(calls)
  {
    hide *;
    ghost var start := Calls(calls, false);
    var s := Calls(calls, false);
    AfterRounds(start, schedule, 0);
    rounds := 0;
    ghost var next: nat := 0;
    if InFlight(s.phases) != 0 {
      next := NextStir(start, schedule, 0);
    }
    while InFlight(s.phases) != 0
      invariant s == After(start, schedule, rounds)
      invariant InFlight(s.phases) != 0 ==> rounds <= next && StirsIn(start, schedule, next)
      invariant forall n: nat :: n < rounds ==> InFlight(After(start, schedule, n).phases) != 0
      decreases Work(s.phases), next - rounds
    {
      RoundReducesWork(start, schedule, rounds);
      AfterRounds(start, schedule, rounds);
      s := s.(interrupted := true);
      s := Moved(s, schedule(rounds));
      rounds := rounds + 1;
      if rounds > next && InFlight(s.phases) != 0 {
        next := NextStir(start, schedule, rounds);
      }
    }
    FewRoundsStir(start, schedule, rounds);
    NoneInFlight(s.phases);
    final := s.phases;
  }

  lemma AfterRounds(s: Calls, schedule: Schedule, n: nat)
    ensures After(s, schedule, 0) == s
    ensures After(s, schedule, n + 1) == Moved(After(s, schedule, n).(interrupted := true), schedule(n))
  {
  }

  ghost function StepMany(s: Calls, k: nat, n: nat): Calls
    decreases n
  {
    if n > 0 && CanStep(s, k) then StepMany(Step(s, k, false), k, n - 1) else s
  }

  lemma {:induction false} ExecutionGoesOn(s: Calls, k: nat, n: nat)
    requires k < |s.phases| && s.phases[k] == Executing && !s.interrupted
    ensures StepMany(s, k, n) == s
  {
    if n > 0 {
      ExecutionGoesOn(s, k, n - 1);
    }
  }

  /** Why the interrupt is repeated: one sent while a query compiles is lost, and the query can then
      run for any number of steps. */
  lemma OneInterruptIsLost(compileSteps: nat, n: nat)
    ensures StepMany(Calls([Compiling(compileSteps)], true), 0, compileSteps + 1 + n) == Calls([Executing], false)
    decreases compileSteps
  {
    var s := Calls([Compiling(compileSteps)], true);
    assert Step(s, 0, false).phases == [if compileSteps == 0 then Executing else Compiling(compileSteps - 1)];
    if compileSteps == 0 {
      ExecutionGoesOn(Calls([Executing], false), 0, n);
    } else {
      OneInterruptIsLost(compileSteps - 1, n);
    }
  }
}
