/** Running and cancelling calls on a pool of connections (src_py/async_connection.py). */
module AsyncPool {
  import opened Wrappers

  /** What the pool's lock protects: queued calls per connection, the call running on each connection,
      and which calls have been cancelled. */
  datatype Shared = Shared(counters: seq<int>, running: map<nat, nat>, cancelled: set<nat>)

  /** The first connection with the fewest calls. */
  ghost predicate IsLeastLoaded(counters: seq<int>, i: nat) {
    && i < |counters|
    && (forall j :: 0 <= j < |counters| ==> counters[i] <= counters[j])
    && (forall j :: 0 <= j < i ==> counters[i] < counters[j])
  }

  ghost function CountDown(n: int): int {
    if n - 1 < 0 then 0 else n - 1
  }

  /** Register a call as running on its connection, unless it was cancelled while it waited. */
  ghost function Registered(sh: Shared, conn: nat, call: nat): Shared {
    if call in sh.cancelled then sh else sh.(running := sh.running[conn := call])
  }

  ghost predicate RunsOn(sh: Shared, conn: nat, call: nat) {
    conn in sh.running && sh.running[conn] == call
  }

  class Pool {
    var counters: seq<int>
    var running: map<nat, nat>
    var cancelled: set<nat>

    ghost function View(): Shared
      reads this
    {
      Shared(counters, running, cancelled)
    }

    constructor (size: nat)
      ensures View() == Shared(seq(size, _ => 0), map[], {})
    {
      counters := seq(size, _ => 0);
      running := map[];
      cancelled := {};
    }

    method TakeLeastLoaded() returns (index: nat)
      requires counters != []
      modifies this`counters
      ensures IsLeastLoaded(old(counters), index)
      ensures counters == old(counters)[index := old(counters)[index] + 1]
    {
      index := 0;
      for j := 1 to |counters|
        invariant index < j
        invariant forall k :: 0 <= k < j ==> counters[index] <= counters[k]
        invariant forall k :: 0 <= k < index ==> counters[index] < counters[k]
      {
        if counters[j] < counters[index] {
          index := j;
        }
      }
      counters := counters[index := counters[index] + 1];
    }

    method Decrement(index: nat)
      requires index < |counters|
      modifies this`counters
      ensures counters == old(counters)[index := CountDown(old(counters)[index])]
    {
      counters := counters[index := counters[index] - 1];
      if counters[index] < 0 {
        counters := counters[index := 0];
      }
    }

    /** The start of a call's turn, with its connection's lock held. */
    method Register(conn: nat, call: nat) returns (skip: bool)
      modifies this`running
      ensures View() == Registered(old(View()), conn, call)
      ensures skip == (call in cancelled)
    {
      skip := call in cancelled;
      if !skip {
        running := running[conn := call];
      }
    }

    method Unregister(conn: nat)
      requires conn in running
      modifies this`running
      ensures View() == old(View()).(running := old(running) - {conn})
    {
      running := running - {conn};
    }

    /** One round of a cancellation; the connection is interrupted exactly if the call runs on it. */
    method Cancel(conn: nat, call: nat) returns (interrupts: bool)
      modifies this`cancelled
      ensures View() == old(View()).(cancelled := old(cancelled) + {call})
      ensures interrupts == RunsOn(old(View()), conn, call)
    {
      cancelled := cancelled + {call};
      interrupts := conn in running && running[conn] == call;
    }
  }

  // ---------- The interleavings ----------

  /** Waiting for its connection's lock; holding it; registered as running; unregistered but still
      holding the lock; done, with its counter still to be released; settled. */
  datatype Stage = Queued | Locked | Running | Finishing | Ended | Settled

  /** slot: the position of its connection in the pool, if it is one of the pool's. */
  datatype Call = Call(conn: nat, slot: Option<nat>, stage: Stage)

  /** An interrupt sent to a connection for a call. */
  datatype Interrupt = Interrupt(conn: nat, call: nat)

  /** started: calls whose function has run or runs. borrowed: how often each connection has been handed
      out for direct use and not returned. */
  datatype State = State(shared: Shared, calls: map<nat, Call>, locks: map<nat, nat>, started: set<nat>,
                         interrupts: seq<Interrupt>, borrowed: seq<nat>)

  datatype Step =
    | Submit(call: nat, conn: nat, slot: Option<nat>)
    | Lock(call: nat)
    | Register(call: nat)
    | Unregister(call: nat)
    | Unlock(call: nat)
    | DropQueued(call: nat)
    | Settle(call: nat)
    | Cancel(call: nat)
    | Borrow(index: nat)
    | Return(index: nat)

  ghost predicate At(s: State, call: nat, stage: Stage) {
    call in s.calls && s.calls[call].stage == stage
  }

  ghost predicate Enabled(s: State, step: Step) {
    match step
    case Submit(call, conn, slot) =>
      call !in s.calls && call !in s.shared.cancelled && (slot.Some? ==> slot.value < |s.shared.counters|)
    case Lock(call) => At(s, call, Queued) && s.calls[call].conn !in s.locks
    case Register(call) => At(s, call, Locked)
    case Unregister(call) => At(s, call, Running)
    case Unlock(call) => At(s, call, Finishing)
    case DropQueued(call) => At(s, call, Queued)
    case Settle(call) => At(s, call, Ended)
    case Cancel(call) => call in s.calls
    case Borrow(index) => index < |s.shared.counters| && IsLeastLoaded(s.shared.counters, index)
    case Return(index) => index < |s.shared.counters| == |s.borrowed|
  }

  ghost function Bump(sh: Shared, i: nat): Shared
    requires i < |sh.counters|
  {
    sh.(counters := sh.counters[i := sh.counters[i] + 1])
  }

  ghost function Drop(sh: Shared, i: nat): Shared
    requires i < |sh.counters|
  {
    sh.(counters := sh.counters[i := CountDown(sh.counters[i])])
  }

  ghost function SetStage(s: State, call: nat, stage: Stage): State
    requires call in s.calls
  {
    s.(calls := s.calls[call := s.calls[call].(stage := stage)])
  }

  ghost function Apply(s: State, step: Step): State
    requires Enabled(s, step)
  {
    match step
    case Submit(call, conn, slot) =>
      s.(calls := s.calls[call := Call(conn, slot, Queued)],
         shared := if slot.Some? then Bump(s.shared, slot.value) else s.shared)
    case Lock(call) => SetStage(s, call, Locked).(locks := s.locks[s.calls[call].conn := call])
    case Register(call) =>
      var s' := s.(shared := Registered(s.shared, s.calls[call].conn, call));
      if call in s.shared.cancelled then SetStage(s', call, Finishing)
      else SetStage(s', call, Running).(started := s.started + {call})
    case Unregister(call) =>
      SetStage(s, call, Finishing)
      .(shared := s.shared.(running := s.shared.running - {s.calls[call].conn}))
    case Unlock(call) => SetStage(s, call, Ended).(locks := s.locks - {s.calls[call].conn})
    case DropQueued(call) => SetStage(s, call, Ended)
    case Settle(call) =>
      var slot := s.calls[call].slot;
      SetStage(s, call, Settled)
      .(shared := if slot.Some? && slot.value < |s.shared.counters| then Drop(s.shared, slot.value) else s.shared)
    case Cancel(call) =>
      var conn := s.calls[call].conn;
      s.(shared := s.shared.(cancelled := s.shared.cancelled + {call}),
         interrupts := if RunsOn(s.shared, conn, call) then s.interrupts + [Interrupt(conn, call)] else s.interrupts)
    case Borrow(index) =>
      s.(shared := Bump(s.shared, index),
         borrowed := if index < |s.borrowed| then s.borrowed[index := s.borrowed[index] + 1] else s.borrowed)
    case Return(index) =>
      s.(shared := Drop(s.shared, index),
         borrowed := if s.borrowed[index] > 0 then s.borrowed[index := s.borrowed[index] - 1] else s.borrowed)
  }

  ghost predicate Init(s: State) {
    s.calls == map[] && s.locks == map[] && s.started == {} && s.interrupts == [] &&
    s.shared.running == map[] && s.shared.cancelled == {} && |s.shared.counters| == |s.borrowed| &&
    forall i :: 0 <= i < |s.borrowed| ==> s.shared.counters[i] == s.borrowed[i] == 0
  }

  ghost predicate IsRun(run: seq<State>, steps: seq<Step>) {
    && |run| == |steps| + 1 && Init(run[0])
    && forall k :: 0 <= k < |steps| ==> Enabled(run[k], steps[k]) && run[k + 1] == Apply(run[k], steps[k])
  }

  // ---------- The invariant ----------

  ghost predicate HoldsLock(stage: Stage) {
    stage == Locked || stage == Running || stage == Finishing
  }

  ghost predicate CallOk(s: State, call: nat, c: Call) {
    && (HoldsLock(c.stage) <==> c.conn in s.locks && s.locks[c.conn] == call)
    && (c.stage == Running <==> RunsOn(s.shared, c.conn, call))
    && (c.stage == Running ==> call in s.started)
    && (c.stage == Queued || c.stage == Locked ==> call !in s.started)
    && (c.slot.Some? ==> c.slot.value < |s.shared.counters|)
  }

  ghost predicate CallsOk(s: State) {
    && (forall call :: call in s.calls ==> CallOk(s, call, s.calls[call]))
    && (forall conn :: conn in s.locks ==> s.locks[conn] in s.calls && s.calls[s.locks[conn]].conn == conn)
    && (forall conn :: conn in s.shared.running ==>
            s.shared.running[conn] in s.calls && s.calls[s.shared.running[conn]].conn == conn)
    && (forall call :: call in s.started || call in s.shared.cancelled ==> call in s.calls)
  }

  /** The calls that a connection's counter stands for. */
  ghost function Unsettled(calls: map<nat, Call>, i: nat): set<nat> {
    set call | call in calls && calls[call].slot == Some(i) && calls[call].stage != Settled
  }

  ghost predicate Inv(s: State) {
    CallsOk(s) && |s.shared.counters| == |s.borrowed|
  }

  lemma LockKeepsCalls(s: State, call: nat)
    requires CallsOk(s) && Enabled(s, Lock(call))
    ensures CallsOk(Apply(s, Lock(call)))
  {
    var s' := Apply(s, Lock(call));
    assert CallOk(s, call, s.calls[call]);
    forall other | other in s'.calls ensures CallOk(s', other, s'.calls[other]) {
      assert CallOk(s, other, s.calls[other]);
    }
  }

  lemma RegisterKeepsCalls(s: State, call: nat)
    requires CallsOk(s) && Enabled(s, Register(call))
    ensures CallsOk(Apply(s, Register(call)))
  {
    var s' := Apply(s, Register(call));
    assert CallOk(s, call, s.calls[call]);
    forall other | other in s'.calls ensures CallOk(s', other, s'.calls[other]) {
      assert CallOk(s, other, s.calls[other]);
    }
  }

  lemma UnregisterKeepsCalls(s: State, call: nat)
    requires CallsOk(s) && Enabled(s, Unregister(call))
    ensures CallsOk(Apply(s, Unregister(call)))
  {
    var s' := Apply(s, Unregister(call));
    assert CallOk(s, call, s.calls[call]);
    forall other | other in s'.calls ensures CallOk(s', other, s'.calls[other]) {
      assert CallOk(s, other, s.calls[other]);
    }
  }

  lemma UnlockKeepsCalls(s: State, call: nat)
    requires CallsOk(s) && Enabled(s, Unlock(call))
    ensures CallsOk(Apply(s, Unlock(call)))
  {
    var s' := Apply(s, Unlock(call));
    assert CallOk(s, call, s.calls[call]);
    forall other | other in s'.calls ensures CallOk(s', other, s'.calls[other]) {
      assert CallOk(s, other, s.calls[other]);
    }
  }

  lemma OtherStepKeepsCalls(s: State, step: Step)
    requires CallsOk(s) && Enabled(s, step) && !step.Lock? && !step.Register? && !step.Unregister? && !step.Unlock?
    ensures CallsOk(Apply(s, step))
  {
    var s' := Apply(s, step);
    forall call | call in s'.calls ensures CallOk(s', call, s'.calls[call]) {
      assert call in s.calls ==> CallOk(s, call, s.calls[call]);
    }
  }

  lemma StepKeepsCalls(s: State, step: Step)
    requires CallsOk(s) && Enabled(s, step)
    ensures CallsOk(Apply(s, step))
  {
    match step
    case Lock(call) => LockKeepsCalls(s, call);
    case Register(call) => RegisterKeepsCalls(s, call);
    case Unregister(call) => UnregisterKeepsCalls(s, call);
    case Unlock(call) => UnlockKeepsCalls(s, call);
    case _ => OtherStepKeepsCalls(s, step);
  }

  lemma UnsettledChange(calls: map<nat, Call>, call: nat, c: Call, i: nat)
    ensures |Unsettled(calls[call := c], i)| ==
            |Unsettled(calls - {call}, i)| + (if c.slot == Some(i) && c.stage != Settled then 1 else 0)
  {
    var rest := Unsettled(calls - {call}, i);
    assert call !in rest;
    if c.slot == Some(i) && c.stage != Settled {
      assert Unsettled(calls[call := c], i) == rest + {call};
    } else {
      assert Unsettled(calls[call := c], i) == rest;
    }
  }

  lemma UnsettledSplit(calls: map<nat, Call>, call: nat, i: nat)
    requires call in calls
    ensures |Unsettled(calls, i)| ==
            |Unsettled(calls - {call}, i)|
              + (if calls[call].slot == Some(i) && calls[call].stage != Settled then 1 else 0)
  {
    UnsettledChange(calls, call, calls[call], i);
    assert calls[call := calls[call]] == calls;
  }

  lemma NewStage(calls: map<nat, Call>, call: nat, stage: Stage, i: nat)
    requires call in calls && calls[call].stage != Settled
    ensures |Unsettled(calls[call := calls[call].(stage := stage)], i)| ==
            |Unsettled(calls, i)| - (if calls[call].slot == Some(i) && stage == Settled then 1 else 0)
  {
    UnsettledChange(calls, call, calls[call].(stage := stage), i);
    UnsettledSplit(calls, call, i);
  }

  /** Each counter is the number of calls and loans of its connection that are not settled. */
  ghost predicate Exact(s: State) {
    && |s.shared.counters| == |s.borrowed|
    && forall i :: 0 <= i < |s.borrowed| ==> s.shared.counters[i] == |Unsettled(s.calls, i)| + s.borrowed[i]
  }

  /** A connection that is not on loan is returned while its counter stands for something else. */
  ghost predicate Surplus(s: State, step: Step) {
    && step.Return? && step.index < |s.borrowed| == |s.shared.counters|
    && s.borrowed[step.index] == 0 && s.shared.counters[step.index] != 0
  }

  lemma StepKeepsExact(s: State, step: Step)
    requires CallsOk(s) && Exact(s) && Enabled(s, step)
    ensures Exact(Apply(s, step)) <==> !Surplus(s, step)
  {
    var s' := Apply(s, step);
    if step.Submit? {
      forall i: nat ensures |Unsettled(s'.calls, i)| == |Unsettled(s.calls, i)|
          + (if step.slot == Some(i) then 1 else 0) {
        UnsettledChange(s.calls, step.call, s'.calls[step.call], i);
        assert s.calls - {step.call} == s.calls;
      }
    } else if step.Cancel? || step.Borrow? || step.Return? {
      assert Surplus(s, step) ==>
               s'.shared.counters[step.index] != |Unsettled(s'.calls, step.index)| + s'.borrowed[step.index];
    } else {
      assert CallOk(s, step.call, s.calls[step.call]);
      forall i: nat
        ensures |Unsettled(s'.calls, i)| ==
                |Unsettled(s.calls, i)| - (if step.Settle? && s.calls[step.call].slot == Some(i) then 1 else 0)
      {
        NewStage(s.calls, step.call, s'.calls[step.call].stage, i);
      }
    }
  }

  lemma {:induction false} RunsKeepInv(run: seq<State>, steps: seq<Step>, k: nat)
    requires IsRun(run, steps) && k < |run|
    ensures Inv(run[k])
  {
    if k > 0 {
      RunsKeepInv(run, steps, k - 1);
      StepKeepsCalls(run[k - 1], steps[k - 1]);
    }
  }

  // ---------- What cancellation promises ----------

  /** The interrupt is sent by a cancellation of its call, to the connection on which the function of
      that call is running and no other call is past the lock. */
  ghost predicate IsPrecise(s: State, step: Step, i: Interrupt) {
    && step == Cancel(i.call)
    && At(s, i.call, Running) && s.calls[i.call].conn == i.conn
    && forall other :: other in s.calls && other != i.call && s.calls[other].conn == i.conn ==>
         !HoldsLock(s.calls[other].stage)
  }

  /** A cancellation interrupts exactly the calls whose function is running, and nothing else does. */
  lemma StepIsPrecise(s: State, step: Step)
    requires CallsOk(s) && Enabled(s, step)
    ensures if step.Cancel? && At(s, step.call, Running)
            then Apply(s, step).interrupts == s.interrupts + [Interrupt(s.calls[step.call].conn, step.call)] &&
                 IsPrecise(s, step, Interrupt(s.calls[step.call].conn, step.call))
            else Apply(s, step).interrupts == s.interrupts
  {
    if step.Cancel? {
      assert CallOk(s, step.call, s.calls[step.call]);
      forall other | other in s.calls && other != step.call && s.calls[other].conn == s.calls[step.call].conn
        ensures At(s, step.call, Running) ==> !HoldsLock(s.calls[other].stage)
      {
        assert CallOk(s, other, s.calls[other]);
      }
    }
  }

  /** Every interrupt ever sent was precise when it was sent. */
  lemma {:induction false} InterruptsArePrecise(run: seq<State>, steps: seq<Step>, k: nat, j: nat)
    requires IsRun(run, steps) && k < |run| && j < |run[k].interrupts|
    ensures exists m :: 0 <= m < k && IsPrecise(run[m], steps[m], run[k].interrupts[j])
  {
    if k > 0 {
      RunsKeepInv(run, steps, k - 1);
      StepIsPrecise(run[k - 1], steps[k - 1]);
      if j < |run[k - 1].interrupts| {
        InterruptsArePrecise(run, steps, k - 1, j);
      }
    }
  }

  /** At most one call at a time is past its connection's lock, and the one that is registered as
      running on a connection is the one whose function runs there. */
  lemma OneRunningPerConnection(run: seq<State>, steps: seq<Step>, k: nat, x: nat, y: nat)
    requires IsRun(run, steps) && k < |run|
    requires x in run[k].calls && y in run[k].calls && run[k].calls[x].conn == run[k].calls[y].conn
    requires HoldsLock(run[k].calls[x].stage) && HoldsLock(run[k].calls[y].stage)
    ensures x == y
    ensures run[k].calls[x].stage == Running <==> RunsOn(run[k].shared, run[k].calls[x].conn, x)
  {
    RunsKeepInv(run, steps, k);
    assert CallOk(run[k], x, run[k].calls[x]);
    assert CallOk(run[k], y, run[k].calls[y]);
  }

  // ---------- Which calls run ----------

  /** When its turn comes a call is started and registered, unless it is cancelled. */
  lemma TurnRuns(s: State, call: nat)
    requires Enabled(s, Register(call))
    ensures var s' := Apply(s, Register(call));
            if call in s.shared.cancelled then
              At(s', call, Finishing) && s'.started == s.started && s'.shared == s.shared
            else
              At(s', call, Running) && s'.started == s.started + {call} && RunsOn(s'.shared, s.calls[call].conn, call)
  {
  }

  ghost predicate CancelledBefore(steps: seq<Step>, call: nat, k: nat)
    requires k <= |steps|
  {
    exists m :: 0 <= m < k && steps[m] == Cancel(call)
  }

  /** Exactly the calls that a cancellation has named are marked as cancelled. */
  lemma {:induction false} CancelledIff(run: seq<State>, steps: seq<Step>, k: nat, call: nat)
    requires IsRun(run, steps) && k < |run|
    ensures call in run[k].shared.cancelled <==> CancelledBefore(steps, call, k)
  {
    if k > 0 {
      CancelledIff(run, steps, k - 1, call);
      assert call in run[k].shared.cancelled <==>
               call in run[k - 1].shared.cancelled || steps[k - 1] == Cancel(call);
      assert CancelledBefore(steps, call, k) <==>
               CancelledBefore(steps, call, k - 1) || steps[k - 1] == Cancel(call);
    }
  }

  ghost predicate PastTurn(s: State, call: nat) {
    call in s.calls && s.calls[call].stage != Queued && s.calls[call].stage != Locked
  }

  /** The call has had its turn at m, and was started then exactly if it had not been cancelled. */
  ghost predicate TurnWas(steps: seq<Step>, started: bool, call: nat, m: nat)
    requires m < |steps|
  {
    steps[m] == Register(call) && (started <==> !CancelledBefore(steps, call, m))
  }

  ghost predicate HadTurn(run: seq<State>, steps: seq<Step>, k: nat, call: nat)
    requires k < |run| && |run| == |steps| + 1
  {
    exists m :: 0 <= m < k &&
      (TurnWas(steps, call in run[k].started, call, m) || (steps[m] == DropQueued(call) && call !in run[k].started))
  }

  lemma StartedOnceOnly(s: State, step: Step, call: nat)
    requires CallsOk(s) && Enabled(s, step) && PastTurn(s, call)
    ensures PastTurn(Apply(s, step), call) && (call in Apply(s, step).started <==> call in s.started)
  {
  }

  lemma TurnComes(s: State, step: Step, call: nat)
    requires CallsOk(s) && Enabled(s, step) && !PastTurn(s, call) && PastTurn(Apply(s, step), call)
    ensures step == Register(call) || step == DropQueued(call)
    ensures call in Apply(s, step).started <==> step == Register(call) && call !in s.shared.cancelled
  {
    assert CallOk(s, call, s.calls[call]);
  }

  /** Every call that is past its turn either had it, and then its function was started exactly if no
      cancellation had come before; or it was dropped from the queue. */
  lemma {:induction false} RunsUnlessCancelled(run: seq<State>, steps: seq<Step>, k: nat, call: nat)
    requires IsRun(run, steps) && k < |run| && PastTurn(run[k], call)
    ensures HadTurn(run, steps, k, call)
  {
    assert k > 0;
    RunsKeepInv(run, steps, k - 1);
    assert Enabled(run[k - 1], steps[k - 1]) && run[k] == Apply(run[k - 1], steps[k - 1]);
    if PastTurn(run[k - 1], call) {
      StartedOnceOnly(run[k - 1], steps[k - 1], call);
      hide *;
      RunsUnlessCancelled(run, steps, k - 1, call);
      HadTurnBefore(run, steps, k, call);
    } else {
      TurnComes(run[k - 1], steps[k - 1], call);
      CancelledIff(run, steps, k - 1, call);
      HasTurnNow(run, steps, k, call);
    }
  }

  lemma HadTurnBefore(run: seq<State>, steps: seq<Step>, k: nat, call: nat)
    requires |run| == |steps| + 1 && 0 < k < |run| && HadTurn(run, steps, k - 1, call)
    requires call in run[k].started <==> call in run[k - 1].started
    ensures HadTurn(run, steps, k, call)
  {
    hide CancelledBefore;
  }

  lemma HasTurnNow(run: seq<State>, steps: seq<Step>, k: nat, call: nat)
    requires |run| == |steps| + 1 && 0 < k < |run|
    requires steps[k - 1] == Register(call) || steps[k - 1] == DropQueued(call)
    requires call in run[k].started <==> steps[k - 1] == Register(call) && !CancelledBefore(steps, call, k - 1)
    ensures HadTurn(run, steps, k, call)
  {
    hide CancelledBefore;
    assert TurnWas(steps, call in run[k].started, call, k - 1) || steps[k - 1] == DropQueued(call);
  }

  lemma CancelledStaysOut(s: State, step: Step, call: nat)
    requires CallsOk(s) && Enabled(s, step) && call in s.shared.cancelled && call !in s.started
    ensures call in Apply(s, step).shared.cancelled && call !in Apply(s, step).started
  {
  }

  lemma {:induction false} CancelledStays(run: seq<State>, steps: seq<Step>, i: nat, j: nat, call: nat)
    requires IsRun(run, steps) && i <= j < |run|
    requires call in run[i].shared.cancelled && call !in run[i].started
    ensures call in run[j].shared.cancelled && call !in run[j].started
  {
    if i < j {
      CancelledStays(run, steps, i, j - 1, call);
      RunsKeepInv(run, steps, j - 1);
      CancelledStaysOut(run[j - 1], steps[j - 1], call);
    }
  }

  lemma NotStartedNotRunning(s: State, call: nat)
    requires CallsOk(s) && call in s.shared.cancelled && call !in s.started
    ensures call in s.calls && s.calls[call].stage != Running && !RunsOn(s.shared, s.calls[call].conn, call)
  {
  }

  /** A call that is cancelled before its turn never runs its function. */
  lemma CancelledInTimeNeverRuns(run: seq<State>, steps: seq<Step>, i: nat, j: nat, call: nat)
    requires IsRun(run, steps) && i < j < |run|
    requires steps[i] == Cancel(call) && call !in run[i].started
    ensures call !in run[j].started && call in run[j].calls && run[j].calls[call].stage != Running
    ensures !RunsOn(run[j].shared, run[j].calls[call].conn, call)
  {
    assert run[i + 1] == Apply(run[i], steps[i]);
    RunsKeepInv(run, steps, j);
    CancelledStays(run, steps, i + 1, j, call);
    NotStartedNotRunning(run[j], call);
  }

  // ---------- Every call gets its turn ----------

  ghost function StepsLeft(stage: Stage): nat {
    match stage
    case Queued => 5
    case Locked => 4
    case Running => 3
    case Finishing => 2
    case Ended => 1
    case Settled => 0
  }

  /** Steps of the pool's threads, which nobody has to ask for. */
  ghost predicate IsOwnStep(step: Step) {
    step.Lock? || step.Register? || step.Unregister? || step.Unlock? || step.Settle?
  }

  /** The step that call takes next, or if its connection is taken the call that has it. */
  ghost function NextStep(s: State, call: nat): Step
    requires call in s.calls && s.calls[call].stage != Settled
  {
    match s.calls[call].stage
    case Queued => Lock(call)
    case Locked => Register(call)
    case Running => Unregister(call)
    case Finishing => Unlock(call)
    case Ended => Settle(call)
  }

  lemma NextStepIsEnabled(s: State, call: nat)
    requires call in s.calls && s.calls[call].stage != Settled
    requires s.calls[call].stage == Queued ==> s.calls[call].conn !in s.locks
    ensures IsOwnStep(NextStep(s, call)) && Enabled(s, NextStep(s, call))
    ensures var s' := Apply(s, NextStep(s, call));
            && call in s'.calls && StepsLeft(s'.calls[call].stage) < StepsLeft(s.calls[call].stage)
            && s'.calls[call].conn == s.calls[call].conn
            && (forall other :: other in s.calls && other != call ==>
                  other in s'.calls && s'.calls[other] == s.calls[other])
  {
  }

  /** The call's function has been started, or will be when its turn comes. */
  ghost predicate WillRun(s: State, call: nat) {
    call in s.started || (call in s.calls && !PastTurn(s, call) && call !in s.shared.cancelled)
  }

  lemma OwnStepKeepsWillRun(s: State, step: Step, call: nat)
    requires Enabled(s, step) && IsOwnStep(step) && WillRun(s, call)
    ensures WillRun(Apply(s, step), call)
  {
  }

  /** How far the call that has the connection is from its release; 0 if none has it. */
  ghost function StepsToRelease(s: State, conn: nat): nat {
    if conn in s.locks && s.locks[conn] in s.calls then StepsLeft(s.calls[s.locks[conn]].stage) else 0
  }

  lemma ReleaseComesNearer(s: State, conn: nat)
    requires CallsOk(s) && conn in s.locks
    ensures s.locks[conn] in s.calls && HoldsLock(s.calls[s.locks[conn]].stage)
    ensures StepsToRelease(Apply(s, NextStep(s, s.locks[conn])), conn) < StepsToRelease(s, conn)
  {
    var holder := s.locks[conn];
    assert CallOk(s, holder, s.calls[holder]);
    NextStepIsEnabled(s, holder);
  }

  lemma RunGoesOn(run: seq<State>, steps: seq<Step>, step: Step)
    requires IsRun(run, steps) && Enabled(run[|run| - 1], step)
    ensures IsRun(run + [Apply(run[|run| - 1], step)], steps + [step])
  {
    hide Enabled, Apply, Init;
    var more, do := run + [Apply(run[|run| - 1], step)], steps + [step];
    assert more[0] == run[0];
    forall k | 0 <= k < |do| ensures Enabled(more[k], do[k]) && more[k + 1] == Apply(more[k], do[k]) {
      assert more[k] == run[k] && (k < |steps| ==> do[k] == steps[k] && more[k + 1] == run[k + 1]);
    }
  }

  ghost predicate OnlyOwnSteps(steps: seq<Step>, from: nat) {
    forall k :: from <= k < |steps| ==> IsOwnStep(steps[k])
  }

  /** Whatever the pool is doing, its threads can go on until a given call is settled, and unless the call
      has been cancelled or dropped its function has then been started. */
  lemma {:induction false} EveryCallCanSettle(run: seq<State>, steps: seq<Step>, call: nat)
      returns (run': seq<State>, steps': seq<Step>)
    requires IsRun(run, steps) && call in run[|run| - 1].calls
    ensures IsRun(run', steps') && run <= run' && steps <= steps' && OnlyOwnSteps(steps', |steps|)
    ensures At(run'[|run'| - 1], call, Settled)
    ensures WillRun(run[|run| - 1], call) ==> call in run'[|run'| - 1].started
    decreases StepsLeft(run[|run| - 1].calls[call].stage),
              StepsToRelease(run[|run| - 1], run[|run| - 1].calls[call].conn)
  {
    var s := run[|run| - 1];
    RunsKeepInv(run, steps, |run| - 1);
    if s.calls[call].stage == Settled {
      run', steps' := run, steps;
    } else {
      var conn := s.calls[call].conn;
      var mover := if s.calls[call].stage == Queued && conn in s.locks then s.locks[conn] else call;
      if mover != call {
        ReleaseComesNearer(s, conn);
      }
      NextStepIsEnabled(s, mover);
      var step := NextStep(s, mover);
      RunGoesOn(run, steps, step);
      if WillRun(s, call) {
        OwnStepKeepsWillRun(s, step, call);
      }
      hide *;
      run', steps' := EveryCallCanSettle(run + [Apply(s, step)], steps + [step], call);
    }
  }

  /** A call can be cancelled at any time; before its turn, the pool can then settle it without having
      started it. */
  lemma CancelSkips(run: seq<State>, steps: seq<Step>, call: nat) returns (run': seq<State>, steps': seq<Step>)
    requires IsRun(run, steps) && call in run[|run| - 1].calls && !PastTurn(run[|run| - 1], call)
    ensures IsRun(run', steps') && steps + [Cancel(call)] <= steps' && OnlyOwnSteps(steps', |steps| + 1)
    ensures At(run'[|run'| - 1], call, Settled) && call !in run'[|run'| - 1].started
  {
    var s := run[|run| - 1];
    RunsKeepInv(run, steps, |run| - 1);
    assert CallOk(s, call, s.calls[call]);
    assert Enabled(s, Cancel(call)) && call in Apply(s, Cancel(call)).calls && call !in s.started;
    RunGoesOn(run, steps, Cancel(call));
    assert |run| == |steps| + 1;
    hide *;
    run', steps' := run + [Apply(s, Cancel(call))], steps + [Cancel(call)];
    run', steps' := EveryCallCanSettle(run', steps', call);
    assert steps'[|steps|] == Cancel(call);
    assert run'[|steps|] == s;
    CancelledInTimeNeverRuns(run', steps', |steps|, |run'| - 1, call);
  }

  lemma {:induction false} ExactWithoutSurplus(run: seq<State>, steps: seq<Step>, k: nat)
    requires IsRun(run, steps) && k < |run|
    requires forall m :: 0 <= m < k ==> !Surplus(run[m], steps[m])
    ensures Exact(run[k])
  {
    if k == 0 {
      assert forall i: nat :: Unsettled(run[0].calls, i) == {};
    } else {
      ExactWithoutSurplus(run, steps, k - 1);
      RunsKeepInv(run, steps, k - 1);
      StepKeepsExact(run[k - 1], steps[k - 1]);
    }
  }

  /** The counters are exact throughout a run exactly when no connection that is not on loan is returned
      while it has calls that are not settled. A surplus return at zero is harmless. */
  lemma CountersExactIff(run: seq<State>, steps: seq<Step>)
    requires IsRun(run, steps)
    ensures (forall k :: 0 <= k < |run| ==> Exact(run[k])) <==>
              (forall k :: 0 <= k < |steps| ==> !Surplus(run[k], steps[k]))
  {
    if forall k :: 0 <= k < |run| ==> Exact(run[k]) {
      forall k | 0 <= k < |steps| ensures !Surplus(run[k], steps[k]) {
        RunsKeepInv(run, steps, k);
        StepKeepsExact(run[k], steps[k]);
        assert run[k + 1] == Apply(run[k], steps[k]) && Exact(run[k + 1]);
      }
    }
    if forall k :: 0 <= k < |steps| ==> !Surplus(run[k], steps[k]) {
      forall k | 0 <= k < |run| ensures Exact(run[k]) {
        ExactWithoutSurplus(run, steps, k);
      }
    }
  }

  /** While that is so, a connection counts zero exactly when it has no loans and all its calls are
      settled. */
  lemma CountersAreExact(run: seq<State>, steps: seq<Step>, k: nat, i: nat)
    requires IsRun(run, steps) && k < |run| && i < |run[k].shared.counters|
    requires forall m :: 0 <= m < k ==> !Surplus(run[m], steps[m])
    ensures i < |run[k].borrowed| && run[k].shared.counters[i] == |Unsettled(run[k].calls, i)| + run[k].borrowed[i]
    ensures run[k].shared.counters[i] == 0 <==>
            run[k].borrowed[i] == 0 &&
            forall call :: call in run[k].calls && run[k].calls[call].slot == Some(i) ==>
                run[k].calls[call].stage == Settled
  {
    ExactWithoutSurplus(run, steps, k);
    var s := run[k];
    assert forall call :: call in Unsettled(s.calls, i) <==>
      call in s.calls && s.calls[call].slot == Some(i) && s.calls[call].stage != Settled;
    if s.shared.counters[i] == 0 {
      assert Unsettled(s.calls, i) == {};
    } else if s.borrowed[i] == 0 {
      assert Unsettled(s.calls, i) != {};
    }
  }

  /** A connection that is returned once too often loses a count, and so looks idle while it runs. */
  lemma OverReturnMiscounts()
    ensures exists run: seq<State>, steps: seq<Step> :: IsRun(run, steps) && run[|run| - 1].shared.counters == [0] &&
                                 0 in run[|run| - 1].calls && run[|run| - 1].calls[0] == Call(7, Some(0), Queued) &&
                                 !Exact(run[|run| - 1])
  {
    var s0 := State(Shared([0], map[], {}), map[], map[], {}, [], [0]);
    var s1 := Apply(s0, Submit(0, 7, Some(0)));
    var s2 := Apply(s1, Return(0));
    assert s1.shared.counters == [1] && s2.shared.counters == [0];
    var run, steps := [s0, s1, s2], [Submit(0, 7, Some(0)), Return(0)];
    assert IsRun(run, steps);
    assert run[|run| - 1] == s2;
    assert 0 in Unsettled(s2.calls, 0);
  }
}
