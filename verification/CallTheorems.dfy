/** What the call guard is for: no deadlock, and a safe close() (src_py/connection.py). */
module CallTheorems {
  import opened Wrappers
  import opened CallTracking
  import opened CallProtocol

  lemma {:induction false} RunsKeepInv(run: seq<State>, steps: seq<Step>, k: nat)
    requires IsRun(run, steps) && Init(run[0]) && k < |run|
    ensures Inv(run[k])
  {
    if k == 0 {
      InitInv(run[0]);
    } else {
      RunsKeepInv(run, steps, k - 1);
      StepKeepsInv(run[k - 1], steps[k - 1]);
    }
  }

  // ---------- Deadlock freedom ----------

  /** x cannot end before y does something: x is blocked on a slot that y holds, y was called from a
      UDF of x, or y lies above x on its thread. */
  ghost predicate WaitsFor(s: State, x: nat, y: nat) {
    x in s.live && y in s.live && (WaitsForSlot(s, x, y) || WaitsForUdf(s, x, y) || LiesBelow(s, x, y))
  }

  ghost predicate WaitsForSlot(s: State, x: nat, y: nat)
    requires x in s.live
  {
    x in s.waiting && s.live[x].conn < |s.conns| && s.conns[s.live[x].conn].slot == Some(y)
  }

  ghost predicate WaitsForUdf(s: State, x: nat, y: nat)
    requires y in s.live
  {
    exists t, m :: 0 <= t < |s.threads| && 0 <= m < s.live[y].index && m < |s.threads[t]| &&
      t == s.live[y].thread && s.threads[t][m] == Udf(x)
  }

  ghost predicate LiesBelow(s: State, x: nat, y: nat)
    requires x in s.live && y in s.live
  {
    s.live[x].thread == s.live[y].thread && s.live[x].index < s.live[y].index
  }

  ghost predicate IsWaitCycle(s: State, cycle: seq<nat>) {
    && cycle != []
    && (forall k, l :: 0 <= k && l == k + 1 < |cycle| ==> WaitsFor(s, cycle[k], cycle[l]))
    && WaitsFor(s, cycle[|cycle| - 1], cycle[0])
  }

  /** In user code of no UDF, and its connection's slot is with another run of calls. */
  ghost predicate BlockedOutside(s: State, x: nat)
    requires Located(s) && Slots(s) && x in s.live
  {
    var slot := s.conns[s.live[x].conn].slot;
    BaseOf(s, x) == 0 && slot.Some? && !SameRun(s, x, slot.value)
  }

  /** The stamp of the call that started the run x is part of. */
  ghost function RunStamp(s: State, x: nat): nat
    requires Located(s) && x in s.live
  {
    Stamp(s.threads[s.live[x].thread][BaseOf(s, x)])
  }

  /** The order that every wait edge goes up in: lexicographic. */
  datatype Key = Key(kind: nat, run: nat, id: nat) {
    predicate Below(other: Key) {
      kind < other.kind || (kind == other.kind && (run < other.run || (run == other.run && id < other.id)))
    }
  }

  ghost function KeyOf(s: State, x: nat): Key
    requires Located(s) && Slots(s) && x in s.live
  {
    Key(if BlockedOutside(s, x) then 0 else 1, RunStamp(s, x), x)
  }

  ghost predicate Before(s: State, x: nat, y: nat)
    requires Located(s) && Slots(s) && x in s.live && y in s.live
  {
    KeyOf(s, x).Below(KeyOf(s, y))
  }

  /** A run of calls is on one connection, and starts with its oldest call. */
  lemma {:induction false} RunOfCalls(stack: seq<Entry>, i: nat)
    requires StackOrdered(stack) && i < |stack| && stack[i].Call?
    ensures stack[Base(stack, i)].Call? && stack[Base(stack, i)].conn == stack[i].conn
    ensures stack[Base(stack, i)].id <= stack[i].id
  {
    if i > 0 && stack[i - 1].Call? {
      RunOfCalls(stack, i - 1);
    }
  }

  lemma BaseMonotone(stack: seq<Entry>, i: nat, j: nat)
    requires i <= j < |stack|
    ensures Base(stack, i) == Base(stack, j) || i < Base(stack, j)
  {
  }

  lemma RunFacts(s: State, x: nat)
    requires Located(s) && Ordered(s) && x in s.live
    ensures At(s, s.live[x], x)
    ensures var stack, b := s.threads[s.live[x].thread], BaseOf(s, x);
            && stack[b].Call? && stack[b].conn == s.live[x].conn && stack[b].id == RunStamp(s, x) <= x
            && stack[b].id in s.live && s.live[stack[b].id] == Place(s.live[x].thread, b, s.live[x].conn)
  {
    var p := s.live[x];
    assert At(s, p, x);
    assert StackOrdered(s.threads[p.thread]);
    RunOfCalls(s.threads[p.thread], p.index);
    var b := BaseOf(s, x);
    assert EntryOk(s, p.thread, b, s.threads[p.thread][b]);
  }

  /** Calls on two different runs of one connection: if a UDF started the first run, the second is
      younger. This is where the guard's refusal is used. */
  lemma YoungerHolder(s: State, x: nat, y: nat)
    requires Located(s) && Ordered(s) && IdleAtBase(s)
    requires x in s.live && y in s.live && s.live[x].conn == s.live[y].conn
    requires BaseOf(s, x) > 0 && !SameRun(s, x, y)
    ensures RunStamp(s, x) < RunStamp(s, y)
  {
    DistinctRuns(s, x, y);
    assert RunStamp(s, y) in s.live && s.live[RunStamp(s, y)].conn == s.live[x].conn;
    assert RunStamp(s, x) <= RunStamp(s, y) by {
      RunFacts(s, x);
      assert StartedByUdf(s.threads[s.live[x].thread], BaseOf(s, x));
    }
  }

  lemma DistinctRuns(s: State, x: nat, y: nat)
    requires Located(s) && Ordered(s) && x in s.live && y in s.live && !SameRun(s, x, y)
    ensures RunStamp(s, x) != RunStamp(s, y)
    ensures RunStamp(s, y) in s.live && s.live[RunStamp(s, y)].conn == s.live[y].conn
  {
    RunFacts(s, x);
    RunFacts(s, y);
  }

  /** A holder in the run on top of a stack holds the slot for that run. */
  lemma HolderInTopRun(s: State, x: nat, y: nat)
    requires Located(s) && x in s.live && y in s.live && SameRun(s, x, y)
    requires s.live[x].index == |s.threads[s.live[x].thread]| - 1
    ensures RunHolds(s.threads[s.live[x].thread], Some(y))
  {
  }

  lemma SlotEdgeRises(s: State, x: nat, y: nat)
    requires Located(s) && Ordered(s) && IdleAtBase(s) && Slots(s) && Waits(s)
    requires x in s.live && y in s.live && WaitsForSlot(s, x, y)
    ensures Before(s, x, y)
  {
    assert Holds(s, y);
    if SameRun(s, x, y) {
      HolderInTopRun(s, x, y);
    }
    if BaseOf(s, x) > 0 {
      YoungerHolder(s, x, y);
    }
  }

  lemma UdfEdgeRises(s: State, x: nat, y: nat)
    requires Located(s) && Ordered(s) && Slots(s) && x in s.live && y in s.live && WaitsForUdf(s, x, y)
    ensures Before(s, x, y)
  {
  }

  lemma StackEdgeRises(s: State, x: nat, y: nat)
    requires Located(s) && Ordered(s) && Slots(s) && x in s.live && y in s.live && LiesBelow(s, x, y)
    ensures Before(s, x, y)
  {
    RunFacts(s, x);
    RunFacts(s, y);
    var stack := s.threads[s.live[x].thread];
    assert StackOrdered(stack);
    BaseMonotone(stack, s.live[x].index, s.live[y].index);
    if SameRun(s, x, y) {
      assert BlockedOutside(s, x) == BlockedOutside(s, y);
    }
  }

  lemma EdgeRises(s: State, x: nat, y: nat)
    requires Inv(s) && WaitsFor(s, x, y)
    ensures Before(s, x, y)
  {
    if WaitsForSlot(s, x, y) {
      SlotEdgeRises(s, x, y);
    } else if WaitsForUdf(s, x, y) {
      UdfEdgeRises(s, x, y);
    } else {
      StackEdgeRises(s, x, y);
    }
  }

  lemma {:induction false} PathRises(s: State, path: seq<nat>, k: nat)
    requires Inv(s) && 0 < k < |path|
    requires forall k, l :: 0 <= k && l == k + 1 < |path| ==> WaitsFor(s, path[k], path[l])
    ensures path[0] in s.live && path[k] in s.live && Before(s, path[0], path[k])
  {
    EdgeRises(s, path[k - 1], path[k]);
    if k > 1 {
      PathRises(s, path, k - 1);
    }
  }

  /** Deadlock freedom: in no reachable state do calls wait for each other in a circle. */
  lemma NoDeadlock(run: seq<State>, steps: seq<Step>, k: nat, cycle: seq<nat>)
    requires IsRun(run, steps) && Init(run[0]) && k < |run|
    ensures !IsWaitCycle(run[k], cycle)
  {
    RunsKeepInv(run, steps, k);
    if IsWaitCycle(run[k], cycle) {
      EdgeRises(run[k], cycle[|cycle| - 1], cycle[0]);
      if |cycle| > 1 {
        PathRises(run[k], cycle, |cycle| - 1);
      }
    }
  }

  lemma FirstEntry(threads: seq<seq<Entry>>, t: nat, e: Entry)
    requires t < |threads| && threads[t] == []
    ensures threads[t := threads[t] + [e]] == threads[t := [e]]
  {
    assert threads[t] + [e] == [e];
  }

  /** One call holds the slot of the only connection. */
  lemma OneHolds(held: State) returns (run: seq<State>, steps: seq<Step>)
    requires held == State([[Call(0, 0)], []], [Conn(Tracker(false, false, 1), Some(0), None, 0)],
                            map[0 := Place(0, 0, 0)], {}, 1)
    ensures IsRun(run, steps) && Init(run[0]) && run[|run| - 1] == held
  {
    var s0 := State([[], []], [Conn(Tracker(false, false, 0), None, None, 0)], map[], {}, 0);
    FirstEntry(s0.threads, 0, Call(0, 0));
    var s1 := Apply(s0, Enter(0, 0));
    var s2 := Apply(s1, Request(0));
    var s3 := Apply(s2, Grant(0));
    assert s3.threads == held.threads && s3.waiting == {};
    run, steps := [s0, s1, s2, s3], [Enter(0, 0), Request(0), Grant(0)];
  }

  /** Calls do wait: of two threads that call one connection, one waits for the other's slot. */
  lemma WaitingHappens()
    ensures exists run: seq<State>, steps: seq<Step> ::
              IsRun(run, steps) && Init(run[0]) && 1 in run[|run| - 1].live && WaitsForSlot(run[|run| - 1], 1, 0)
  {
    var s3 := State([[Call(0, 0)], []], [Conn(Tracker(false, false, 1), Some(0), None, 0)],
                    map[0 := Place(0, 0, 0)], {}, 1);
    var run, steps := OneHolds(s3);
    FirstEntry(s3.threads, 1, Call(0, 1));
    var s4 := Apply(s3, Enter(1, 0));
    var s5 := Apply(s4, Request(1));
    assert s4.threads == [[Call(0, 0)], [Call(0, 1)]];
    assert 1 in s5.live && WaitsForSlot(s5, 1, 0);
    hide *;
    RunGoesOn(run, steps, Enter(1, 0));
    RunGoesOn(run + [s4], steps + [Enter(1, 0)], Request(1));
    var more := run + [s4] + [s5];
    assert more[0] == run[0] && more[|more| - 1] == s5;
  }

  lemma RunGoesOn(run: seq<State>, steps: seq<Step>, step: Step)
    requires IsRun(run, steps) && Enabled(run[|run| - 1], step)
    ensures IsRun(run + [Apply(run[|run| - 1], step)], steps + [step])
  {
    hide Enabled, Apply;
    var more, do := run + [Apply(run[|run| - 1], step)], steps + [step];
    forall k | 0 <= k < |do| ensures Enabled(more[k], do[k]) && more[k + 1] == Apply(more[k], do[k]) {
      assert more[k] == run[k] && (k < |steps| ==> do[k] == steps[k] && more[k + 1] == run[k + 1]);
    }
  }

  lemma TopDecides(stack: seq<Entry>, c: nat)
    requires stack != []
    ensures stack[|stack| - 1].Udf? ==> InUdfSinceLastCall(stack, c)
    ensures stack[|stack| - 1].Call? && stack[|stack| - 1].conn == c ==>
              HasCallOn(stack, c) && !InUdfSinceLastCall(stack, c)
  {
    var top := stack[|stack| - 1];
    assert stack == stack[..|stack| - 1] + [top];
    InnermostDecides(stack[..|stack| - 1], top, c);
  }

  ghost predicate Reachable(s: State) {
    exists run: seq<State>, steps: seq<Step> :: IsRun(run, steps) && Init(run[0]) && run[|run| - 1] == s
  }

  lemma Reach(s: State, step: Step, s': State)
    requires Reachable(s) && Enabled(s, step) && Apply(s, step) == s'
    ensures Reachable(s')
  {
    hide Enabled, Apply, Init;
    var run: seq<State>, steps: seq<Step> :| IsRun(run, steps) && Init(run[0]) && run[|run| - 1] == s;
    RunGoesOn(run, steps, step);
    var more := run + [s'];
    assert more[0] == run[0] && more[|more| - 1] == s';
  }

  const IDLE := Conn(Tracker(false, false, 0), None, None, 0)
  const BUSY := Conn(Tracker(false, false, 1), Some(0), None, 0)

  /** A call that holds the slot of the first of two connections runs a UDF. */
  lemma UdfRuns()
    ensures Reachable(State([[Call(0, 0), Udf(0)]], [BUSY, IDLE], map[0 := Place(0, 0, 0)], {}, 1))
  {
    var s0 := State([[]], [IDLE, IDLE], map[], {}, 0);
    assert IsRun([s0], []) && Init([s0][0]);
    FirstEntry(s0.threads, 0, Call(0, 0));
    var counted := Conn(Tracker(false, false, 1), None, None, 0);
    var s1 := State([[Call(0, 0)]], [counted, IDLE], map[0 := Place(0, 0, 0)], {}, 1);
    Reach(s0, Enter(0, 0), s1);
    Reach(s1, Request(0), s1.(waiting := {0}));
    var s2 := s1.(conns := [BUSY, IDLE]);
    Reach(s1.(waiting := {0}), Grant(0), s2);
    assert [Call(0, 0)] + [Udf(0)] == [Call(0, 0), Udf(0)];
    Reach(s2, StartUdf(0, 0), s2.(threads := [[Call(0, 0), Udf(0)]]));
  }

  /** The UDF calls the other connection, and that call makes a further one on it, as execute() does to
      prepare its query. */
  lemma NestedCallsHappen()
    ensures exists s :: Reachable(s) && s.threads == [[Call(0, 0), Udf(0), Call(1, 1), Call(1, 2)]]
  {
    UdfRuns();
    var s0 := State([[Call(0, 0), Udf(0)]], [BUSY, IDLE], map[0 := Place(0, 0, 0)], {}, 1);
    var stack1, stack2 := [Call(0, 0), Udf(0), Call(1, 1)], [Call(0, 0), Udf(0), Call(1, 1), Call(1, 2)];
    assert s0.threads[0] + [Call(1, 1)] == stack1 && stack1 + [Call(1, 2)] == stack2;
    var s1 := State([stack1], [BUSY, Conn(Tracker(false, false, 1), None, None, 0)],
                    map[0 := Place(0, 0, 0), 1 := Place(0, 2, 1)], {}, 2);
    Reach(s0, Enter(0, 1), s1);
    TopDecides(stack1, 1);
    var s2 := State([stack2], [BUSY, Conn(Tracker(false, false, 2), None, None, 0)],
                    map[0 := Place(0, 0, 0), 1 := Place(0, 2, 1), 2 := Place(0, 3, 1)], {}, 3);
    Reach(s1, Enter(0, 1), s2);
  }

  // ---------- Every admitted call can finish ----------

  /** Steps that only bring calls, UDFs and close() nearer to their end: none admits anything. */
  ghost predicate Finishing(step: Step) {
    step.Grant? || step.Release? || step.Leave? || step.EndUdf? || step.BeginTeardown? || step.FinishTeardown?
  }

  ghost predicate Quiet(s: State) {
    && (forall t :: 0 <= t < |s.threads| ==> s.threads[t] == [])
    && (forall c :: 0 <= c < |s.conns| ==> s.conns[c].closer == None)
    && s.live == map[] && s.waiting == {}
  }

  ghost predicate IsLast(s: State, m: nat)
    requires Located(s) && Slots(s)
  {
    m in s.live && forall z :: z in s.live ==> !Before(s, m, z)
  }

  lemma {:induction false} LastKey(keys: map<nat, Key>) returns (m: nat)
    requires keys != map[]
    ensures m in keys && forall z :: z in keys ==> !keys[m].Below(keys[z])
    decreases |keys|
  {
    var a :| a in keys;
    m := a;
    var others := keys - {a};
    if others != map[] {
      var b := LastKey(others);
      m := if keys[b].Below(keys[a]) then a else b;
      forall z | z in keys ensures !keys[m].Below(keys[z]) {
        assert z == a || (z in others && !keys[b].Below(others[z]));
      }
    } else {
      forall z | z in keys ensures z == a {
        assert z == a || z in others;
      }
    }
  }

  lemma LastCall(s: State) returns (m: nat)
    requires Located(s) && Slots(s) && s.live != map[]
    ensures IsLast(s, m)
  {
    var keys := map x | x in s.live :: KeyOf(s, x);
    var x :| x in s.live;
    assert x in keys;
    m := LastKey(keys);
    forall z | z in s.live ensures !Before(s, m, z) {
      assert z in keys;
    }
  }

  /** The innermost entry of t is a marker, so either the UDF can return, or it is in a close() that
      has nothing to wait for. */
  lemma MarkerOnTop(s: State, t: nat) returns (step: Step)
    requires Inv(s) && t < |s.threads| && s.threads[t] != [] && Top(s, t).Udf?
    ensures Finishing(step) && Enabled(s, step)
  {
    if Busy(s, t) {
      var c :| 0 <= c < |s.conns| && s.conns[c].closer.Some? && s.conns[c].closer.value.thread == t;
      assert CloserWaitsOutside(s, c);
      step := if s.conns[c].closer.value.tearing then FinishTeardown(c) else BeginTeardown(c);
    } else {
      step := EndUdf(t);
    }
  }

  lemma EntryAt(s: State, t: nat, i: nat)
    requires Inv(s) && t < |s.threads| && i < |s.threads[t]|
    ensures EntryOk(s, t, i, s.threads[t][i])
  {
  }

  /** A call waits for every call above it, or above a UDF of its query. */
  lemma WaitsForAbove(s: State, m: nat, t: nat, i: nat, k: nat)
    requires t < |s.threads| && i < k < |s.threads[t]| && m in s.live
    requires s.threads[t][i] == Call(s.live[m].conn, m) || s.threads[t][i] == Udf(m)
    requires EntryOk(s, t, i, s.threads[t][i]) && EntryOk(s, t, k, s.threads[t][k]) && s.threads[t][k].Call?
    ensures WaitsFor(s, m, s.threads[t][k].id)
  {
    assert if s.threads[t][i].Udf? then WaitsForUdf(s, m, s.threads[t][k].id) else LiesBelow(s, m, s.threads[t][k].id);
  }

  /** Whatever lies above the last call, or above a UDF of its query, ends in a UDF marker. */
  lemma MarkerAboveLast(s: State, m: nat, t: nat, i: nat)
    requires Inv(s) && IsLast(s, m) && t < |s.threads| && i < |s.threads[t]| - 1
    requires s.threads[t][i] == Call(s.live[m].conn, m) || s.threads[t][i] == Udf(m)
    ensures Top(s, t).Udf?
  {
    hide Before, WaitsFor, Inv;
    var k := |s.threads[t]| - 1;
    EntryAt(s, t, i);
    EntryAt(s, t, k);
    if s.threads[t][k].Call? {
      WaitsForAbove(s, m, t, i, k);
      EdgeRises(s, m, s.threads[t][k].id);
    }
  }

  /** The last call is innermost on its thread and not blocked. */
  lemma LastHasSlot(s: State, m: nat)
    requires Inv(s) && IsLast(s, m) && m in s.waiting
    ensures s.conns[s.live[m].conn].slot == None
  {
    var slot := s.conns[s.live[m].conn].slot;
    if slot.Some? {
      assert Holds(s, slot.value);
      assert WaitsForSlot(s, m, slot.value);
      EdgeRises(s, m, slot.value);
    }
  }

  lemma LastWithUdf(s: State, m: nat, t: nat, i: nat) returns (step: Step)
    requires Inv(s) && IsLast(s, m) && t < |s.threads| && i < |s.threads[t]| && s.threads[t][i] == Udf(m)
    ensures Finishing(step) && Enabled(s, step)
  {
    if i < |s.threads[t]| - 1 {
      MarkerAboveLast(s, m, t, i);
    }
    step := MarkerOnTop(s, t);
  }

  lemma OnTop(s: State, m: nat, t: nat)
    requires Inv(s) && m in s.live && t == s.live[m].thread && s.live[m].index == |s.threads[t]| - 1
    ensures TopIsCall(s, t) && Top(s, t) == Call(s.live[m].conn, m) && s.live[m].conn < |s.conns|
  {
  }

  lemma InnermostCanMove(s: State, m: nat, t: nat) returns (step: Step)
    requires TopIsCall(s, t) && Top(s, t).id == m && Top(s, t).conn < |s.conns|
    requires m in s.waiting ==> s.conns[Top(s, t).conn].slot == None
    requires s.conns[Top(s, t).conn].slot == Some(m) ==> OwnsNoUdf(s, m)
    ensures Finishing(step) && Enabled(s, step)
  {
    step := if m in s.waiting then Grant(t)
            else if s.conns[Top(s, t).conn].slot != Some(m) then Leave(t)
            else Release(t);
  }

  lemma LastInnermost(s: State, m: nat) returns (step: Step)
    requires Inv(s) && IsLast(s, m) && s.live[m].index == |s.threads[s.live[m].thread]| - 1
    ensures Finishing(step) && Enabled(s, step)
  {
    if OwnsNoUdf(s, m) {
      OnTop(s, m, s.live[m].thread);
      if m in s.waiting {
        LastHasSlot(s, m);
      }
      hide *;
      step := InnermostCanMove(s, m, s.live[m].thread);
    } else {
      var u, i := UdfOf(s, m);
      step := LastWithUdf(s, m, u, i);
    }
  }

  lemma UdfOf(s: State, m: nat) returns (t: nat, i: nat)
    requires !OwnsNoUdf(s, m)
    ensures t < |s.threads| && i < |s.threads[t]| && s.threads[t][i] == Udf(m)
  {
    t, i :| 0 <= t < |s.threads| && 0 <= i < |s.threads[t]| && s.threads[t][i] == Udf(m);
  }

  lemma LastCanMove(s: State, m: nat) returns (step: Step)
    requires Inv(s) && IsLast(s, m)
    ensures Finishing(step) && Enabled(s, step)
  {
    assert At(s, s.live[m], m);
    if s.live[m].index < |s.threads[s.live[m].thread]| - 1 {
      MarkerAboveLast(s, m, s.live[m].thread, s.live[m].index);
      step := MarkerOnTop(s, s.live[m].thread);
    } else {
      step := LastInnermost(s, m);
    }
  }

  lemma EntryHasCall(s: State, t: nat)
    requires Located(s) && Slots(s) && t < |s.threads| && s.threads[t] != []
    ensures s.live.Keys != {}
  {
    assert EntryOk(s, t, 0, s.threads[t][0]);
    assert s.threads[t][0].Udf? ==> Holds(s, s.threads[t][0].owner);
  }

  /** Progress: unless everything has come to rest, some thread can take a step towards its end. */
  lemma Progress(s: State) returns (step: Step)
    requires Inv(s) && !Quiet(s)
    ensures Finishing(step) && Enabled(s, step)
  {
    if s.live != map[] {
      var m := LastCall(s);
      step := LastCanMove(s, m);
    } else {
      forall t | 0 <= t < |s.threads| ensures s.threads[t] == [] {
        if s.threads[t] != [] {
          EntryHasCall(s, t);
        }
      }
      assert s.waiting == {};
      var c :| 0 <= c < |s.conns| && s.conns[c].closer != None;
      assert CallsOn(s.live, c) == {};
      step := if s.conns[c].closer.value.tearing then FinishTeardown(c) else BeginTeardown(c);
    }
  }

  ghost function Depth(threads: seq<seq<Entry>>): nat {
    if threads == [] then 0 else |threads[0]| + Depth(threads[1..])
  }

  ghost function ConnWork(conn: Conn): nat {
    (if conn.slot.Some? then 1 else 0) +
    (if conn.closer.None? then 0 else if conn.closer.value.tearing then 1 else 2)
  }

  ghost function Work(conns: seq<Conn>): nat {
    if conns == [] then 0 else ConnWork(conns[0]) + Work(conns[1..])
  }

  ghost function Remaining(s: State): nat {
    2 * |s.waiting| + Work(s.conns) + Depth(s.threads)
  }

  lemma {:induction false} DepthChange(threads: seq<seq<Entry>>, t: nat, stack: seq<Entry>)
    requires t < |threads|
    ensures Depth(threads[t := stack]) == Depth(threads) - |threads[t]| + |stack|
  {
    if t == 0 {
      assert threads[t := stack][1..] == threads[1..];
    } else {
      assert threads[t := stack][1..] == threads[1..][t - 1 := stack];
      DepthChange(threads[1..], t - 1, stack);
    }
  }

  lemma {:induction false} WorkChange(conns: seq<Conn>, c: nat, conn: Conn)
    requires c < |conns|
    ensures Work(conns[c := conn]) == Work(conns) - ConnWork(conns[c]) + ConnWork(conn)
  {
    if c == 0 {
      assert conns[c := conn][1..] == conns[1..];
    } else {
      assert conns[c := conn][1..] == conns[1..][c - 1 := conn];
      WorkChange(conns[1..], c - 1, conn);
    }
  }

  lemma FinishingReduces(s: State, step: Step)
    requires Enabled(s, step) && Finishing(step)
    ensures Remaining(Apply(s, step)) < Remaining(s)
  {
    hide Depth, Work, OwnsNoUdf, Busy;
    var s' := Apply(s, step);
    match step
    case Grant(t) => WorkChange(s.conns, Top(s, t).conn, s'.conns[Top(s, t).conn]);
    case Release(t) => WorkChange(s.conns, Top(s, t).conn, s'.conns[Top(s, t).conn]);
    case Leave(t) =>
      WorkChange(s.conns, Top(s, t).conn, s'.conns[Top(s, t).conn]);
      DepthChange(s.threads, t, s'.threads[t]);
    case EndUdf(t) => DepthChange(s.threads, t, s'.threads[t]);
    case BeginTeardown(c) => WorkChange(s.conns, c, s'.conns[c]);
    case FinishTeardown(c) => WorkChange(s.conns, c, s'.conns[c]);
  }

  /** close() has started and was not aborted, or the connection is closed. */
  ghost predicate EndsClosed(s: State, c: nat) {
    c < |s.conns| && (s.conns[c].closer.Some? || s.conns[c].tr.isClosed)
  }

  lemma FinishingEndsClosed(s: State, step: Step, c: nat)
    requires Enabled(s, step) && Finishing(step) && EndsClosed(s, c)
    ensures EndsClosed(Apply(s, step), c)
  {
  }

  /** Nothing is left to do, and what was being closed is closed. */
  ghost predicate Drains(s: State, run: seq<State>, steps: seq<Step>) {
    && IsRun(run, steps) && run[0] == s && Quiet(run[|run| - 1])
    && (forall k :: 0 <= k < |steps| ==> Finishing(steps[k]))
    && (forall c :: 0 <= c < |s.conns| && EndsClosed(s, c) ==>
          c < |run[|run| - 1].conns| && run[|run| - 1].conns[c].tr.isClosed)
  }

  lemma DrainsAfter(s: State, step: Step, run: seq<State>, steps: seq<Step>)
    requires Enabled(s, step) && Finishing(step) && Drains(Apply(s, step), run, steps)
    ensures Drains(s, [s] + run, [step] + steps)
  {
    hide Apply, Enabled, EndsClosed, Quiet;
    var all, last := [s] + run, run[|run| - 1];
    assert all[|all| - 1] == last;
    var do := [step] + steps;
    forall k | 0 <= k < |do| ensures Enabled(all[k], do[k]) && all[k + 1] == Apply(all[k], do[k]) {
      assert k > 0 ==> all[k] == run[k - 1] && all[k + 1] == run[k];
    }
    forall c | 0 <= c < |s.conns| && EndsClosed(s, c) ensures c < |last.conns| && last.conns[c].tr.isClosed {
      FinishingEndsClosed(s, step, c);
      SameConns(s, step);
    }
  }

  lemma SameConns(s: State, step: Step)
    requires Enabled(s, step)
    ensures |Apply(s, step).conns| == |s.conns|
  {
  }

  lemma AtRest(s: State)
    requires Quiet(s)
    ensures Drains(s, [s], [])
  {
  }

  lemma {:induction false} DrainsFrom(s: State) returns (run: seq<State>, steps: seq<Step>)
    requires Inv(s)
    ensures Drains(s, run, steps)
    decreases Remaining(s)
  {
    hide *;
    if Quiet(s) {
      AtRest(s);
      run, steps := [s], [];
    } else {
      var step := Progress(s);
      StepKeepsInv(s, step);
      FinishingReduces(s, step);
      run, steps := DrainsFrom(Apply(s, step));
      DrainsAfter(s, step, run, steps);
      run, steps := [s] + run, [step] + steps;
    }
  }

  /** Whatever has happened so far, every call, UDF and close() under way can still run to its end, and the
      connections that are being closed end up closed. */
  lemma EveryCallCanFinish(run: seq<State>, steps: seq<Step>, k: nat)
    requires IsRun(run, steps) && Init(run[0]) && k < |run|
    ensures exists rest, more :: Drains(run[k], rest, more)
  {
    RunsKeepInv(run, steps, k);
    var rest, more := DrainsFrom(run[k]);
  }

  // ---------- Close safety ----------

  /** The counter of a connection is the number of its admitted, unfinished calls, over all threads. */
  lemma CounterIsExact(run: seq<State>, steps: seq<Step>, k: nat, c: nat)
    requires IsRun(run, steps) && Init(run[0]) && k < |run| && c < |run[k].conns|
    ensures run[k].conns[c].tr.inFlight == |CallsOn(run[k].live, c)|
    ensures forall t, i ::
              && 0 <= t < |run[k].threads| && 0 <= i < |run[k].threads[t]|
              && run[k].threads[t][i].Call? && run[k].threads[t][i].conn == c
              ==> run[k].threads[t][i].id in CallsOn(run[k].live, c)
    ensures forall id :: id in CallsOn(run[k].live, c) ==> At(run[k], run[k].live[id], id)
  {
    RunsKeepInv(run, steps, k);
    var s := run[k];
    forall t, i | 0 <= t < |s.threads| && 0 <= i < |s.threads[t]| && s.threads[t][i].Call? && s.threads[t][i].conn == c
      ensures s.threads[t][i].id in CallsOn(s.live, c)
    {
      assert EntryOk(s, t, i, s.threads[t][i]);
    }
  }

  ghost predicate IsClosing(s: State, c: nat) {
    c < |s.conns| && s.conns[c].tr.closing
  }

  /** Calls on a closing connection only end. */
  lemma StepAdmitsNothing(s: State, step: Step, c: nat)
    requires Inv(s) && Enabled(s, step) && IsClosing(s, c)
    ensures CallsOn(Apply(s, step).live, c) <= CallsOn(s.live, c)
    ensures forall t :: !Enabled(s, Enter(t, c))
  {
  }

  /** As long as the closing flag is set, during the wait of close() and after it, no call is admitted,
      the calls in flight are among those from before, and the counter does not rise. */
  lemma {:induction false} ClosingAdmitsNothing(run: seq<State>, steps: seq<Step>, i: nat, j: nat, c: nat)
    requires IsRun(run, steps) && Init(run[0]) && i <= j < |run|
    requires forall k :: i <= k <= j ==> IsClosing(run[k], c)
    ensures forall t :: !Enabled(run[j], Enter(t, c))
    ensures CallsOn(run[j].live, c) <= CallsOn(run[i].live, c)
    ensures IsClosing(run[i], c) && IsClosing(run[j], c)
    ensures run[j].conns[c].tr.inFlight <= run[i].conns[c].tr.inFlight
  {
    hide Inv, Enabled, Apply, CallsOn, Init;
    NoneAdmitted(run, steps, j, c);
    if i < j {
      ClosingAdmitsNothing(run, steps, i, j - 1, c);
      RunsKeepInv(run, steps, j - 1);
      StepAdmitsNothing(run[j - 1], steps[j - 1], c);
    }
    CounterIsExact(run, steps, i, c);
    CounterIsExact(run, steps, j, c);
    SubsetIsSmaller(CallsOn(run[j].live, c), CallsOn(run[i].live, c));
  }

  lemma NoneAdmitted(run: seq<State>, steps: seq<Step>, k: nat, c: nat)
    requires IsRun(run, steps) && k < |run| && IsClosing(run[k], c)
    ensures forall t :: !Enabled(run[k], Enter(t, c))
  {
  }

  lemma SubsetIsSmaller(a: set<nat>, b: set<nat>)
    requires a <= b
    ensures |a| <= |b|
  {
    assert b == a + (b - a);
  }

  /** The flag is set throughout the wait. */
  lemma WaitIsClosing(run: seq<State>, steps: seq<Step>, k: nat, c: nat)
    requires IsRun(run, steps) && Init(run[0]) && k < |run| && InWait(run[k], c)
    ensures IsClosing(run[k], c)
  {
    RunsKeepInv(run, steps, k);
  }

  lemma StepKeepsTeardown(s: State, step: Step, c: nat)
    requires Inv(s) && Enabled(s, step) && c < |s.conns|
    ensures |Apply(s, step).conns| == |s.conns| && s.conns[c].teardowns <= Apply(s, step).conns[c].teardowns
  {
  }

  lemma {:induction false} TeardownsRise(run: seq<State>, steps: seq<Step>, i: nat, j: nat, c: nat)
    requires IsRun(run, steps) && Init(run[0]) && i <= j < |run| && c < |run[i].conns|
    ensures |run[j].conns| == |run[i].conns| && run[i].conns[c].teardowns <= run[j].conns[c].teardowns
  {
    if i < j {
      TeardownsRise(run, steps, i, j - 1, c);
      RunsKeepInv(run, steps, j - 1);
      StepKeepsTeardown(run[j - 1], steps[j - 1], c);
    }
  }

  /** Teardown starts with no call in flight and at most once, and from then on no call is admitted,
      no unfinished call is on the connection and no second close() starts. */
  lemma TeardownIsFinal(run: seq<State>, steps: seq<Step>, i: nat, j: nat, c: nat)
    requires IsRun(run, steps) && Init(run[0]) && i <= j < |run| && c < |run[i].conns|
    requires run[i].conns[c].teardowns > 0
    ensures c < |run[j].conns| && run[j].conns[c].teardowns == 1
    ensures run[j].conns[c].tr.closing && run[j].conns[c].tr.inFlight == 0 && CallsOn(run[j].live, c) == {}
    ensures forall t :: !Enabled(run[j], Enter(t, c)) && !Enabled(run[j], BeginClose(t, c))
    ensures !Enabled(run[j], BeginTeardown(c)) && !Enabled(run[j], AbortClose(c))
  {
    TeardownsRise(run, steps, i, j, c);
    RunsKeepInv(run, steps, j);
  }

  /** An aborted wait leaves the connection as it was before close(), with the count intact. */
  lemma AbortedCloseRestores(s: State, c: nat)
    requires Inv(s) && InWait(s, c)
    ensures var s' := Apply(s, AbortClose(c));
            && Inv(s') && s'.live == s.live && s'.threads == s.threads && s'.waiting == s.waiting
            && s'.conns[c] == Conn(Tracker(false, false, |CallsOn(s.live, c)|), s.conns[c].slot, None, 0)
            && s'.conns == s.conns[c := s'.conns[c]]
  {
    StepKeepsInv(s, AbortClose(c));
  }

  // ---------- Who is admitted ----------

  lemma NoneInFlight(s: State, c: nat)
    requires Inv(s) && c < |s.conns|
    ensures s.conns[c].tr.inFlight == 0 <==> CallsOn(s.live, c) == {}
  {
  }

  /** A call from user code outside every UDF is admitted unless the connection is closing; from a UDF
      it must find no unfinished call on the connection, on any thread; and a call on the connection,
      wherever it stands, may make further calls on it. A refused call is told that the connection is
      closed exactly if it is closing. */
  lemma AdmittedIff(run: seq<State>, steps: seq<Step>, k: nat, t: nat, c: nat)
    requires IsRun(run, steps) && Init(run[0]) && k < |run| && t < |run[k].threads| && c < |run[k].conns|
    ensures var s := run[k];
            && (InUserCode(s, t) ==>
                  (Enabled(s, Enter(t, c)) <==>
                   !s.conns[c].tr.closing && (s.threads[t] == [] || CallsOn(s.live, c) == {})))
            && (TopIsCall(s, t) && Top(s, t).conn == c && Top(s, t).id !in s.waiting ==>
                  (Enabled(s, Enter(t, c)) <==> !s.conns[c].tr.closing))
            && (AdmitVerdict(s.conns[c].tr, s.threads[t], c) == ConnectionIsClosed <==> s.conns[c].tr.closing)
  {
    RunsKeepInv(run, steps, k);
    NoneInFlight(run[k], c);
    if run[k].threads[t] != [] {
      TopDecides(run[k].threads[t], c);
    }
    InnermostDecides([], Udf(0), c);
    hide Inv, IsRun, InUdfSinceLastCall, CallsOn, Busy;
  }

  lemma CloseCheckAt(tr: Tracker, stack: seq<Entry>, c: nat)
    ensures stack != [] && stack[|stack| - 1].Call? && stack[|stack| - 1].conn == c ==>
              CloseCheck(tr, stack, c) == ClosedFromOwnCall
    ensures stack == [] || stack[|stack| - 1].Udf? ==>
              CloseCheck(tr, stack, c) ==
              if HasCallOn(stack, c) then ClosedFromUdf
              else if tr.isClosed || tr.closing then AlreadyClosed
              else if stack != [] && tr.inFlight != 0 then ClosedFromUdf
              else CloseStarts
  {
    InnermostDecides([], Udf(0), c);
    if stack != [] {
      TopDecides(stack, c);
    }
    hide InUdfSinceLastCall;
  }

  /** close() raises inside a call on the connection, with the message for a UDF if the thread is in one.
      Otherwise it starts unless the connection is closed or closing, except from a UDF while the
      connection has unfinished calls. */
  lemma CloseStartsIff(run: seq<State>, steps: seq<Step>, k: nat, t: nat, c: nat)
    requires IsRun(run, steps) && Init(run[0]) && k < |run| && t < |run[k].threads| && c < |run[k].conns|
    ensures var s := run[k];
            var verdict := CloseCheck(s.conns[c].tr, s.threads[t], c);
            && (TopIsCall(s, t) && Top(s, t).conn == c ==> verdict == ClosedFromOwnCall)
            && (InUserCode(s, t) ==>
                  verdict == if HasCallOn(s.threads[t], c) then ClosedFromUdf
                             else if s.conns[c].tr.isClosed || s.conns[c].tr.closing then AlreadyClosed
                             else if s.threads[t] != [] && CallsOn(s.live, c) != {} then ClosedFromUdf
                             else CloseStarts)
  {
    RunsKeepInv(run, steps, k);
    var s := run[k];
    NoneInFlight(s, c);
    CloseCheckAt(s.conns[c].tr, s.threads[t], c);
    hide Inv, IsRun, CloseCheck, CallsOn, Busy, HasCallOn;
  }

  /** In particular after an aborted close(): user code may call the connection again; it is refused only
      in a UDF, and only while the connection has unfinished calls. */
  lemma AbortedCloseAdmits(s: State, c: nat, t: nat)
    requires Inv(s) && InWait(s, c) && InUserCode(Apply(s, AbortClose(c)), t)
    ensures Enabled(Apply(s, AbortClose(c)), Enter(t, c)) <==>
            (CallsOn(s.live, c) == {} || s.threads[t] == [])
  {
    if s.threads[t] != [] {
      TopDecides(s.threads[t], c);
    }
  }

  /** A thread that is in a UDF is refused close(), or has nothing to wait for. */
  lemma UdfNeverWaitsInClose(run: seq<State>, steps: seq<Step>, k: nat, c: nat)
    requires IsRun(run, steps) && Init(run[0]) && k < |run| && InWait(run[k], c)
    ensures var t := run[k].conns[c].closer.value.thread;
            t < |run[k].threads| && (run[k].threads[t] != [] ==> Enabled(run[k], BeginTeardown(c)))
  {
    RunsKeepInv(run, steps, k);
    assert CloserWaitsOutside(run[k], c);
  }
}
