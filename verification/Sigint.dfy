/** The SIGINT guard (class SigintInterruptsQuery, src_cpp/py_connection.cpp).

  While the main thread waits in the engine, a SIGINT handler interrupts the query of the guard that is
  installed. The handler may run on any thread at any time, also long after it was delivered, so each
  atomic access of the guard and of the handler is one step here, in any interleaving. Only the main
  thread installs a guard; guards nest on it, because a UDF may start another query.
 */
module Sigint {
  import opened Wrappers

  datatype Disposition = Unset | PythonsHandler | OurHandler

  /** What a guard on the main thread does next. */
  datatype GuardStep =
    | CheckThread | ReadPrevious | SetTarget | Install | ClearAfterFailure
    | Query
    | Restore | ClearTarget | AwaitHandlers

  datatype Guard = Guard(context: nat, next: GuardStep, installed: bool)

  /** What a running handler does next. */
  datatype HandlerStep =
    | CountIn | LoadTarget | Interrupt(loaded: Option<nat>) | NoteReceived | CopyPrevious
    | CountOut(chained: Disposition) | Chain(chained: Disposition)

  datatype Handler = Handler(onMain: bool, next: HandlerStep)

  datatype State = State(target: Option<nat>, inFlight: int, received: bool, disposition: Disposition,
                         previous: Disposition, guards: seq<Guard>, handlers: map<nat, Handler>)

  datatype Step =
    | Construct(context: nat)
    | GuardMoves(ok: bool)
    | Destroy
    | UserSetsHandler
    | Deliver(id: nat, onMain: bool)
    | HandlerMoves(id: nat)

  ghost predicate Top(s: State, next: GuardStep) {
    s.guards != [] && s.guards[|s.guards| - 1].next == next
  }

  /** A handler on the main thread runs to completion before the main thread goes on. */
  ghost predicate MainRuns(s: State) {
    forall id :: id in s.handlers ==> !s.handlers[id].onMain
  }

  ghost predicate CountedIn(next: HandlerStep) {
    !next.CountIn? && !next.Chain?
  }

  ghost function InFlight(handlers: map<nat, Handler>): set<nat> {
    set id | id in handlers && CountedIn(handlers[id].next)
  }

  // ---------- The steps ----------

  /** canFail: whether installing the handler may fail, which leaves the guard off. */
  ghost predicate Enabled(s: State, step: Step, canFail: bool) {
    match step
    case Construct(_) => MainRuns(s) && (s.guards == [] || Top(s, Query))
    case GuardMoves(ok) =>
      && MainRuns(s) && s.guards != [] && !Top(s, Query)
      && (Top(s, Install) && !ok ==> canFail)
      && (Top(s, AwaitHandlers) ==> s.inFlight == 0)
    case Destroy => MainRuns(s) && Top(s, Query)
    case UserSetsHandler => MainRuns(s) && (s.guards == [] || Top(s, Query))
    case Deliver(id, onMain) => s.disposition == OurHandler && id !in s.handlers
    case HandlerMoves(id) => id in s.handlers
  }

  ghost function SetTop(s: State, g: Guard): State
    requires s.guards != []
  {
    s.(guards := s.guards[|s.guards| - 1 := g])
  }

  ghost function DropTop(s: State): State
    requires s.guards != []
  {
    s.(guards := s.guards[..|s.guards| - 1])
  }

  /** The constructor and the destructor. `ok` is the outcome of the check for the main thread with
      Python's default handler, and of the two calls of sigaction in the constructor. */
  ghost function MoveGuard(s: State, ok: bool): State
    requires s.guards != [] && !Top(s, Query)
  {
    var g := s.guards[|s.guards| - 1];
    match g.next
    case CheckThread => SetTop(s, g.(next := if s.target != None || !ok then Query else ReadPrevious))
    case ReadPrevious =>
      if ok then SetTop(s, g.(next := SetTarget)).(previous := s.disposition) else SetTop(s, g.(next := Query))
    case SetTarget => SetTop(s, g.(next := Install)).(received := false, target := Some(g.context))
    case Install =>
      if ok then SetTop(s, g.(next := Query, installed := true)).(disposition := OurHandler)
      else SetTop(s, g.(next := ClearAfterFailure))
    case ClearAfterFailure => SetTop(s, g.(next := Query)).(target := None)
    case Restore => SetTop(s, g.(next := ClearTarget)).(disposition := s.previous)
    case ClearTarget => SetTop(s, g.(next := AwaitHandlers)).(target := None)
    case AwaitHandlers => DropTop(s)
  }

  ghost function SetNext(s: State, id: nat, next: HandlerStep): State
    requires id in s.handlers
  {
    s.(handlers := s.handlers[id := s.handlers[id].(next := next)])
  }

  ghost function MoveHandler(s: State, id: nat): State
    requires id in s.handlers
  {
    match s.handlers[id].next
    case CountIn => SetNext(s, id, LoadTarget).(inFlight := s.inFlight + 1)
    case LoadTarget => SetNext(s, id, Interrupt(s.target))
    case Interrupt(_) => SetNext(s, id, NoteReceived)
    case NoteReceived => SetNext(s, id, CopyPrevious).(received := true)
    case CopyPrevious => SetNext(s, id, CountOut(s.previous))
    case CountOut(chained) => SetNext(s, id, Chain(chained)).(inFlight := s.inFlight - 1)
    case Chain(_) => s.(handlers := s.handlers - {id})
  }

  ghost function Apply(s: State, step: Step): State
    requires Enabled(s, step, true)
  {
    match step
    case Construct(context) => s.(guards := s.guards + [Guard(context, CheckThread, false)])
    case GuardMoves(ok) => MoveGuard(s, ok)
    case Destroy =>
      var g := s.guards[|s.guards| - 1];
      if g.installed then SetTop(s, g.(next := Restore)) else DropTop(s)
    case UserSetsHandler => s.(disposition := PythonsHandler)
    case Deliver(id, onMain) => s.(handlers := s.handlers[id := Handler(onMain, CountIn)])
    case HandlerMoves(id) => MoveHandler(s, id)
  }

  const START := State(None, 0, false, PythonsHandler, Unset, [], map[])

  ghost predicate IsRun(run: seq<State>, steps: seq<Step>, canFail: bool) {
    && |run| == |steps| + 1 && run[0] == START
    && forall k :: 0 <= k < |steps| ==> Enabled(run[k], steps[k], canFail) && run[k + 1] == Apply(run[k], steps[k])
  }

  // ---------- What the guard promises ----------

  /** A handler about to call interrupt() does so on a context whose guard's destructor has not
      returned. The caller may release the context once it has. */
  ghost predicate Safe(s: State) {
    forall id :: id in s.handlers && s.handlers[id].next.Interrupt? && s.handlers[id].next.loaded.Some? ==>
      ContextInUse(s, s.handlers[id].next.loaded.value)
  }

  ghost predicate ContextInUse(s: State, context: nat) {
    exists k :: 0 <= k < |s.guards| && s.guards[k].context == context
  }

  ghost predicate OneInstalled(s: State) {
    forall j, k :: 0 <= j < k < |s.guards| ==> !(s.guards[j].installed && s.guards[k].installed)
  }

  /** Every handler that has copied the previous handler passes the signal on to Python's. */
  ghost predicate ReachesPython(s: State) {
    forall id :: id in s.handlers ==> PassesOn(s.handlers[id].next)
  }

  ghost predicate PassesOn(next: HandlerStep) {
    next.CountOut? || next.Chain? ==> next.chained == PythonsHandler
  }

  // ---------- The invariant ----------

  /** The guard has set target, or will wait for the handlers that may have read it. */
  ghost predicate Owns(g: Guard) {
    g.installed || g.next == Install || g.next == ClearAfterFailure
  }

  ghost predicate HoldsTarget(g: Guard) {
    Owns(g) && g.next != AwaitHandlers
  }

  ghost predicate Ending(next: GuardStep) {
    next.Restore? || next.ClearTarget? || next.AwaitHandlers?
  }

  ghost predicate MayInstall(g: Guard) {
    Owns(g) || g.next == ReadPrevious || g.next == SetTarget
  }

  ghost predicate GuardOk(g: Guard, target: Option<nat>) {
    && (g.installed ==> g.next == Query || Ending(g.next))
    && (Ending(g.next) ==> g.installed)
    && (HoldsTarget(g) ==> target == Some(g.context))
  }

  ghost predicate HoldsTargetAt(guards: seq<Guard>, k: int) {
    0 <= k < |guards| && HoldsTarget(guards[k])
  }

  /** Guards below the top are running their query; one of them at most owns the statics. */
  ghost predicate GuardsOk(s: State) {
    && (forall k :: 0 <= k < |s.guards| ==> GuardOk(s.guards[k], s.target))
    && (forall k :: 0 <= k < |s.guards| - 1 ==> s.guards[k].next == Query)
    && (forall j, k :: 0 <= j < k < |s.guards| ==> !(Owns(s.guards[j]) && MayInstall(s.guards[k])))
    && (s.target != None ==> exists k :: HoldsTargetAt(s.guards, k))
  }

  /** Every context a counted-in handler has loaded belongs to a guard that will wait for it. This is
      what a failing installation breaks. */
  ghost predicate LoadsOwned(s: State) {
    && (forall k :: 0 <= k < |s.guards| ==> s.guards[k].next != ClearAfterFailure)
    && (forall id :: id in s.handlers && s.handlers[id].next.Interrupt? && s.handlers[id].next.loaded.Some? ==>
          OwnedContext(s, s.handlers[id].next.loaded.value))
  }

  ghost predicate OwnedContext(s: State, context: nat) {
    exists k :: 0 <= k < |s.guards| && s.guards[k].context == context && Owns(s.guards[k])
  }

  ghost predicate HandlerInstalledBy(guards: seq<Guard>, k: int) {
    0 <= k < |guards| && guards[k].installed && (guards[k].next == Query || guards[k].next == Restore)
  }

  ghost predicate NeedsPrevious(g: Guard) {
    Owns(g) || g.next == SetTarget
  }

  ghost predicate DispositionOk(s: State) {
    && s.disposition != Unset
    && (s.disposition == OurHandler ==> exists k :: HandlerInstalledBy(s.guards, k))
    && (forall k :: 0 <= k < |s.guards| && NeedsPrevious(s.guards[k]) ==> s.previous == PythonsHandler)
    && (s.handlers != map[] ==> s.previous == PythonsHandler)
  }

  ghost predicate Inv(s: State) {
    GuardsOk(s) && DispositionOk(s) && ReachesPython(s) && s.inFlight == |InFlight(s.handlers)|
  }

  // ---------- Every step keeps the invariant ----------

  lemma CountWithout(handlers: map<nat, Handler>, id: nat)
    ensures |InFlight(handlers)| ==
            |InFlight(handlers - {id})| + (if id in handlers && CountedIn(handlers[id].next) then 1 else 0)
  {
    assert InFlight(handlers) ==
           InFlight(handlers - {id}) + if id in handlers && CountedIn(handlers[id].next) then {id} else {};
  }

  lemma CountChange(handlers: map<nat, Handler>, id: nat, h: Handler)
    ensures |InFlight(handlers[id := h])| == |InFlight(handlers - {id})| + (if CountedIn(h.next) then 1 else 0)
  {
    CountWithout(handlers[id := h], id);
    assert handlers[id := h] - {id} == handlers - {id};
  }

  lemma HandlerStepKeepsCount(s: State, step: Step)
    requires s.inFlight == |InFlight(s.handlers)| && Enabled(s, step, true) && (step.Deliver? || step.HandlerMoves?)
    ensures Apply(s, step).inFlight == |InFlight(Apply(s, step).handlers)|
  {
    CountWithout(s.handlers, step.id);
    if step.Deliver? || !s.handlers[step.id].next.Chain? {
      CountChange(s.handlers, step.id, Apply(s, step).handlers[step.id]);
    }
  }

  lemma HandlerStepKeepsGuards(s: State, step: Step)
    requires GuardsOk(s) && Enabled(s, step, true) && (step.Deliver? || step.HandlerMoves?)
    ensures var s' := Apply(s, step);
            && GuardsOk(s') && s'.guards == s.guards && s'.target == s.target
            && s'.disposition == s.disposition && s'.previous == s.previous
  {
  }

  lemma HandlerStepKeepsDisposition(s: State, step: Step)
    requires GuardsOk(s) && DispositionOk(s) && Enabled(s, step, true) && (step.Deliver? || step.HandlerMoves?)
    ensures DispositionOk(Apply(s, step))
  {
  }

  lemma HandlerStepReachesPython(s: State, step: Step)
    requires DispositionOk(s) && ReachesPython(s) && Enabled(s, step, true) && (step.Deliver? || step.HandlerMoves?)
    ensures ReachesPython(Apply(s, step))
  {
    hide DispositionOk;
    if step.HandlerMoves? {
      PreviousIsPython(s, step.id);
      assert PassesOn(s.handlers[step.id].next);
    }
  }

  lemma PreviousIsPython(s: State, id: nat)
    requires DispositionOk(s) && id in s.handlers
    ensures s.previous == PythonsHandler
  {
  }

  /** The guard that moves is the top one. */
  lemma GuardMoveKeepsEach(s: State, ok: bool, k: nat)
    requires GuardsOk(s) && s.guards != [] && !Top(s, Query) && k < |MoveGuard(s, ok).guards|
    ensures GuardOk(MoveGuard(s, ok).guards[k], MoveGuard(s, ok).target)
  {
    var n := |s.guards| - 1;
    assert GuardOk(s.guards[k], s.target);
    assert k < n ==> !(Owns(s.guards[k]) && MayInstall(s.guards[n])) && MoveGuard(s, ok).guards[k] == s.guards[k];
  }

  lemma GuardMoveKeepsOwner(s: State, ok: bool)
    requires GuardsOk(s) && s.guards != [] && !Top(s, Query) && MoveGuard(s, ok).target != None
    ensures exists k :: HoldsTargetAt(MoveGuard(s, ok).guards, k)
  {
    var s' := MoveGuard(s, ok);
    if s.target == None {
      assert HoldsTargetAt(s'.guards, |s.guards| - 1);
    } else {
      var k :| HoldsTargetAt(s.guards, k);
      assert HoldsTargetAt(s'.guards, k);
    }
  }

  lemma GuardMoveKeepsGuards(s: State, ok: bool)
    requires GuardsOk(s) && s.guards != [] && !Top(s, Query)
    ensures GuardsOk(MoveGuard(s, ok))
  {
    var s' := MoveGuard(s, ok);
    forall k: nat | k < |s'.guards| ensures GuardOk(s'.guards[k], s'.target) {
      GuardMoveKeepsEach(s, ok, k);
    }
    if s'.target != None {
      GuardMoveKeepsOwner(s, ok);
    }
    assert forall k :: 0 <= k < |s.guards| - 1 ==> s'.guards[k] == s.guards[k];
  }

  lemma OtherStepKeepsGuards(s: State, step: Step)
    requires GuardsOk(s) && Enabled(s, step, true) && (step.Construct? || step.Destroy? || step.UserSetsHandler?)
    ensures GuardsOk(Apply(s, step))
  {
    var s' := Apply(s, step);
    if s.target != None {
      var k :| HoldsTargetAt(s.guards, k);
      assert HoldsTargetAt(s'.guards, k);
    }
  }

  lemma GuardMoveKeepsDisposition(s: State, ok: bool)
    requires GuardsOk(s) && DispositionOk(s) && s.guards != [] && !Top(s, Query)
    ensures DispositionOk(MoveGuard(s, ok))
  {
    var s' := MoveGuard(s, ok);
    var n := |s.guards| - 1;
    var g := s.guards[n];
    assert GuardOk(g, s.target);
    assert forall k :: 0 <= k < n ==> s'.guards[k] == s.guards[k];
    if s.disposition == OurHandler {
      var k :| HandlerInstalledBy(s.guards, k);
      assert g.next != Restore ==> HandlerInstalledBy(s'.guards, k);
    }
    if s'.disposition == OurHandler && s.disposition != OurHandler {
      assert HandlerInstalledBy(s'.guards, n);
    }
  }

  lemma OtherStepKeepsDisposition(s: State, step: Step)
    requires DispositionOk(s) && Enabled(s, step, true) && (step.Construct? || step.Destroy? || step.UserSetsHandler?)
    ensures DispositionOk(Apply(s, step))
  {
    var s' := Apply(s, step);
    if s'.disposition == OurHandler {
      var k :| HandlerInstalledBy(s.guards, k);
      assert HandlerInstalledBy(s'.guards, k);
    }
  }

  lemma GuardSideKeepsHandlers(s: State, step: Step)
    requires Enabled(s, step, true) && !step.Deliver? && !step.HandlerMoves?
    ensures Apply(s, step).handlers == s.handlers && Apply(s, step).inFlight == s.inFlight
  {
  }

  lemma GuardSideKeepsInv(s: State, step: Step)
    requires GuardsOk(s) && DispositionOk(s) && Enabled(s, step, true) && !step.Deliver? && !step.HandlerMoves?
    ensures GuardsOk(Apply(s, step)) && DispositionOk(Apply(s, step))
  {
    hide GuardsOk, DispositionOk;
    if step.GuardMoves? {
      GuardMoveKeepsGuards(s, step.ok);
      GuardMoveKeepsDisposition(s, step.ok);
    } else {
      OtherStepKeepsGuards(s, step);
      OtherStepKeepsDisposition(s, step);
    }
  }

  lemma StepKeepsInv(s: State, step: Step)
    requires Inv(s) && Enabled(s, step, true)
    ensures Inv(Apply(s, step))
  {
    if step.Deliver? || step.HandlerMoves? {
      HandlerStepKeepsCount(s, step);
      HandlerStepKeepsGuards(s, step);
      HandlerStepKeepsDisposition(s, step);
      HandlerStepReachesPython(s, step);
    } else {
      GuardSideKeepsHandlers(s, step);
      GuardSideKeepsInv(s, step);
    }
  }

  lemma NoneCountedIn(s: State, id: nat)
    requires s.inFlight == 0 == |InFlight(s.handlers)| && id in s.handlers
    ensures !CountedIn(s.handlers[id].next)
  {
    assert id in InFlight(s.handlers) <==> CountedIn(s.handlers[id].next);
  }

  /** With no failing installation, a guard that owned the target keeps it until its destructor has
      waited for every handler that is counted in. */
  lemma GuardMoveKeepsLoads(s: State, ok: bool)
    requires GuardsOk(s) && LoadsOwned(s) && s.inFlight == |InFlight(s.handlers)|
    requires Enabled(s, GuardMoves(ok), false)
    ensures LoadsOwned(MoveGuard(s, ok))
  {
    if Top(s, AwaitHandlers) {
      forall id | id in s.handlers ensures !CountedIn(s.handlers[id].next) {
        NoneCountedIn(s, id);
      }
    } else {
      forall context | OwnedContext(s, context) ensures OwnedContext(MoveGuard(s, ok), context) {
        OwnerMoves(s, ok, context);
      }
    }
  }

  lemma OwnerMoves(s: State, ok: bool, context: nat)
    requires GuardsOk(s) && Enabled(s, GuardMoves(ok), false) && !Top(s, AwaitHandlers) && !Top(s, ClearAfterFailure)
    requires OwnedContext(s, context)
    ensures OwnedContext(MoveGuard(s, ok), context)
  {
    var s' := MoveGuard(s, ok);
    var k :| 0 <= k < |s.guards| && s.guards[k].context == context && Owns(s.guards[k]);
    assert GuardOk(s.guards[k], s.target);
    assert s'.guards[k].context == context && Owns(s'.guards[k]);
  }

  lemma StepKeepsLoads(s: State, step: Step)
    requires Inv(s) && LoadsOwned(s) && Enabled(s, step, false)
    ensures LoadsOwned(Apply(s, step))
  {
    match step
    case GuardMoves(ok) => GuardMoveKeepsLoads(s, ok);
    case HandlerMoves(id) => HandlerMoveKeepsLoads(s, id);
    case _ => OtherStepKeepsLoads(s, step);
  }

  lemma HandlerMoveKeepsLoads(s: State, id: nat)
    requires GuardsOk(s) && LoadsOwned(s) && id in s.handlers
    ensures LoadsOwned(MoveHandler(s, id))
  {
  }

  lemma OtherStepKeepsLoads(s: State, step: Step)
    requires GuardsOk(s) && LoadsOwned(s) && Enabled(s, step, false) && !step.GuardMoves? && !step.HandlerMoves?
    ensures LoadsOwned(Apply(s, step))
  {
    var s' := Apply(s, step);
    forall context | OwnedContext(s, context) ensures OwnedContext(s', context) {
      var k :| 0 <= k < |s.guards| && s.guards[k].context == context && Owns(s.guards[k]);
      assert k < |s'.guards| && s'.guards[k].context == context && Owns(s'.guards[k]);
    }
  }

  // ---------- The theorems ----------

  lemma {:induction false} RunsKeepInv(run: seq<State>, steps: seq<Step>, canFail: bool, k: nat)
    requires IsRun(run, steps, canFail) && k < |run|
    ensures Inv(run[k]) && (!canFail ==> LoadsOwned(run[k]))
  {
    if k == 0 {
      assert InFlight(START.handlers) == {};
    } else {
      RunsKeepInv(run, steps, canFail, k - 1);
      StepKeepsInv(run[k - 1], steps[k - 1]);
      if !canFail {
        StepKeepsLoads(run[k - 1], steps[k - 1]);
      }
    }
  }

  /** In every interleaving at most one guard is installed, and every signal that was delivered while
      one was is passed on to Python's handler, never back to the guard's own. */
  lemma OneGuardAndPythonHears(run: seq<State>, steps: seq<Step>, canFail: bool, k: nat)
    requires IsRun(run, steps, canFail) && k < |run|
    ensures OneInstalled(run[k]) && ReachesPython(run[k])
  {
    RunsKeepInv(run, steps, canFail, k);
  }

  lemma SafeWithoutFailure(run: seq<State>, steps: seq<Step>, k: nat)
    requires IsRun(run, steps, false) && k < |run|
    ensures Safe(run[k])
  {
    RunsKeepInv(run, steps, false, k);
    forall context | OwnedContext(run[k], context) ensures ContextInUse(run[k], context) {
    }
  }

  /** Whenever no guard is installed the handler is Python's. */
  lemma HandlerIsPutBack(run: seq<State>, steps: seq<Step>, canFail: bool, k: nat)
    requires IsRun(run, steps, canFail) && k < |run|
    requires forall g :: 0 <= g < |run[k].guards| ==> !run[k].guards[g].installed
    ensures run[k].disposition == PythonsHandler
  {
    RunsKeepInv(run, steps, canFail, k);
  }

  /** While a query runs under an installed guard, a handler that looks for a query to interrupt finds it. */
  lemma SignalFindsQuery(run: seq<State>, steps: seq<Step>, canFail: bool, k: nat, g: nat, id: nat)
    requires IsRun(run, steps, canFail) && k < |run| && g < |run[k].guards|
    requires run[k].guards[g].installed && run[k].guards[g].next == Query
    requires id in run[k].handlers && run[k].handlers[id].next == LoadTarget
    ensures MoveHandler(run[k], id).handlers[id].next == Interrupt(Some(run[k].guards[g].context))
  {
    RunsKeepInv(run, steps, canFail, k);
    assert GuardOk(run[k].guards[g], run[k].target);
  }

  ghost predicate IsInstalled(s: State, g: nat) {
    g < |s.guards| && s.guards[g].installed
  }

  lemma StepKeepsReceived(s: State, step: Step, g: nat)
    requires GuardsOk(s) && Enabled(s, step, true) && IsInstalled(s, g) && s.received
    ensures Apply(s, step).received
  {
    var top := |s.guards| - 1;
    assert GuardOk(s.guards[g], s.target);
    assert g < top ==> !(Owns(s.guards[g]) && MayInstall(s.guards[top]));
  }

  /** A handler that runs while a guard is installed is noticed by that guard: no other guard takes the note
      back. */
  lemma {:induction false} SignalIsNoticed(run: seq<State>, steps: seq<Step>, canFail: bool, i: nat, j: nat, g: nat,
      id: nat)
    requires IsRun(run, steps, canFail) && i < j < |run| && steps[i] == HandlerMoves(id)
    requires run[i].handlers[id].next == NoteReceived
    requires forall m :: i < m < j ==> IsInstalled(run[m], g)
    ensures run[j].received
  {
    assert run[i + 1] == Apply(run[i], steps[i]);
    if i + 1 < j {
      SignalIsNoticed(run, steps, canFail, i, j - 1, g, id);
      RunsKeepInv(run, steps, canFail, j - 1);
      StepKeepsReceived(run[j - 1], steps[j - 1], g);
    }
  }

  /** A guard that must not or cannot be installed leaves everything as it was: another guard has the
      target, user code has its own handler or runs elsewhere, or the handler cannot be read. */
  lemma GuardStaysOff(s: State, ok: bool)
    requires Enabled(s, GuardMoves(ok), true)
    requires (Top(s, CheckThread) && (s.target != None || !ok)) || (Top(s, ReadPrevious) && !ok)
    ensures var s' := Apply(s, GuardMoves(ok));
            && Top(s', Query) && s'.guards[|s.guards| - 1].installed == s.guards[|s.guards| - 1].installed
            && s' == s.(guards := s'.guards)
            && s'.guards[..|s.guards| - 1] == s.guards[..|s.guards| - 1]
  {
  }

  // ---------- The destructor's wait ----------

  /** The steps a handler has before it. */
  ghost function StepsLeft(next: HandlerStep): nat {
    match next
    case CountIn => 7
    case LoadTarget => 6
    case Interrupt(_) => 5
    case NoteReceived => 4
    case CopyPrevious => 3
    case CountOut(_) => 2
    case Chain(_) => 1
  }

  ghost function AtLeast(handlers: map<nat, Handler>, n: nat): set<nat> {
    set id | id in handlers && StepsLeft(handlers[id].next) >= n
  }

  /** The steps that all handlers have before them: a handler is in as many of the sets as it has. */
  ghost function Left(handlers: map<nat, Handler>): nat {
    LeftFrom(handlers, 7)
  }

  ghost function LeftFrom(handlers: map<nat, Handler>, n: nat): nat {
    if n == 0 then 0 else |AtLeast(handlers, n)| + LeftFrom(handlers, n - 1)
  }

  ghost function Ahead(handlers: map<nat, Handler>, id: nat): nat {
    if id in handlers then StepsLeft(handlers[id].next) else 0
  }

  ghost predicate OthersStay(handlers: map<nat, Handler>, after: map<nat, Handler>, id: nat) {
    forall x :: x != id ==> Ahead(after, x) == Ahead(handlers, x)
  }

  lemma MoveTakesOneStep(s: State, id: nat)
    requires id in s.handlers
    ensures OthersStay(s.handlers, MoveHandler(s, id).handlers, id)
    ensures Ahead(MoveHandler(s, id).handlers, id) == Ahead(s.handlers, id) - 1
  {
  }

  lemma InAtLeast(handlers: map<nat, Handler>, n: nat, id: nat)
    requires n > 0
    ensures id in AtLeast(handlers, n) <==> Ahead(handlers, id) >= n
  {
  }

  lemma AtLeastChanges(handlers: map<nat, Handler>, after: map<nat, Handler>, id: nat, n: nat)
    requires OthersStay(handlers, after, id) && Ahead(after, id) == Ahead(handlers, id) - 1 && n > 0
    ensures |AtLeast(after, n)| == |AtLeast(handlers, n)| - if n == Ahead(handlers, id) then 1 else 0
  {
    hide Ahead, AtLeast;
    forall x ensures x in AtLeast(after, n) <==> Ahead(after, x) >= n {
      InAtLeast(after, n, x);
    }
    forall x ensures x in AtLeast(handlers, n) <==> Ahead(handlers, x) >= n {
      InAtLeast(handlers, n, x);
    }
    if n == Ahead(handlers, id) {
      assert AtLeast(handlers, n) == AtLeast(after, n) + {id};
    } else {
      assert AtLeast(handlers, n) == AtLeast(after, n);
    }
  }

  lemma {:induction false} MoveLowersLeft(s: State, id: nat, n: nat)
    requires id in s.handlers
    ensures LeftFrom(MoveHandler(s, id).handlers, n) ==
            LeftFrom(s.handlers, n) - if n >= Ahead(s.handlers, id) then 1 else 0
  {
    MoveTakesOneStep(s, id);
    hide MoveHandler, Ahead, AtLeast, OthersStay;
    if n > 0 {
      MoveLowersLeft(s, id, n - 1);
      AtLeastChanges(s.handlers, MoveHandler(s, id).handlers, id, n);
    }
  }

  lemma HandlerMoveLowersLeft(s: State, id: nat)
    requires id in s.handlers
    ensures Left(MoveHandler(s, id).handlers) == Left(s.handlers) - 1 && MoveHandler(s, id).guards == s.guards
  {
    hide LeftFrom;
    MoveLowersLeft(s, id, 7);
  }

  ghost predicate Restored(s: State) {
    Top(s, ClearTarget) || Top(s, AwaitHandlers)
  }

  lemma NothingIsDelivered(s: State)
    requires GuardsOk(s) && DispositionOk(s) && Restored(s)
    ensures s.disposition != OurHandler
  {
    var n := |s.guards| - 1;
    assert GuardOk(s.guards[n], s.target);
    if s.disposition == OurHandler {
      var k :| HandlerInstalledBy(s.guards, k);
      assert k < n && Owns(s.guards[k]) && MayInstall(s.guards[n]);
      assert false;
    }
  }

  lemma StepKeepsMainRuns(s: State, step: Step)
    requires GuardsOk(s) && DispositionOk(s) && (Restored(s) ==> MainRuns(s)) && Enabled(s, step, true)
    ensures Restored(Apply(s, step)) ==> MainRuns(Apply(s, step))
  {
    hide GuardsOk, DispositionOk;
    if step.Deliver? {
      if Restored(s) {
        NothingIsDelivered(s);
      }
    } else if !step.HandlerMoves? {
      GuardSideKeepsHandlers(s, step);
      hide Apply;
    }
  }

  /** From the moment the previous handler is back, no handler runs on the main thread. */
  lemma {:induction false} RestoredMainRuns(run: seq<State>, steps: seq<Step>, canFail: bool, k: nat)
    requires IsRun(run, steps, canFail) && k < |run| && Restored(run[k])
    ensures MainRuns(run[k])
  {
    if k > 0 {
      RunsKeepInv(run, steps, canFail, k - 1);
      if Restored(run[k - 1]) {
        RestoredMainRuns(run, steps, canFail, k - 1);
      }
      StepKeepsMainRuns(run[k - 1], steps[k - 1]);
    }
  }

  /** The destructor never waits for a handler on its own thread, and one it waits for can move. */
  lemma WaitIsForOtherThreads(run: seq<State>, steps: seq<Step>, canFail: bool, k: nat)
    requires IsRun(run, steps, canFail) && k < |run|
    requires Top(run[k], AwaitHandlers) && !Enabled(run[k], GuardMoves(true), canFail)
    ensures exists id :: id in run[k].handlers && CountedIn(run[k].handlers[id].next) &&
                         !run[k].handlers[id].onMain && Enabled(run[k], HandlerMoves(id), canFail)
  {
    RunsKeepInv(run, steps, canFail, k);
    RestoredMainRuns(run, steps, canFail, k);
    assert InFlight(run[k].handlers) != {};
    var id :| id in InFlight(run[k].handlers);
  }

  /** As long as the destructor waits, nothing happens but that handlers go on. */
  lemma WaitingStep(s: State, step: Step)
    requires Inv(s) && Top(s, AwaitHandlers) && Enabled(s, step, true) && Top(Apply(s, step), AwaitHandlers)
    ensures step.HandlerMoves? && Left(Apply(s, step).handlers) == Left(s.handlers) - 1
  {
    hide LeftFrom;
    NothingIsDelivered(s);
    if step.HandlerMoves? {
      HandlerMoveLowersLeft(s, step.id);
    }
  }

  lemma RunGoesOn(run: seq<State>, steps: seq<Step>, step: Step, canFail: bool)
    requires IsRun(run, steps, canFail) && Enabled(run[|run| - 1], step, canFail)
    ensures IsRun(run + [Apply(run[|run| - 1], step)], steps + [step], canFail)
  {
    hide Apply;
    var more, do := run + [Apply(run[|run| - 1], step)], steps + [step];
    forall k | 0 <= k < |do| ensures Enabled(more[k], do[k], canFail) && more[k + 1] == Apply(more[k], do[k]) {
      assert more[k] == run[k] && (k < |steps| ==> do[k] == steps[k] && more[k + 1] == run[k + 1]);
    }
  }

  /** A handler that is counted in goes on, and the destructor still waits. */
  lemma OneGoesOn(run: seq<State>, steps: seq<Step>, canFail: bool) returns (run': seq<State>, steps': seq<Step>)
    requires IsRun(run, steps, canFail) && Top(run[|run| - 1], AwaitHandlers)
    requires !Enabled(run[|run| - 1], GuardMoves(true), canFail)
    ensures IsRun(run', steps', canFail) && run <= run' && |run'| == |run| + 1 && Top(run'[|run|], AwaitHandlers)
    ensures Left(run'[|run|].handlers) == Left(run[|run| - 1].handlers) - 1
  {
    var s := run[|run| - 1];
    RunsKeepInv(run, steps, canFail, |run| - 1);
    WaitIsForOtherThreads(run, steps, canFail, |run| - 1);
    var id :| id in s.handlers && Enabled(s, HandlerMoves(id), canFail);
    assert Apply(s, HandlerMoves(id)) == MoveHandler(s, id);
    HandlerMoveLowersLeft(s, id);
    assert Top(MoveHandler(s, id), AwaitHandlers);
    hide *;
    RunGoesOn(run, steps, HandlerMoves(id), canFail);
    run', steps' := run + [MoveHandler(s, id)], steps + [HandlerMoves(id)];
  }

  /** The wait ends: every step that is taken during it is one of those that the handlers had left when it
      began. With WaitIsForOtherThreads, there is a step to take until the destructor goes on. */
  lemma {:induction false} WaitEnds(run: seq<State>, steps: seq<Step>, canFail: bool, k: nat, m: nat)
    requires IsRun(run, steps, canFail) && k <= m < |run|
    requires forall j :: k <= j <= m ==> Top(run[j], AwaitHandlers)
    ensures Left(run[m].handlers) == Left(run[k].handlers) - (m - k)
    decreases m
  {
    hide Left, Apply, Inv, Top;
    if k < m {
      WaitEnds(run, steps, canFail, k, m - 1);
      RunsKeepInv(run, steps, canFail, m - 1);
      assert run[m] == Apply(run[m - 1], steps[m - 1]) && Top(run[m - 1], AwaitHandlers) && Top(run[m], AwaitHandlers);
      WaitingStep(run[m - 1], steps[m - 1]);
    }
  }

  /** From every state of the wait, handlers that go on let the destructor return. */
  lemma {:induction false} WaitCanEnd(run: seq<State>, steps: seq<Step>, canFail: bool)
      returns (run': seq<State>, steps': seq<Step>)
    requires IsRun(run, steps, canFail) && Top(run[|run| - 1], AwaitHandlers)
    ensures IsRun(run', steps', canFail) && run <= run' && |run'| <= |run| + Left(run[|run| - 1].handlers)
    ensures Top(run'[|run'| - 1], AwaitHandlers) && Enabled(run'[|run'| - 1], GuardMoves(true), canFail)
    decreases Left(run[|run| - 1].handlers)
  {
    assert |run| > 0;
    hide *;
    if Enabled(run[|run| - 1], GuardMoves(true), canFail) {
      run', steps' := run, steps;
    } else {
      run', steps' := OneGoesOn(run, steps, canFail);
      run', steps' := WaitCanEnd(run', steps', canFail);
    }
  }

  ghost predicate Reachable(s: State) {
    exists run, steps :: IsRun(run, steps, true) && run[|run| - 1] == s
  }

  lemma Reach(s: State, step: Step, s': State)
    requires Reachable(s) && Enabled(s, step, true) && Apply(s, step) == s'
    ensures Reachable(s')
  {
    var run, steps :| IsRun(run, steps, true) && run[|run| - 1] == s;
    var run', steps' := run + [s'], steps + [step];
    assert IsRun(run', steps', true);
  }

  /** The four steps of a constructor that installs its guard, or tries to. */
  lemma ReachInstall(context: nat, s: State)
    requires Reachable(s) && s.target == None && s.guards == [] && s.disposition == PythonsHandler && MainRuns(s)
    ensures Reachable(s.(target := Some(context), received := false, previous := PythonsHandler,
                         guards := [Guard(context, Install, false)]))
  {
    var g := Guard(context, CheckThread, false);
    Reach(s, Construct(context), s.(guards := [g]));
    Reach(s.(guards := [g]), GuardMoves(true), s.(guards := [g.(next := ReadPrevious)]));
    var s1 := s.(previous := PythonsHandler, guards := [g.(next := SetTarget)]);
    Reach(s.(guards := [g.(next := ReadPrevious)]), GuardMoves(true), s1);
    Reach(s1, GuardMoves(true),
          s1.(received := false, target := Some(context), guards := [g.(next := Install)]));
  }

  lemma SignalWhileInstalled()
    ensures Reachable(State(Some(1), 0, false, OurHandler, PythonsHandler, [Guard(1, Query, true)],
                            map[0 := Handler(false, CountIn)]))
  {
    assert IsRun([START], [], true);
    ReachInstall(1, START);
    var s := State(Some(1), 0, false, OurHandler, PythonsHandler, [Guard(1, Query, true)], map[]);
    Reach(State(Some(1), 0, false, PythonsHandler, PythonsHandler, [Guard(1, Install, false)], map[]),
      GuardMoves(true), s);
    Reach(s, Deliver(0, false), s.(handlers := map[0 := Handler(false, CountIn)]));
  }

  /** A signal is delivered to another thread while a guard is installed, and its handler is still
      about to start when that guard has gone. */
  lemma LateHandler()
    ensures Reachable(State(None, 0, false, PythonsHandler, PythonsHandler, [], map[0 := Handler(false, CountIn)]))
  {
    SignalWhileInstalled();
    var g := Guard(1, Query, true);
    var s1 := State(Some(1), 0, false, OurHandler, PythonsHandler, [g], map[0 := Handler(false, CountIn)]);
    var s2 := s1.(guards := [g.(next := Restore)]);
    Reach(s1, Destroy, s2);
    var s3 := s2.(disposition := PythonsHandler, guards := [g.(next := ClearTarget)]);
    Reach(s2, GuardMoves(true), s3);
    var s4 := s3.(target := None, guards := [g.(next := AwaitHandlers)]);
    Reach(s3, GuardMoves(true), s4);
    Reach(s4, GuardMoves(true), s4.(guards := []));
  }

  /** It then counts in and reads the target of a second guard that is about to be installed. */
  lemma LateHandlerLoads()
    ensures Reachable(State(Some(2), 1, false, PythonsHandler, PythonsHandler, [Guard(2, Install, false)],
                            map[0 := Handler(false, Interrupt(Some(2)))]))
  {
    LateHandler();
    var h := Handler(false, CountIn);
    ReachInstall(2, State(None, 0, false, PythonsHandler, PythonsHandler, [], map[0 := h]));
    var s1 := State(Some(2), 0, false, PythonsHandler, PythonsHandler, [Guard(2, Install, false)], map[0 := h]);
    var s2 := s1.(inFlight := 1, handlers := map[0 := h.(next := LoadTarget)]);
    Reach(s1, HandlerMoves(0), s2);
    Reach(s2, HandlerMoves(0), s2.(handlers := map[0 := h.(next := Interrupt(Some(2)))]));
  }

  /** The installation fails, and the guard is gone, without waiting, before the handler calls
      interrupt(). */
  lemma UnsafeWithFailure()
    ensures exists s :: Reachable(s) && !Safe(s)
  {
    LateHandlerLoads();
    var g := Guard(2, Install, false);
    var s3 := State(Some(2), 1, false, PythonsHandler, PythonsHandler, [g],
        map[0 := Handler(false, Interrupt(Some(2)))]);
    var s4 := s3.(guards := [g.(next := ClearAfterFailure)]);
    Reach(s3, GuardMoves(false), s4);
    var s5 := s4.(target := None, guards := [g.(next := Query)]);
    Reach(s4, GuardMoves(true), s5);
    var s6 := s5.(guards := []);
    Reach(s5, Destroy, s6);
    assert s6.handlers[0].next.loaded == Some(2);
  }

  /** SIGINT safety holds of every interleaving exactly when the installing call of sigaction cannot
      fail: its failure branch lets go of the context without waiting for handlers. */
  lemma SafeIffInstallingCannotFail(canFail: bool)
    ensures (forall run, steps, k :: IsRun(run, steps, canFail) && 0 <= k < |run| ==> Safe(run[k])) <==> !canFail
  {
    if canFail {
      UnsafeWithFailure();
      var s :| Reachable(s) && !Safe(s);
      var run, steps :| IsRun(run, steps, true) && run[|run| - 1] == s;
      assert !Safe(run[|run| - 1]);
    } else {
      forall run, steps, k | IsRun(run, steps, canFail) && 0 <= k < |run| ensures Safe(run[k]) {
        SafeWithoutFailure(run, steps, k);
      }
    }
  }
}
