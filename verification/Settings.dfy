/** Connection settings that wait for the next query (src_py/connection.py).

  A setter only stores its value; the next query moves all stored values to the native connection
  before it runs. Setters and queries on any number of threads interleave at the two locks.
 */
module Settings {
  import opened Wrappers

  const UINT64_LIMIT := 0x1_0000_0000_0000_0000

  class PendingSettings {
    /** Native setter name -> value, and what the native connection has been told. */
    var pending: map<string, int>
    var native: map<string, int>

    constructor ()
      ensures pending == map[] && native == map[]
    {
      pending, native := map[], map[];
    }

    method Queue(setter: string, value: int) returns (ok: bool)
      modifies this`pending
      ensures ok <==> 0 <= value < UINT64_LIMIT
      ensures pending == if ok then old(pending)[setter := value] else old(pending)
    {
      ok := 0 <= value < UINT64_LIMIT;
      if ok {
        pending := pending[setter := value];
      }
    }

    /** Take everything that is stored, then tell the native connection one by one. */
    method ApplyPending()
      modifies this
      ensures pending == map[]
      ensures native == old(native) + old(pending)
    {
      var rest := pending;
      pending := map[];
      while rest != map[]
        invariant pending == map[]
        invariant forall k :: k in rest ==> k in old(pending) && rest[k] == old(pending)[k]
        invariant forall k :: k in native <==> k in old(native) || (k in old(pending) && k !in rest)
        invariant forall k :: k in native ==>
                    native[k] == if k in old(pending) && k !in rest then old(pending)[k] else old(native)[k]
        decreases |rest|
      {
        var setter :| setter in rest;
        native := native[setter := rest[setter]];
        rest := rest - {setter};
      }
    }
  }

  // ---------- The interleavings ----------

  /** A stored value and the time at which it was stored. */
  datatype Stored = Stored(value: int, time: nat)

  /** A query: not begun; begun; holding the apply lock; with the stored values taken; ready to run. */
  datatype Stage = Idle | Begun | Locked | Taken | Ready

  /** floor: for each setter that had returned when the query began, the time of its latest value. */
  datatype Query = Query(stage: Stage, floor: map<string, nat>)

  /** taken: values taken by the holder of the apply lock and not yet handed on. latest: the time of
      the value stored last for each setter. */
  datatype State = State(pending: map<string, Stored>, taken: map<string, Stored>, native: map<string, Stored>,
                         holder: Option<nat>, queries: seq<Query>, latest: map<string, nat>, clock: nat)

  datatype Step =
    | Store(setter: string, value: int)
    | Begin(t: nat)
    | Lock(t: nat)
    | Take(t: nat)
    | HandOn(t: nat, setter: string)
    | Unlock(t: nat)
    | Run(t: nat)

  ghost predicate At(s: State, t: nat, stage: Stage) {
    t < |s.queries| && s.queries[t].stage == stage
  }

  ghost predicate Enabled(s: State, step: Step) {
    match step
    case Store(_, _) => true
    case Begin(t) => At(s, t, Idle)
    case Lock(t) => At(s, t, Begun) && s.holder == None
    case Take(t) => At(s, t, Locked)
    case HandOn(t, setter) => At(s, t, Taken) && setter in s.taken
    case Unlock(t) => At(s, t, Taken) && s.taken == map[]
    case Run(t) => At(s, t, Ready)
  }

  ghost function SetStage(s: State, t: nat, stage: Stage): State
    requires t < |s.queries|
  {
    s.(queries := s.queries[t := s.queries[t].(stage := stage)])
  }

  ghost function Apply(s: State, step: Step): State
    requires Enabled(s, step)
  {
    match step
    case Store(setter, value) =>
      s.(pending := s.pending[setter := Stored(value, s.clock)], latest := s.latest[setter := s.clock],
         clock := s.clock + 1)
    case Begin(t) => s.(queries := s.queries[t := Query(Begun, s.latest)])
    case Lock(t) => SetStage(s, t, Locked).(holder := Some(t))
    case Take(t) => SetStage(s, t, Taken).(taken := s.pending, pending := map[])
    case HandOn(t, setter) => s.(native := s.native[setter := s.taken[setter]], taken := s.taken - {setter})
    case Unlock(t) => SetStage(s, t, Ready).(holder := None)
    case Run(t) => SetStage(s, t, Idle)
  }

  ghost predicate Init(s: State) {
    s.pending == map[] && s.taken == map[] && s.native == map[] && s.latest == map[] && s.holder == None &&
    forall t :: 0 <= t < |s.queries| ==> s.queries[t].stage == Idle
  }

  ghost predicate IsRun(run: seq<State>, steps: seq<Step>) {
    && |run| == |steps| + 1 && Init(run[0])
    && forall k :: 0 <= k < |steps| ==> Enabled(run[k], steps[k]) && run[k + 1] == Apply(run[k], steps[k])
  }

  // ---------- The invariant ----------

  /** For one setter: what is stored is newer than what is being handed on, which is newer than what
      the native connection has; and the newest of the three is the latest value. */
  ghost predicate SetterOk(s: State, k: string) {
    && (k in s.pending ==> k in s.latest && s.pending[k].time == s.latest[k])
    && (k in s.taken ==>
            k in s.latest && s.taken[k].time <= s.latest[k] && (k !in s.pending ==> s.taken[k].time == s.latest[k]))
    && (k in s.native ==> k in s.latest && s.native[k].time <= s.latest[k])
    && (k in s.taken && k in s.pending ==> s.taken[k].time < s.pending[k].time)
    && (k in s.taken && k in s.native ==> s.native[k].time < s.taken[k].time)
    && (k in s.pending && k in s.native ==> s.native[k].time < s.pending[k].time)
    && (k in s.latest && k !in s.pending && k !in s.taken ==> k in s.native && s.native[k].time == s.latest[k])
    && (k in s.latest ==> s.latest[k] < s.clock)
  }

  ghost predicate NativeHas(s: State, k: string, floor: nat) {
    k in s.native && floor <= s.native[k].time
  }

  ghost predicate QueryOk(s: State, t: nat, q: Query) {
    && (s.holder == Some(t) <==> q.stage == Locked || q.stage == Taken)
    && (q.stage != Idle ==> forall k :: k in q.floor ==> k in s.latest && q.floor[k] <= s.latest[k])
    && (q.stage == Taken ==> forall k :: k in q.floor ==>
          NativeHas(s, k, q.floor[k]) || (k in s.taken && q.floor[k] <= s.taken[k].time))
    && (q.stage == Ready ==> forall k :: k in q.floor ==> NativeHas(s, k, q.floor[k]))
  }

  ghost predicate LockOk(s: State) {
    && (s.holder.Some? ==> s.holder.value < |s.queries|)
    && (s.taken != map[] ==> s.holder.Some? && s.holder.value < |s.queries| && s.queries[s.holder.value].stage == Taken)
  }

  ghost predicate Inv(s: State) {
    && (forall k :: SetterOk(s, k))
    && (forall t :: 0 <= t < |s.queries| ==> QueryOk(s, t, s.queries[t]))
    && LockOk(s)
  }

  lemma StepKeepsSetter(s: State, step: Step, k: string)
    requires LockOk(s) && SetterOk(s, k) && Enabled(s, step)
    requires step.Take? ==> QueryOk(s, step.t, s.queries[step.t])
    ensures SetterOk(Apply(s, step), k)
    ensures k in s.native ==> k in Apply(s, step).native && s.native[k].time <= Apply(s, step).native[k].time
  {
  }

  lemma StepKeepsFloor(s: State, step: Step, t: nat, k: string)
    requires SetterOk(s, k) && LockOk(s) && Enabled(s, step) && t < |s.queries| && QueryOk(s, t, s.queries[t])
    requires !step.Store? ==> QueryOk(s, step.t, s.queries[step.t])
    requires |Apply(s, step).queries| == |s.queries|
    ensures var s', q := Apply(s, step), Apply(s, step).queries[t];
            && (q.stage != Idle && k in q.floor ==> k in s'.latest && q.floor[k] <= s'.latest[k])
            && (q.stage == Taken && k in q.floor ==>
                  NativeHas(s', k, q.floor[k]) || (k in s'.taken && q.floor[k] <= s'.taken[k].time))
            && (q.stage == Ready && k in q.floor ==> NativeHas(s', k, q.floor[k]))
  {
  }

  lemma StepKeepsQuery(s: State, step: Step, t: nat)
    requires Inv(s) && Enabled(s, step) && t < |s.queries|
    ensures |Apply(s, step).queries| == |s.queries| && QueryOk(Apply(s, step), t, Apply(s, step).queries[t])
  {
    var s', q := Apply(s, step), Apply(s, step).queries[t];
    assert QueryOk(s, t, s.queries[t]);
    assert !step.Store? ==> QueryOk(s, step.t, s.queries[step.t]);
    forall k | k in q.floor
      ensures q.stage != Idle ==> k in s'.latest && q.floor[k] <= s'.latest[k]
      ensures q.stage == Taken ==> NativeHas(s', k, q.floor[k]) || (k in s'.taken && q.floor[k] <= s'.taken[k].time)
      ensures q.stage == Ready ==> NativeHas(s', k, q.floor[k])
    {
      StepKeepsFloor(s, step, t, k);
    }
  }

  lemma StepKeepsInv(s: State, step: Step)
    requires Inv(s) && Enabled(s, step)
    ensures Inv(Apply(s, step))
  {
    forall t: nat | t < |s.queries| ensures QueryOk(Apply(s, step), t, Apply(s, step).queries[t]) {
      StepKeepsQuery(s, step, t);
    }
    assert !step.Store? ==> QueryOk(s, step.t, s.queries[step.t]);
    forall k ensures SetterOk(Apply(s, step), k) {
      StepKeepsSetter(s, step, k);
    }
  }

  lemma {:induction false} RunsKeepInv(run: seq<State>, steps: seq<Step>, k: nat)
    requires IsRun(run, steps) && k < |run|
    ensures Inv(run[k])
  {
    if k > 0 {
      RunsKeepInv(run, steps, k - 1);
      StepKeepsInv(run[k - 1], steps[k - 1]);
    }
  }

  // ---------- What the settings promise ----------

  /** st is what the call of the setter at step m has stored. */
  ghost predicate StoredAt(run: seq<State>, steps: seq<Step>, m: nat, setter: string, st: Stored) {
    m < |steps| && m < |run| && steps[m] == Store(setter, st.value) && run[m].clock == st.time
  }

  /** All values were stored by calls of their setters before step k. */
  ghost predicate Sourced(run: seq<State>, steps: seq<Step>, k: nat, values: map<string, Stored>) {
    forall setter :: setter in values ==> HasSource(run, steps, k, setter, values[setter])
  }

  ghost predicate HasSource(run: seq<State>, steps: seq<Step>, k: nat, setter: string, st: Stored) {
    exists m: nat :: m < k && StoredAt(run, steps, m, setter, st)
  }

  lemma SourcedLater(run: seq<State>, steps: seq<Step>, k: nat, values: map<string, Stored>)
    requires Sourced(run, steps, k, values)
    ensures Sourced(run, steps, k + 1, values)
  {
    forall setter | setter in values ensures HasSource(run, steps, k + 1, setter, values[setter]) {
      assert HasSource(run, steps, k, setter, values[setter]);
      var m: nat :| m < k && StoredAt(run, steps, m, setter, values[setter]);
    }
  }

  /** Every value is one that was there before, or the one that is stored. */
  ghost predicate From(values: map<string, Stored>, a: map<string, Stored>, b: map<string, Stored>) {
    forall k :: k in values ==> (k in a && values[k] == a[k]) || (k in b && values[k] == b[k])
  }

  lemma StepMovesValues(s: State, step: Step)
    requires Enabled(s, step)
    ensures var s' := Apply(s, step);
            && From(s'.pending, s.pending,
                    if step.Store? then map[step.setter := Stored(step.value, s.clock)] else map[])
            && From(s'.taken, s.taken, s.pending)
            && From(s'.native, s.native, s.taken)
  {
  }

  lemma SourcedFrom(run: seq<State>, steps: seq<Step>, k: nat, values: map<string, Stored>,
      a: map<string, Stored>, b: map<string, Stored>)
    requires Sourced(run, steps, k, a) && Sourced(run, steps, k, b) && From(values, a, b)
    ensures Sourced(run, steps, k, values)
  {
    hide HasSource;
  }

  /** No value is made up or changed on its way: what is stored, taken or native was passed to its setter. */
  lemma {:induction false} ValuesAreStored(run: seq<State>, steps: seq<Step>, k: nat)
    requires IsRun(run, steps) && k < |run|
    ensures Sourced(run, steps, k, run[k].pending)
    ensures Sourced(run, steps, k, run[k].taken)
    ensures Sourced(run, steps, k, run[k].native)
  {
    if k > 0 {
      var s, step := run[k - 1], steps[k - 1];
      var stored := if step.Store? then map[step.setter := Stored(step.value, s.clock)] else map[];
      assert Sourced(run, steps, k, stored) by {
        if step.Store? {
          assert StoredAt(run, steps, k - 1, step.setter, stored[step.setter]);
        }
      }
      assert Enabled(s, step) && run[k] == Apply(s, step);
      hide *;
      ValuesAreStored(run, steps, k - 1);
      StepMovesValues(s, step);
      SourcedLater(run, steps, k - 1, s.pending);
      SourcedLater(run, steps, k - 1, s.taken);
      SourcedLater(run, steps, k - 1, s.native);
      SourcedFrom(run, steps, k, run[k].pending, s.pending, stored);
      SourcedFrom(run, steps, k, run[k].taken, s.taken, s.pending);
      SourcedFrom(run, steps, k, run[k].native, s.native, s.taken);
    }
  }

  lemma {:induction false} ClockRises(run: seq<State>, steps: seq<Step>, i: nat, j: nat)
    requires IsRun(run, steps) && i <= j < |run|
    ensures run[i].clock <= run[j].clock
    ensures i < j && steps[i].Store? ==> run[i].clock < run[j].clock
  {
    if i < j {
      ClockRises(run, steps, i, j - 1);
      assert run[j] == Apply(run[j - 1], steps[j - 1]);
    }
  }

  lemma {:induction false} LatestRises(run: seq<State>, steps: seq<Step>, i: nat, j: nat, setter: string)
    requires IsRun(run, steps) && i < j < |run| && steps[i].Store? && steps[i].setter == setter
    ensures setter in run[j].latest && run[i].clock <= run[j].latest[setter]
  {
    assert run[j] == Apply(run[j - 1], steps[j - 1]) && Enabled(run[j - 1], steps[j - 1]);
    hide IsRun, Enabled;
    if i < j - 1 {
      LatestRises(run, steps, i, j - 1, setter);
      ClockRises(run, steps, i, j - 1);
    }
  }

  lemma {:induction false} NativeTimeRises(run: seq<State>, steps: seq<Step>, i: nat, j: nat, setter: string)
    requires IsRun(run, steps) && i <= j < |run| && setter in run[i].native
    ensures setter in run[j].native && run[i].native[setter].time <= run[j].native[setter].time
  {
    if i < j {
      NativeTimeRises(run, steps, i, j - 1, setter);
      RunsKeepInv(run, steps, j - 1);
      assert SetterOk(run[j - 1], setter);
      assert !steps[j - 1].Store? ==> QueryOk(run[j - 1], steps[j - 1].t, run[j - 1].queries[steps[j - 1].t]);
      StepKeepsSetter(run[j - 1], steps[j - 1], setter);
    }
  }

  lemma OlderWasEarlier(run: seq<State>, steps: seq<Step>, a: nat, b: nat)
    requires IsRun(run, steps) && a < |steps| && b < |steps| && steps[b].Store? && run[a].clock <= run[b].clock
    ensures a <= b
  {
    if b < a {
      ClockRises(run, steps, b, a);
    }
  }

  /** An older value never overwrites a newer one: what the native connection has at j was passed to the
      setter by the same call as what it has at i, or by a later one. */
  lemma NativeNeverGoesBack(run: seq<State>, steps: seq<Step>, i: nat, j: nat, setter: string)
    requires IsRun(run, steps) && i <= j < |run| && setter in run[i].native
    ensures setter in run[j].native
    ensures exists a: nat, b: nat :: a <= b && a < i && b < j
              && StoredAt(run, steps, a, setter, run[i].native[setter])
              && StoredAt(run, steps, b, setter, run[j].native[setter])
  {
    NativeTimeRises(run, steps, i, j, setter);
    ValuesAreStored(run, steps, i);
    ValuesAreStored(run, steps, j);
    assert HasSource(run, steps, i, setter, run[i].native[setter]);
    assert HasSource(run, steps, j, setter, run[j].native[setter]);
    var a: nat :| a < i && StoredAt(run, steps, a, setter, run[i].native[setter]);
    var b: nat :| b < j && StoredAt(run, steps, b, setter, run[j].native[setter]);
    OlderWasEarlier(run, steps, a, b);
  }

  ghost predicate StaysBegun(run: seq<State>, t: nat, i: nat, j: nat) {
    forall k :: i <= k <= j < |run| ==> t < |run[k].queries| && run[k].queries[t].stage != Idle
  }

  lemma {:induction false} FloorIsKept(run: seq<State>, steps: seq<Step>, t: nat, i: nat, j: nat)
    requires IsRun(run, steps) && i <= j < |run| && StaysBegun(run, t, i, j)
    ensures run[j].queries[t].floor == run[i].queries[t].floor
  {
    if i < j {
      FloorIsKept(run, steps, t, i, j - 1);
      assert run[j] == Apply(run[j - 1], steps[j - 1]);
    }
  }

  /** A query that began at step i, after the call of a setter at step r had returned, runs at step j
      with the value of that call or of a later one. */
  lemma QueriesSeeReturnedSetters(run: seq<State>, steps: seq<Step>, t: nat, r: nat, i: nat, j: nat, setter: string)
    requires IsRun(run, steps) && r < i < j < |steps|
    requires steps[r].Store? && steps[r].setter == setter && steps[i] == Begin(t) && steps[j] == Run(t)
    requires StaysBegun(run, t, i + 1, j)
    ensures setter in run[j].native
    ensures exists m: nat :: r <= m < j && StoredAt(run, steps, m, setter, run[j].native[setter])
  {
    QueriesAreFresh(run, steps, t, r, i, j, setter);
    ValuesAreStored(run, steps, j);
    assert HasSource(run, steps, j, setter, run[j].native[setter]);
    var m: nat :| m < j && StoredAt(run, steps, m, setter, run[j].native[setter]);
    OlderWasEarlier(run, steps, r, m);
  }

  lemma QueriesAreFresh(run: seq<State>, steps: seq<Step>, t: nat, r: nat, i: nat, j: nat, setter: string)
    requires IsRun(run, steps) && r < i < j < |steps|
    requires steps[r].Store? && steps[r].setter == setter && steps[i] == Begin(t) && steps[j] == Run(t)
    requires StaysBegun(run, t, i + 1, j)
    ensures setter in run[j].native && run[r].clock <= run[j].native[setter].time
  {
    LatestRises(run, steps, r, i, setter);
    FloorIsKept(run, steps, t, i + 1, j);
    RunsKeepInv(run, steps, j);
    assert run[i + 1] == Apply(run[i], steps[i]);
    assert QueryOk(run[j], t, run[j].queries[t]);
  }

  // ---------- Every query gets to run ----------

  ghost function StagesLeft(stage: Stage): nat {
    match stage
    case Idle => 0
    case Begun => 4
    case Locked => 3
    case Taken => 2
    case Ready => 1
  }

  /** Nobody is in the way of the query on u. */
  ghost predicate MayGoOn(s: State, u: nat) {
    u < |s.queries| && s.queries[u].stage != Idle && (At(s, u, Begun) ==> s.holder.None?)
  }

  /** The lock is free, or will be once the query on u runs. */
  ghost predicate FreesLock(s: State, u: nat) {
    s.holder.None? || (u < |s.queries| && s.queries[u].stage != Ready)
  }

  /** What the query on u does next; the values may be handed on in any order. */
  lemma NextStep(s: State, u: nat) returns (step: Step)
    requires Inv(s) && MayGoOn(s, u)
    ensures Enabled(s, step) && !step.Store? && step.t == u && (step.Run? <==> At(s, u, Ready))
    ensures var s' := Apply(s, step);
            && |s'.queries| == |s.queries|
            && (forall t :: 0 <= t < |s.queries| && t != u ==> s'.queries[t] == s.queries[t])
            && (!step.Run? ==> MayGoOn(s', u))
            && (FreesLock(s, u) ==> if step.Run? then s'.holder.None? else FreesLock(s', u))
            && (StagesLeft(s'.queries[u].stage) < StagesLeft(s.queries[u].stage) ||
                (s'.queries[u] == s.queries[u] && |s'.taken| < |s.taken|))
  {
    assert QueryOk(s, u, s.queries[u]);
    match s.queries[u].stage
    case Begun => step := Lock(u);
    case Locked => step := Take(u);
    case Ready => step := Run(u);
    case Taken =>
      if s.taken == map[] {
        step := Unlock(u);
      } else {
        var setter :| setter in s.taken;
        step := HandOn(u, setter);
      }
  }

  lemma RunGoesOn(run: seq<State>, steps: seq<Step>, step: Step)
    requires IsRun(run, steps) && Enabled(run[|run| - 1], step)
    ensures IsRun(run + [Apply(run[|run| - 1], step)], steps + [step])
  {
    hide Enabled, Apply, Init;
    var more, do := run + [Apply(run[|run| - 1], step)], steps + [step];
    assert more[0] == run[0];
    forall k | 0 <= k < |do| ensures Enabled(more[k], do[k]) && more[k + 1] == Apply(more[k], do[k]) {
      assert more[k] == run[k] && (k < |steps| ==> do[k] == steps[k] && more[k + 1] == run[k + 1]);
    }
  }

  lemma {:induction false} GoesOn(run: seq<State>, steps: seq<Step>, u: nat)
      returns (run': seq<State>, steps': seq<Step>)
    requires IsRun(run, steps) && MayGoOn(run[|run| - 1], u)
    ensures IsRun(run', steps') && steps < steps' && steps'[|steps'| - 1] == Run(u)
    ensures var s, s' := run[|run| - 1], run'[|run'| - 1];
            && |s'.queries| == |s.queries|
            && (forall t :: 0 <= t < |s.queries| && t != u ==> s'.queries[t] == s.queries[t])
            && (FreesLock(s, u) ==> s'.holder.None?)
    decreases StagesLeft(run[|run| - 1].queries[u].stage), |run[|run| - 1].taken|
  {
    var s := run[|run| - 1];
    RunsKeepInv(run, steps, |run| - 1);
    var step := NextStep(s, u);
    RunGoesOn(run, steps, step);
    hide Enabled, Apply, Inv, MayGoOn, FreesLock, At;
    run', steps' := run + [Apply(s, step)], steps + [step];
    if !step.Run? {
      run', steps' := GoesOn(run', steps', u);
    }
  }

  /** From every state that can be reached, without further setters or queries, a query that has begun can
      run: first the one that holds the lock it waits for, if there is one, and then it. */
  lemma EveryQueryCanRun(run: seq<State>, steps: seq<Step>, t: nat) returns (run': seq<State>, steps': seq<Step>)
    requires IsRun(run, steps) && t < |run[|run| - 1].queries| && run[|run| - 1].queries[t].stage != Idle
    ensures IsRun(run', steps') && steps < steps' && steps'[|steps'| - 1] == Run(t)
  {
    var s := run[|run| - 1];
    run', steps' := run, steps;
    if At(s, t, Begun) && s.holder.Some? {
      RunsKeepInv(run, steps, |run| - 1);
      assert QueryOk(s, s.holder.value, s.queries[s.holder.value]);
      run', steps' := GoesOn(run, steps, s.holder.value);
    }
    run', steps' := GoesOn(run', steps', t);
  }
}
