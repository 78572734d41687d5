/** The call guard as a protocol between any number of threads and connections
    (src_py/connection.py).

  A call runs inside the engine only while it holds its connection's slot, which stands for the lock
  the engine takes for a query together with the connection's lock on its prepared statements. While
  a call holds the slot the engine may run UDFs, on any thread; user code in a UDF may start further
  calls. Calls are numbered in order of admission, and the number is the ghost stamp on which the
  deadlock argument rests.
 */
module CallProtocol {
  import opened Wrappers
  import opened CallTracking

  /** The thread that is inside close(), and whether it has passed the wait. */
  datatype Closer = Closer(thread: nat, tearing: bool)

  datatype Conn = Conn(tr: Tracker, slot: Option<nat>, closer: Option<Closer>, teardowns: nat)

  /** Where the entry of an unfinished call is, and its connection. */
  datatype Place = Place(thread: nat, index: nat, conn: nat)

  /** waiting: the calls blocked on the slot of their connection. */
  datatype State = State(threads: seq<seq<Entry>>, conns: seq<Conn>, live: map<nat, Place>,
                         waiting: set<nat>, clock: nat)

  datatype Step =
    | Enter(t: nat, c: nat)
    | Request(t: nat)
    | Grant(t: nat)
    | Release(t: nat)
    | Leave(t: nat)
    | StartUdf(t: nat, owner: nat)
    | EndUdf(t: nat)
    | BeginClose(t: nat, c: nat)
    | BeginTeardown(c: nat)
    | AbortClose(c: nat)
    | FinishTeardown(c: nat)
    | FailTeardown(c: nat)

  // ---------- Reading a state ----------

  ghost predicate At(s: State, p: Place, id: nat) {
    p.thread < |s.threads| && p.index < |s.threads[p.thread]| && s.threads[p.thread][p.index] == Call(p.conn, id)
  }

  ghost function CallsOn(live: map<nat, Place>, c: nat): set<nat> {
    set id | id in live && live[id].conn == c
  }

  /** The lowest call below entry i that is not separated from it by a UDF marker. */
  ghost function Base(stack: seq<Entry>, i: nat): (b: nat)
    requires i < |stack|
    ensures b <= i
    ensures forall k :: b <= k < i ==> stack[k].Call?
    ensures b > 0 ==> stack[b - 1].Udf?
  {
    if i == 0 || stack[i - 1].Udf? then i else Base(stack, i - 1)
  }

  /** Where the run of calls that x is part of starts on the stack of its thread. */
  ghost function BaseOf(s: State, x: nat): nat
    requires x in s.live && At(s, s.live[x], x)
  {
    Base(s.threads[s.live[x].thread], s.live[x].index)
  }

  /** Both calls are part of the same uninterrupted run of calls on one thread. */
  ghost predicate SameRun(s: State, x: nat, y: nat)
    requires x in s.live && y in s.live && At(s, s.live[x], x) && At(s, s.live[y], y)
  {
    s.live[x].thread == s.live[y].thread && BaseOf(s, x) == BaseOf(s, y)
  }

  ghost predicate Busy(s: State, t: nat) {
    exists c :: 0 <= c < |s.conns| && s.conns[c].closer.Some? && s.conns[c].closer.value.thread == t
  }

  ghost predicate TopIsCall(s: State, t: nat) {
    t < |s.threads| && s.threads[t] != [] && s.threads[t][|s.threads[t]| - 1].Call?
  }

  ghost function Top(s: State, t: nat): Entry
    requires t < |s.threads| && s.threads[t] != []
  {
    s.threads[t][|s.threads[t]| - 1]
  }

  /** User code runs on t: outside every call, or in a UDF. */
  ghost predicate InUserCode(s: State, t: nat) {
    t < |s.threads| && !Busy(s, t) && (s.threads[t] == [] || Top(s, t).Udf?)
  }

  ghost predicate OwnsNoUdf(s: State, id: nat) {
    forall t, i :: 0 <= t < |s.threads| && 0 <= i < |s.threads[t]| ==> s.threads[t][i] != Udf(id)
  }

  /** The slot is held by a call of the run on top of the stack. */
  ghost predicate RunHolds(stack: seq<Entry>, slot: Option<nat>) {
    slot.Some? && stack != [] &&
    exists k :: Base(stack, |stack| - 1) <= k < |stack| && stack[k].Call? && stack[k].id == slot.value
  }

  // ---------- The steps ----------

  ghost function SetConn(s: State, c: nat, conn: Conn): State
    requires c < |s.conns|
  {
    s.(conns := s.conns[c := conn])
  }

  ghost function Push(s: State, t: nat, e: Entry): State
    requires t < |s.threads|
  {
    s.(threads := s.threads[t := s.threads[t] + [e]])
  }

  ghost function Pop(s: State, t: nat): State
    requires t < |s.threads| && s.threads[t] != []
  {
    s.(threads := s.threads[t := s.threads[t][..|s.threads[t]| - 1]])
  }

  /** A call starts: from user code, or from a call on the same connection. */
  ghost predicate CanEnter(s: State, t: nat, c: nat) {
    && t < |s.threads| && c < |s.conns|
    && (InUserCode(s, t) || (TopIsCall(s, t) && Top(s, t).conn == c && Top(s, t).id !in s.waiting))
    && AdmitVerdict(s.conns[c].tr, s.threads[t], c) == Admitted
  }

  ghost function DoEnter(s: State, t: nat, c: nat): State
    requires CanEnter(s, t, c)
  {
    var tr := s.conns[c].tr;
    Push(SetConn(s, c, s.conns[c].(tr := tr.(inFlight := tr.inFlight + 1))), t, Call(c, s.clock))
    .(live := s.live[s.clock := Place(t, |s.threads[t]|, c)], clock := s.clock + 1)
  }

  /** The innermost call of t asks for the slot, and is blocked until it is granted. */
  ghost predicate CanRequest(s: State, t: nat) {
    TopIsCall(s, t) && Top(s, t).conn < |s.conns| && Top(s, t).id !in s.waiting
      && !RunHolds(s.threads[t], s.conns[Top(s, t).conn].slot)
  }

  ghost function DoRequest(s: State, t: nat): State
    requires CanRequest(s, t)
  {
    s.(waiting := s.waiting + {Top(s, t).id})
  }

  ghost predicate CanGrant(s: State, t: nat) {
    TopIsCall(s, t) && Top(s, t).conn < |s.conns| && Top(s, t).id in s.waiting &&
    s.conns[Top(s, t).conn].slot == None
  }

  ghost function DoGrant(s: State, t: nat): State
    requires CanGrant(s, t)
  {
    var top := Top(s, t);
    SetConn(s, top.conn, s.conns[top.conn].(slot := Some(top.id))).(waiting := s.waiting - {top.id})
  }

  /** A call leaves the engine; the UDFs its query ran have returned by then. */
  ghost predicate CanRelease(s: State, t: nat) {
    TopIsCall(s, t) && Top(s, t).conn < |s.conns| &&
    s.conns[Top(s, t).conn].slot == Some(Top(s, t).id) && OwnsNoUdf(s, Top(s, t).id)
  }

  ghost function DoRelease(s: State, t: nat): State
    requires CanRelease(s, t)
  {
    SetConn(s, Top(s, t).conn, s.conns[Top(s, t).conn].(slot := None))
  }

  /** A call ends: its entry is popped and it is no longer counted. */
  ghost predicate CanLeave(s: State, t: nat) {
    TopIsCall(s, t) && Top(s, t).conn < |s.conns| && Top(s, t).id !in s.waiting &&
    s.conns[Top(s, t).conn].slot != Some(Top(s, t).id)
  }

  ghost function DoLeave(s: State, t: nat): State
    requires CanLeave(s, t)
  {
    var top := Top(s, t);
    var tr := s.conns[top.conn].tr;
    Pop(SetConn(s, top.conn, s.conns[top.conn].(tr := tr.(inFlight := tr.inFlight - 1))), t)
    .(live := s.live - {top.id})
  }

  /** The engine runs a UDF for the query of owner, on any thread that is not blocked. */
  ghost predicate CanStartUdf(s: State, t: nat, owner: nat) {
    && t < |s.threads| && !Busy(s, t) && (TopIsCall(s, t) ==> Top(s, t).id !in s.waiting)
    && owner in s.live && s.live[owner].conn < |s.conns| && s.conns[s.live[owner].conn].slot == Some(owner)
  }

  ghost predicate CanEndUdf(s: State, t: nat) {
    InUserCode(s, t) && s.threads[t] != []
  }

  ghost predicate CanBeginClose(s: State, t: nat, c: nat) {
    c < |s.conns| && InUserCode(s, t) && CloseCheck(s.conns[c].tr, s.threads[t], c) == CloseStarts
  }

  ghost function DoBeginClose(s: State, t: nat, c: nat): State
    requires CanBeginClose(s, t, c)
  {
    SetConn(s, c, s.conns[c].(tr := s.conns[c].tr.(closing := true), closer := Some(Closer(t, false))))
  }

  ghost predicate InWait(s: State, c: nat) {
    c < |s.conns| && s.conns[c].closer.Some? && !s.conns[c].closer.value.tearing
  }

  ghost predicate InTeardown(s: State, c: nat) {
    c < |s.conns| && s.conns[c].closer.Some? && s.conns[c].closer.value.tearing
  }

  ghost predicate CanBeginTeardown(s: State, c: nat) {
    InWait(s, c) && s.conns[c].tr.inFlight == 0
  }

  ghost function DoBeginTeardown(s: State, c: nat): State
    requires CanBeginTeardown(s, c)
  {
    var conn := s.conns[c];
    SetConn(s, c, conn.(closer := Some(conn.closer.value.(tearing := true)), teardowns := conn.teardowns + 1))
  }

  /** An exception aborts the wait. */
  ghost function DoAbortClose(s: State, c: nat): State
    requires InWait(s, c)
  {
    SetConn(s, c, s.conns[c].(tr := s.conns[c].tr.(closing := false), closer := None))
  }

  ghost function DoFinishTeardown(s: State, c: nat): State
    requires InTeardown(s, c)
  {
    SetConn(s, c, s.conns[c].(tr := s.conns[c].tr.(isClosed := true), closer := None))
  }

  /** An exception leaves teardown: the connection stays half closed. */
  ghost function DoFailTeardown(s: State, c: nat): State
    requires InTeardown(s, c)
  {
    SetConn(s, c, s.conns[c].(closer := None))
  }

  ghost predicate Enabled(s: State, step: Step) {
    match step
    case Enter(t, c) => CanEnter(s, t, c)
    case Request(t) => CanRequest(s, t)
    case Grant(t) => CanGrant(s, t)
    case Release(t) => CanRelease(s, t)
    case Leave(t) => CanLeave(s, t)
    case StartUdf(t, owner) => CanStartUdf(s, t, owner)
    case EndUdf(t) => CanEndUdf(s, t)
    case BeginClose(t, c) => CanBeginClose(s, t, c)
    case BeginTeardown(c) => CanBeginTeardown(s, c)
    case AbortClose(c) => InWait(s, c)
    case FinishTeardown(c) => InTeardown(s, c)
    case FailTeardown(c) => InTeardown(s, c)
  }

  ghost function Apply(s: State, step: Step): State
    requires Enabled(s, step)
  {
    match step
    case Enter(t, c) => DoEnter(s, t, c)
    case Request(t) => DoRequest(s, t)
    case Grant(t) => DoGrant(s, t)
    case Release(t) => DoRelease(s, t)
    case Leave(t) => DoLeave(s, t)
    case StartUdf(t, owner) => Push(s, t, Udf(owner))
    case EndUdf(t) => Pop(s, t)
    case BeginClose(t, c) => DoBeginClose(s, t, c)
    case BeginTeardown(c) => DoBeginTeardown(s, c)
    case AbortClose(c) => DoAbortClose(s, c)
    case FinishTeardown(c) => DoFinishTeardown(s, c)
    case FailTeardown(c) => DoFailTeardown(s, c)
  }

  ghost predicate Init(s: State) {
    && (forall t :: 0 <= t < |s.threads| ==> s.threads[t] == [])
    && (forall c :: 0 <= c < |s.conns| ==> s.conns[c] == Conn(Tracker(false, false, 0), None, None, 0))
    && s.live == map[] && s.waiting == {}
  }

  /** A run: a state before each step and one after the last. */
  ghost predicate IsRun(run: seq<State>, steps: seq<Step>) {
    && |run| == |steps| + 1
    && forall k :: 0 <= k < |steps| ==> Enabled(run[k], steps[k]) && run[k + 1] == Apply(run[k], steps[k])
  }

  // ---------- The invariant ----------

  ghost predicate Located(s: State) {
    && (forall id :: id in s.live ==> At(s, s.live[id], id) && s.live[id].conn < |s.conns| && id < s.clock)
    && (forall t, i :: 0 <= t < |s.threads| && 0 <= i < |s.threads[t]| ==> EntryOk(s, t, i, s.threads[t][i]))
  }

  ghost predicate EntryOk(s: State, t: nat, i: nat, e: Entry) {
    && Stamp(e) < s.clock
    && (e.Call? ==> e.id in s.live && s.live[e.id] == Place(t, i, e.conn))
  }

  /** Stamps rise up a stack, and a call directly above a call is on the same connection. */
  ghost predicate StackOrdered(stack: seq<Entry>) {
    && (forall i, j :: 0 <= i < j < |stack| && stack[j].Call? ==> Stamp(stack[i]) < stack[j].id)
    && (forall i, j :: 0 <= i && j == i + 1 < |stack| && stack[i].Call? && stack[j].Call? ==>
          stack[i].conn == stack[j].conn)
  }

  ghost predicate Ordered(s: State) {
    forall t :: 0 <= t < |s.threads| ==> StackOrdered(s.threads[t])
  }

  ghost function Stamp(e: Entry): nat {
    if e.Call? then e.id else e.owner
  }

  ghost predicate Holds(s: State, y: nat) {
    y in s.live && y !in s.waiting && s.live[y].conn < |s.conns| && s.conns[s.live[y].conn].slot == Some(y)
  }

  ghost predicate Slots(s: State) {
    && (forall c :: 0 <= c < |s.conns| && s.conns[c].slot.Some? ==>
          Holds(s, s.conns[c].slot.value) && s.live[s.conns[c].slot.value].conn == c)
    && (forall t, i :: 0 <= t < |s.threads| && 0 <= i < |s.threads[t]| && s.threads[t][i].Udf? ==>
          Holds(s, s.threads[t][i].owner))
  }

  ghost predicate Waits(s: State) {
    forall x :: x in s.waiting ==>
      x in s.live && s.live[x].thread < |s.threads| && s.live[x].index == |s.threads[s.live[x].thread]| - 1 &&
      s.live[x].conn < |s.conns| && !RunHolds(s.threads[s.live[x].thread], s.conns[s.live[x].conn].slot)
  }

  /** The guard: the connection of a call started by a UDF was idle when the call was admitted, so
      every other unfinished call on it is younger. */
  ghost predicate IdleAtBase(s: State) {
    forall t, i, id ::
      && 0 <= t < |s.threads| && StartedByUdf(s.threads[t], i)
      && id in s.live && s.live[id].conn == s.threads[t][i].conn
      ==> s.threads[t][i].id <= id
  }

  ghost predicate StartedByUdf(stack: seq<Entry>, i: int) {
    0 < i < |stack| && stack[i].Call? && stack[i - 1].Udf?
  }

  ghost predicate Counted(s: State) {
    forall c :: 0 <= c < |s.conns| ==> s.conns[c].tr.inFlight == |CallsOn(s.live, c)|
  }

  ghost predicate Closes(s: State) {
    forall c :: 0 <= c < |s.conns| ==>
      var conn := s.conns[c];
      && (conn.closer.Some? ==> conn.tr.closing && !conn.tr.isClosed && conn.closer.value.thread < |s.threads|
                                && (conn.closer.value.tearing <==> conn.teardowns == 1))
      && (conn.tr.isClosed ==> conn.teardowns == 1)
      && (conn.tr.closing && conn.closer.None? ==> conn.teardowns == 1)
      && conn.teardowns <= 1
      && (conn.teardowns == 1 ==> conn.tr.closing && conn.tr.inFlight == 0)
  }

  /** A thread inside close() is in user code and closes one connection; inside a UDF it never waits. */
  ghost predicate Closers(s: State) {
    && (forall c :: 0 <= c < |s.conns| && s.conns[c].closer.Some? && s.conns[c].closer.value.thread < |s.threads| ==>
          CloserWaitsOutside(s, c))
    && (forall c, d ::
          && 0 <= c < |s.conns| && 0 <= d < |s.conns|
          && s.conns[c].closer.Some? && s.conns[d].closer.Some?
          && s.conns[c].closer.value.thread == s.conns[d].closer.value.thread
          ==> c == d)
  }

  ghost predicate CloserWaitsOutside(s: State, c: nat)
    requires c < |s.conns| && s.conns[c].closer.Some? && s.conns[c].closer.value.thread < |s.threads|
  {
    var stack := s.threads[s.conns[c].closer.value.thread];
    stack != [] ==> stack[|stack| - 1].Udf? && s.conns[c].tr.inFlight == 0
  }

  ghost predicate Inv(s: State) {
    Located(s) && Ordered(s) && Slots(s) && Waits(s) && IdleAtBase(s) && Counted(s) && Closes(s) && Closers(s)
  }

  // ---------- Every step keeps the invariant ----------

  lemma InitInv(s: State)
    requires Init(s)
    ensures Inv(s)
  {
  }

  lemma PushOrdered(stack: seq<Entry>, e: Entry)
    requires StackOrdered(stack)
    requires e.Call? ==> forall i :: 0 <= i < |stack| ==> Stamp(stack[i]) < e.id
    requires e.Call? && stack != [] && stack[|stack| - 1].Call? ==> stack[|stack| - 1].conn == e.conn
    ensures StackOrdered(stack + [e])
  {
  }

  lemma EnterLocated(s: State, t: nat, c: nat)
    requires Located(s) && CanEnter(s, t, c)
    ensures Located(DoEnter(s, t, c))
  {
  }

  lemma EnterOrdered(s: State, t: nat, c: nat)
    requires Located(s) && Ordered(s) && CanEnter(s, t, c)
    ensures Ordered(DoEnter(s, t, c))
  {
  }

  lemma CallStarts(live: map<nat, Place>, id: nat, p: Place, c: nat)
    requires id !in live
    ensures |CallsOn(live[id := p], c)| == |CallsOn(live, c)| + (if p.conn == c then 1 else 0)
  {
    assert CallsOn(live[id := p], c) == CallsOn(live, c) + if p.conn == c then {id} else {};
  }

  lemma CallEnds(live: map<nat, Place>, id: nat, c: nat)
    requires id in live
    ensures |CallsOn(live - {id}, c)| == |CallsOn(live, c)| - (if live[id].conn == c then 1 else 0)
  {
    assert CallsOn(live, c) == CallsOn(live - {id}, c) + if live[id].conn == c then {id} else {};
  }

  lemma EnterCounted(s: State, t: nat, c: nat)
    requires Located(s) && Counted(s) && CanEnter(s, t, c)
    ensures Counted(DoEnter(s, t, c))
  {
    forall d ensures |CallsOn(DoEnter(s, t, c).live, d)| == |CallsOn(s.live, d)| + (if d == c then 1 else 0) {
      CallStarts(s.live, s.clock, Place(t, |s.threads[t]|, c), d);
    }
  }

  lemma EnterIdle(s: State, t: nat, c: nat)
    requires Located(s) && Counted(s) && IdleAtBase(s) && CanEnter(s, t, c)
    ensures IdleAtBase(DoEnter(s, t, c))
  {
    var s' := DoEnter(s, t, c);
    var n := |s.threads[t]|;
    if n > 0 && s.threads[t][n - 1].Udf? {
      assert NoCallAbove(s.threads[t], n - 1, c);
      assert CallsOn(s.live, c) == {};
      assert forall id :: id in s.live && s.live[id].conn == c ==> id in CallsOn(s.live, c);
    }
    forall u, i, id |
      && 0 <= u < |s'.threads| && StartedByUdf(s'.threads[u], i)
      && id in s'.live && s'.live[id].conn == s'.threads[u][i].conn
      ensures s'.threads[u][i].id <= id
    {
      if u != t || i < n {
        assert StartedByUdf(s.threads[u], i) && s'.threads[u][i] == s.threads[u][i];
        assert EntryOk(s, u, i, s.threads[u][i]);
      }
    }
  }

  lemma EnterSlots(s: State, t: nat, c: nat)
    requires Located(s) && Slots(s) && Waits(s) && CanEnter(s, t, c)
    ensures Slots(DoEnter(s, t, c)) && Waits(DoEnter(s, t, c))
  {
    var s' := DoEnter(s, t, c);
    assert forall y :: Holds(s, y) ==> Holds(s', y);
    forall u, i | 0 <= u < |s'.threads| && 0 <= i < |s'.threads[u]| && s'.threads[u][i].Udf?
      ensures Holds(s', s'.threads[u][i].owner)
    {
      assert s.threads[u][i] == s'.threads[u][i];
    }
    forall x | x in s'.waiting ensures s.live[x].thread != t {
      assert At(s, s.live[x], x);
    }
  }

  lemma EnterKeepsInv(s: State, t: nat, c: nat)
    requires Inv(s) && CanEnter(s, t, c)
    ensures Inv(DoEnter(s, t, c))
  {
    EnterLocated(s, t, c);
    EnterOrdered(s, t, c);
    EnterCounted(s, t, c);
    EnterIdle(s, t, c);
    EnterSlots(s, t, c);
    EnterCloses(s, t, c);
  }

  lemma TopCallNotBusy(s: State, t: nat)
    requires Closes(s) && Closers(s) && TopIsCall(s, t)
    ensures !Busy(s, t)
  {
  }

  lemma EnterCloses(s: State, t: nat, c: nat)
    requires Closes(s) && Closers(s) && CanEnter(s, t, c)
    ensures Closes(DoEnter(s, t, c)) && Closers(DoEnter(s, t, c))
  {
  }

  // Popping an entry, for Leave and EndUdf.

  lemma PopLocated(s: State, s': State, t: nat)
    requires Located(s) && t < |s.threads| && s.threads[t] != []
    requires s'.threads == Pop(s, t).threads && |s'.conns| == |s.conns| && s'.clock == s.clock
    requires s'.live == if Top(s, t).Call? then s.live - {Top(s, t).id} else s.live
    ensures Located(s')
  {
  }

  lemma PopOrdered(s: State, t: nat)
    requires Ordered(s) && t < |s.threads| && s.threads[t] != []
    ensures Ordered(Pop(s, t))
  {
  }

  lemma PopIdle(s: State, s': State, t: nat)
    requires IdleAtBase(s) && t < |s.threads| && s.threads[t] != []
    requires s'.threads == Pop(s, t).threads
    requires forall id :: id in s'.live ==> id in s.live && s'.live[id] == s.live[id]
    ensures IdleAtBase(s')
  {
  }

  lemma PopCloses(s: State, s': State, t: nat)
    requires Closers(s) && !Busy(s, t) && t < |s.threads| && s.threads[t] != []
    requires s'.threads == Pop(s, t).threads && |s'.conns| == |s.conns|
    requires forall d :: 0 <= d < |s.conns| ==>
               s'.conns[d].closer == s.conns[d].closer &&
               (s.conns[d].tr.inFlight == 0 ==> s'.conns[d].tr.inFlight == 0 || s.conns[d].closer == None)
    ensures Closers(s')
  {
  }

  lemma LeaveKeepsInv(s: State, t: nat)
    requires Inv(s) && CanLeave(s, t)
    ensures Inv(DoLeave(s, t))
  {
    var s' := DoLeave(s, t);
    var n := |s.threads[t]| - 1;
    var top := s.threads[t][n];
    assert EntryOk(s, t, n, top);
    PopLocated(s, s', t);
    PopOrdered(s, t);
    PopIdle(s, s', t);
    LeaveSlots(s, t);
    LeaveCloses(s, t);
  }

  lemma LeaveSlots(s: State, t: nat)
    requires Located(s) && Slots(s) && Waits(s) && CanLeave(s, t)
    ensures Slots(DoLeave(s, t)) && Waits(DoLeave(s, t))
  {
    var s' := DoLeave(s, t);
    var n := |s.threads[t]| - 1;
    assert EntryOk(s, t, n, s.threads[t][n]);
    assert forall y :: Holds(s, y) ==> Holds(s', y);
    forall u, i | 0 <= u < |s'.threads| && 0 <= i < |s'.threads[u]| && s'.threads[u][i].Udf?
      ensures Holds(s', s'.threads[u][i].owner)
    {
      assert s.threads[u][i] == s'.threads[u][i];
    }
    forall x | x in s'.waiting ensures x in s'.live && s.live[x].thread != t {
      assert At(s, s.live[x], x);
    }
  }

  lemma LeaveCloses(s: State, t: nat)
    requires Located(s) && Counted(s) && Closes(s) && Closers(s) && CanLeave(s, t)
    ensures Counted(DoLeave(s, t)) && Closes(DoLeave(s, t)) && Closers(DoLeave(s, t))
  {
    var s' := DoLeave(s, t);
    var top := Top(s, t);
    assert EntryOk(s, t, |s.threads[t]| - 1, top);
    assert top.id in CallsOn(s.live, top.conn);
    forall d ensures |CallsOn(s'.live, d)| == |CallsOn(s.live, d)| - (if d == top.conn then 1 else 0) {
      CallEnds(s.live, top.id, d);
    }
    TopCallNotBusy(s, t);
    PopCloses(s, s', t);
  }

  lemma RequestKeepsInv(s: State, t: nat)
    requires Inv(s) && CanRequest(s, t)
    ensures Inv(DoRequest(s, t))
  {
    var s' := DoRequest(s, t);
    var n := |s.threads[t]| - 1;
    var top := s.threads[t][n];
    SameStacks(s, s');
    assert EntryOk(s, t, n, top);
    assert RunHolds(s.threads[t], Some(top.id)) by {
      assert s.threads[t][n].Call?;
    }
    SlotsKept(s, s');
    SameCloses(s, s');
  }

  /** No stack changes and no call starts or ends. */
  lemma SameStacks(s: State, s': State)
    requires Located(s) && Ordered(s) && IdleAtBase(s)
    requires s'.threads == s.threads && s'.live == s.live && s'.clock == s.clock && |s'.conns| == |s.conns|
    ensures Located(s') && Ordered(s') && IdleAtBase(s')
  {
  }

  /** Every call that held a slot still holds it, and no slot is taken. */
  lemma SlotsKept(s: State, s': State)
    requires Slots(s) && s'.threads == s.threads && |s'.conns| == |s.conns|
    requires forall y :: Holds(s, y) ==> Holds(s', y)
    requires forall c :: 0 <= c < |s.conns| ==> s'.conns[c].slot == s.conns[c].slot
    requires s'.live == s.live
    ensures Slots(s')
  {
  }

  lemma SameCloses(s: State, s': State)
    requires Counted(s) && Closes(s) && Closers(s)
    requires s'.threads == s.threads && s'.live == s.live && |s'.conns| == |s.conns|
    requires forall c :: 0 <= c < |s.conns| ==>
               s'.conns[c].tr == s.conns[c].tr && s'.conns[c].closer == s.conns[c].closer &&
               s'.conns[c].teardowns == s.conns[c].teardowns
    ensures Counted(s') && Closes(s') && Closers(s')
  {
  }

  lemma GrantKeepsInv(s: State, t: nat)
    requires Inv(s) && CanGrant(s, t)
    ensures Inv(DoGrant(s, t))
  {
    SameStacks(s, DoGrant(s, t));
    GrantSlots(s, t);
    GrantWaits(s, t);
    SameCloses(s, DoGrant(s, t));
  }

  lemma GrantSlots(s: State, t: nat)
    requires Located(s) && Slots(s) && CanGrant(s, t)
    ensures Slots(DoGrant(s, t))
  {
  }

  lemma GrantWaits(s: State, t: nat)
    requires Located(s) && Waits(s) && CanGrant(s, t)
    ensures Waits(DoGrant(s, t))
  {
  }

  lemma ReleaseKeepsInv(s: State, t: nat)
    requires Inv(s) && CanRelease(s, t)
    ensures Inv(DoRelease(s, t))
  {
    SameStacks(s, DoRelease(s, t));
    ReleaseSlots(s, t);
    SameCloses(s, DoRelease(s, t));
  }

  lemma ReleaseSlots(s: State, t: nat)
    requires Located(s) && Slots(s) && Waits(s) && CanRelease(s, t)
    ensures Slots(DoRelease(s, t)) && Waits(DoRelease(s, t))
  {
  }

  lemma StartUdfKeepsInv(s: State, t: nat, owner: nat)
    requires Inv(s) && CanStartUdf(s, t, owner)
    ensures Inv(Push(s, t, Udf(owner)))
  {
    StartUdfLocated(s, t, owner);
    assert StackOrdered(s.threads[t]);
    PushOrdered(s.threads[t], Udf(owner));
    StartUdfSlots(s, t, owner);
    StartUdfIdle(s, t, owner);
    StartUdfCloses(s, t, owner);
  }

  lemma StartUdfLocated(s: State, t: nat, owner: nat)
    requires Located(s) && CanStartUdf(s, t, owner)
    ensures Located(Push(s, t, Udf(owner)))
  {
  }

  lemma StartUdfSlots(s: State, t: nat, owner: nat)
    requires Located(s) && Slots(s) && Waits(s) && CanStartUdf(s, t, owner)
    ensures Slots(Push(s, t, Udf(owner))) && Waits(Push(s, t, Udf(owner)))
  {
  }

  lemma StartUdfIdle(s: State, t: nat, owner: nat)
    requires IdleAtBase(s) && t < |s.threads|
    ensures IdleAtBase(Push(s, t, Udf(owner)))
  {
  }

  lemma StartUdfCloses(s: State, t: nat, owner: nat)
    requires Counted(s) && Closes(s) && Closers(s) && CanStartUdf(s, t, owner)
    ensures Counted(Push(s, t, Udf(owner))) && Closes(Push(s, t, Udf(owner))) && Closers(Push(s, t, Udf(owner)))
  {
  }

  lemma EndUdfKeepsInv(s: State, t: nat)
    requires Inv(s) && CanEndUdf(s, t)
    ensures Inv(Pop(s, t))
  {
    var s' := Pop(s, t);
    PopLocated(s, s', t);
    PopOrdered(s, t);
    PopIdle(s, s', t);
    PopCloses(s, s', t);
    EndUdfSlots(s, t);
  }

  lemma EndUdfSlots(s: State, t: nat)
    requires Located(s) && Slots(s) && Waits(s) && CanEndUdf(s, t)
    ensures Slots(Pop(s, t)) && Waits(Pop(s, t))
  {
  }

  /** The steps of close() change the flags of one connection only. */
  lemma CloseStepKeepsRest(s: State, s': State, c: nat)
    requires Located(s) && Ordered(s) && IdleAtBase(s) && Slots(s) && Waits(s) && Counted(s)
    requires s'.threads == s.threads && s'.live == s.live && s'.clock == s.clock && s'.waiting == s.waiting
    requires c < |s.conns| == |s'.conns| && s'.conns == s.conns[c := s'.conns[c]]
    requires s'.conns[c].slot == s.conns[c].slot && s'.conns[c].tr.inFlight == s.conns[c].tr.inFlight
    ensures Located(s') && Ordered(s') && IdleAtBase(s') && Slots(s') && Waits(s') && Counted(s')
  {
    SameStacks(s, s');
    SlotsKept(s, s');
  }

  lemma BeginCloseKeepsInv(s: State, t: nat, c: nat)
    requires Inv(s) && CanBeginClose(s, t, c)
    ensures Inv(DoBeginClose(s, t, c))
  {
    CloseStepKeepsRest(s, DoBeginClose(s, t, c), c);
    BeginCloseCloses(s, t, c);
  }

  lemma BeginCloseCloses(s: State, t: nat, c: nat)
    requires Closes(s) && Closers(s) && CanBeginClose(s, t, c)
    ensures Closes(DoBeginClose(s, t, c)) && Closers(DoBeginClose(s, t, c))
  {
  }

  ghost predicate CloseEnds(s: State, s': State, c: nat) {
    || (CanBeginTeardown(s, c) && s' == DoBeginTeardown(s, c))
    || (InWait(s, c) && s' == DoAbortClose(s, c))
    || (InTeardown(s, c) && (s' == DoFinishTeardown(s, c) || s' == DoFailTeardown(s, c)))
  }

  lemma EndOfCloseKeepsInv(s: State, s': State, c: nat)
    requires Inv(s) && CloseEnds(s, s', c)
    ensures Inv(s')
  {
    CloseStepKeepsRest(s, s', c);
    EndOfCloseCloses(s, s', c);
  }

  lemma EndOfCloseCloses(s: State, s': State, c: nat)
    requires Closes(s) && Closers(s) && CloseEnds(s, s', c)
    ensures Closes(s') && Closers(s')
  {
  }

  lemma StepKeepsInv(s: State, step: Step)
    requires Inv(s) && Enabled(s, step)
    ensures Inv(Apply(s, step))
  {
    match step
    case Enter(t, c) => EnterKeepsInv(s, t, c);
    case Request(t) => RequestKeepsInv(s, t);
    case Grant(t) => GrantKeepsInv(s, t);
    case Release(t) => ReleaseKeepsInv(s, t);
    case Leave(t) => LeaveKeepsInv(s, t);
    case StartUdf(t, owner) => StartUdfKeepsInv(s, t, owner);
    case EndUdf(t) => EndUdfKeepsInv(s, t);
    case BeginClose(t, c) => BeginCloseKeepsInv(s, t, c);
    case BeginTeardown(c) => EndOfCloseKeepsInv(s, Apply(s, step), c);
    case AbortClose(c) => EndOfCloseKeepsInv(s, Apply(s, step), c);
    case FinishTeardown(c) => EndOfCloseKeepsInv(s, Apply(s, step), c);
    case FailTeardown(c) => EndOfCloseKeepsInv(s, Apply(s, step), c);
  }
}
