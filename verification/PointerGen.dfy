/** The generation numbers that stand for DataFrames and Arrow tables in signatures (src_py/connection.py).

  A signature cannot contain an object, and its address may be that of a later object. So a global table
  maps an address to a number and a weak reference to the object that it was given to.
 */
module PointerGen {
  datatype Entry = Entry(gen: nat, obj: int)

  /** How far a thread has come in computing the signature of an object. */
  datatype Phase =
    | Looking(obj: int)                  // before the lookup at its address
    | Loading(obj: int)                  // no entry: before the counter is loaded
    | Storing(obj: int, loaded: nat)     // before the counter is stored
    | Reading(obj: int)                  // before the counter is read again
    | Tracking(obj: int, gen: nat)       // before the entry is made

  /** live maps objects to addresses; an object is never one of those that were used before. issued are
      the numbers that have been part of a signature, with the objects whose signatures they were. */
  datatype State = State(live: map<int, int>, used: set<int>, tracker: map<int, Entry>, gen: nat,
                         calls: map<int, Phase>, issued: set<Entry>)

  datatype Step = Alloc(obj: int, addr: int) | Free(obj: int) | Call(thread: int, obj: int) | Advance(thread: int)

  const START := State(map[], {}, map[], 0, map[], {})

  /** With serial, signatures are computed one after the other. An object in use is not freed. */
  ghost predicate Can(s: State, step: Step, serial: bool) {
    match step
    case Alloc(obj, addr) => obj !in s.used && forall o :: o in s.live ==> s.live[o] != addr
    case Free(obj) => obj in s.live && forall t :: t in s.calls ==> s.calls[t].obj != obj
    case Call(thread, obj) => thread !in s.calls && obj in s.live && (serial ==> s.calls == map[])
    case Advance(thread) => thread in s.calls && s.calls[thread].obj in s.live
  }

  function Do(s: State, step: Step): State
    requires step.Advance? ==> step.thread in s.calls && s.calls[step.thread].obj in s.live
  {
    match step
    case Alloc(obj, addr) => s.(live := s.live[obj := addr], used := s.used + {obj})
    case Free(obj) => s.(live := s.live - {obj})
    case Call(thread, obj) => s.(calls := s.calls[thread := Looking(obj)])
    case Advance(thread) => Advanced(s, thread)
  }

  function Advanced(s: State, thread: int): State
    requires thread in s.calls && s.calls[thread].obj in s.live
  {
    var addr := s.live[s.calls[thread].obj];
    match s.calls[thread]
    case Looking(obj) =>
      if addr in s.tracker && s.tracker[addr].obj in s.live then
        s.(calls := s.calls - {thread}, issued := s.issued + {Entry(s.tracker[addr].gen, obj)})
      else
        s.(calls := s.calls[thread := Loading(obj)], tracker := s.tracker - {addr})
    case Loading(obj) => s.(calls := s.calls[thread := Storing(obj, s.gen)])
    case Storing(obj, loaded) => s.(calls := s.calls[thread := Reading(obj)], gen := loaded + 1)
    case Reading(obj) => s.(calls := s.calls[thread := Tracking(obj, s.gen)])
    case Tracking(obj, gen) =>
      s.(calls := s.calls - {thread}, tracker := s.tracker[addr := Entry(gen, obj)],
         issued := s.issued + {Entry(gen, obj)})
  }

  function StepsLeft(phase: Phase): nat {
    match phase
    case Looking(_) => 5
    case Loading(_) => 4
    case Storing(_, _) => 3
    case Reading(_) => 2
    case Tracking(_, _) => 1
  }

  /** After five steps at most a call has ended, and its object has been given a number. */
  lemma CallEnds(s: State, thread: int)
    requires thread in s.calls && s.calls[thread].obj in s.live
    ensures var t, obj := Advanced(s, thread), s.calls[thread].obj;
            if thread in t.calls then
              t.calls[thread].obj == obj && StepsLeft(t.calls[thread]) < StepsLeft(s.calls[thread])
            else exists e :: e in t.issued && e.obj == obj
  {
    var t, addr := Advanced(s, thread), s.live[s.calls[thread].obj];
    match s.calls[thread]
    case Looking(obj) =>
      if thread !in t.calls {
        assert Entry(s.tracker[addr].gen, obj) in t.issued;
      }
    case Tracking(obj, gen) => assert Entry(gen, obj) in t.issued;
    case _ =>
  }

  ghost predicate Run(s: State, steps: seq<Step>, serial: bool, t: State)
    decreases |steps|
  {
    if steps == [] then s == t
    else Can(s, steps[0], serial) && Run(Do(s, steps[0]), steps[1..], serial, t)
  }

  // ---------- One number, one object ----------

  /** A number has been in signatures of one object only, and an object has had one number only. */
  ghost predicate OneToOne(issued: set<Entry>) {
    forall a, b :: a in issued && b in issued ==> (a.gen == b.gen <==> a.obj == b.obj)
  }

  /** A number has been in signatures of two objects. The columns of the one can then be taken for those
      of the other; two numbers of one object only mean that its columns are looked up again. */
  ghost predicate Shares(issued: set<Entry>) {
    exists a, b :: a in issued && b in issued && a.gen == b.gen && a.obj != b.obj
  }

  ghost predicate Objects(s: State) {
    && (forall o :: o in s.live ==> o in s.used)
    && (forall o, p :: o in s.live && p in s.live && o != p ==> s.live[o] != s.live[p])
    && (forall e :: e in s.issued ==> e.obj in s.used && e.gen <= s.gen)
  }

  /** An entry is one that was issued, at the address of its object; a live object that has a number has
      its entry. */
  ghost predicate Tracked(s: State) {
    && (forall a :: a in s.tracker ==>
            s.tracker[a] in s.issued && (s.tracker[a].obj in s.live ==> s.live[s.tracker[a].obj] == a))
    && (forall e :: e in s.issued && e.obj in s.live ==> s.live[e.obj] in s.tracker && s.tracker[s.live[e.obj]] == e)
  }

  ghost predicate New(s: State, obj: int) {
    forall e :: e in s.issued ==> e.obj != obj
  }

  ghost predicate CallOk(s: State, phase: Phase) {
    && phase.obj in s.live
    && match phase
       case Looking(_) => true
       case Loading(obj) => New(s, obj)
       case Storing(obj, loaded) => New(s, obj) && loaded == s.gen
       case Reading(obj) => New(s, obj) && forall e :: e in s.issued ==> e.gen < s.gen
       case Tracking(obj, gen) => New(s, obj) && gen == s.gen && forall e :: e in s.issued ==> e.gen < s.gen
  }

  ghost predicate Inv(s: State) {
    && OneToOne(s.issued) && Objects(s) && Tracked(s)
    && (forall t, u :: t in s.calls && u in s.calls ==> t == u)
    && (forall t :: t in s.calls ==> CallOk(s, s.calls[t]))
  }

  lemma AdvanceKeepsInv(s: State, thread: int)
    requires Inv(s) && thread in s.calls && s.calls[thread].obj in s.live
    ensures Inv(Advanced(s, thread))
  {
  }

  lemma StepKeepsInv(s: State, step: Step)
    requires Inv(s) && Can(s, step, true)
    ensures Inv(Do(s, step))
  {
    match step
    case Advance(thread) => AdvanceKeepsInv(s, thread);
    case Alloc(obj, addr) =>
      var t := Do(s, step);
      forall th | th in t.calls ensures CallOk(t, t.calls[th]) {
        assert CallOk(s, s.calls[th]);
      }
    case Free(obj) =>
      var t := Do(s, step);
      forall th | th in t.calls ensures CallOk(t, t.calls[th]) {
        assert CallOk(s, s.calls[th]);
      }
    case Call(thread, obj) =>
  }

  lemma {:induction false} RunKeepsInv(s: State, steps: seq<Step>, t: State)
    requires Inv(s) && Run(s, steps, true, t)
    ensures Inv(t)
    decreases |steps|
  {
    if steps != [] {
      StepKeepsInv(s, steps[0]);
      RunKeepsInv(Do(s, steps[0]), steps[1..], t);
    }
  }

  lemma Extend(s: State, step: Step, m: State, steps: seq<Step>, t: State)
    requires Can(s, step, false) && Do(s, step) == m && Run(m, steps, false, t)
    ensures Run(s, [step] + steps, false, t)
  {
  }

  /** Two threads that compute the signatures of two objects at once can get one number: both load the
      counter before either stores it. */
  lemma TwoObjectsOneNumber() returns (steps: seq<Step>, t: State)
    ensures Run(START, steps, false, t) && Shares(t.issued)
  {
    var s1 := START.(live := map[0 := 100], used := {0});
    var s2 := START.(live := map[0 := 100, 1 := 200], used := {0, 1});
    var s3 := s2.(calls := map[7 := Looking(0)]);
    var s4 := s2.(calls := map[7 := Looking(0), 8 := Looking(1)]);
    assert Do(START, Alloc(0, 100)) == s1 && Do(s1, Alloc(1, 200)) == s2;
    assert Do(s2, Call(7, 0)) == s3 && Do(s3, Call(8, 1)) == s4;
    steps, t := BothLoad(s4);
    hide Run, Do, Shares;
    Extend(s3, Call(8, 1), s4, steps, t);
    steps := [Call(8, 1)] + steps;
    Extend(s2, Call(7, 0), s3, steps, t);
    steps := [Call(7, 0)] + steps;
    Extend(s1, Alloc(1, 200), s2, steps, t);
    steps := [Alloc(1, 200)] + steps;
    Extend(START, Alloc(0, 100), s1, steps, t);
    steps := [Alloc(0, 100)] + steps;
  }

  /** Both threads find no entry and load 0. */
  lemma BothLoad(s: State) returns (steps: seq<Step>, t: State)
    requires s == State(map[0 := 100, 1 := 200], {0, 1}, map[], 0, map[7 := Looking(0), 8 := Looking(1)], {})
    ensures Run(s, steps, false, t) && Shares(t.issued)
  {
    var s1 := s.(calls := map[7 := Loading(0), 8 := Looking(1)]);
    var s2 := s.(calls := map[7 := Loading(0), 8 := Loading(1)]);
    var s3 := s.(calls := map[7 := Storing(0, 0), 8 := Loading(1)]);
    var s4 := s.(calls := map[7 := Storing(0, 0), 8 := Storing(1, 0)]);
    assert Do(s, Advance(7)) == s1 && Do(s1, Advance(8)) == s2;
    assert Do(s2, Advance(7)) == s3 && Do(s3, Advance(8)) == s4;
    steps, t := Race(s4);
    hide Run, Do, Shares;
    Extend(s3, Advance(8), s4, steps, t);
    steps := [Advance(8)] + steps;
    Extend(s2, Advance(7), s3, steps, t);
    steps := [Advance(7)] + steps;
    Extend(s1, Advance(8), s2, steps, t);
    steps := [Advance(8)] + steps;
    Extend(s, Advance(7), s1, steps, t);
    steps := [Advance(7)] + steps;
  }

  /** Both threads store 1, read 1 and make their entries. */
  lemma Race(s: State) returns (steps: seq<Step>, t: State)
    requires s == State(map[0 := 100, 1 := 200], {0, 1}, map[], 0, map[7 := Storing(0, 0), 8 := Storing(1, 0)], {})
    ensures Run(s, steps, false, t) && Shares(t.issued)
  {
    var s1 := s.(gen := 1, calls := map[7 := Reading(0), 8 := Storing(1, 0)]);
    var s2 := s1.(calls := map[7 := Reading(0), 8 := Reading(1)]);
    var s3 := s1.(calls := map[7 := Tracking(0, 1), 8 := Reading(1)]);
    var s4 := s1.(calls := map[7 := Tracking(0, 1), 8 := Tracking(1, 1)]);
    var s5 := s1.(calls := map[8 := Tracking(1, 1)], tracker := map[100 := Entry(1, 0)], issued := {Entry(1, 0)});
    t := s1.(calls := map[], tracker := map[100 := Entry(1, 0), 200 := Entry(1, 1)],
      issued := {Entry(1, 0), Entry(1, 1)});
    assert Do(s, Advance(7)) == s1 && Do(s1, Advance(8)) == s2 && Do(s2, Advance(7)) == s3;
    assert Do(s3, Advance(8)) == s4 && Do(s4, Advance(7)) == s5 && Do(s5, Advance(8)) == t;
    assert Entry(1, 0) in t.issued && Entry(1, 1) in t.issued;
    steps := [];
    assert Run(t, steps, false, t) && Shares(t.issued);
    hide Run, Do, Shares;
    Extend(s5, Advance(8), t, steps, t);
    steps := [Advance(8)];
    Extend(s4, Advance(7), s5, steps, t);
    steps := [Advance(7)] + steps;
    Extend(s3, Advance(8), s4, steps, t);
    steps := [Advance(8)] + steps;
    Extend(s2, Advance(7), s3, steps, t);
    steps := [Advance(7)] + steps;
    Extend(s1, Advance(8), s2, steps, t);
    steps := [Advance(8)] + steps;
    Extend(s, Advance(7), s1, steps, t);
    steps := [Advance(7)] + steps;
  }

  ghost predicate Reaches(steps: seq<Step>, serial: bool, t: State) {
    Run(START, steps, serial, t)
  }

  /** However objects are made and freed and addresses used again, numbers and objects correspond one to
      one in all runs exactly when signatures are not computed at the same time. */
  lemma OneToOneIffSerial(serial: bool)
    ensures (forall steps, t :: Reaches(steps, serial, t) ==> OneToOne(t.issued)) <==> serial
  {
    if serial {
      forall steps, t | Reaches(steps, true, t) ensures OneToOne(t.issued) {
        RunKeepsInv(START, steps, t);
      }
    } else {
      var steps, t := TwoObjectsOneNumber();
      assert Reaches(steps, serial, t);
    }
  }

  /** The same for the harmful half alone: no two objects share a number. */
  lemma NoneSharesIffSerial(serial: bool)
    ensures (forall steps, t :: Reaches(steps, serial, t) ==> !Shares(t.issued)) <==> serial
  {
    OneToOneIffSerial(serial);
    if !serial {
      var steps, t := TwoObjectsOneNumber();
      assert Reaches(steps, serial, t);
    }
  }

  /** The table and the counter, for signatures that are computed one after the other. */
  class Tracker {
    var tracker: map<int, Entry>
    var gen: nat
    ghost var issued: set<Entry>

    ghost function View(live: map<int, int>, used: set<int>): State
      reads this
    {
      State(live, used, tracker, gen, map[], issued)
    }

    constructor ()
      ensures View(map[], {}) == START
    {
      tracker, gen, issued := map[], 0, {};
    }

    /** The number in the signature of obj: its own, if it has one, or one that no object has. */
    method Generation(live: map<int, int>, ghost used: set<int>, obj: int) returns (number: nat)
      requires Inv(View(live, used)) && obj in live
      modifies this
      ensures Inv(View(live, used))
      ensures issued == old(issued) + {Entry(number, obj)}
    {
      var addr := live[obj];
      if addr in tracker {
        if tracker[addr].obj in live {
          number := tracker[addr].gen;
          issued := issued + {Entry(number, obj)};
          return;
        }
        tracker := tracker - {addr};
      }
      gen := gen + 1;
      number := gen;
      tracker := tracker[addr := Entry(number, obj)];
      issued := issued + {Entry(number, obj)};
    }
  }
}
