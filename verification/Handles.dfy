/** Native handles that may be closed in any order (src_cpp/include/py_handle_state.h and its users).

  A Python handle owns a share of a state; a state owns native objects and shares of the states it
  needs. A state is destroyed when its last share is dropped: first its natives, then its own shares,
  which may destroy further states. States are numbered in order of creation.
 */
module Handles {
  import opened Wrappers

  /** The four state structs. A result either owns its native result, or borrows one that lies inside
      the native result of its parent. */
  datatype Obj =
    | Database
    | Connection(db: nat)
    | Prepared(conn: nat)
    | QueryResult(conn: nat, parent: Option<nat>)

  datatype Part =
    | DatabaseStorage | NativeDatabase
    | NativeConnection | ConnectionStorage
    | NativeStatement
    | NativeResult

  /** The destruction of one native object of state `id`. */
  datatype Event = Destroyed(part: Part, id: nat)

  /** objs: the states that exist, with the number of their owners. made: every state ever created. */
  datatype Store = Store(objs: map<nat, Obj>, counts: map<nat, int>, handles: map<nat, Option<nat>>,
                         made: map<nat, Obj>, log: seq<Event>, next: nat)

  /** The natives of a state, in the order in which its destructor destroys them. */
  function Natives(o: Obj, id: nat): seq<Event> {
    match o
    case Database => [Destroyed(DatabaseStorage, id), Destroyed(NativeDatabase, id)]
    case Connection(_) => [Destroyed(NativeConnection, id), Destroyed(ConnectionStorage, id)]
    case Prepared(_) => [Destroyed(NativeStatement, id)]
    case QueryResult(_, parent) => if parent.None? then [Destroyed(NativeResult, id)] else []
  }

  /** The shares a state drops after that, in order. */
  function Shares(o: Obj): seq<nat> {
    match o
    case Database => []
    case Connection(db) => [db]
    case Prepared(conn) => [conn]
    case QueryResult(conn, parent) => if parent.Some? then [parent.value, conn] else [conn]
  }

  ghost function HandlesTo(handles: map<nat, Option<nat>>, id: nat): set<nat> {
    set h | h in handles && handles[h] == Some(id)
  }

  ghost function ObjsTo(objs: map<nat, Obj>, id: nat): set<nat> {
    set o | o in objs && id in Shares(objs[o])
  }

  // ---------- The invariant ----------

  /** What a state refers to exists, is older and is of the right kind. */
  ghost predicate SharesOk(objs: map<nat, Obj>, id: nat, o: Obj) {
    match o
    case Database => true
    case Connection(db) => db < id && db in objs && objs[db].Database?
    case Prepared(conn) => conn < id && conn in objs && objs[conn].Connection?
    case QueryResult(conn, parent) =>
      conn < id && conn in objs && objs[conn].Connection? &&
      (parent.Some? ==> parent.value < id && parent.value in objs && objs[parent.value].QueryResult? &&
                        objs[parent.value].conn == conn)
  }

  /** The count of every state is the number of its owners: handles, states, and the shares that a
      destruction under way has still to drop. */
  ghost predicate CountsOk(s: Store, pending: seq<nat>) {
    && s.counts.Keys == s.objs.Keys
    && (forall id :: id in s.objs ==> CountOk(s, pending, id))
    && (forall id :: id in pending ==> id in s.objs)
  }

  ghost function Owners(s: Store, pending: seq<nat>, id: nat): nat {
    |HandlesTo(s.handles, id)| + |ObjsTo(s.objs, id)| + multiset(pending)[id]
  }

  ghost predicate CountOk(s: Store, pending: seq<nat>, id: nat)
    requires id in s.counts
  {
    s.counts[id] == Owners(s, pending, id) && s.counts[id] > 0
  }

  ghost predicate ObjsOk(s: Store) {
    && (forall id :: id in s.made ==> id < s.next)
    && (forall id :: id in s.objs ==> id in s.made && s.objs[id] == s.made[id])
    && (forall id :: id in s.objs ==> SharesOk(s.objs, id, s.objs[id]))
    && (forall h :: h in s.handles && s.handles[h].Some? ==> s.handles[h].value in s.objs)
  }

  /** Exactly the natives of the states that are gone have been destroyed, once each, and before any
      native of a state that they were created from. */
  ghost predicate LogOk(s: Store) {
    && (forall e :: e in s.log ==> e.id in s.made && e.id !in s.objs && e in Natives(s.made[e.id], e.id))
    && (forall id, e :: id in s.made && id !in s.objs && e in Natives(s.made[id], id) ==> e in s.log)
    && (forall i, j :: 0 <= i < j < |s.log| ==> s.log[i] != s.log[j])
    && ChildrenFirst(s.made, s.log)
  }

  /** Native e goes before f: f's state is one that e's state has a share in, or both belong to one
      state, whose destructor starts with e. */
  ghost predicate MustPrecede(made: map<nat, Obj>, e: Event, f: Event) {
    e.id in made && e in Natives(made[e.id], e.id) &&
    (f.id in Shares(made[e.id]) || (f.id == e.id && f != e && e == Natives(made[e.id], e.id)[0]))
  }

  ghost predicate ChildrenFirst(made: map<nat, Obj>, log: seq<Event>) {
    forall j, e :: 0 <= j < |log| && MustPrecede(made, e, log[j]) ==> LoggedBefore(log, e, j)
  }

  ghost predicate LoggedBefore(log: seq<Event>, e: Event, j: nat) {
    exists i :: 0 <= i < j && i < |log| && log[i] == e
  }

  ghost predicate StoreOk(s: Store, pending: seq<nat>) {
    CountsOk(s, pending) && ObjsOk(s) && LogOk(s)
  }

  // ---------- Creating a state, sharing it and dropping a share ----------

  function AddShares(counts: map<nat, int>, shares: seq<nat>): map<nat, int> {
    map id | id in counts :: if id in shares then counts[id] + 1 else counts[id]
  }

  ghost function Created(s: Store, o: Obj, h: nat): Store {
    Store(s.objs[s.next := o], AddShares(s.counts, Shares(o))[s.next := 1], s.handles[h := Some(s.next)],
          s.made[s.next := o], s.log, s.next + 1)
  }

  ghost function Shared(s: Store, id: nat, h: nat): Store
    requires id in s.counts
  {
    s.(handles := s.handles[h := Some(id)], counts := s.counts[id := s.counts[id] + 1])
  }

  ghost function Fewer(s: Store, id: nat): Store
    requires id in s.counts
  {
    s.(counts := s.counts[id := s.counts[id] - 1])
  }

  ghost function Gone(s: Store, id: nat): Store
    requires id in s.objs
  {
    s.(objs := s.objs - {id}, counts := s.counts - {id}, log := s.log + Natives(s.objs[id], id))
  }

  /** No handle and no state owns a share of id. */
  ghost predicate Unowned(s: Store, id: nat) {
    HandlesTo(s.handles, id) == {} && ObjsTo(s.objs, id) == {}
  }

  lemma HandlesChange(handles: map<nat, Option<nat>>, h: nat, v: Option<nat>, id: nat)
    ensures |HandlesTo(handles[h := v], id)| == |HandlesTo(handles - {h}, id)| + (if v == Some(id) then 1 else 0)
  {
    assert HandlesTo(handles[h := v], id) == HandlesTo(handles - {h}, id) + if v == Some(id) then {h} else {};
  }

  lemma ObjsChange(objs: map<nat, Obj>, x: nat, o: Obj, id: nat)
    ensures |ObjsTo(objs[x := o], id)| == |ObjsTo(objs - {x}, id)| + (if id in Shares(o) then 1 else 0)
  {
    assert ObjsTo(objs[x := o], id) == ObjsTo(objs - {x}, id) + if id in Shares(o) then {x} else {};
  }

  lemma CreatedOwners(s: Store, o: Obj, h: nat, id: nat)
    requires h !in s.handles && s.next !in s.objs
    ensures Owners(Created(s, o, h), [], id) ==
            Owners(s, [], id) + (if id == s.next then 1 else 0) + (if id in Shares(o) then 1 else 0)
  {
    HandlesChange(s.handles, h, Some(s.next), id);
    ObjsChange(s.objs, s.next, o, id);
    assert s.handles - {h} == s.handles && s.objs - {s.next} == s.objs;
  }

  lemma NewHasNoOwners(s: Store)
    requires ObjsOk(s)
    ensures Owners(s, [], s.next) == 0
  {
  }

  lemma CreatedCount(s: Store, o: Obj, h: nat, id: nat)
    requires CountsOk(s, []) && s.next !in s.objs && Owners(s, [], s.next) == 0 && s.next !in Shares(o)
    requires h !in s.handles && (id in s.objs || id == s.next)
    ensures id in Created(s, o, h).counts && CountOk(Created(s, o, h), [], id)
  {
    CreatedOwners(s, o, h, id);
    assert id in s.objs ==> CountOk(s, [], id);
  }

  lemma CreatedKeys(s: Store, o: Obj, h: nat)
    requires s.counts.Keys == s.objs.Keys
    ensures Created(s, o, h).counts.Keys == Created(s, o, h).objs.Keys == s.objs.Keys + {s.next}
  {
  }

  lemma NextIsNew(s: Store, o: Obj)
    requires ObjsOk(s) && SharesOk(s.objs, s.next, o)
    ensures s.next !in s.objs && s.next !in Shares(o)
  {
  }

  lemma CreatedCounts(s: Store, o: Obj, h: nat)
    requires CountsOk(s, []) && ObjsOk(s) && SharesOk(s.objs, s.next, o) && h !in s.handles
    ensures CountsOk(Created(s, o, h), [])
  {
    hide ObjsOk, SharesOk, CountOk, Owners;
    NewHasNoOwners(s);
    NextIsNew(s, o);
    CreatedKeys(s, o, h);
    forall id | id in s.objs.Keys + {s.next}
      ensures id in Created(s, o, h).counts && CountOk(Created(s, o, h), [], id)
    {
      CreatedCount(s, o, h, id);
    }
  }

  lemma CreatedOk(s: Store, o: Obj, h: nat)
    requires StoreOk(s, []) && SharesOk(s.objs, s.next, o) && h !in s.handles
    ensures StoreOk(Created(s, o, h), [])
  {
    CreatedCounts(s, o, h);
    CreatedRest(s, o, h);
  }

  lemma CreatedRest(s: Store, o: Obj, h: nat)
    requires ObjsOk(s) && LogOk(s) && SharesOk(s.objs, s.next, o)
    ensures ObjsOk(Created(s, o, h)) && LogOk(Created(s, o, h))
  {
    var s' := Created(s, o, h);
    forall id | id in s.objs ensures SharesOk(s'.objs, id, s.objs[id]) {
      assert SharesOk(s.objs, id, s.objs[id]);
    }
    forall j, e | 0 <= j < |s.log| && MustPrecede(s'.made, e, s.log[j]) ensures LoggedBefore(s.log, e, j) {
      assert s.log[j] in s.log;
      assert MustPrecede(s.made, e, s.log[j]);
    }
  }

  lemma SharedCounts(s: Store, id: nat, h: nat)
    requires CountsOk(s, []) && id in s.objs && h !in s.handles
    ensures CountsOk(Shared(s, id, h), [])
  {
    var s' := Shared(s, id, h);
    assert s.handles - {h} == s.handles;
    forall x | x in s'.objs ensures CountOk(s', [], x) {
      HandlesChange(s.handles, h, Some(id), x);
      assert CountOk(s, [], x);
    }
  }

  /** A handle gives up its share, which is then pending. */
  lemma ClosedCounts(s: Store, h: nat, id: nat)
    requires CountsOk(s, []) && h in s.handles && s.handles[h] == Some(id) && id in s.objs
    ensures CountsOk(s.(handles := s.handles[h := None]), [id])
  {
    var s' := s.(handles := s.handles[h := None]);
    assert s.handles[h := Some(id)] == s.handles;
    forall x | x in s'.objs ensures CountOk(s', [id], x) {
      HandlesChange(s.handles, h, None, x);
      HandlesChange(s.handles, h, Some(id), x);
      assert CountOk(s, [], x);
    }
  }

  lemma FirstPending(id: nat, rest: seq<nat>, x: nat)
    ensures multiset([id] + rest)[x] == multiset(rest)[x] + (if x == id then 1 else 0)
  {
  }

  lemma SharesOnce(objs: map<nat, Obj>, id: nat, o: Obj, x: nat)
    requires SharesOk(objs, id, o)
    ensures multiset(Shares(o))[x] == if x in Shares(o) then 1 else 0
  {
  }

  lemma FewerCounts(s: Store, id: nat, rest: seq<nat>)
    requires CountsOk(s, [id] + rest) && id in s.objs && s.counts[id] > 1
    ensures CountsOk(Fewer(s, id), rest)
  {
  }

  /** The last owner of a state is the pending share. */
  lemma LastOwner(s: Store, id: nat, rest: seq<nat>)
    requires CountsOk(s, [id] + rest) && id in s.objs && s.counts[id] <= 1
    ensures Unowned(s, id) && id !in rest
  {
  }

  lemma GoneOwners(s: Store, id: nat, rest: seq<nat>, x: nat)
    requires id in s.objs && SharesOk(s.objs, id, s.objs[id]) && x != id
    ensures Owners(Gone(s, id), Shares(s.objs[id]) + rest, x) == Owners(s, [id] + rest, x)
  {
    FirstPending(id, rest, x);
    ObjsChange(s.objs, id, s.objs[id], x);
    assert s.objs[id := s.objs[id]] == s.objs;
    SharesOnce(s.objs, id, s.objs[id], x);
    assert multiset(Shares(s.objs[id]) + rest) == multiset(Shares(s.objs[id])) + multiset(rest);
  }

  lemma GoneCount(s: Store, id: nat, rest: seq<nat>, x: nat)
    requires CountsOk(s, [id] + rest) && id in s.objs && SharesOk(s.objs, id, s.objs[id]) && x in s.objs && x != id
    ensures x in Gone(s, id).counts && CountOk(Gone(s, id), Shares(s.objs[id]) + rest, x)
  {
    assert CountOk(s, [id] + rest, x);
    GoneOwners(s, id, rest, x);
  }

  lemma GonePending(s: Store, id: nat, rest: seq<nat>)
    requires CountsOk(s, [id] + rest) && id in s.objs && SharesOk(s.objs, id, s.objs[id]) && id !in rest
    ensures forall x :: x in Shares(s.objs[id]) + rest ==> x in s.objs && x != id
  {
  }

  lemma GoneCounts(s: Store, id: nat, rest: seq<nat>)
    requires CountsOk(s, [id] + rest) && id in s.objs && SharesOk(s.objs, id, s.objs[id]) && id !in rest
    ensures CountsOk(Gone(s, id), Shares(s.objs[id]) + rest)
  {
    GonePending(s, id, rest);
    forall x | x in s.objs && x != id
      ensures x in Gone(s, id).counts && CountOk(Gone(s, id), Shares(s.objs[id]) + rest, x)
    {
      GoneCount(s, id, rest, x);
    }
  }

  lemma GoneObjs(s: Store, id: nat)
    requires ObjsOk(s) && id in s.objs && Unowned(s, id)
    ensures ObjsOk(Gone(s, id))
  {
    forall x | x in s.objs && x != id ensures SharesOk(Gone(s, id).objs, x, s.objs[x]) {
      assert SharesOk(s.objs, x, s.objs[x]);
      assert x !in ObjsTo(s.objs, id);
    }
    forall h | h in s.handles && s.handles[h].Some? ensures s.handles[h].value != id {
      assert h !in HandlesTo(s.handles, id);
    }
  }

  lemma NativesDistinct(o: Obj, id: nat)
    ensures forall e :: e in Natives(o, id) ==> e.id == id
    ensures forall i, j :: 0 <= i < j < |Natives(o, id)| ==> Natives(o, id)[i] != Natives(o, id)[j]
  {
  }

  lemma GoneLog(s: Store, id: nat)
    requires ObjsOk(s) && LogOk(s) && id in s.objs && Unowned(s, id)
    ensures LogOk(Gone(s, id))
  {
    GoneLogOnce(s, id);
    GoneLogOrder(s, id);
  }

  lemma GoneLogOnce(s: Store, id: nat)
    requires ObjsOk(s) && LogOk(s) && id in s.objs
    ensures forall i, j :: 0 <= i < j < |Gone(s, id).log| ==> Gone(s, id).log[i] != Gone(s, id).log[j]
  {
  }

  lemma GoneLogBefore(s: Store, id: nat, j: nat, e: Event)
    requires ObjsOk(s) && LogOk(s) && id in s.objs && Unowned(s, id)
    requires j < |Gone(s, id).log| && MustPrecede(s.made, e, Gone(s, id).log[j])
    ensures LoggedBefore(Gone(s, id).log, e, j)
  {
    var log, n := Gone(s, id).log, |s.log|;
    var i: nat;
    if j < n {
      assert log[j] == s.log[j];
      assert LoggedBefore(s.log, e, j);
      i :| 0 <= i < j && i < n && s.log[i] == e;
    } else {
      assert log[j] == Natives(s.objs[id], id)[j - n];
      if e.id == id {
        i := n;
      } else {
        assert e.id in s.objs ==> e.id in ObjsTo(s.objs, id);
        assert e in s.log;
        i :| 0 <= i < n && s.log[i] == e;
      }
    }
    assert log[i] == e;
  }

  lemma GoneLogOrder(s: Store, id: nat)
    requires ObjsOk(s) && LogOk(s) && id in s.objs && Unowned(s, id)
    ensures ChildrenFirst(s.made, Gone(s, id).log)
  {
    var log := Gone(s, id).log;
    forall j: nat, e | j < |log| && MustPrecede(s.made, e, log[j]) ensures LoggedBefore(log, e, j) {
      GoneLogBefore(s, id, j, e);
    }
  }

  lemma SharedRest(s: Store, id: nat, h: nat)
    requires ObjsOk(s) && LogOk(s) && id in s.objs && id in s.counts
    ensures ObjsOk(Shared(s, id, h)) && LogOk(Shared(s, id, h))
  {
  }

  lemma SharedOk(s: Store, id: nat, h: nat)
    requires StoreOk(s, []) && id in s.objs && h !in s.handles
    ensures id in s.counts && StoreOk(Shared(s, id, h), [])
  {
    SharedCounts(s, id, h);
    SharedRest(s, id, h);
  }

  lemma ClosedRest(s: Store, h: nat)
    requires ObjsOk(s) && LogOk(s)
    ensures ObjsOk(s.(handles := s.handles[h := None])) && LogOk(s.(handles := s.handles[h := None]))
  {
  }

  lemma ClosedOk(s: Store, h: nat, id: nat)
    requires StoreOk(s, []) && h in s.handles && s.handles[h] == Some(id)
    ensures id in s.objs && StoreOk(s.(handles := s.handles[h := None]), [id])
  {
    ClosedCounts(s, h, id);
    ClosedRest(s, h);
  }

  /** Dropping one share keeps the invariant, whether or not it destroys the state. */
  lemma DropOk(s: Store, id: nat, rest: seq<nat>)
    requires StoreOk(s, [id] + rest)
    ensures id in s.objs && s.counts.Keys == s.objs.Keys
    ensures s.counts[id] > 1 ==> StoreOk(Fewer(s, id), rest)
    ensures s.counts[id] <= 1 ==> StoreOk(Gone(s, id), Shares(s.objs[id]) + rest)
  {
    assert id in [id] + rest;
    if s.counts[id] > 1 {
      FewerCounts(s, id, rest);
      FewerRest(s, id);
    } else {
      LastOwner(s, id, rest);
      assert SharesOk(s.objs, id, s.objs[id]);
      GoneCounts(s, id, rest);
      GoneObjs(s, id);
      GoneLog(s, id);
    }
  }

  lemma SameEntry(handles: map<nat, Option<nat>>, h: nat)
    requires h in handles
    ensures handles[h := handles[h]] == handles
  {
  }

  lemma FewerRest(s: Store, id: nat)
    requires ObjsOk(s) && LogOk(s) && id in s.counts
    ensures ObjsOk(Fewer(s, id)) && LogOk(Fewer(s, id))
  {
  }

  // ---------- The handles ----------

  class Heap {
    var objs: map<nat, Obj>
    var counts: map<nat, int>
    var handles: map<nat, Option<nat>>
    var log: seq<Event>
    var next: nat
    var nextHandle: nat
    ghost var made: map<nat, Obj>

    ghost function View(): Store
      reads this
    {
      Store(objs, counts, handles, made, log, next)
    }

    ghost predicate Valid()
      reads this
    {
      StoreOk(View(), []) && forall h :: h in handles ==> h < nextHandle
    }

    /** A handle that is None is closed; an open one has a state of the given kind. */
    ghost predicate IsHandle(h: nat, kind: Obj -> bool)
      reads this
    {
      h in handles && (handles[h].Some? ==> handles[h].value in objs && kind(objs[handles[h].value]))
    }

    constructor ()
      ensures Valid() && View() == Store(map[], map[], map[], map[], [], 0)
    {
      objs, counts, handles, log, next, nextHandle, made := map[], map[], map[], [], 0, 0, map[];
    }

    /** A new state with one owner, its handle; the states it needs gain an owner each. */
    method Create(o: Obj) returns (h: nat)
      requires Valid() && SharesOk(objs, next, o)
      modifies this
      ensures Valid() && h == old(nextHandle) && h !in old(handles)
      ensures View() == Created(old(View()), o, h)
    {
      hide StoreOk;
      h := nextHandle;
      CreatedOk(View(), o, h);
      objs, counts, handles := objs[next := o], AddShares(counts, Shares(o))[next := 1], handles[h := Some(next)];
      made := made[next := o];
      next, nextHandle := next + 1, nextHandle + 1;
    }

    method OpenDatabase() returns (h: nat)
      requires Valid()
      modifies this
      ensures Valid() && h !in old(handles) && View() == Created(old(View()), Database, h)
    {
      h := Create(Database);
    }

    method OpenConnection(database: nat) returns (r: Result<nat, string>)
      requires Valid() && IsHandle(database, (o: Obj) => o.Database?)
      modifies this
      ensures Valid() && (r.Ok? <==> old(handles)[database].Some?)
      ensures r.Ok? ==> r.value !in old(handles) &&
                        View() == Created(old(View()), Connection(old(handles)[database].value), r.value)
      ensures r.Err? ==> View() == old(View()) && r.error == "Database is closed."
    {
      if handles[database].None? {
        return Err("Database is closed.");
      }
      var h := Create(Connection(handles[database].value));
      return Ok(h);
    }

    method Prepare(connection: nat) returns (r: Result<nat, string>)
      requires Valid() && IsHandle(connection, (o: Obj) => o.Connection?)
      modifies this
      ensures Valid() && (r.Ok? <==> old(handles)[connection].Some?)
      ensures r.Ok? ==> r.value !in old(handles) &&
                        View() == Created(old(View()), Prepared(old(handles)[connection].value), r.value)
      ensures r.Err? ==> View() == old(View()) && r.error == "Connection is closed."
    {
      if handles[connection].None? {
        return Err("Connection is closed.");
      }
      var h := Create(Prepared(handles[connection].value));
      return Ok(h);
    }

    /** A query, or the execution of a prepared statement if one is given. */
    method Execute(connection: nat, statement: Option<nat>) returns (r: Result<nat, string>)
      requires Valid() && IsHandle(connection, (o: Obj) => o.Connection?)
      requires statement.Some? ==> IsHandle(statement.value, (o: Obj) => o.Prepared?)
      modifies this
      ensures Valid()
      ensures r.Ok? <==> old(handles)[connection].Some? && (statement.Some? ==> old(handles)[statement.value].Some?)
      ensures r.Ok? ==> r.value !in old(handles) &&
                        View() == Created(old(View()), QueryResult(old(handles)[connection].value, None), r.value)
      ensures r.Err? ==>
                && View() == old(View())
                && r.error == if old(handles)[connection].None? then "Connection is closed."
                              else "Prepared statement is closed."
    {
      if handles[connection].None? {
        return Err("Connection is closed.");
      }
      if statement.Some? && handles[statement.value].None? {
        return Err("Prepared statement is closed.");
      }
      var h := Create(QueryResult(handles[connection].value, None));
      return Ok(h);
    }

    /** The next result of a chain, borrowed from the one it was asked of. */
    method NextResult(result: nat) returns (r: Result<nat, string>)
      requires Valid() && IsHandle(result, (o: Obj) => o.QueryResult?)
      modifies this
      ensures Valid() && (r.Ok? <==> old(handles)[result].Some?)
      ensures r.Ok? ==>
                var parent := old(handles)[result].value;
                r.value !in old(handles) &&
                View() == Created(old(View()), QueryResult(old(objs)[parent].conn, Some(parent)), r.value)
      ensures r.Err? ==> View() == old(View()) && r.error == "Query result is closed."
    {
      if handles[result].None? {
        return Err("Query result is closed.");
      }
      var parent := handles[result].value;
      assert SharesOk(objs, parent, objs[parent]);
      var h := Create(QueryResult(objs[parent].conn, Some(parent)));
      return Ok(h);
    }

    /** The copy of the state pointer that execute() and query() keep until they return. */
    method KeepAlive(handle: nat) returns (h: nat)
      requires Valid() && handle in handles && handles[handle].Some? && handles[handle].value in objs
      modifies this
      ensures Valid() && h !in old(handles) && View() == Shared(old(View()), old(handles)[handle].value, h)
    {
      var id := handles[handle].value;
      hide StoreOk;
      h := nextHandle;
      SharedOk(View(), id, h);
      ghost var shared := Shared(View(), id, h);
      handles, counts := handles[h := Some(id)], counts[id := counts[id] + 1];
      nextHandle := nextHandle + 1;
      assert View() == shared;
    }

    /** Drop the first pending share; destroying its state makes that state's shares pending. */
    method DropFirst(pending: seq<nat>) returns (pending': seq<nat>)
      requires StoreOk(View(), pending) && pending != []
      modifies this`objs, this`counts, this`log
      ensures StoreOk(View(), pending') && old(log) <= log
      ensures forall id :: id in objs ==> id in old(objs)
      ensures |objs| < old(|objs|) || (objs == old(objs) && |pending'| < |pending|)
    {
      hide StoreOk;
      var id, rest := pending[0], pending[1..];
      assert pending == [id] + rest;
      DropOk(View(), id, rest);
      if counts[id] > 1 {
        counts := counts[id := counts[id] - 1];
        return rest;
      }
      var o := objs[id];
      log := log + Natives(o, id);
      objs, counts := objs - {id}, counts - {id};
      return Shares(o) + rest;
    }

    method DropAll(shares: seq<nat>)
      requires StoreOk(View(), shares)
      modifies this`objs, this`counts, this`log
      ensures StoreOk(View(), []) && old(log) <= log
      ensures forall id :: id in objs ==> id in old(objs)
    {
      hide StoreOk;
      var pending := shares;
      while pending != []
        invariant StoreOk(View(), pending) && old(log) <= log
        invariant forall id :: id in objs ==> id in old(objs)
        decreases |objs|, |pending|
      {
        pending := DropFirst(pending);
      }
    }

    /** Close or drop a handle: its share goes, and every state whose last share goes is destroyed. */
    method Close(h: nat)
      requires Valid() && h in handles
      modifies this
      ensures Valid() && handles == old(handles)[h := None]
      ensures made == old(made) && next == old(next) && old(log) <= log
      ensures forall id :: id in objs ==> id in old(objs)
      ensures old(handles)[h].None? ==> View() == old(View())
    {
      hide StoreOk;
      if handles[h].None? {
        SameEntry(handles, h);
        return;
      }
      var id := handles[h].value;
      ClosedOk(View(), h, id);
      handles := handles[h := None];
      DropAll([id]);
    }
  }

  // ---------- What the handles promise ----------

  /** There is a chain of shares from one state to another. */
  ghost predicate Reaches(objs: map<nat, Obj>, from: nat, to: nat)
    decreases from
  {
    from in objs && (from == to || exists r :: r in Shares(objs[from]) && r < from && Reaches(objs, r, to))
  }

  ghost predicate HeldByHandle(s: Store, id: nat) {
    exists h :: h in s.handles && s.handles[h].Some? && Reaches(s.objs, s.handles[h].value, id)
  }

  lemma {:induction false} ReachesFurther(s: Store, from: nat, mid: nat, to: nat)
    requires ObjsOk(s) && mid in s.objs && Reaches(s.objs, from, mid) && to in Shares(s.objs[mid])
    ensures to in s.objs && to < mid && Reaches(s.objs, from, to)
    decreases from
  {
    assert SharesOk(s.objs, mid, s.objs[mid]);
    if from == mid {
      assert Reaches(s.objs, to, to);
    } else {
      var r :| r in Shares(s.objs[from]) && r < from && Reaches(s.objs, r, mid);
      ReachesFurther(s, r, mid, to);
    }
  }

  lemma {:induction false} ReachedExists(s: Store, from: nat, to: nat)
    requires Reaches(s.objs, from, to)
    ensures to in s.objs
    decreases from
  {
    if from != to {
      var r :| r in Shares(s.objs[from]) && r < from && Reaches(s.objs, r, to);
      ReachedExists(s, r, to);
    }
  }

  lemma SomeOwner(s: Store, id: nat)
    requires StoreOk(s, []) && id in s.objs
    ensures HandlesTo(s.handles, id) != {} || ObjsTo(s.objs, id) != {}
  {
    assert CountOk(s, [], id);
  }

  lemma OwnerIsYounger(s: Store, o: nat, id: nat)
    requires ObjsOk(s) && o in ObjsTo(s.objs, id)
    ensures id < o < s.next
  {
  }

  lemma HeldFurther(s: Store, o: nat, id: nat)
    requires ObjsOk(s) && o in ObjsTo(s.objs, id) && HeldByHandle(s, o)
    ensures HeldByHandle(s, id)
  {
    var h :| h in s.handles && s.handles[h].Some? && Reaches(s.objs, s.handles[h].value, o);
    ReachesFurther(s, s.handles[h].value, o, id);
  }

  lemma {:induction false} ExistingIsHeld(s: Store, id: nat)
    requires StoreOk(s, []) && id in s.objs
    ensures HeldByHandle(s, id)
    decreases s.next - id
  {
    SomeOwner(s, id);
    if HandlesTo(s.handles, id) != {} {
      var h :| h in HandlesTo(s.handles, id);
      assert Reaches(s.objs, id, id);
    } else {
      var o :| o in ObjsTo(s.objs, id);
      OwnerIsYounger(s, o, id);
      ExistingIsHeld(s, o);
      HeldFurther(s, o, id);
    }
  }

  /** No leak and no early destruction: a state exists exactly as long as some open handle reaches it. */
  lemma ExistsIffHeld(s: Store, id: nat)
    requires StoreOk(s, [])
    ensures id in s.objs <==> HeldByHandle(s, id)
  {
    if id in s.objs {
      ExistingIsHeld(s, id);
    } else if HeldByHandle(s, id) {
      var h :| h in s.handles && s.handles[h].Some? && Reaches(s.objs, s.handles[h].value, id);
      ReachedExists(s, s.handles[h].value, id);
    }
  }

  /** The state exists and none of its native objects has been destroyed. */
  ghost predicate Alive(s: Store, id: nat) {
    id in s.objs && forall part :: Destroyed(part, id) !in s.log
  }

  lemma ExistingIsAlive(s: Store, id: nat)
    requires StoreOk(s, []) && id in s.objs
    ensures Alive(s, id)
  {
    NativesDistinct(s.objs[id], id);
  }

  /** The connection a state uses, itself if it is one. */
  ghost function ConnectionOf(s: Store, id: nat): nat
    requires id in s.objs && !s.objs[id].Database?
  {
    match s.objs[id]
    case Connection(_) => id
    case Prepared(conn) => conn
    case QueryResult(conn, _) => conn
  }

  /** An open handle of any kind but a database reaches a live native connection and through it a live
      native database. */
  lemma OpenHandleIsUsable(s: Store, h: nat)
    requires StoreOk(s, []) && h in s.handles && s.handles[h].Some?
    ensures var id := s.handles[h].value;
            Alive(s, id) &&
            (!s.objs[id].Database? ==>
               var c := ConnectionOf(s, id);
               Alive(s, c) && s.objs[c].Connection? && Alive(s, s.objs[c].db) && s.objs[s.objs[c].db].Database?)
  {
    var id := s.handles[h].value;
    ExistingIsAlive(s, id);
    assert SharesOk(s.objs, id, s.objs[id]);
    if !s.objs[id].Database? {
      var c := ConnectionOf(s, id);
      ExistingIsAlive(s, c);
      assert SharesOk(s.objs, c, s.objs[c]);
      ExistingIsAlive(s, s.objs[c].db);
    }
  }

  /** root is where the native result that `id` borrows from is owned. */
  ghost predicate IsRootOf(s: Store, id: nat, root: nat)
    decreases id
  {
    && id in s.objs && s.objs[id].QueryResult?
    && if s.objs[id].parent.None? then root == id
       else s.objs[id].parent.value < id && IsRootOf(s, s.objs[id].parent.value, root)
  }

  /** However long a chain of results is, and whichever of its handles have been closed, the pointer of
      every result that is left lies in a native result that is owned and alive. */
  lemma {:induction false} BorrowedIsAlive(s: Store, id: nat) returns (root: nat)
    requires StoreOk(s, []) && id in s.objs && s.objs[id].QueryResult?
    ensures IsRootOf(s, id, root) && Alive(s, root)
    ensures s.objs[root].QueryResult? && s.objs[root].parent.None? && s.objs[root].conn == s.objs[id].conn
    ensures Destroyed(NativeResult, root) !in s.log
    decreases id
  {
    assert SharesOk(s.objs, id, s.objs[id]);
    if s.objs[id].parent.None? {
      root := id;
      ExistingIsAlive(s, id);
      assert Destroyed(NativeResult, id) in Natives(s.objs[id], id);
    } else {
      root := BorrowedIsAlive(s, s.objs[id].parent.value);
    }
  }

  /** The native objects of the four structs. */
  ghost predicate HasPart(o: Obj, part: Part) {
    match part
    case DatabaseStorage => o.Database?
    case NativeDatabase => o.Database?
    case NativeConnection => o.Connection?
    case ConnectionStorage => o.Connection?
    case NativeStatement => o.Prepared?
    case NativeResult => o.QueryResult? && o.parent.None?
  }

  lemma NativesAreParts(o: Obj, id: nat, part: Part)
    ensures Destroyed(part, id) in Natives(o, id) <==> HasPart(o, part)
  {
  }

  /** Every native object of every state ever made is destroyed exactly if no open handle reaches the
      state any more, and then once. */
  lemma DestroyedIffUnheld(s: Store, id: nat, part: Part)
    requires StoreOk(s, []) && id in s.made
    ensures Destroyed(part, id) in s.log <==> HasPart(s.made[id], part) && !HeldByHandle(s, id)
    ensures multiset(s.log)[Destroyed(part, id)] <= 1
  {
    NativesAreParts(s.made[id], id, part);
    ExistsIffHeld(s, id);
    hide CountsOk, Natives, HasPart, HeldByHandle;
    if Destroyed(part, id) in s.log {
      OnceInSeq(s.log, Destroyed(part, id));
    }
  }

  /** Nothing is destroyed that was not made. */
  lemma OnlyMadeIsDestroyed(s: Store, e: Event)
    requires StoreOk(s, []) && e in s.log
    ensures e.id in s.made && HasPart(s.made[e.id], e.part)
  {
    NativesAreParts(s.made[e.id], e.id, e.part);
    hide Natives, HasPart;
  }

  /** Once every handle is closed, in whatever order, no state exists and every native object has been
      destroyed exactly once. */
  lemma NothingLeaks(s: Store)
    requires StoreOk(s, []) && forall h :: h in s.handles ==> s.handles[h].None?
    ensures s.objs == map[]
    ensures forall id, part :: id in s.made && HasPart(s.made[id], part) ==> multiset(s.log)[Destroyed(part, id)] == 1
  {
    forall id | id in s.objs ensures false {
      ExistsIffHeld(s, id);
    }
    forall id, part | id in s.made && HasPart(s.made[id], part) ensures multiset(s.log)[Destroyed(part, id)] == 1 {
      DestroyedIffUnheld(s, id, part);
    }
  }

  lemma OnceInSeq(log: seq<Event>, e: Event)
    requires e in log && forall i, j :: 0 <= i < j < |log| ==> log[i] != log[j]
    ensures multiset(log)[e] == 1
  {
    var k :| 0 <= k < |log| && log[k] == e;
    assert log == log[..k] + [e] + log[k + 1..];
    assert e !in log[..k] && e !in log[k + 1..];
    assert multiset(log) == multiset(log[..k]) + multiset{e} + multiset(log[k + 1..]);
  }

  /** A state's native objects go before any of a state that it has a share in: a statement before its
      connection, a result before its parent and its connection, a connection before its database. */
  lemma DependentGoesFirst(s: Store, id: nat, needed: nat, j: nat, part: Part)
    requires StoreOk(s, []) && id in s.made && needed in Shares(s.made[id]) && j < |s.log| && s.log[j].id == needed
    requires HasPart(s.made[id], part)
    ensures LoggedBefore(s.log, Destroyed(part, id), j)
  {
    NativesAreParts(s.made[id], id, part);
    assert MustPrecede(s.made, Destroyed(part, id), s.log[j]);
  }

  /** Over two levels: before any native object of the database, those of its connections, and before
      those, those of their statements and results. */
  lemma DependentsGoFirst(s: Store, id: nat, mid: nat, needed: nat, j: nat, part: Part, between: Part)
    requires StoreOk(s, []) && id in s.made && mid in s.made && mid in Shares(s.made[id])
    requires needed in Shares(s.made[mid])
    requires j < |s.log| && s.log[j].id == needed
    requires HasPart(s.made[id], part) && HasPart(s.made[mid], between)
    ensures LoggedBefore(s.log, Destroyed(between, mid), j) && LoggedBefore(s.log, Destroyed(part, id), j)
  {
    DependentGoesFirst(s, mid, needed, j, between);
    var i :| 0 <= i < j && i < |s.log| && s.log[i] == Destroyed(between, mid);
    DependentGoesFirst(s, id, mid, i, part);
  }

  /** The storage driver of a database goes before it, and a native connection before the storage
      driver that was made with it. */
  lemma OwnOrder(s: Store, id: nat, j: nat)
    requires StoreOk(s, []) && id in s.made && j < |s.log|
    ensures s.log[j] == Destroyed(NativeDatabase, id) ==> LoggedBefore(s.log, Destroyed(DatabaseStorage, id), j)
    ensures s.log[j] == Destroyed(ConnectionStorage, id) ==> LoggedBefore(s.log, Destroyed(NativeConnection, id), j)
  {
  }
}
