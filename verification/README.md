# Verification of the Python binding's protocols and transformations

The repository is a Python binding over a graph database engine. What is hard in it is not the calls
into the engine but what surrounds them: which thread may call a connection and when, what a signal
handler may touch, which native object must outlive which, and the loops and recursive conversions
that move data between Python and the engine. This project models those parts in Dafny and proves what
they promise.

- `CallTracking`, `CallProtocol`, `CallTheorems`: the guard around the calls of a `Connection`: per-thread
  stacks of calls and markers of user defined functions (UDFs), the counter under a condition variable, the
  closing flag and `close()`. `CallTracking` has the fields and methods; `CallProtocol` is the transition
  system of any number of threads and connections, with its invariant; `CallTheorems` has deadlock freedom,
  drainage and close safety.
- `CloseProgress`: why the wait in `close()` ends although an interrupt can be lost.
- `Sigint`: the guard that turns SIGINT into an interrupt of the running query, as atomic steps of the main
  thread and of handlers on any thread.
- `AsyncPool`: the asynchronous connection pool: least-loaded choice, counters, one call per connection,
  cancellation.
- `Settings`: connection settings that are stored by setters and handed on before the next query.
- `Handles`: the ownership graph of the native handles, as a reference-counted heap.
- `PointerGen`: generation numbers that stand for DataFrames and Arrow tables in signatures.
- `PyTypes`, `CacheKey`: the types inferred for parameters, the signatures under which prepared statements
  are cached, and that the latter determine the former.
- `RoundTrip`: casting a parameter to its inferred type and converting it back.
- `ValueOwnership`: building a native value of a nested Python value over the C API without leaks.
- `Interval`, `Csr`, `Coo`, `Scan`, `Torch`: timedelta columns and the two readings of an interval; adjacency
  lists in compressed form; edges extracted in batches into a buffer; parallel scans of DataFrames and Arrow
  tables; the conversion of results for torch_geometric.

Where the source changes state step by step, a class or a method with loops does the same and is proved
against a specification function; what the source promises is proved about that function. Where threads
interleave, each atomic step is a step of a transition system, and the claims are about every run.

## Findings

Nine claims fail as the code stands. In each case the model keeps the code as it is, a lemma gives a
failing run or input, and the exact condition is proved.

- SIGINT safety. If installing the handler fails, the constructor clears the target without waiting for
  handlers, and a handler left over from an earlier guard can then interrupt a context that is gone
  (`Sigint.UnsafeWithFailure`). Safety holds of all runs exactly when the installing call cannot fail
  (`Sigint.SafeIffInstallingCannotFail`).
- The cache key. `[[1], None]` and `[None, [1]]` have one signature and two types (`CacheKey.KeyMissesNulls`).
  For a list of lists or dicts of one signature the key stands for the inferred type exactly when no null
  comes after an item (`CacheKey.NullsDecide`). Otherwise the type is JSON, and the list comes back as a string
  (`RoundTrip.JsonComesBackAsText`, `RoundTrip.NullAfterListIsText`).
- Lists of frames. Two lists of DataFrames that differ in the second one have one signature
  (`CacheKey.KeyMissesFrames`): of a list of frames only the first one is part of the key
  (`CacheKey.FirstFrameDecides`). Elsewhere a regular value's frames are determined by its key
  (`CacheKey.SameKeyIff`).
- Generation numbers. The counter is global and not locked, while the lock on prepared statements is one per
  connection. Two threads that compute signatures at once can give one number to two objects
  (`PointerGen.TwoObjectsOneNumber`). No number stands for two objects in any run exactly when signatures are
  computed one after the other (`PointerGen.NoneSharesIffSerial`), and then no object has two numbers either
  (`PointerGen.OneToOneIffSerial`).
- Pool counters. A connection that is returned without being on loan, while it has calls that are not settled,
  loses a count and looks idle (`AsyncPool.OverReturnMiscounts`). The counters are exact throughout a run
  exactly when this does not happen; a surplus return at zero is harmless (`AsyncPool.CountersExactIff`).
- Intervals. A timedelta of 360 days is read back as 365 (`Interval.YearIsLonger`), in general with five days
  more for every 360, and unchanged exactly below 360 days (`Interval.Drift`, `Interval.NoDriftIff`,
  `Interval.NoDriftByCApiIff`). Minus one month is 30 days to one backend and 35 to the other
  (`Interval.MinusOneMonth`); they agree exactly on months that are not negative or are whole years
  (`Interval.ReadingsAgreeIff`).
- Edge properties for torch_geometric. If the first of two edges lacks a property, entry 0 is that of edge 1
  (`Torch.MissingPropertyMisaligns`). Entries and edges align exactly when all edges between two labels have
  the property (`Torch.PropertiesAlignIff`).
- Maps with lists or dicts as keys are cast, but raise on their way back (`RoundTrip.ListAsKeyRaises`). A value
  of the fragment comes back exactly when it has no such keys (`RoundTrip.ComesBack`).
- The thread setting. An extraction of edges that raises leaves its connection with one thread: for instance
  if the second of two queries is interrupted (`Coo.OneThreadIsLeft`), in general exactly if some batch fails
  or has another layout (the contract of `Coo.Connection.GetAllEdges`).

## Model

| member | source | states |
|---|---|---|
| CallTracking.CalledFromUdf | src_py/connection.py:328-335 | the scan of the thread's stack finds out whether some UDF marker lies above every call on the connection |
| CallTracking.InnermostDecides | src_py/connection.py:328-335 | the innermost entry decides: a marker puts the thread in a UDF, a call on the connection takes it out, a call on another connection changes nothing |
| CallTracking.Connection.EnterCall | src_py/connection.py:342-356 | a call is refused on a closing connection, and from a UDF on a busy one; only an admitted call is counted and pushed |
| CallTracking.Connection.LeaveCall | src_py/connection.py:359-363 | a call that ends, normally or not, takes back its count and its entry |
| CallTracking.Connection.BeginClose | src_py/connection.py:529-547 | the outcome of the checks of close() for every state and stack; the closing flag is set only if close() starts |
| CallTracking.Connection.AbortClose | src_py/connection.py:555-560 | an aborted wait takes back the closing flag and nothing else |
| CallTracking.Connection.FinishClose | src_py/connection.py:582-591 | teardown ends with the connection closed |
| CallProtocol.InitInv | src_py/connection.py:320-325 | connections and threads start in a state that satisfies the invariant |
| CallProtocol.EnterKeepsInv | src_py/connection.py:338-363 | admission keeps the invariant: stacks stay ordered by admission and connection, runs of calls start with an idle connection if a UDF started them |
| CallProtocol.StartUdfKeepsInv | src_py/connection.py:374-386 | starting a UDF keeps the invariant, in particular that the call behind every UDF marker holds its connection's slot |
| CallProtocol.BeginCloseKeepsInv | src_py/connection.py:529-547 | the start of close() keeps the invariant, in particular that the thread that closes is outside every call on the connection |
| CallProtocol.StepKeepsInv | src_py/connection.py:338-386 | every step of every thread keeps the invariant: entries and counts agree, slots belong to unfinished calls, a connection in teardown has none, and the thread that closes is outside its calls |
| CallTheorems.EdgeRises | src_py/connection.py:346-351 | along every edge of the wait-for relation, whether to the holder of a slot, to a UDF or up a stack, the admission stamps of the runs rise |
| CallTheorems.NoDeadlock | src_py/connection.py:338-386 | in no reachable state of any number of threads and connections do calls wait for each other in a circle |
| CallTheorems.WaitingHappens | src_py/connection.py:346-351 | waiting does occur: a run after which one call waits for the slot that another holds |
| CallTheorems.NestedCallsHappen | src_py/connection.py:338-386 | a run in which a UDF calls a second connection and that call makes a further call on it |
| CallTheorems.Progress | src_py/connection.py:338-386 | while any call, UDF or close() is unfinished, one of them can take a step towards its end |
| CallTheorems.EveryCallCanFinish | src_py/connection.py:338-386 | from every reachable state there is a run without new calls in which every call, UDF and close() ends, and every connection that is being closed ends up closed |
| CallTheorems.AdmittedIff | src_py/connection.py:342-351 | in every reachable state: user code outside UDFs is admitted unless the connection is closing, a UDF exactly if moreover no call on the connection is unfinished on any thread, and a call on the connection may always make further calls on it unless it is closing; a refusal names the closed connection exactly if it is closing |
| CallTheorems.CloseStartsIff | src_py/connection.py:529-547 | in every reachable state: close() from a call on the connection raises, from a UDF inside one too; otherwise it returns if the connection is closed or closing, raises in a UDF while calls are unfinished, and else starts |
| CallTheorems.CounterIsExact | src_py/connection.py:356-363 | the counter is the number of admitted, unfinished calls on the connection, over all threads |
| CallTheorems.ClosingAdmitsNothing | src_py/connection.py:342-345 | as long as the closing flag is set no call is admitted, the calls in flight are among those from before, and the counter does not rise |
| CallTheorems.WaitIsClosing | src_py/connection.py:547-554 | the closing flag is set throughout the wait of close() |
| CallTheorems.TeardownIsFinal | src_py/connection.py:533-591 | teardown starts once at most and with no call in flight; afterwards no call is admitted and no second close() starts |
| CallTheorems.AbortedCloseRestores | src_py/connection.py:555-560 | an aborted wait leaves counter, calls and all other connections as they were |
| CallTheorems.AbortedCloseAdmits | src_py/connection.py:342-356 | after it, user code is admitted again except from a UDF while calls on the connection are unfinished |
| CallTheorems.UdfNeverWaitsInClose | src_py/connection.py:537-546 | a thread inside a UDF never waits in close(): it is refused or has nothing to wait for |
| CloseProgress.WaitForCalls | src_py/connection.py:548-554 | for any schedule of the calls' steps between interrupts in which calls in flight never come to rest for good, the loop ends at the first round after which all calls are done; the rounds in which a call took a step are at most the work there was |
| CloseProgress.EndsIffKeepsStirring | src_py/connection.py:548-554 | for any schedule, also with rounds in which nothing happens, the wait ends exactly if calls in flight never come to rest for good |
| CloseProgress.FewRoundsStir | src_py/connection.py:548-554 | for any schedule, the rounds in which some call takes a step, at whatever point of the round, are no more than the work that has been done |
| CloseProgress.RoundReducesWork | src_py/connection.py:548-554 | a round in which some call takes a step leaves less work, and any other round leaves all calls as they were |
| CloseProgress.StirringCounts | src_py/connection.py:548-554 | the rounds counted are those among the first n in which some call takes a step |
| CloseProgress.OneAfterTheOther | src_py/connection.py:548-554 | if at most one call is in the engine when the wait begins, that is so after every round of any schedule |
| CloseProgress.SomeCallCanStep | src_py/connection.py:549 | while the counter is not zero some call in flight can take a step |
| CloseProgress.StepReducesWork | src_py/connection.py:550-554 | every step of a call in flight takes one off the work, except that of an uninterrupted execution going on, which takes none |
| CloseProgress.OneInterruptIsLost | src_py/connection.py:550-551 | one interrupt is not enough: sent while a query compiles it is cleared, and the query can run for any number of steps |
| Sigint.StepKeepsInv | src_cpp/py_connection.cpp:212-302 | every step of a guard, a handler or user code keeps the invariant: one guard owns the statics, the saved handler is Python's, and the count is that of the handlers counted in |
| Sigint.StepKeepsLoads | src_cpp/py_connection.cpp:241-245 | a context that a handler has loaded belongs to a guard that will still wait for it |
| Sigint.OneGuardAndPythonHears | src_cpp/py_connection.cpp:212-302 | in every interleaving at most one guard is installed and every signal is passed on to Python's handler |
| Sigint.HandlerIsPutBack | src_cpp/py_connection.cpp:235-236 | in every state of every run in which no guard is installed, the SIGINT handler is Python's |
| Sigint.SignalFindsQuery | src_cpp/py_connection.cpp:285-289 | a handler that looks for a query while one runs under an installed guard, on whatever thread, finds that one |
| Sigint.SignalIsNoticed | src_cpp/py_connection.cpp:290 | a signal that is noted while a guard is installed stays noted as long as that guard is, whatever other guards do |
| Sigint.GuardStaysOff | src_cpp/py_connection.cpp:214-219 | a guard beside another one, one that must not be installed and one that cannot read the handler leave everything as it was |
| Sigint.SafeWithoutFailure | src_cpp/py_connection.cpp:233-247 | if installing cannot fail, a handler interrupts a context only while its guard's destructor has not returned |
| Sigint.UnsafeWithFailure | src_cpp/py_connection.cpp:225-228 | with a failing installation there is a run in which a handler interrupts a context whose guard is gone |
| Sigint.SafeIffInstallingCannotFail | src_cpp/py_connection.cpp:210-310 | SIGINT safety holds of all interleavings exactly when the installing call of sigaction cannot fail |
| Sigint.RestoredMainRuns | src_cpp/py_connection.cpp:236-240 | from the moment the destructor has restored the previous handler no handler runs on its own thread |
| Sigint.WaitIsForOtherThreads | src_cpp/py_connection.cpp:241-245 | in every state of every run in which the destructor has to wait, a handler of another thread that it waits for can move |
| Sigint.WaitEnds | src_cpp/py_connection.cpp:241-243 | the wait is finite in every run: nothing but handlers moves during it, and each of their moves is one of those they had left when it began |
| Sigint.WaitCanEnd | src_cpp/py_connection.cpp:241-243 | from every state of the wait some moves of handlers, no more than they have left, let the destructor return |
| AsyncPool.Pool.TakeLeastLoaded | src_py/async_connection.py:84-88 | the first connection with the fewest calls is chosen and counted |
| AsyncPool.Pool.Decrement | src_py/async_connection.py:90-95 | a counter goes down by one and not below zero |
| AsyncPool.Pool.Register | src_py/async_connection.py:223-226 | a call whose turn comes is registered as running unless it was cancelled, and then skipped |
| AsyncPool.Pool.Cancel | src_py/async_connection.py:237-241 | a call is marked as cancelled, and interrupted exactly if it is the one registered on its connection |
| AsyncPool.StepKeepsCalls | src_py/async_connection.py:197-245 | every step keeps the agreement between stages, connection locks and the table of running calls |
| AsyncPool.StepIsPrecise | src_py/async_connection.py:237-241 | a cancellation interrupts exactly a call whose function is running, on whose connection no other call is past the lock; no other step interrupts |
| AsyncPool.InterruptsArePrecise | src_py/async_connection.py:233-245 | every interrupt ever sent was sent by a cancellation of its call, while the function of that call was running and no other call on the connection was past the lock |
| AsyncPool.OneRunningPerConnection | src_py/async_connection.py:219-231 | at most one call is past the lock of a connection, and the registered call is the one that runs |
| AsyncPool.CancelledInTimeNeverRuns | src_py/async_connection.py:223-226 | after a cancellation that comes before its turn, a call never runs its function and is never registered |
| AsyncPool.TurnRuns | src_py/async_connection.py:223-228 | at its turn a call that is not cancelled is registered on its connection and its function started; a cancelled one is neither |
| AsyncPool.CancelledIff | src_py/async_connection.py:237-238 | the calls marked as cancelled are those that some cancellation has named |
| AsyncPool.RunsUnlessCancelled | src_py/async_connection.py:219-231 | every call that is past its turn had it, and its function was started exactly if no cancellation had come before; or it was dropped from the queue unstarted |
| AsyncPool.EveryCallCanSettle | src_py/async_connection.py:197-231 | from every reachable state the pool's own steps can settle any given call, and have then run its function unless it was cancelled or dropped |
| AsyncPool.CancelSkips | src_py/async_connection.py:219-241 | from every reachable state a call before its turn can be cancelled and is then settled by the pool's own steps without having been started |
| AsyncPool.CountersExactIff | src_py/async_connection.py:84-127 | in any run the counters are exact throughout exactly when no connection that is not on loan is returned while its counter is not zero |
| AsyncPool.CountersAreExact | src_py/async_connection.py:84-127 | up to such a return a counter is the number of unsettled calls and loans, and zero exactly when there are none |
| AsyncPool.OverReturnMiscounts | src_py/async_connection.py:113-127 | one such return makes a connection with a queued call count zero |
| Settings.PendingSettings.Queue | src_py/connection.py:389-395 | a setter stores a value that fits a uint64 and refuses any other |
| Settings.PendingSettings.ApplyPending | src_py/connection.py:502-509 | all stored values reach the native connection, later ones over earlier ones, and none stays behind |
| Settings.ValuesAreStored | src_py/connection.py:499-509 | every value that is stored, being handed on or at the native connection was passed to its setter earlier in the run |
| Settings.NativeNeverGoesBack | src_py/connection.py:499-509 | with any setters and queries at once, a value at the native connection was passed to its setter by the same call as the value there before, or by a later one |
| Settings.QueriesSeeReturnedSetters | src_py/connection.py:502-509 | a query that began after a call of a setter had returned runs with the value of that call or of a later one |
| Settings.EveryQueryCanRun | src_py/connection.py:502-509 | from every reachable state a query that has begun can get to run, without further setters or queries |
| Handles.Heap.OpenDatabase | src_cpp/py_database.cpp:96-99 | a database state with one owner |
| Handles.Heap.OpenConnection | src_cpp/py_connection.cpp:153-167 | a connection shares its database's state; a closed database is refused |
| Handles.Heap.Prepare | src_cpp/py_connection.cpp:362-371 | a statement shares its connection's state; a closed connection is refused |
| Handles.Heap.Execute | src_cpp/py_connection.cpp:314-342 | a result shares the state of its connection; closed connections and statements are refused |
| Handles.Heap.NextResult | src_cpp/py_query_result.cpp:80-91 | the next result shares the state of its parent and of the parent's connection |
| Handles.Heap.KeepAlive | src_cpp/py_connection.cpp:320-331 | the pointer kept during a call is one more owner |
| Handles.Heap.Close | src_cpp/py_query_result.cpp:93-98 | closing drops one share; states without owners are destroyed, natives first, then their shares; closing twice changes nothing |
| Handles.Heap.DropFirst | src_cpp/include/py_handle_state.h:17-22 | dropping one share keeps counts, ownership and the order of destruction consistent, and the destruction under way terminates |
| Handles.ExistsIffHeld | src_cpp/include/py_handle_state.h:13-94 | a state exists exactly as long as some open handle reaches it over shares |
| Handles.OpenHandleIsUsable | src_cpp/include/py_handle_state.h:45-94 | an open handle reaches a live native connection and a live native database |
| Handles.BorrowedIsAlive | src_cpp/py_query_result.cpp:86-89 | the pointer of a child result lies in a native result that is owned and alive, however long the chain and whichever handles were closed |
| Handles.DestroyedIffUnheld | src_cpp/include/py_handle_state.h:13-94 | each native object of every state ever made, named part by part, has been destroyed exactly if no open handle reaches the state any more, and never twice |
| Handles.OnlyMadeIsDestroyed | src_cpp/include/py_handle_state.h:13-94 | nothing is destroyed that is not a native object of a state that was made |
| Handles.NothingLeaks | src_cpp/include/py_handle_state.h:13-94 | once all handles are closed, in any order, no state is left, and databases, storage drivers, connections, statements and owned results have been destroyed exactly once each |
| Handles.DependentGoesFirst | src_cpp/include/py_handle_state.h:47-54 | before any native of a state go all natives of the states that share it: statements and results before their connection, results before the results they come from, connections before their database |
| Handles.DependentsGoFirst | src_cpp/include/py_handle_state.h:47-54 | the same over two levels: statements and results go before the database of their connection |
| Handles.OwnOrder | src_cpp/include/py_handle_state.h:17-54 | a database's storage driver goes before it; a native connection goes before the storage driver beside it |
| PointerGen.Tracker.Generation | src_py/connection.py:215-231 | a live object keeps its number, a new one gets a number that no object has had, also at a recycled address |
| PointerGen.StepKeepsInv | src_py/connection.py:215-231 | with signatures computed one after the other, every allocation, release and step keeps numbers and objects one to one |
| PointerGen.CallEnds | src_py/connection.py:215-231 | the signature of an object is complete after five steps at most, and the object then has a number |
| PointerGen.TwoObjectsOneNumber | src_py/connection.py:228-230 | a run in which two threads that compute signatures at once give one number to two objects |
| PointerGen.NoneSharesIffSerial | src_py/connection.py:215-231 | in all runs no two objects share a number, exactly when signatures are not computed at the same time |
| PointerGen.OneToOneIffSerial | src_py/connection.py:215-231 | in all runs a number stands for one object and an object has one number, exactly when signatures are not computed at the same time |
| CacheKey.ListSignature | src_py/connection.py:288-303 | a list of ints, or of items of one signature, is keyed by that signature, ints by int64 |
| CacheKey.UniformIsHomogeneous | src_cpp/py_connection.cpp:537-567 | the fast path of the inference takes exactly the lists of bools, of ints and of floats among them |
| CacheKey.ListOfOne | src_cpp/py_connection.cpp:774-800 | the type of a list of items of one signature, with nulls: JSON if a null follows a nested item, else a list of the items' type |
| CacheKey.MapDetermined | src_cpp/py_connection.cpp:736-754 | a dict of the shape of a map has the type its signature stands for, in both inferences and also where they fail |
| CacheKey.StructDetermined | src_cpp/py_connection.cpp:760-771 | so has any other dict of two entries: the look for a map succeeds or fails on both sides alike |
| CacheKey.KeyDeterminesType | src_py/connection.py:192-304 | by induction over nested values, the type that either inference computes for a regular value is a function of its signature |
| CacheKey.SameKeySameType | src_py/connection.py:932-944 | two regular values with one signature are inferred to have one type, so a cached statement fits both |
| CacheKey.SameKeySameFrames | src_py/connection.py:215-231 | regular values with one signature have the same DataFrames and Arrow tables in the same places, down to type name, generation and fingerprint |
| CacheKey.SameKeyIff | src_py/connection.py:192-304 | two regular values have one signature exactly if they are inferred to have one type and have the same frames in the same places, so no statement is prepared twice for a type and none is used for another frame |
| CacheKey.FirstFrameDecides | src_py/connection.py:288-303 | two lists of frames and nulls have one signature exactly if their first frames are the same |
| CacheKey.KeyMissesFrames | src_py/connection.py:287-288 | a concrete pair of lists with one signature and different second frames |
| PyTypes.IntTypeIsFirstFit | src_py/connection.py:158-171 | an int is given the first integer type in order that it fits, and refused if it fits none |
| PyTypes.MergeCases | src_py/connection.py:264-286 | signatures of ints are merged to the wider one, those of lists and maps part by part, and an unknown one stays unknown |
| PyTypes.StructsMergeByName | src_py/connection.py:280-284 | the signatures of two dicts with the same names are merged name by name, whatever their order |
| CacheKey.NullsDecide | src_cpp/py_connection.cpp:779-790 | for lists of nested items of one signature the key stands for the inferred type exactly when no null comes after an item; otherwise the type is JSON |
| CacheKey.KeyMissesNulls | src_cpp/py_connection.cpp:779-790 | a concrete pair of lists with one signature and two types |
| RoundTrip.ComesBack | src_cpp/py_connection.cpp:1055-1133 | a value of the fragment is cast to its inferred type without an exception, every part of the result has the type its place asks for, and it comes back as the value it was, unless a key of a map is a list or dict |
| RoundTrip.ListAsKeyRaises | src_cpp/py_query_result.cpp:265-274 | a concrete map with a list as key is cast without an exception and raises on its way back |
| RoundTrip.JsonComesBackAsText | src_cpp/py_connection.cpp:1110-1116 | a list whose type is JSON is cast to its JSON text, if it has one, and comes back as that string |
| RoundTrip.NullAfterListIsText | src_cpp/py_connection.cpp:779-790 | [[1], None] does not come back as a list |
| RoundTrip.TemporalComesBack | src_cpp/py_connection.cpp:968-1003 | a date, timedelta or UUID comes back as the conversion of its kind makes it of what it was converted to |
| RoundTrip.IntComesBackIfItFits | src_cpp/py_connection.cpp:1055-1123 | an int is cast to every integer type that it fits and to no other, and comes back from there |
| RoundTrip.ListLands | src_cpp/py_connection.cpp:1061-1077 | lists: item by item, in order |
| RoundTrip.StructLands | src_cpp/py_connection.cpp:1101-1111 | dicts: the fields keep their names, order and values |
| RoundTrip.MapLands | src_cpp/py_connection.cpp:1078-1100 | dicts of the shape of a map: the types inferred again for the two lists are those of the map, and the pairs come back as a mapping |
| RoundTrip.SetItemMaps | src_cpp/py_query_result.cpp:265-274 | filling a dict pair by pair gives the mapping in which the last of equal keys wins |
| RoundTrip.EqualNumbers | src_cpp/py_query_result.cpp:265-274 | as dict keys True, 1 and 1.0 are one key, and so on for all bools, ints and floats |
| RoundTrip.ItemType | src_cpp/py_connection.cpp:774-800 | every item of a list of the fragment is inferred to have the list's child type, or is null, or is an int in a list of INT64 |
| Interval.ScanTimedelta | src_cpp/numpy/numpy_scan.cpp:136-157 | NaT becomes null; any other value is split into months, days and microseconds of one sign that add up to its microseconds and fit their fields |
| Interval.SplitIsUnique | src_cpp/numpy/numpy_scan.cpp:146-154 | there is only one such split |
| Interval.Drift | src_cpp/py_query_result.cpp:247-256 | a scanned timedelta is read back with five more days for every 360 whole days, in either direction |
| Interval.NoDriftIff | src_cpp/py_query_result.cpp:247-256 | it is read back as it was, to the microsecond, exactly when it lasts less than 360 days |
| Interval.YearIsLonger | src_cpp/numpy/numpy_scan.cpp:146-154 | a timedelta of 360 days is scanned as 12 months and read back as 365 days by both backends |
| Interval.ReadingsAgreeIff | src_py/_lbug_capi.py:1855-1868 | the two backends read an interval alike exactly when its months are not negative or are whole years, and otherwise five days apart |
| Interval.MinusOneMonth | src_py/_lbug_capi.py:1863-1868 | minus one month is read as 30 days by one backend and as 35 by the other |
| Interval.NoDriftByCApiIff | src_py/_lbug_capi.py:1863-1868 | over the C API a timedelta is read back as it was exactly when it lasts more than -30 and less than 360 days |
| Csr.GetCsr | src_py/_lbug_capi.py:1541-1582 | for any rows: the lists are well formed, start at 0 and end at the number of rows, describe the rows stably sorted by source and have ids if the query has; negative sources count from the end, one beyond it raises, and other projections are refused |
| Csr.NumSources | src_py/_lbug_capi.py:1560-1561 | there is a group for every source up to the largest, and no more |
| Csr.Compress | src_py/_lbug_capi.py:1567-1576 | the three lists are the offsets, destinations and ids of the groups in order |
| Csr.StableSortIff | src_py/_lbug_capi.py:1561-1566 | that order is the stable sort: it is the only sequence that ascends by source and keeps the edges of each source in their order |
| Csr.SameEdges | src_py/_lbug_capi.py:1560-1576 | every edge is as often in it as in the rows |
| Csr.ByColumns | src_py/_lbug_capi.py:1554-1576 | between indptr[s] and indptr[s + 1] stand the destination column and the id column of the rows whose first column is s, in the order of the rows |
| Csr.RowidNames | src_py/_lbug_capi.py:1546-1553 | a column is a rowid exactly if its name ends in .rowid |
| Csr.SortedIsExact | src_py/_lbug_capi.py:1541-1582 | rows that are already sorted by source are described exactly |
| Coo.Connection.GetAllEdges | src_cpp/py_connection.cpp:381-453 | every edge is written once, its source at i and its destination at numRels + i, in the order of arrival and never outside the buffer; it fails exactly if a batch fails or has another layout, and then leaves one thread |
| Coo.OneThreadIsLeft | src_cpp/py_connection.cpp:397-452 | two edges in two batches, the second query interrupted: the first batch is usable and the second is not |
| Coo.FetchBatch | src_cpp/py_connection.cpp:408-451 | after each batch the rows written are the edges up to where the next one starts |
| Coo.CopyTuples | src_cpp/py_connection.cpp:424-436 | the tuples of either layout are expanded behind what is there |
| Coo.FlatIsRepeated | src_cpp/py_connection.cpp:423-447 | of the two columns the flat one repeats its value in every row of a tuple, and the other one does not |
| Coo.OneFlatColumn | src_cpp/py_connection.cpp:422-448 | usable are exactly the tables of which one column of the two is flat |
| Coo.BatchStarts | src_cpp/py_connection.cpp:410-413 | batches are not empty, end where the next one starts and stay below the node count |
| Coo.NextBatch | src_cpp/py_connection.cpp:408-421 | a batch adds exactly the edges of its range, so the rows never outgrow the buffer |
| Scan.ParseConfig | src_cpp/py_scan_config.cpp:10-38 | SKIP is clamped to the number of rows, missing options have their defaults, and the first wrong option is reported |
| Scan.OrderDoesNotMatter | src_cpp/py_scan_config.cpp:10-38 | whether options are accepted and what they set does not depend on their order; only which wrong one is reported does |
| Scan.RowsAreAskedFor | src_cpp/py_scan_config.cpp:10-38 | the rows of a scan are those from SKIP on, or from the first, and among them the first LIMIT, or all |
| Scan.PandasScanIsExact | src_cpp/pandas/pandas_scan.cpp:75-99 | for any workers, morsels and order of calls a finished scan has put out exactly the rows of the range, each once, in pieces that fit a vector |
| Scan.PandasWorker.TableFunc | src_cpp/pandas/pandas_scan.cpp:75-99 | one call does to the worker's cursor and the shared state what a step of the protocol does |
| Scan.SameRows | src_cpp/pyarrow/pyarrow_scan.cpp:52-57 | the slices of an Arrow table are the rows that the scan of a DataFrame counts |
| Scan.ArrowScanIsExact | src_cpp/pyarrow/pyarrow_scan.cpp:70-112 | for any workers and order of calls a finished scan of an Arrow table has put out exactly the rows of the range, each once |
| Scan.ScansAgree | src_cpp/pandas/pandas_scan.cpp:38-45 | both scans put out every row equally often, once inside the range and never outside |
| Scan.PandasScanEnds | src_cpp/pandas/pandas_scan.cpp:75-99 | the calls of a scan are bounded by its rows and workers, and until it has finished some worker can be called |
| Scan.ArrowScanEnds | src_cpp/pyarrow/pyarrow_scan.cpp:94-112 | the same for an Arrow table |
| Scan.ExecutedAgain | src_cpp/include/pyarrow/pyarrow_scan.h:30-33 | executed again the scan puts out the same rows exactly if the cursor was reset or there were none |
| Scan.ArrowShared.ResetState | src_cpp/include/pyarrow/pyarrow_scan.h:30-33 | the cursor is rewound |
| Scan.ArrowShared.GetNextChunk | src_cpp/pyarrow/pyarrow_scan.cpp:70-76 | chunks are handed out in order, each once, and then none |
| Scan.ArrowWorker.TableFunc | src_cpp/pyarrow/pyarrow_scan.cpp:94-112 | one call puts out the chunk held and fetches the next, as a step of the protocol does |
| Torch.ColumnIsAligned | src_py/torch_geometric_result_converter.py:83-158 | a property is converted exactly if all its values are of a supported type, not null and of one shape; in either case entry k is that of the k-th node |
| Torch.Converter.ExtractProperty | src_py/torch_geometric_result_converter.py:83-157 | one value moves the property's list as specified, no property is in both dictionaries, all other lists stay |
| Torch.Converter.MarkPropertyUnconverted | src_py/torch_geometric_result_converter.py:166-186 | a property moves with all its entries, tensors as lists again, and an empty label goes |
| Torch.Converter.ExtractPropertiesFromNode | src_py/torch_geometric_result_converter.py:73-158 | all lists of a label grow by one entry, and the position is the number of nodes before |
| Torch.Converter.AddNode | src_py/torch_geometric_result_converter.py:47-63 | a node seen before changes no list; a new one gets the position of its entries and its primary key there |
| Torch.Converter.Populate | src_py/torch_geometric_result_converter.py:40-71 | after any rows the lists are those of the distinct nodes, and the relationships those kept by their ends |
| Torch.DistinctIsOnce | src_py/torch_geometric_result_converter.py:50-51 | every node of the rows is there once, as it was when it came first |
| Torch.RelsAreLatest | src_py/torch_geometric_result_converter.py:65-71 | between two nodes exactly the latest relationship is kept |
| Torch.EveryPairIsKept | src_py/torch_geometric_result_converter.py:65-71 | for every relationship there is one with its source and destination among those kept, itself or a later one |
| Torch.Converter.PopulateEdges | src_py/torch_geometric_result_converter.py:188-210 | edges and edge properties are those of the relationships between two labels, in order; it fails exactly if an end is not among the nodes |
| Torch.EdgesAreValid | src_py/torch_geometric_result_converter.py:191-201 | the ends of every edge are positions of nodes of its labels, and those are the nodes the relationship joins |
| Torch.PropertiesAlignIff | src_py/torch_geometric_result_converter.py:202-210 | the list of an edge property has an entry per edge exactly when all edges have the property, and entry k is then that of edge k |
| Torch.Converter.InternalFieldsAreLeftOut | src_py/torch_geometric_result_converter.py:203-205 | the ends and the id of a relationship are not among the edge properties |
| Torch.MissingPropertyMisaligns | src_py/torch_geometric_result_converter.py:202-210 | two edges between one pair of labels, the first without a property: its list has one entry, that of the second |
| ValueOwnership.ValueFromPython | src_py/_lbug_capi.py:1041-1193 | it succeeds exactly if no creation or encoding fails and no part of the value is unsupported, and raises a TypeError only for an unsupported part; an exception leaves no native value, and on success there is exactly one more, which holds the Python value |
| ValueOwnership.MeansOneValue | src_py/_lbug_capi.py:1041-1193 | a Python value is held by one native value only |
| ValueOwnership.ListFromPython | src_py/_lbug_capi.py:1085-1100 | lists, tuples and arrays: the children are in order and freed once each |
| ValueOwnership.MapFromPython | src_py/_lbug_capi.py:1109-1141 | maps: keys and values are paired as in the dict and freed once each |
| ValueOwnership.StructFromPython | src_py/_lbug_capi.py:1143-1168 | structs: names and values belong together and the values are freed once each |
| ValueOwnership.DestroyAll | src_py/_lbug_capi.py:1036-1038 | only live values are freed, and afterwards exactly those from before are left |

## Left out

- Engine: planner, storage and query execution are not part of this model. What is assumed of it is written as preconditions: the common type of two equal types is that type, and of ANY and a type is that type (`IsMaxType`); a query for a range of destinations returns each edge of the range once (`Answers`); morsels follow each other; Arrow cuts a table into batches that are not empty; node tables have a primary key, and all nodes of a table one label.
- Weak memory orders and the global interpreter lock: steps are sequentially consistent and atomic as written; in `PointerGen` the counter's load and store are separate steps.
- Sigint, CallProtocol and the protocol halves of AsyncPool, Settings, Scan and PointerGen: interleavings are transitions on values, because Dafny methods cannot interleave; aliasing of the class fields is then not captured. In `CallProtocol` the push and pop of a stack entry happen together with the change of the counter.
- Sigint: the checks for the main thread and for Python's default handler are one outcome, and a guard that fails them does nothing; guards on other threads do nothing either and are not modelled; the saved handler is read as one step; `raiseIfInterrupted` is not part of this model.
- CallProtocol: threads started inside UDFs and finalizers that close another connection in the middle of a call, which the guard does not track; a query result's own close during teardown.
- WaitForCalls: that calls in flight do not come to rest for good, for which the source waits 50 ms between two interrupts, is up to the system and the engine; `EndsIffKeepsStirring` says that this is exactly what the end of the wait takes. Its calls are those in flight when the flag is set, which `CallTheorems.ClosingAdmitsNothing` justifies.
- AsyncPool: a submit that the executor refuses is a call dropped while it is queued; finding the index of a connection in the pool.
- Settings: native setters are taken to succeed; a value whose setter raises is lost in the source.
- Handles: the Arrow tables a connection keeps references to and the engine's own references to a connection.
- NextResult: the source releases the global interpreter lock here without the copy of the state that execute() keeps (src_cpp/py_query_result.cpp:82). It is one step of the model because only a call that the guard counts makes it (src_py/connection.py:1096), so close() does not run beside it.
- PointerGen: types that are not DataFrames or Arrow tables, objects without weak references, and the KeyError of two threads that delete one stale entry.
- CacheKey: Decimal, tuples, numpy arrays, bytearrays, non-string keys and lists of mixed types are outside the regular values, and so are lists of dicts whose items have different signatures, for which the two sides do not compute alike.
- SignatureOf: a list of three or more dicts with different names makes the source raise a ValueError while merging, unless the names have two letters; the model keeps the set of names of the first two.
- KeyDeterminesType: the type of a MAP whose list of keys or values is inferred to be JSON is taken as an exception.
- ComesBack: dates, timedeltas, UUIDs, frames, Decimals, JSON lists and values that Python would convert to another kind are outside the fragment; their conversions are parameters of the model, and `TemporalComesBack` and `JsonComesBackAsText` say what comes back by them. Floats are reals.
- ReadingsAgreeIff: does not model 32-bit overflow of the day counts of intervals of millions of years, nor the limits of datetime.timedelta.
- GetCsr: the conversion of the cells to int, and cells that are None.
- GetAllEdges: a batch size of zero, which divides by zero in the source; offsets beyond 64 bits.
- Scan: the column converters, null masks and progress functions; the cursor of the engine's morsels is its own.
- ArrowScanIsExact: an empty batch in the middle would end its worker early and lose the chunk it had fetched; batches are taken as not empty.
- Torch: values of DOUBLE list properties pass through 32-bit tensors when they are moved back, so `Relisted` entries may be rounded; a null inside a list value raises a TypeError; warning texts and the construction of the Data objects are not modelled. The nested dictionary of edges is keyed by the pair of labels.
- ValueOwnership: scalars of the C API are one kind of leaf; which integer width or timestamp is chosen is not modelled.
- Mixing entries of the C API and of pybind in one statement cache, regular expression rewriting of queries, DataFrame and Arrow construction, networkx export, ctypes signatures and backend loading: not part of this model.
