/** The call guard of a Connection (src_py/connection.py).

  Every public method of a connection is wrapped so that it counts itself as in flight, and every
  user defined function (UDF) is wrapped so that its thread carries a marker while it runs. Both
  wrappers push on a per-thread stack. This module states what the guard looks at and what it
  decides, and gives the connection's fields and methods that do it step by step.
 */
module CallTracking {
  /** One element of a thread's stack: a call on a connection, or the marker of a UDF. The source
      stores the connection object or a constant; the number of the call and the number of the call
      whose query runs the UDF are ghost information added here. */
  datatype Entry = Call(conn: nat, id: nat) | Udf(owner: nat)

  /** The fields of a connection that are read and written under its condition variable. */
  datatype Tracker = Tracker(closing: bool, isClosed: bool, inFlight: int)

  datatype Verdict = Admitted | ConnectionIsClosed | UdfUsesBusyConnection

  datatype CloseVerdict = CloseStarts | AlreadyClosed | ClosedFromUdf | ClosedFromOwnCall

  /** Some UDF has started since the thread's newest call on conn that has not returned: a marker lies
      above all of the stack's calls on conn. */
  ghost predicate InUdfSinceLastCall(stack: seq<Entry>, conn: nat) {
    exists m :: 0 <= m < |stack| && stack[m].Udf? && NoCallAbove(stack, m, conn)
  }

  ghost predicate NoCallAbove(stack: seq<Entry>, m: int, conn: nat) {
    forall k :: 0 <= m < k < |stack| ==> !(stack[k].Call? && stack[k].conn == conn)
  }

  ghost predicate HasCallOn(stack: seq<Entry>, conn: nat) {
    exists k :: 0 <= k < |stack| && stack[k].Call? && stack[k].conn == conn
  }

  ghost function AdmitVerdict(tr: Tracker, stack: seq<Entry>, conn: nat): Verdict {
    if tr.closing then ConnectionIsClosed
    else if tr.inFlight != 0 && InUdfSinceLastCall(stack, conn) then UdfUsesBusyConnection
    else Admitted
  }

  ghost function CloseCheck(tr: Tracker, stack: seq<Entry>, conn: nat): CloseVerdict {
    if HasCallOn(stack, conn) then
      if InUdfSinceLastCall(stack, conn) then ClosedFromUdf else ClosedFromOwnCall
    else if tr.isClosed || tr.closing then AlreadyClosed
    else if tr.inFlight != 0 && InUdfSinceLastCall(stack, conn) then ClosedFromUdf
    else CloseStarts
  }

  /** The innermost entry decides, if it is a marker or a call on conn; a call on another connection
      changes nothing. */
  lemma InnermostDecides(stack: seq<Entry>, e: Entry, conn: nat)
    ensures !InUdfSinceLastCall([], conn)
    ensures InUdfSinceLastCall(stack + [e], conn) <==>
              e.Udf? || (e.conn != conn && InUdfSinceLastCall(stack, conn))
  {
    var more := stack + [e];
    if e.Udf? {
      assert more[|stack|].Udf? && NoCallAbove(more, |stack|, conn);
    } else if InUdfSinceLastCall(more, conn) {
      var m :| 0 <= m < |more| && more[m].Udf? && NoCallAbove(more, m, conn);
      assert more[|stack|] == e && stack[m] == more[m];
      assert forall k :: m < k < |stack| ==> stack[k] == more[k];
      assert NoCallAbove(stack, m, conn);
    } else if InUdfSinceLastCall(stack, conn) {
      var m :| 0 <= m < |stack| && stack[m].Udf? && NoCallAbove(stack, m, conn);
      assert more[m].Udf? && !NoCallAbove(more, m, conn);
      var k :| 0 <= m < k < |more| && more[k].Call? && more[k].conn == conn;
      assert k == |stack|;
    }
  }

  /** The scan from the innermost entry outwards. */
  method CalledFromUdf(stack: seq<Entry>, conn: nat) returns (fromUdf: bool)
    ensures fromUdf == InUdfSinceLastCall(stack, conn)
  {
    var n := |stack|;
    while n > 0
      invariant 0 <= n <= |stack|
      invariant forall k :: n <= k < |stack| ==> !stack[k].Udf? && stack[k].conn != conn
    {
      n := n - 1;
      if stack[n].Call? && stack[n].conn == conn {
        return false;
      }
      if stack[n].Udf? {
        assert NoCallAbove(stack, n, conn);
        return true;
      }
    }
    return false;
  }

  class Connection {
    const self: nat
    var closing: bool
    var isClosed: bool
    var callsInFlight: int

    ghost function View(): Tracker
      reads this
    {
      Tracker(closing, isClosed, callsInFlight)
    }

    constructor (self: nat)
      ensures this.self == self && View() == Tracker(false, false, 0)
    {
      this.self := self;
      closing, isClosed, callsInFlight := false, false, 0;
    }

    /** The head of the wrapper: on admission the call is counted and pushed, otherwise nothing
        changes. */
    method EnterCall(stack: seq<Entry>, ghost id: nat) returns (verdict: Verdict, ghost stack': seq<Entry>)
      modifies this
      ensures verdict == AdmitVerdict(old(View()), stack, self)
      ensures verdict == Admitted ==>
                View() == old(View()).(inFlight := old(callsInFlight) + 1) && stack' == stack + [Call(self, id)]
      ensures verdict != Admitted ==> View() == old(View()) && stack' == stack
    {
      stack' := stack;
      if closing {
        return ConnectionIsClosed, stack;
      }
      if callsInFlight != 0 {
        var fromUdf := CalledFromUdf(stack, self);
        if fromUdf {
          return UdfUsesBusyConnection, stack;
        }
      }
      callsInFlight := callsInFlight + 1;
      return Admitted, stack + [Call(self, id)];
    }

    /** The tail of the wrapper, run whether or not the call raised. */
    method LeaveCall(ghost stack: seq<Entry>) returns (ghost stack': seq<Entry>)
      requires stack != []
      modifies this
      ensures View() == old(View()).(inFlight := old(callsInFlight) - 1)
      ensures stack' + [stack[|stack| - 1]] == stack
    {
      stack' := stack[..|stack| - 1];
      callsInFlight := callsInFlight - 1;
    }

    /** close() up to its wait: the two checks and the setting of the flag. */
    method BeginClose(stack: seq<Entry>) returns (verdict: CloseVerdict)
      modifies this
      ensures verdict == CloseCheck(old(View()), stack, self)
      ensures View() == if verdict == CloseStarts then old(View()).(closing := true) else old(View())
    {
      var own := false;
      for k := 0 to |stack|
        invariant own <==> exists j :: 0 <= j < k && stack[j].Call? && stack[j].conn == self
      {
        if stack[k].Call? && stack[k].conn == self {
          own := true;
        }
      }
      var fromUdf := CalledFromUdf(stack, self);
      if own {
        return if fromUdf then ClosedFromUdf else ClosedFromOwnCall;
      }
      if isClosed || closing {
        return AlreadyClosed;
      }
      if callsInFlight != 0 && fromUdf {
        return ClosedFromUdf;
      }
      closing := true;
      return CloseStarts;
    }

    /** The wait was aborted by an exception: teardown never ran, so the connection is reusable. */
    method AbortClose()
      requires closing && !isClosed
      modifies this
      ensures View() == old(View()).(closing := false)
    {
      closing := false;
    }

    /** The end of teardown. */
    method FinishClose()
      requires closing
      modifies this
      ensures View() == old(View()).(isClosed := true)
    {
      isClosed := true;
    }
  }
}
