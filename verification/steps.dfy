/** The error-count convention shared by every open-node lifecycle operation.

    An operation calls its collaborators one after the other, never stopping
    early, and returns the sum of the integer results of some of those calls
    (`ret_val += ...`); the others are made for their effect and their result
    is dropped. An `Outcome` records the calls in order, each with the result
    it returned and whether it was added in, together with the returned total.
 */
module Steps {

  /** A call an operation makes to one of its collaborators. */
  datatype Action =
    | WaitNoTty(tty: string)
    | WaitTty(tty: string)
    | OcdFlash(firmware: string)
    | OcdReset
    | OcdDebugStart
    | OcdDebugStop
    | ClearSerial(port: string, baudrate: nat)
    | SerialStart
    | SerialStop
    | DockerRun(argv: seq<string>)
    | DockerBridgeStart
    | DockerKill(argv: seq<string>)

  /** One call, its result, and whether that result went into the total. */
  datatype Event = Event(action: Action, result: int, counted: bool)

  /** What an operation did and the error count it returned. */
  datatype Outcome = Outcome(trace: seq<Event>, total: int)

  /** The sum of the results that were added in. */
  function SumCounted(t: seq<Event>): int {
    if |t| == 0 then 0
    else (if t[0].counted then t[0].result else 0) + SumCounted(t[1..])
  }

  /** The calls of a trace, in order. */
  function Actions(t: seq<Event>): (r: seq<Action>)
    ensures |r| == |t|
  {
    if |t| == 0 then [] else [t[0].action] + Actions(t[1..])
  }

  lemma {:induction false} ActionAt(t: seq<Event>, i: nat)
    requires i < |t|
    ensures Actions(t)[i] == t[i].action
    decreases i
  {
    if i > 0 {
      ActionAt(t[1..], i - 1);
    }
  }

  /** For each call of a trace, whether its result went into the total. */
  function Kept(t: seq<Event>): (r: seq<bool>)
    ensures |r| == |t|
  {
    if |t| == 0 then [] else [t[0].counted] + Kept(t[1..])
  }

  /** The returned total is exactly the sum of the results that were kept. */
  predicate Consistent(o: Outcome) {
    o.total == SumCounted(o.trace)
  }

  lemma {:induction false} SumCountedAppend(a: seq<Event>, b: seq<Event>)
    ensures SumCounted(a + b) == SumCounted(a) + SumCounted(b)
    decreases |a|
  {
    if |a| == 0 {
      assert a + b == b;
    } else {
      assert (a + b)[0] == a[0];
      assert (a + b)[1..] == a[1..] + b;
      SumCountedAppend(a[1..], b);
    }
  }

  lemma {:induction false} ActionsAppend(a: seq<Event>, b: seq<Event>)
    ensures Actions(a + b) == Actions(a) + Actions(b)
    decreases |a|
  {
    if |a| == 0 {
      assert a + b == b;
    } else {
      assert (a + b)[0] == a[0];
      assert (a + b)[1..] == a[1..] + b;
      ActionsAppend(a[1..], b);
    }
  }

  lemma {:induction false} KeptAppend(a: seq<Event>, b: seq<Event>)
    ensures Kept(a + b) == Kept(a) + Kept(b)
    decreases |a|
  {
    if |a| == 0 {
      assert a + b == b;
    } else {
      assert (a + b)[0] == a[0];
      assert (a + b)[1..] == a[1..] + b;
      KeptAppend(a[1..], b);
    }
  }

  /** An operation that calls nothing and returns 0. */
  function Done(): (o: Outcome)
    ensures Consistent(o) && o.total == 0 && |o.trace| == 0
  {
    Outcome([], 0)
  }

  /** `ret_val += call()`: the call's result is added in. */
  function Counted(a: Action, result: int): (o: Outcome)
    ensures Consistent(o)
    ensures o.total == result
    ensures Actions(o.trace) == [a]
    ensures Kept(o.trace) == [true]
  {
    Outcome([Event(a, result, true)], result)
  }

  /** `call()` alone: the call is made and its result dropped. */
  function Discarded(a: Action, result: int): (o: Outcome)
    ensures Consistent(o)
    ensures o.total == 0
    ensures Actions(o.trace) == [a]
    ensures Kept(o.trace) == [false]
  {
    Outcome([Event(a, result, false)], 0)
  }

  /** Run `first`, then `second`, whatever `first` returned, and add up. */
  function Then(first: Outcome, second: Outcome): (o: Outcome)
    ensures Consistent(first) && Consistent(second) ==> Consistent(o)
    ensures o.total == first.total + second.total
    ensures Actions(o.trace) == Actions(first.trace) + Actions(second.trace)
    ensures Kept(o.trace) == Kept(first.trace) + Kept(second.trace)
  {
    SumCountedAppend(first.trace, second.trace);
    ActionsAppend(first.trace, second.trace);
    KeptAppend(first.trace, second.trace);
    Outcome(first.trace + second.trace, first.total + second.total)
  }

  /** `a` is called before `b` in the trace. */
  predicate CalledBefore(t: seq<Event>, a: Action, b: Action) {
    exists i, j :: 0 <= i < j < |t| && t[i].action == a && t[j].action == b
  }

  /** When every result is zero, the total is zero. */
  lemma {:induction false} AllZeroSumsToZero(t: seq<Event>)
    requires forall i :: 0 <= i < |t| ==> t[i].result == 0
    ensures SumCounted(t) == 0
    decreases |t|
  {
    if |t| > 0 {
      AllZeroSumsToZero(t[1..]);
    }
  }

  /** When every result is non-negative, so is the total, and one positive
      counted result makes the total positive. */
  lemma {:induction false} NonNegativeSum(t: seq<Event>, k: int)
    requires forall i :: 0 <= i < |t| ==> t[i].result >= 0
    ensures SumCounted(t) >= 0
    ensures 0 <= k < |t| && t[k].counted && t[k].result > 0 ==> SumCounted(t) > 0
    decreases |t|
  {
    if |t| > 0 {
      NonNegativeSum(t[1..], k - 1);
    }
  }
}
