/** The retry-until-success loop that every reader uses to obtain a fresh node. The
    node factory it calls is not part of this model: its answers are given as a
    sequence of attempts, and a finite sequence with no success stands for a loop that
    is still retrying. */
module Retry {
  import opened Wrappers
  import opened Ros

  /** One call of the node factory: the node and the error it returned; either may be nil. */
  datatype Attempt = Attempt(node: Option<Node>, err: Option<string>)

  /** The loop accepts an attempt only when it has a node and no error. */
  predicate Succeeds(a: Attempt) {
    a.node.Some? && a.err.None?
  }

  /** What the loop does after a failed attempt besides logging at debug level: a warning
      carrying the attempt's error, and a one-second sleep. */
  datatype Action = Warn(err: Option<string>) | Sleep

  /** A warning is logged on every tenth failure. */
  const WarnEvery: nat := 10

  /** The actions that follow the failed attempts `failed`, in order. */
  function FailureTrace(failed: seq<Attempt>): seq<Action>
    decreases |failed|
  {
    if |failed| == 0 then []
    else
      var errCount := |failed|;
      FailureTrace(failed[..errCount - 1])
        + (if errCount % WarnEvery == 0 then [Warn(failed[errCount - 1].err)] else [])
        + [Sleep]
  }

  /** Calls the factory until an attempt succeeds. Returns that attempt's node and the
      number of failures before it; `None` means every given attempt failed and the loop
      would still be retrying. */
  method GetRosNodeWithRetry(attempts: seq<Attempt>) returns (node: Option<Node>, failures: nat, trace: seq<Action>)
    ensures node.Some? <==> exists i | 0 <= i < |attempts| :: Succeeds(attempts[i])
    ensures node.Some? ==> failures < |attempts| && Succeeds(attempts[failures]) && node == attempts[failures].node
    ensures node.None? ==> failures == |attempts|
    ensures forall j | 0 <= j < failures :: !Succeeds(attempts[j])
    ensures trace == FailureTrace(attempts[..failures])
    ensures Sleeps(trace) == failures && Warnings(trace) == failures / WarnEvery
  {
    var i := 0;
    trace := [];
    while i < |attempts| && !Succeeds(attempts[i])
      invariant 0 <= i <= |attempts|
      invariant forall j | 0 <= j < i :: !Succeeds(attempts[j])
      invariant trace == FailureTrace(attempts[..i])
      decreases |attempts| - i
    {
      var errCount := i + 1;
      assert attempts[..errCount][..errCount - 1] == attempts[..i];
      if errCount % WarnEvery == 0 {
        trace := trace + [Warn(attempts[i].err)];
      }
      trace := trace + [Sleep];
      i := errCount;
    }
    failures := i;
    FailureTraceCounts(attempts[..failures]);
    if i < |attempts| {
      node := attempts[i].node;
    } else {
      node := None;
    }
  }

  /** The number of warnings in a trace. */
  function Warnings(t: seq<Action>): nat
    decreases |t|
  {
    if |t| == 0 then 0 else Warnings(t[..|t| - 1]) + (if t[|t| - 1].Warn? then 1 else 0)
  }

  /** The number of sleeps in a trace. */
  function Sleeps(t: seq<Action>): nat
    decreases |t|
  {
    if |t| == 0 then 0 else Sleeps(t[..|t| - 1]) + (if t[|t| - 1].Sleep? then 1 else 0)
  }

  /** `k` failures give exactly `k` one-second sleeps and `k / 10` warnings; every
      failure is followed by a sleep, so the trace ends with one. */
  lemma {:induction false} FailureTraceCounts(failed: seq<Attempt>)
    ensures Sleeps(FailureTrace(failed)) == |failed|
    ensures Warnings(FailureTrace(failed)) == |failed| / WarnEvery
    ensures |failed| > 0 ==> FailureTrace(failed)[|FailureTrace(failed)| - 1] == Sleep
    decreases |failed|
  {
    if |failed| > 0 {
      var k := |failed|;
      var prefix := FailureTrace(failed[..k - 1]);
      var warn: seq<Action> := if k % WarnEvery == 0 then [Warn(failed[k - 1].err)] else [];
      var t := FailureTrace(failed);
      assert t == prefix + warn + [Sleep];
      assert t[..|t| - 1] == prefix + warn;
      FailureTraceCounts(failed[..k - 1]);
      if k % WarnEvery == 0 {
        assert (prefix + warn)[..|prefix + warn| - 1] == prefix;
      } else {
        assert prefix + warn == prefix;
      }
    }
  }
}
