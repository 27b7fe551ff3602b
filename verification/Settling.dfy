/** Attempts to settle the promises of numbered calls, in the order they are made. */
module Settling {
  /** call is the position of the call whose promise is settled. */
  datatype Settlement<O> = Settlement(call: nat, outcome: O)

  /** Every attempt to settle one call, in order. */
  function OutcomesOf<O>(log: seq<Settlement<O>>, call: nat): seq<O> {
    if log == [] then []
    else
      var last := log[|log| - 1];
      OutcomesOf(log[..|log| - 1], call) + (if last.call == call then [last.outcome] else [])
  }

  lemma {:induction false} OutcomesSplit<O>(a: seq<Settlement<O>>, b: seq<Settlement<O>>, call: nat)
    ensures OutcomesOf(a + b, call) == OutcomesOf(a, call) + OutcomesOf(b, call)
    decreases |b|
  {
    if b == [] {
      assert a + b == a;
    } else {
      var n := |b| - 1;
      OutcomesSplit(a, b[..n], call);
      assert (a + b)[..|a| + n] == a + b[..n];
    }
  }

  lemma {:induction false} NoOutcome<O>(log: seq<Settlement<O>>, call: nat)
    requires forall k :: 0 <= k < |log| ==> log[k].call != call
    ensures OutcomesOf(log, call) == []
    decreases |log|
  {
    if log != [] {
      NoOutcome(log[..|log| - 1], call);
    }
  }

  lemma SettledOne<O>(log: seq<Settlement<O>>, last: Settlement<O>, call: nat)
    ensures OutcomesOf(log + [last], call) ==
            OutcomesOf(log, call) + (if last.call == call then [last.outcome] else [])
  {
    assert (log + [last])[..|log|] == log;
  }
}
