/** Sequences of states, as the protocol machines build them. */
module Runs {
  ghost function Last<S>(run: seq<S>): S
    requires |run| > 0
  {
    run[|run| - 1]
  }

  /** When each step keeps a property exactly if the step is good, the property holds
      throughout exactly if every step is good. */
  lemma {:induction false} ThroughoutIff(holds: seq<bool>, good: seq<bool>)
    requires |holds| == |good| + 1 && holds[0]
    requires forall i :: 0 <= i < |good| && holds[i] ==> (holds[i + 1] <==> good[i])
    ensures (forall i :: 0 <= i < |holds| ==> holds[i]) <==> (forall i :: 0 <= i < |good| ==> good[i])
  {
    if good != [] {
      var n := |good| - 1;
      var before, done := holds[..n + 1], good[..n];
      ThroughoutIff(before, done);
      assert forall i :: 0 <= i <= n ==> before[i] == holds[i];
      assert forall i :: 0 <= i < n ==> done[i] == good[i];
      assert holds[n] ==> (holds[n + 1] <==> good[n]);
    }
  }
}
