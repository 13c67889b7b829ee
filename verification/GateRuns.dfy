/**
 Bounded runs whose gates and guards are those of the proof machine: what a moved token costs a run.
 */
module GateRuns {
  import opened GuestGraph
  import opened BoundedChain
  import GateProofs

  /** What a run observes is what the machine finds: where a scan or a check stops it, the run sees a moved proof. */
  ghost predicate Shows(p: GateProofs.Proof, r: seq<GateProofs.State>, script: Script, world: World)
    requires script.Ready()
  {
    forall k :: 0 < k < |r| && r[k].phase == GateProofs.Stopped && r[k - 1].phase != GateProofs.Stopped ==>
      && script.Visits(r[k].retired) == r[k].visits
      && (r[k - 1].phase.Scanning? ==> script.Begins(r[k].retired) && world.polls(r[k].retired) == Stale)
      && (r[k - 1].phase.Checking? ==> !world.guards(r[k].retired))
  }

  /** A stopped machine stopped somewhere, and has done nothing since. */
  lemma {:induction false} StoppedAt(p: GateProofs.Proof, r: seq<GateProofs.State>, k: nat) returns (j: nat)
    requires p.Valid() && p.Run(r) && k < |r| && r[k].phase == GateProofs.Stopped
    ensures 0 < j <= k && r[j].phase == GateProofs.Stopped && r[j - 1].phase != GateProofs.Stopped
    ensures r[j - 1].phase.Scanning? || r[j - 1].phase.Checking?
    ensures r[j].retired == r[k].retired && r[j].visits == r[k].visits
  {
    assert k > 0;
    assert p.Next(r[k - 1], r[k]);
    if r[k - 1].phase == GateProofs.Stopped {
      j := StoppedAt(p, r, k - 1);
    } else {
      j := k;
    }
  }

  lemma {:induction false} FewerVisits(script: Script, m: nat, n: nat)
    requires script.Ready() && m <= n
    ensures script.Visits(m) <= script.Visits(n)
  {
    hide Script.Begins, Script.At, Admissible;
    if m < n {
      FewerVisits(script, m, n - 1);
    }
  }

  /**
   Once any token has moved a bounded run begins at most one more visit, and once a global one has moved
   it retires at most one more instruction, wherever in the interleaving that happens: `m` is the moment
   the token is seen to have moved, and the machine has stopped by the end of `r`.
   */
  lemma MovedEndsRun(p: GateProofs.Proof, r: seq<GateProofs.State>, m: nat, t: nat,
                     l: Limits, script: Script, world: World, owner: Owner, n: nat)
    requires p.Valid() && p.Run(r) && m < |r| && t < |p.values| && r[|r| - 1].phase == GateProofs.Stopped
    requires |r[m].tokens| == |p.values| && r[m].tokens[t] != p.values[t]
    requires script.Ready() && Shows(p, r, script, world)
    requires forall k :: 0 <= k < n ==> Retires(l, script, world, owner, k)
    ensures script.Visits(n) <= r[m].visits + 1
    ensures t < p.guards ==> n <= r[m].retired + 1
  {
    hide Admissible, Script.At, Script.Begins, Script.Visits, GateProofs.Proof.Run, GateProofs.Proof.Next;
    var j := StoppedAt(p, r, |r| - 1);
    assert !Retires(l, script, world, owner, r[j].retired);
    FewerVisits(script, n, r[j].retired);
    p.AtMostOneMoreVisit(r, m, |r| - 1, t);
    if t < p.guards {
      p.AtMostOneMoreInstruction(r, m, |r| - 1, t);
    }
  }
}
