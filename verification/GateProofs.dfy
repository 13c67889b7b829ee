/**
 The proof tokens a chain graph pins, read by its gates while other threads publish. A publisher only
 ever increases a token. A gate reads every token, one at a time, in order; the guards at the front
 of the list are also read after every retired instruction. Runner and publishers interleave freely,
 one read or one publication per step.
 */
module GateProofs {

  datatype Phase =
    | Scanning(read: nat)               // a gate has read this many tokens and found them unmoved
    | Inside(left: nat)                 // behind an open gate, so many instructions to go
    | Checking(read: nat, left: nat)    // an instruction has retired; its guards are being read
    | Stopped

  datatype State = State(tokens: seq<nat>, phase: Phase, visits: nat, retired: nat)

  /** What a graph was proved under: the value of every token, the first `guards` of them global. */
  datatype Proof = Proof(values: seq<nat>, guards: nat)
  {
    predicate Valid() { guards <= |values| }

    ghost predicate Initial(s: State) { s == State(values, Scanning(0), 0, 0) }

    /** A publisher moves one token. */
    ghost predicate Publishes(s: State, t: State) {
      exists i :: 0 <= i < |s.tokens| && Moves(s, t, i)
    }

    ghost predicate Moves(s: State, t: State, i: nat)
      requires i < |s.tokens|
    {
      |t.tokens| == |s.tokens| && t.tokens[i] > s.tokens[i] && t == s.(tokens := s.tokens[i := t.tokens[i]])
    }

    /** The runner takes its next step. */
    ghost predicate Runs(s: State, t: State)
      requires |s.tokens| == |values| && Valid()
    {
      match s.phase
      case Scanning(i) =>
        if i < |values| then t == s.(phase := if s.tokens[i] == values[i] then Scanning(i + 1) else Stopped)
        else t.phase.Inside? && t.phase.left > 0 && t == s.(phase := t.phase, visits := s.visits + 1)
      case Inside(n) =>
        n > 0 && t == s.(phase := Checking(0, n - 1), retired := s.retired + 1)
      case Checking(i, n) =>
        if i < guards then t == s.(phase := if s.tokens[i] == values[i] then Checking(i + 1, n) else Stopped)
        else t == s.(phase := if n == 0 then Scanning(0) else Inside(n))
      case Stopped => t == s
    }

    ghost predicate Next(s: State, t: State)
      requires Valid()
    {
      |s.tokens| == |values| && (Publishes(s, t) || Runs(s, t))
    }

    ghost predicate Run(r: seq<State>)
      requires Valid()
    {
      |r| > 0 && Initial(r[0]) && forall i :: 0 < i < |r| ==> Next(r[i - 1], r[i])
    }

    /** The gate opened in the step that led to state `k`. */
    ghost predicate Opens(r: seq<State>, k: nat)
      requires k < |r|
    {
      k > 0 && r[k].visits > r[k - 1].visits
    }

    /** The scan that state `k` is part of began in state `i`. */
    ghost predicate ScansFrom(r: seq<State>, i: nat, k: nat)
      requires i <= k < |r|
    {
      r[i].phase == Scanning(0) && forall j :: i <= j <= k ==> r[j].phase.Scanning?
    }

    // ---- tokens only grow ----

    lemma {:induction false} Monotone(r: seq<State>, i: nat, k: nat, t: nat)
      requires Valid() && Run(r) && i <= k < |r| && t < |values|
      ensures |r[i].tokens| == |r[k].tokens| == |values|
      ensures r[i].tokens[t] <= r[k].tokens[t]
    {
      if i < k {
        Monotone(r, i, k - 1, t);
        assert Next(r[k - 1], r[k]);
      } else if i > 0 {
        Monotone(r, i - 1, i - 1, t);
        assert Next(r[i - 1], r[i]);
      }
    }

    lemma NeverBelow(r: seq<State>, k: nat, t: nat)
      requires Valid() && Run(r) && k < |r| && t < |values|
      ensures |r[k].tokens| == |values| && values[t] <= r[k].tokens[t]
    {
      Monotone(r, 0, k, t);
    }

    // ---- no stale visit ----

    /** Whatever a scan has passed had its proved value when the scan began. */
    lemma {:induction false} ScanSees(r: seq<State>, k: nat) returns (i: nat)
      requires Valid() && Run(r) && k < |r| && r[k].phase.Scanning?
      ensures i <= k && ScansFrom(r, i, k) && |r[i].tokens| == |values|
      ensures r[k].phase.read <= |values|
      ensures forall t :: 0 <= t < r[k].phase.read ==> r[i].tokens[t] == values[t]
    {
      if k == 0 {
        return 0;
      }
      assert Next(r[k - 1], r[k]);
      if r[k].phase == Scanning(0) && r[k - 1].phase != Scanning(0) {
        i := k;
        if |values| > 0 {
          Monotone(r, k, k, 0);
        }
      } else {
        i := ScanSees(r, k - 1);
        if r[k].phase.read > r[k - 1].phase.read {
          var t := r[k - 1].phase.read;
          Monotone(r, i, k - 1, t);
          NeverBelow(r, i, t);
        }
      }
    }

    /** Every visit was admitted by a scan at whose start every token still had its proved value. */
    lemma NoStaleVisit(r: seq<State>, k: nat) returns (i: nat)
      requires Valid() && Run(r) && k < |r| && Opens(r, k)
      ensures i < k && ScansFrom(r, i, k - 1) && r[i].tokens == values
    {
      assert Next(r[k - 1], r[k]);
      i := ScanSees(r, k - 1);
    }

    /** A token that moved before a scan began keeps that scan from opening its gate. */
    lemma MovedBeforeScan(r: seq<State>, m: nat, k: nat) returns (i: nat)
      requires Valid() && Run(r) && m <= k < |r| && Opens(r, k)
      requires |r[m].tokens| == |values| && r[m].tokens != values
      ensures i < m && ScansFrom(r, i, k - 1)
    {
      i := NoStaleVisit(r, k);
      if m <= i {
        var t :| 0 <= t < |values| && r[m].tokens[t] != values[t];
        Monotone(r, m, i, t);
        NeverBelow(r, m, t);
        assert false;
      }
    }

    /** A visit starts with every token current exactly if nothing was published during its scan. */
    lemma OpensFreshExactly(r: seq<State>, k: nat) returns (i: nat)
      requires Valid() && Run(r) && k < |r| && Opens(r, k)
      ensures i < k && ScansFrom(r, i, k - 1) && r[i].tokens == values
      ensures r[k].tokens == values <==> forall j :: i < j <= k ==> r[j].tokens == r[j - 1].tokens
    {
      i := NoStaleVisit(r, k);
      if r[k].tokens == values {
        forall j | i < j <= k ensures r[j].tokens == r[j - 1].tokens {
          TokenCount(r, j - 1);
          TokenCount(r, j);
          forall t | 0 <= t < |values| ensures r[j].tokens[t] == values[t] == r[j - 1].tokens[t] {
            NeverBelow(r, j - 1, t);
            Monotone(r, j - 1, j, t);
            Monotone(r, j, k, t);
          }
        }
      } else {
        Unpublished(r, i, k);
      }
    }

    lemma TokenCount(r: seq<State>, k: nat)
      requires Valid() && Run(r) && k < |r|
      ensures |r[k].tokens| == |values|
    {
      if |values| > 0 {
        Monotone(r, 0, k, 0);
      } else {
        NoTokens(r, k);
      }
    }

    lemma {:induction false} NoTokens(r: seq<State>, k: nat)
      requires Valid() && Run(r) && k < |r| && values == []
      ensures r[k].tokens == []
    {
      if k > 0 {
        NoTokens(r, k - 1);
        assert Next(r[k - 1], r[k]);
      }
    }

    /** Tokens nobody publishes stay as they are. */
    lemma {:induction false} Unpublished(r: seq<State>, i: nat, k: nat)
      requires i <= k < |r|
      ensures (forall j :: i < j <= k ==> r[j].tokens == r[j - 1].tokens) ==> r[k].tokens == r[i].tokens
    {
      if i < k {
        Unpublished(r, i, k - 1);
      }
    }

    // ---- when a running scan can still open its gate ----

    function Last(r: seq<State>): State
      requires r != []
    {
      r[|r| - 1]
    }

    /** The run goes on, its scan undisturbed by anything but publications, until the gate opens. */
    ghost predicate OpensBy(r: seq<State>, longer: seq<State>)
      requires Valid()
    {
      && r != [] && r <= longer && |longer| > |r| && Run(longer) && Opens(longer, |longer| - 1)
      && forall j :: |r| - 1 <= j < |longer| - 1 ==> longer[j].phase.Scanning?
    }

    /**
     A scan under way can still open its gate exactly if every token it has not read yet is unmoved; the
     tokens it has passed do not matter, whether they have moved or not.
     */
    lemma GateOpensExactly(r: seq<State>)
      requires Valid() && Run(r) && Last(r).phase.Scanning?
      ensures |Last(r).tokens| == |values|
      ensures (exists longer :: OpensBy(r, longer)) <==>
        forall t :: Last(r).phase.read <= t < |values| ==> Last(r).tokens[t] == values[t]
    {
      TokenCount(r, |r| - 1);
      if longer :| OpensBy(r, longer) {
        UnreadUnmoved(longer, |r| - 1, |longer| - 2);
        assert Next(longer[|longer| - 2], longer[|longer| - 1]);
      }
      if forall t :: Last(r).phase.read <= t < |values| ==> Last(r).tokens[t] == values[t] {
        var longer := OpensOn(r);
      }
    }

    /** What a scan reads from one moment on was unmoved at that moment. */
    lemma {:induction false} UnreadUnmoved(r: seq<State>, m: nat, k: nat)
      requires Valid() && Run(r) && m <= k < |r| && forall j :: m <= j <= k ==> r[j].phase.Scanning?
      ensures |r[m].tokens| == |values| && r[m].phase.read <= r[k].phase.read <= |values|
      ensures forall t :: r[m].phase.read <= t < r[k].phase.read ==> r[m].tokens[t] == values[t]
    {
      TokenCount(r, m);
      if m == k {
        var i := ScanSees(r, k);
      } else {
        UnreadUnmoved(r, m, k - 1);
        assert Next(r[k - 1], r[k]);
        if r[k].phase.read > r[k - 1].phase.read {
          var t := r[k - 1].phase.read;
          Monotone(r, m, k - 1, t);
          NeverBelow(r, m, t);
        }
      }
    }

    /** Read on, and open the gate. */
    lemma {:induction false} OpensOn(r: seq<State>) returns (longer: seq<State>)
      requires Valid() && Run(r) && Last(r).phase.Scanning? && |Last(r).tokens| == |values|
      requires forall t :: Last(r).phase.read <= t < |values| ==> Last(r).tokens[t] == values[t]
      ensures OpensBy(r, longer)
      decreases |values| - Last(r).phase.read
    {
      var s := Last(r);
      var i := s.phase.read;
      if i < |values| {
        var next := s.(phase := Scanning(i + 1));
        Extends(r, next);
        longer := OpensOn(r + [next]);
        assert r <= r + [next] <= longer;
        assert longer[|r| - 1] == s;
      } else {
        var next := s.(phase := Inside(1), visits := s.visits + 1);
        Extends(r, next);
        longer := r + [next];
      }
    }

    lemma Extends(r: seq<State>, next: State)
      requires Valid() && Run(r) && Next(Last(r), next)
      ensures Run(r + [next]) && Last(r + [next]) == next
    {
    }

    /** How many more visits a token that has moved can still admit: the scan that has already passed it. */
    function Admits(s: State, t: nat): nat { if s.phase.Scanning? && s.phase.read > t then 1 else 0 }

    lemma {:induction false} AtMostOneMoreVisit(r: seq<State>, m: nat, k: nat, t: nat)
      requires Valid() && Run(r) && m <= k < |r| && t < |values|
      requires |r[m].tokens| == |values| && r[m].tokens[t] != values[t]
      ensures r[k].visits + Admits(r[k], t) <= r[m].visits + Admits(r[m], t)
    {
      if m < k {
        AtMostOneMoreVisit(r, m, k - 1, t);
        assert Next(r[k - 1], r[k]);
        Monotone(r, m, k - 1, t);
        NeverBelow(r, m, t);
      }
    }

    /** How many more instructions a guard that has moved can still let retire: the one already let through. */
    function Lets(s: State, t: nat): nat {
      match s.phase
      case Inside(_) => 1
      case Scanning(i) => if i > t then 1 else 0
      case Checking(i, n) => if i > t && n > 0 then 1 else 0
      case Stopped => 0
    }

    /** After a global epoch has moved at most one more instruction retires. */
    lemma {:induction false} AtMostOneMoreInstruction(r: seq<State>, m: nat, k: nat, t: nat)
      requires Valid() && Run(r) && m <= k < |r| && t < guards
      requires |r[m].tokens| == |values| && r[m].tokens[t] != values[t]
      ensures r[k].retired + Lets(r[k], t) <= r[m].retired + Lets(r[m], t)
    {
      if m < k {
        AtMostOneMoreInstruction(r, m, k - 1, t);
        assert Next(r[k - 1], r[k]);
        Monotone(r, m, k - 1, t);
        NeverBelow(r, m, t);
      }
    }
  }

  /** Once a scan has read past a token its move goes unseen: a gate can open on a graph that is already stale. */
  lemma OpensOnMovedToken()
    ensures exists r: seq<State> ::
      var p := Proof([7, 7], 1);
      && p.Valid() && p.Run(r) && |r| == 5 && p.Opens(r, 4)
      && |r[3].tokens| == 2 && r[3].tokens[0] != p.values[0] && p.Admits(r[3], 0) == 1
  {
    var p := Proof([7, 7], 1);
    var r := [State([7, 7], Scanning(0), 0, 0), State([7, 7], Scanning(1), 0, 0), State([8, 7], Scanning(1), 0, 0),
              State([8, 7], Scanning(2), 0, 0), State([8, 7], Inside(3), 1, 0)];
    assert p.Moves(r[1], r[2], 0);
    assert p.Run(r);
  }
}
