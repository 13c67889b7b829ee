/**
 What the retention policy promises over whole runs: scans do not displace programs that have shown
 reuse, and a program that keeps being reused is promoted after a number of hits that is known exactly.
 */
module RetentionTheorems {
  import opened RetentionLists
  import opened RetentionPolicy

  // ---- scan resistance ----

  ghost function Lookups(ops: seq<Op>, i: nat): nat {
    if ops == [] then 0
    else Lookups(ops[..|ops| - 1], i) + (if ops[|ops| - 1].Look? && ops[|ops| - 1].i == i then 1 else 0)
  }

  /** A scan step: a lookup of a program that was not retained at the start and fits beside the guarded ones. */
  ghost predicate Cold(budget: nat, q: Queues, op: Op) {
    op.Look? && op.i < |q.sizes| && !q.Retains(op.i) && Total(q.sizes, q.guarded) + op.n <= budget
  }

  /** Cold programs only, each looked up at most twice (once to select, once to execute). */
  ghost predicate Scan(budget: nat, q: Queues, ops: seq<Op>) {
    && (forall k :: 0 <= k < |ops| ==> Cold(budget, q, ops[k]))
    && (forall i: nat :: Lookups(ops, i) <= 2)
  }

  /** The state a scan can reach: the guarded queue is untouched and no cold program has earned promotion. */
  ghost predicate Scanned(q: Queues, r: Queues, ops: seq<Op>) {
    && r.guarded == q.guarded
    && |r.sizes| == |q.sizes| == |r.reuse| == |q.reuse|
    && (forall i :: i in q.guarded && i < |q.sizes| ==> r.sizes[i] == q.sizes[i] && r.reuse[i] == q.reuse[i])
    && (forall i {:trigger r.reuse[i]} :: 0 <= i < |r.reuse| && r.Retains(i) && !q.Retains(i) ==>
          r.reuse[i] + 1 <= Lookups(ops, i))
  }

  /**
   Any number of cold programs, each looked up at most twice, leave every guarded program in place,
   at its size and in its order, at every moment of the scan.
   */
  lemma {:induction false} ScanResistance(budget: nat, q: Queues, ops: seq<Op>)
    requires Sound(budget, q) && Scan(budget, q, ops)
    ensures Sound(budget, Run(budget, q, ops))
    ensures Scanned(q, Run(budget, q, ops), ops)
  {
    if ops != [] {
      var most, last := ops[..|ops| - 1], ops[|ops| - 1];
      assert forall i: nat :: Lookups(most, i) <= Lookups(ops, i);
      assert forall k :: 0 <= k < |most| ==> most[k] == ops[k];
      ScanResistance(budget, q, most);
      RunSound(budget, q, ops);
      assert Lookups(ops, last.i) == Lookups(most, last.i) + 1;
      ScanStep(budget, q, Run(budget, q, most), most, last);
      LookupsPush(most, last);
      assert most + [last] == ops;
    }
  }

  lemma LookupsPush(most: seq<Op>, last: Op)
    ensures forall i: nat :: Lookups(most + [last], i) == Lookups(most, i) + if last.Look? && last.i == i then 1 else 0
  {
    assert (most + [last])[..|most|] == most;
  }

  lemma ScanStep(budget: nat, q: Queues, r: Queues, most: seq<Op>, last: Op)
    requires Sound(budget, q) && Sound(budget, r) && Scanned(q, r, most)
    requires Cold(budget, q, last) && Lookups(most, last.i) <= 1
    ensures Scanned(q, Step(budget, r, last), most + [last])
  {
    var i, n := last.i, last.n;
    LookupsPush(most, last);
    if r.Retains(i) {
      assert r.reuse[i] + 1 <= 1;
    } else {
      TotalAgree(r.sizes, q.sizes, q.guarded);
      GuardedLoss(budget, r, n);
      ColdAdmission(budget, q, r, most, last);
    }
  }

  /** Programs that survive an admission keep their size and their history. */
  lemma KeptByRoom(budget: nat, q: Queues, n: nat, a: nat)
    requires Sound(budget, q) && MakeRoom(budget, q, n).Retains(a)
    ensures q.Retains(a) && a < |q.sizes|
    ensures MakeRoom(budget, q, n).sizes[a] == q.sizes[a] && MakeRoom(budget, q, n).reuse[a] == q.reuse[a]
  {
    var k := Retirements(budget, q, n);
    OrderDistinct(q);
    DropOrder(q, k);
    assert a in MakeRoom(budget, q, n).Order();
    assert a in q.Order()[k..];
    assert a in q.Order();
  }

  lemma ColdAdmission(budget: nat, q: Queues, r: Queues, most: seq<Op>, last: Op)
    requires Sound(budget, q) && Sound(budget, r) && Scanned(q, r, most)
    requires Cold(budget, q, last) && !r.Retains(last.i)
    requires MakeRoom(budget, r, last.n).guarded == r.guarded
    ensures Scanned(q, Step(budget, r, last), most + [last])
  {
    LookupsPush(most, last);
    var m := MakeRoom(budget, r, last.n);
    forall a: nat | m.Retains(a) ensures r.Retains(a) && m.reuse[a] == r.reuse[a] && m.sizes[a] == r.sizes[a] {
      KeptByRoom(budget, r, last.n, a);
    }
    assert !m.Retains(last.i) && m.reuse[last.i] == 0;
  }

  // ---- promotion ----

  /** `m` consecutive hits on entry `i`. */
  ghost function Hits(budget: nat, q: Queues, i: nat, m: nat): Queues
    requires i < |q.sizes| == |q.reuse|
    decreases m
  {
    if m == 0 then q else Hits(budget, Touch(budget, q, i), i, m - 1)
  }

  /** How many of the oldest guarded programs stand in the way of entry `i`. */
  function Blockers(budget: nat, q: Queues, i: nat): (d: nat)
    requires i < |q.sizes| && q.sizes[i] <= GuardedBudget(budget)
    ensures d <= |q.guarded|
  {
    Victims(q.sizes, q.guarded, GuardedBudget(budget) - q.sizes[i], |q.guarded|)
  }

  function AtLeastOne(n: int): nat { if n < 1 then 1 else n }

  /** Two hits to qualify, then one demotion a hit; the last demotion and the promotion share one. */
  function HitsNeeded(budget: nat, q: Queues, i: nat): nat
    requires i < |q.sizes| == |q.reuse| && q.sizes[i] <= GuardedBudget(budget)
  {
    AtLeastOne(REUSE_TO_PROMOTE - q.reuse[i]) + AtLeastOne(Blockers(budget, q, i)) - 1
  }

  /**
   A probation program that fits the guarded budget is promoted by exactly the `HitsNeeded`-th
   consecutive hit: before it the program is still in probation, after it the oldest blockers, and
   only they, have been demoted in order.
   */
  lemma PromotionExact(budget: nat, q: Queues, i: nat, m: nat)
    requires Sound(budget, q) && i in q.probation && q.sizes[i] <= GuardedBudget(budget)
    requires m <= HitsNeeded(budget, q, i)
    ensures var r, d := Hits(budget, q, i, m), Blockers(budget, q, i);
      if m < HitsNeeded(budget, q, i) then i in r.probation && i !in r.guarded
      else r.guarded == q.guarded[d..] + [i] && r.probation == Without(q.probation, i) + q.guarded[..d]
  {
    if m < HitsNeeded(budget, q, i) {
      StillWaiting(budget, q, i, m);
      hide HitsNeeded;
    } else {
      hide HitsNeeded;
      PromotedLast(budget, q, i);
    }
  }

  /** A hit that does not promote leaves one hit fewer to go. */
  lemma OneHitFewer(budget: nat, q: Queues, i: nat)
    requires Sound(budget, q) && i in q.probation && q.sizes[i] <= GuardedBudget(budget)
    requires HitsNeeded(budget, q, i) > 1
    ensures var t := Touch(budget, q, i);
      && Sound(budget, t) && i in t.probation && t.sizes == q.sizes
      && HitsNeeded(budget, t, i) == HitsNeeded(budget, q, i) - 1
  {
    TouchSound(budget, q, i);
    if Mark(q, i).reuse[i] >= REUSE_TO_PROMOTE {
      QualifiedHit(budget, q, i);
    }
  }

  lemma SoundMember(budget: nat, q: Queues, i: nat)
    requires Sound(budget, q) && i in q.probation
    ensures i < |q.sizes| == |q.reuse| && q.reuse[i] <= REUSE_TO_PROMOTE && i !in q.guarded
  {
  }

  lemma HitsNone(budget: nat, q: Queues, i: nat)
    requires i < |q.sizes| == |q.reuse|
    ensures Hits(budget, q, i, 0) == q
  {
  }

  lemma HitsFirst(budget: nat, q: Queues, i: nat, m: nat)
    requires i < |q.sizes| == |q.reuse| && m > 0
    ensures |Touch(budget, q, i).sizes| == |q.sizes| && |Touch(budget, q, i).reuse| == |q.reuse|
    ensures Hits(budget, q, i, m) == Hits(budget, Touch(budget, q, i), i, m - 1)
  {
  }

  lemma {:induction false} StillWaiting(budget: nat, q: Queues, i: nat, m: nat)
    requires Sound(budget, q) && i in q.probation && i < |q.sizes| == |q.reuse| && q.sizes[i] <= GuardedBudget(budget)
    requires m < HitsNeeded(budget, q, i)
    ensures Sound(budget, Hits(budget, q, i, m)) && i in Hits(budget, q, i, m).probation
    decreases m
  {
    hide *;
    SoundMember(budget, q, i);
    if m == 0 {
      assert Hits(budget, q, i, 0) == q by { HitsNone(budget, q, i); }
    } else {
      OneHitFewer(budget, q, i);
      HitsFirst(budget, q, i, m);
      StillWaiting(budget, Touch(budget, q, i), i, m - 1);
    }
  }

  lemma {:induction false} PromotedLast(budget: nat, q: Queues, i: nat)
    requires Sound(budget, q) && i in q.probation && q.sizes[i] <= GuardedBudget(budget)
    ensures var r, d := Hits(budget, q, i, HitsNeeded(budget, q, i)), Blockers(budget, q, i);
      r.guarded == q.guarded[d..] + [i] && r.probation == Without(q.probation, i) + q.guarded[..d]
    decreases HitsNeeded(budget, q, i)
  {
    hide Sound, Settle;
    SoundMember(budget, q, i);
    var d, t := Blockers(budget, q, i), Touch(budget, q, i);
    if Mark(q, i).reuse[i] < REUSE_TO_PROMOTE {
      OneHitFewer(budget, q, i);
      PromotedLast(budget, t, i);
    } else {
      QualifiedHit(budget, q, i);
      if d < 2 {
        HitsFirst(budget, q, i, 1);
        HitsNone(budget, t, i);
      } else {
        OneHitFewer(budget, q, i);
        PromotedLast(budget, t, i);
        SliceShift(q.guarded, Without(q.probation, i), d);
      }
    }
  }

  lemma SliceShift(g: seq<nat>, w: seq<nat>, d: nat)
    requires 1 <= d <= |g|
    ensures g[1..][d - 1..] == g[d..]
    ensures (w + [g[0]]) + g[1..][..d - 1] == w + g[..d]
  {
    assert [g[0]] + g[1..][..d - 1] == g[..d];
  }

  /** What one hit does to a program that has already shown reuse, by the number of its blockers. */
  lemma QualifiedHit(budget: nat, q: Queues, i: nat)
    requires Sound(budget, q) && i in q.probation && q.sizes[i] <= GuardedBudget(budget)
    requires Mark(q, i).reuse[i] == REUSE_TO_PROMOTE
    ensures var t, d, w := Touch(budget, q, i), Blockers(budget, q, i), Without(q.probation, i);
      if d < 2 then t.guarded == q.guarded[d..] + [i] && t.probation == w + q.guarded[..d]
      else
        && t.guarded == q.guarded[1..]
        && t.probation == q.probation + [q.guarded[0]]
        && Without(t.probation, i) == w + [q.guarded[0]]
        && t.sizes == q.sizes && |t.reuse| == |q.reuse| && t.reuse[i] == REUSE_TO_PROMOTE
        && Blockers(budget, t, i) == d - 1
  {
    hide Sound, Blockers, Touch, FitsGuarded;
    SoundMember(budget, q, i);
    QualifiedTouch(budget, q, i);
    BlockersFirst(budget, q, i);
    if Blockers(budget, q, i) == 0 {
      assert q.guarded[0..] == q.guarded;
    } else {
      BlockersSome(budget, q, i);
      DemotedBlockers(budget, q, i);
      MarkedBlockers(budget, q, i);
      BlockersFirst(budget, Demote(Mark(q, i)), i);
      WithoutPush(q.probation, i, q.guarded[0]);
    }
  }

  lemma QualifiedTouch(budget: nat, q: Queues, i: nat)
    requires Sound(budget, q) && i in q.probation && q.sizes[i] <= GuardedBudget(budget)
    requires Mark(q, i).reuse[i] == REUSE_TO_PROMOTE
    ensures Touch(budget, q, i) ==
      if FitsGuarded(budget, q, i) then Promote(Mark(q, i), i)
      else if q.guarded == [] then Mark(q, i)
      else if FitsGuarded(budget, Demote(Mark(q, i)), i) then Promote(Demote(Mark(q, i)), i)
      else Demote(Mark(q, i))
  {
    assert i !in q.guarded;
  }

  lemma BlockersSome(budget: nat, q: Queues, i: nat)
    requires Sound(budget, q) && i in q.probation && q.sizes[i] <= GuardedBudget(budget) && Blockers(budget, q, i) > 0
    ensures q.guarded != [] && q.guarded[0] != i && q.guarded[0] < |q.reuse|
  {
    assert q.guarded[0] in q.guarded;
  }

  /** Reuse counters play no part in what is in the way. */
  lemma MarkedBlockers(budget: nat, q: Queues, i: nat)
    requires i < |q.sizes| == |q.reuse| && q.sizes[i] <= GuardedBudget(budget) && q.guarded != []
    ensures Blockers(budget, Demote(Mark(q, i)), i) == Blockers(budget, Demote(q), i)
  {
  }

  /** There is a blocker exactly when the program does not fit. */
  lemma BlockersFirst(budget: nat, q: Queues, i: nat)
    requires i < |q.sizes| && q.sizes[i] <= GuardedBudget(budget)
    ensures Blockers(budget, q, i) == 0 <==> FitsGuarded(budget, q, i)
  {
  }

  lemma DemotedBlockers(budget: nat, q: Queues, i: nat)
    requires i < |q.sizes| && q.sizes[i] <= GuardedBudget(budget)
    requires q.guarded != [] && Blockers(budget, q, i) > 0
    ensures Blockers(budget, Demote(q), i) == Blockers(budget, q, i) - 1
  {
  }

  lemma {:induction false} WithoutPush(xs: seq<nat>, x: nat, y: nat)
    requires x in xs
    ensures Without(xs + [y], x) == Without(xs, x) + [y]
  {
    assert (xs + [y])[0] == xs[0];
    if xs[0] == x {
      assert (xs + [y])[1..] == xs[1..] + [y];
    } else {
      assert x in xs[1..];
      WithoutPush(xs[1..], x, y);
      assert (xs + [y])[1..] == xs[1..] + [y];
    }
  }

  // ---- what one hit does, and what many do to the order of guarded programs ----

  /** A hit on a guarded program makes it the youngest there; the others keep their order, and no counter moves. */
  lemma GuardedHit(budget: nat, q: Queues, k: nat)
    requires Sound(budget, q) && k < |q.guarded|
    ensures q.guarded[k] < |q.sizes| == |q.reuse|
    ensures Touch(budget, q, q.guarded[k]) == q.(guarded := q.guarded[..k] + q.guarded[k + 1..] + [q.guarded[k]])
  {
    assert q.guarded[k] in q.guarded;
    WithoutAt(q.guarded, k);
  }

  /**
   A hit on a probation program counts up to two. With two counted, and only for a program within three
   quarters of the budget, the oldest guarded one makes way if there is no room beside the guarded
   ones: it becomes the youngest in probation and its count starts again from none. Then, with room,
   the program hit becomes the youngest guarded one.
   */
  lemma ProbationHit(budget: nat, q: Queues, i: nat)
    requires Sound(budget, q) && i in q.probation
    ensures i < |q.sizes| == |q.reuse| && i !in q.guarded
    ensures q.guarded != [] ==> q.guarded[0] < |q.sizes|
    ensures var t, marked := Touch(budget, q, i), q.reuse[i := if q.reuse[i] < 2 then q.reuse[i] + 1 else 2];
      var fits := (gs: seq<nat>) => Total(q.sizes, gs) + q.sizes[i] <= budget * 3 / 4;
      var g := q.guarded;
      t == if marked[i] < 2 || q.sizes[i] > budget * 3 / 4 then q.(reuse := marked)
           else if g == [] || fits(g) then Queues(Without(q.probation, i), g + [i], q.sizes, marked)
           else if fits(g[1..]) then Queues(Without(q.probation, i) + [g[0]], g[1..] + [i], q.sizes, marked[g[0] := 0])
           else Queues(q.probation + [g[0]], g[1..], q.sizes, marked[g[0] := 0])
  {
    hide Sound;
    SoundMember(budget, q, i);
    if q.guarded != [] {
      SoundGuarded(budget, q);
      WithoutPush(q.probation, i, q.guarded[0]);
    }
  }

  lemma SoundGuarded(budget: nat, q: Queues)
    requires Sound(budget, q) && q.guarded != []
    ensures q.guarded[0] < |q.sizes| == |q.reuse|
  {
    assert q.guarded[0] in q.guarded;
  }

  /** Hits on guarded programs, one after another. */
  ghost function GuardedHits(budget: nat, q: Queues, hits: seq<nat>): Queues
    requires forall k :: 0 <= k < |hits| ==> hits[k] < |q.sizes| == |q.reuse|
    ensures |GuardedHits(budget, q, hits).sizes| == |q.sizes| && |GuardedHits(budget, q, hits).reuse| == |q.reuse|
  {
    if hits == [] then q else Touch(budget, GuardedHits(budget, q, hits[..|hits| - 1]), hits[|hits| - 1])
  }

  /** When `a` was used last: its hits count from the length of the queue on, its old place if it was never hit. */
  function LastUse(guarded: seq<nat>, hits: seq<nat>, a: nat): nat
    requires a in guarded
  {
    if hits == [] then Place(guarded, a)
    else if hits[|hits| - 1] == a then |guarded| + |hits|
    else LastUse(guarded, hits[..|hits| - 1], a)
  }

  function Place(xs: seq<nat>, a: nat): (k: nat)
    requires a in xs
    ensures k < |xs| && xs[k] == a
  {
    if xs[0] == a then 0 else 1 + Place(xs[1..], a)
  }

  /** Oldest use first. */
  ghost predicate ByLastUse(xs: seq<nat>, guarded: seq<nat>, hits: seq<nat>) {
    && (forall a: nat :: a in xs <==> a in guarded)
    && (forall j, k :: 0 <= j < k < |xs| ==> LastUse(guarded, hits, xs[j]) < LastUse(guarded, hits, xs[k]))
  }

  lemma {:induction false} LastUseBound(guarded: seq<nat>, hits: seq<nat>, a: nat)
    requires a in guarded
    ensures LastUse(guarded, hits, a) <= |guarded| + |hits|
  {
    if hits != [] {
      LastUseBound(guarded, hits[..|hits| - 1], a);
    }
  }

  /**
   However often and in whatever order guarded programs are hit, the guarded queue stays sorted by last
   use, so the oldest, which is demoted first, is always the one least recently used.
   */
  lemma {:induction false} LeastRecentlyUsedFirst(budget: nat, q: Queues, hits: seq<nat>)
    requires Sound(budget, q) && forall k :: 0 <= k < |hits| ==> hits[k] in q.guarded
    ensures forall k :: 0 <= k < |hits| ==> hits[k] < |q.sizes| == |q.reuse|
    ensures var r := GuardedHits(budget, q, hits);
      Sound(budget, r) && r == q.(guarded := r.guarded) && ByLastUse(r.guarded, q.guarded, hits)
  {
    hide Sound, Touch, ByLastUse;
    GuardedExist(budget, q);
    if hits == [] {
      InPlace(q.guarded, budget, q);
    } else {
      var before, x := hits[..|hits| - 1], hits[|hits| - 1];
      LeastRecentlyUsedFirst(budget, q, before);
      var r := GuardedHits(budget, q, before);
      Listed(r.guarded, q.guarded, before, x);
      var k := Place(r.guarded, x);
      TouchSound(budget, r, x);
      GuardedHit(budget, r, k);
      HitSorted(r.guarded, q.guarded, before, k);
      assert before + [x] == hits;
    }
  }

  lemma GuardedExist(budget: nat, q: Queues)
    requires Sound(budget, q)
    ensures |q.sizes| == |q.reuse| && forall a: nat :: a in q.guarded ==> a < |q.sizes|
  {
  }

  lemma InPlace(xs: seq<nat>, budget: nat, q: Queues)
    requires Sound(budget, q) && xs == q.guarded
    ensures ByLastUse(xs, xs, [])
  {
    forall k | 0 <= k < |xs| ensures LastUse(xs, [], xs[k]) == k {
    }
  }

  /** The program just hit goes behind all others, which keep their order. */
  lemma HitSorted(xs: seq<nat>, guarded: seq<nat>, hits: seq<nat>, k: nat)
    requires ByLastUse(xs, guarded, hits) && k < |xs|
    ensures ByLastUse(xs[..k] + xs[k + 1..] + [xs[k]], guarded, hits + [xs[k]])
  {
    hide LastUse, ByLastUse;
    var ys, more := xs[..k] + xs[k + 1..] + [xs[k]], hits + [xs[k]];
    var n := |xs| - 1;
    forall a: nat ensures a in ys <==> a in guarded {
      Listed(xs, guarded, hits, a);
    }
    forall i, j | 0 <= i < j < |ys| ensures LastUse(guarded, more, ys[i]) < LastUse(guarded, more, ys[j]) {
      var a, b := if i < k then i else i + 1, if j == n then k else if j < k then j else j + 1;
      assert ys[i] == xs[a] && ys[j] == xs[b];
      InOrder(xs, guarded, hits, a, k);
      InOrder(xs, guarded, hits, b, k);
      InOrder(xs, guarded, hits, a, b);
      UsedNow(guarded, hits, xs[k], xs[a]);
      UsedNow(guarded, hits, xs[k], xs[b]);
    }
    Sorted(ys, guarded, more);
  }

  lemma Sorted(xs: seq<nat>, guarded: seq<nat>, hits: seq<nat>)
    requires forall a: nat :: a in xs <==> a in guarded
    requires forall j, k :: 0 <= j < k < |xs| ==> LastUse(guarded, hits, xs[j]) < LastUse(guarded, hits, xs[k])
    ensures ByLastUse(xs, guarded, hits)
  {
  }

  lemma Listed(xs: seq<nat>, guarded: seq<nat>, hits: seq<nat>, a: nat)
    requires ByLastUse(xs, guarded, hits)
    ensures a in xs <==> a in guarded
  {
  }

  /** Two places of a sorted queue. */
  lemma InOrder(xs: seq<nat>, guarded: seq<nat>, hits: seq<nat>, j: nat, k: nat)
    requires ByLastUse(xs, guarded, hits) && j < |xs| && k < |xs|
    ensures xs[j] in guarded && xs[k] in guarded
    ensures j != k ==> xs[j] != xs[k]
    ensures j < k ==> LastUse(guarded, hits, xs[j]) < LastUse(guarded, hits, xs[k])
  {
    hide LastUse;
    assert xs[j] in xs && xs[k] in xs;
  }

  /** One more hit is the latest use of its program, and no use of any other. */
  lemma UsedNow(guarded: seq<nat>, hits: seq<nat>, x: nat, a: nat)
    requires x in guarded && a in guarded
    ensures LastUse(guarded, hits + [x], a) == if a == x then |guarded| + |hits| + 1 else LastUse(guarded, hits, a)
    ensures LastUse(guarded, hits, a) <= |guarded| + |hits|
  {
    LastUseBound(guarded, hits, a);
    assert (hits + [x])[..|hits|] == hits;
  }
}
