/**
 The tests' own check of the retention lists, an executable form of the representation invariant: what
 its walk accepts, exactly, and how that relates to the cache's invariant.
 */
module RetentionCheck {
  import opened RetentionLists
  import opened RetentionPolicy
  import opened RetentionCache

  /** `xs` is the list from `head` to `tail`, seen from its nodes alone. */
  ghost predicate Chain(es: seq<Entry>, head: nat, tail: nat, queue: nat, xs: seq<nat>) {
    && Distinct(xs) && head == Link(xs, 0) && tail == Link(xs, |xs| - 1)
    && forall k {:trigger Node(es, queue, xs, k)} :: 0 <= k < |xs| ==> Node(es, queue, xs, k)
  }

  /** What the walk looks at in an entry. */
  predicate Presentable(e: Entry) {
    e.record.valid && e.record.program.Program? && e.record.reuse <= REUSE_TO_PROMOTE && e.record.bytes == e.record.program.bytes
  }

  /** A walk so far: the entries passed, the next index, the one before it, and the bytes passed. */
  ghost predicate Walked(es: seq<Entry>, head: nat, queue: nat, xs: seq<nat>, index: nat, previous: nat, total: nat) {
    && Distinct(xs) && head == (if xs == [] then index else xs[0] + 1) && previous == Link(xs, |xs| - 1)
    && total == Total(Sizes(es), xs)
    && forall k {:trigger Passed(es, queue, xs, index, k)} :: 0 <= k < |xs| ==> Passed(es, queue, xs, index, k)
  }

  ghost predicate Passed(es: seq<Entry>, queue: nat, xs: seq<nat>, index: nat, k: nat)
    requires k < |xs|
  {
    && xs[k] < |es| && es[xs[k]].queue == queue && es[xs[k]].previous == Link(xs, k - 1)
    && es[xs[k]].next == if k == |xs| - 1 then index else xs[k + 1] + 1
  }

  lemma WalkOn(es: seq<Entry>, head: nat, queue: nat, xs: seq<nat>, index: nat, previous: nat, total: nat)
    requires Walked(es, head, queue, xs, index, previous, total)
    requires 0 < index <= |es| && index - 1 !in xs
    requires es[index - 1].queue == queue && es[index - 1].previous == previous
    ensures Walked(es, head, queue, xs + [index - 1], es[index - 1].next, index, total + es[index - 1].record.bytes)
  {
    hide Total;
    var all := xs + [index - 1];
    TotalAppend(Sizes(es), xs, [index - 1]);
    OneTotal(es, index - 1);
    var next := es[index - 1].next;
    forall k | 0 <= k < |all| ensures Passed(es, queue, all, next, k) {
      if k < |xs| {
        assert Passed(es, queue, xs, index, k);
      }
    }
  }

  lemma OneTotal(es: seq<Entry>, i: nat)
    requires i < |es|
    ensures Total(Sizes(es), [i]) == es[i].record.bytes
  {
    assert Total(Sizes(es), []) == 0;
  }

  lemma WalkEnds(es: seq<Entry>, head: nat, queue: nat, xs: seq<nat>, previous: nat, total: nat)
    requires Walked(es, head, queue, xs, 0, previous, total)
    ensures Chain(es, head, previous, queue, xs)
  {
    hide Total;
    forall k | 0 <= k < |xs| ensures Node(es, queue, xs, k) {
      assert Passed(es, queue, xs, 0, k);
    }
  }

  /** A walk along a list that is well formed is one of its prefixes, and can go on until it is all of it. */
  lemma AlongList(es: seq<Entry>, head: nat, tail: nat, queue: nat, ys: seq<nat>, xs: seq<nat>, index: nat, previous: nat, total: nat)
    requires Chain(es, head, tail, queue, ys) && Walked(es, head, queue, xs, index, previous, total) && xs <= ys
    ensures index == Link(ys, |xs|) && (index > 0 ==> |xs| < |ys| && index - 1 == ys[|xs|] && index - 1 !in xs)
    ensures index > 0 ==> index <= |es| && es[index - 1].queue == queue && es[index - 1].previous == previous
    ensures index > 0 ==> xs + [index - 1] <= ys
    ensures index == 0 ==> xs == ys && tail == previous
  {
    hide Total;
    var n := |xs|;
    if n > 0 {
      assert xs[n - 1] == ys[n - 1] && Passed(es, queue, xs, index, n - 1);
      assert Node(es, queue, ys, n - 1);
    }
    if n < |ys| {
      assert Node(es, queue, ys, n);
    }
  }

  /** Entries the walk may pass: in range, presentable, and not seen before. */
  ghost predicate Passable(es: seq<Entry>, seen: set<nat>, xs: seq<nat>) {
    forall x <- xs :: x < |es| && Presentable(es[x]) && x !in seen
  }

  /** The marks after passing `xs`, which is as many as it has members. */
  ghost predicate Marks(es: seq<Entry>, seen: set<nat>, xs: seq<nat>, after: set<nat>) {
    Passable(es, seen, xs) && after == seen + (set x <- xs) && |after| == |seen| + |xs| && forall x <- after :: x < |es|
  }

  lemma MarkOn(es: seq<Entry>, seen: set<nat>, xs: seq<nat>, after: set<nat>, x: nat)
    requires Marks(es, seen, xs, after) && x < |es| && Presentable(es[x]) && x !in after
    ensures Marks(es, seen, xs + [x], after + {x}) && x !in xs && |after| < |es|
  {
    hide Presentable, Passable;
    SetOf(xs, x);
    PassableMore(es, seen, xs, after, x);
    Bounded(after + {x}, |es|);
  }

  lemma PassableMore(es: seq<Entry>, seen: set<nat>, xs: seq<nat>, after: set<nat>, x: nat)
    requires Passable(es, seen, xs) && seen <= after && x < |es| && Presentable(es[x]) && x !in after
    ensures Passable(es, seen, xs + [x])
  {
  }

  lemma SetOf(xs: seq<nat>, x: nat)
    ensures (set y <- xs + [x]) == (set y <- xs) + {x}
  {
  }

  /** Walk one list; `ys` is any list the links may turn out to be well formed for. */
  method WalkQueue(es: seq<Entry>, head: nat, tail: nat, bytes: nat, queue: nat, seen: set<nat>, ghost ys: seq<nat>)
      returns (ok: bool, after: set<nat>, ghost xs: seq<nat>)
    requires forall x <- seen :: x < |es|
    ensures ok ==> Chain(es, head, tail, queue, xs) && bytes == Total(Sizes(es), xs) && Marks(es, seen, xs, after)
    ensures (Chain(es, head, tail, queue, ys) && bytes == Total(Sizes(es), ys) && Passable(es, seen, ys)) ==> ok && xs == ys
  {
    hide Walked, Chain, Presentable, Total, Marks, Passable, Sizes;
    var index: nat, previous: nat, total: nat := head, 0, 0;
    ok, after, xs := true, seen, [];
    NothingWalked(es, head, queue, seen);
    ghost var good := Chain(es, head, tail, queue, ys) && Passable(es, seen, ys);
    while index != 0
      invariant Walked(es, head, queue, xs, index, previous, total)
      invariant Marks(es, seen, xs, after)
      invariant good ==> xs <= ys
      decreases |es| - |after|
    {
      if good {
        AlongList(es, head, tail, queue, ys, xs, index, previous, total);
        NextPassable(es, seen, ys, xs, after, index - 1);
      }
      if index > |es| || index - 1 in after {
        return false, after, xs;
      }
      var e := es[index - 1];
      if !Presentable(e) || e.queue != queue || e.previous != previous {
        return false, after, xs;
      }
      MarkOn(es, seen, xs, after, index - 1);
      WalkOn(es, head, queue, xs, index, previous, total);
      xs, after := xs + [index - 1], after + {index - 1};
      total := total + e.record.bytes;
      previous, index := index, e.next;
    }
    if good {
      AlongList(es, head, tail, queue, ys, xs, index, previous, total);
    }
    WalkTotal(es, head, queue, xs, index, previous, total);
    WalkEnds(es, head, queue, xs, previous, total);
    ok := tail == previous && bytes == total;
  }

  /** The next member of a passable list passes. */
  lemma NextPassable(es: seq<Entry>, seen: set<nat>, ys: seq<nat>, xs: seq<nat>, after: set<nat>, x: nat)
    requires Passable(es, seen, ys) && Marks(es, seen, xs, after) && xs + [x] <= ys && x !in xs
    ensures x < |es| && Presentable(es[x]) && x !in after
  {
    assert (xs + [x])[|xs|] == x == ys[|xs|] && ys[|xs|] in ys;
  }

  lemma NothingWalked(es: seq<Entry>, head: nat, queue: nat, seen: set<nat>)
    requires forall x <- seen :: x < |es|
    ensures Walked(es, head, queue, [], head, 0, 0) && Marks(es, seen, [], seen)
  {
  }

  lemma WalkTotal(es: seq<Entry>, head: nat, queue: nat, xs: seq<nat>, index: nat, previous: nat, total: nat)
    requires Walked(es, head, queue, xs, index, previous, total)
    ensures total == Total(Sizes(es), xs)
  {
  }

  lemma {:induction false} Bounded(s: set<nat>, n: nat)
    requires forall x <- s :: x < n
    ensures |s| <= n
  {
    if n == 0 {
      assert s == {};
    } else {
      Bounded(s - {n - 1}, n - 1);
    }
  }

  /**
   What the walk finds in order: two disjoint chains of presentable entries that cover exactly the
   entries with a program, the byte table and the live counts exact, and both byte budgets kept.
   */
  ghost predicate Ordered(v: Stored, budget: nat, expected: nat, owned: nat) {
    && |v.heads| == |v.tails| == |v.bytes| == 2
    && Chain(v.es, v.heads[0], v.tails[0], PROBATION, v.probation) && v.bytes[0] == Total(Sizes(v.es), v.probation)
    && Chain(v.es, v.heads[1], v.tails[1], PROTECTED, v.guarded) && v.bytes[1] == Total(Sizes(v.es), v.guarded)
    && Passable(v.es, {}, v.probation) && Passable(v.es, (set x <- v.probation), v.guarded)
    && Covers(v.es, v.probation, v.guarded)
    && v.count == |v.probation| + |v.guarded| == expected == owned
    && v.bytes[0] + v.bytes[1] <= budget && v.bytes[1] <= GuardedBudget(budget)
  }

  /**
   Check a stored state against the number of programs that should be live. It accepts exactly the
   states that are in order for some pair of lists, and so, among states whose records are consistent
   with their queue fields, exactly those that meet the cache's invariant.
   */
  method CheckOrder(v: Stored, budget: nat, expected: nat, owned: nat) returns (ok: bool)
    requires |v.heads| == |v.tails| == |v.bytes| == 2
    ensures ok ==> exists xs, ys :: Ordered(v.(probation := xs, guarded := ys), budget, expected, owned)
    ensures Ordered(v, budget, expected, owned) ==> ok
    ensures ok && (forall a :: 0 <= a < |v.es| ==> Consistent(v.es[a])) ==>
      exists xs, ys :: v.(probation := xs, guarded := ys).Whole(budget) && expected == v.count == owned
    ensures v.Whole(budget) && expected == v.count == owned ==> ok
  {
    hide Chain, Stored.Whole, Passable, Total, Consistent, GuardedBudget, Sizes, Marks, Ordered, Distinct, TwoLists;
    WholeIsOrdered(v, budget);
    OrderedParts(v, budget, expected, owned);
    ghost var xs, ys;
    var fine, first, seen;
    fine, first, xs := WalkQueue(v.es, v.heads[0], v.tails[0], v.bytes[0], PROBATION, {}, v.probation);
    if !fine {
      return false;
    }
    AllMarked(v.es, {}, xs, first);
    fine, seen, ys := WalkQueue(v.es, v.heads[1], v.tails[1], v.bytes[1], PROTECTED, first, v.guarded);
    if !fine {
      return false;
    }
    AllMarked(v.es, first, ys, seen);
    var live := |seen|;
    ok := (forall a | 0 <= a < |v.es| :: v.es[a].record.program.Program? <==> a in seen)
          && live == expected && live == v.count && owned == live
          && v.bytes[0] + v.bytes[1] <= budget && v.bytes[1] <= GuardedBudget(budget);
    if ok {
      ghost var w := v.(probation := xs, guarded := ys);
      OrderedParts(w, budget, expected, owned);
      if forall a :: 0 <= a < |v.es| ==> Consistent(v.es[a]) {
        OrderedIsWhole(w, budget, expected, owned);
      }
    }
  }

  lemma OrderedParts(v: Stored, budget: nat, expected: nat, owned: nat)
    requires |v.heads| == |v.tails| == |v.bytes| == 2
    ensures Ordered(v, budget, expected, owned) <==>
      && Chain(v.es, v.heads[0], v.tails[0], PROBATION, v.probation) && v.bytes[0] == Total(Sizes(v.es), v.probation)
      && Chain(v.es, v.heads[1], v.tails[1], PROTECTED, v.guarded) && v.bytes[1] == Total(Sizes(v.es), v.guarded)
      && Passable(v.es, {}, v.probation) && Passable(v.es, (set x <- v.probation), v.guarded)
      && Covers(v.es, v.probation, v.guarded)
      && v.count == |v.probation| + |v.guarded| == expected == owned
      && v.bytes[0] + v.bytes[1] <= budget && v.bytes[1] <= GuardedBudget(budget)
  {
  }

  /** Exactly the members of the two lists hold a program. */
  ghost predicate Covers(es: seq<Entry>, xs: seq<nat>, ys: seq<nat>) {
    forall a :: 0 <= a < |es| ==> (es[a].record.program.Program? <==> a in xs || a in ys)
  }

  /** The marks are what was marked before and the members of the list, no entry twice. */
  lemma AllMarked(es: seq<Entry>, seen: set<nat>, xs: seq<nat>, after: set<nat>)
    requires Marks(es, seen, xs, after)
    ensures Passable(es, seen, xs) && after == seen + (set x <- xs) && |after| == |seen| + |xs| && forall x <- after :: x < |es|
  {
  }

  /** Every state that meets the invariant is in order. */
  lemma WholeIsOrdered(v: Stored, budget: nat)
    requires |v.heads| == |v.tails| == |v.bytes| == 2
    ensures v.Whole(budget) ==> Ordered(v, budget, v.count, v.count)
  {
    if v.Whole(budget) {
      forall a: nat | a < |v.es| ensures Consistent(v.es[a]) && Reuses(v.es)[a] <= REUSE_TO_PROMOTE
        ensures v.es[a].record.program.Program? <==> a in v.probation || a in v.guarded
      {
        v.HoldsRetained(budget, a);
      }
    }
  }

  /** A state in order whose records are consistent with their queue fields meets the invariant. */
  lemma OrderedIsWhole(v: Stored, budget: nat, expected: nat, owned: nat)
    requires Ordered(v, budget, expected, owned) && forall a :: 0 <= a < |v.es| ==> Consistent(v.es[a])
    ensures v.Whole(budget)
  {
    forall a | 0 <= a < |v.es|
      ensures Filing(v.es, PROBATION, v.probation, a) && Filing(v.es, PROTECTED, v.guarded, a)
      ensures Reuses(v.es)[a] <= REUSE_TO_PROMOTE
    {
      assert Consistent(v.es[a]);
      if a in v.probation {
        InChain(v.es, v.heads[0], v.tails[0], PROBATION, v.probation, a);
      }
      if a in v.guarded {
        InChain(v.es, v.heads[1], v.tails[1], PROTECTED, v.guarded, a);
      }
    }
  }

  lemma InChain(es: seq<Entry>, head: nat, tail: nat, queue: nat, xs: seq<nat>, a: nat)
    requires Chain(es, head, tail, queue, xs) && a in xs
    ensures a < |es| && es[a].queue == queue
  {
    var k :| 0 <= k < |xs| && xs[k] == a;
    assert Node(es, queue, xs, k);
  }

  /** The walk never visits it, so an empty entry with a stale queue field is in order, though the invariant excludes it. */
  lemma StaleQueueUnnoticed(budget: nat)
    ensures var stale := Entry(Record(false, 0, 0, Null, 0, 0), 0, 0, PROBATION);
      var v := Stored([stale], [0, 0], [0, 0], [0, 0], 0, [], []);
      Ordered(v, budget, 0, 0) && !Consistent(stale) && forall xs, ys :: !v.(probation := xs, guarded := ys).Whole(budget)
  {
    var stale := Entry(Record(false, 0, 0, Null, 0, 0), 0, 0, PROBATION);
    var v := Stored([stale], [0, 0], [0, 0], [0, 0], 0, [], []);
    assert v.es[0] == stale;
  }
}
