/**
 The retention policy of the compiled-program cache, on values: a byte-weighted segmented LRU.
 Probation absorbs scans, the guarded queue holds programs that have shown reuse, the oldest
 member of each queue comes first. Module RetentionCache proves that the real intrusive lists
 compute exactly these functions; here is what the functions guarantee over whole runs.
 */
module RetentionPolicy {
  import opened RetentionLists

  const MAX_RETIREMENTS: nat := 64

  /** Two cached hits promote: the counter saturates there. */
  const REUSE_TO_PROMOTE: nat := 2

  /** The part of the byte budget that guarded programs may use. */
  function GuardedBudget(budget: nat): (r: nat)
    ensures budget > 0 ==> r < budget
  {
    budget * 3 / 4
  }

  datatype Queues = Queues(probation: seq<nat>, guarded: seq<nat>, sizes: seq<nat>, reuse: seq<nat>)
  {
    /** Every retained entry in the order eviction takes them. */
    function Order(): seq<nat> { probation + guarded }

    function Held(): nat { Total(sizes, probation) + Total(sizes, guarded) }

    predicate Retains(i: nat) { i in probation || i in guarded }
  }

  /** What every reachable pair of queues satisfies under a byte budget. */
  ghost predicate Sound(budget: nat, q: Queues) {
    && |q.sizes| == |q.reuse|
    && Distinct(q.probation)
    && Distinct(q.guarded)
    && (forall i :: i in q.probation ==> i < |q.sizes| && i !in q.guarded)
    && (forall i :: i in q.guarded ==> i < |q.sizes|)
    && q.Held() <= budget
    && Total(q.sizes, q.guarded) <= GuardedBudget(budget)
    && (forall i :: 0 <= i < |q.reuse| ==> q.reuse[i] <= REUSE_TO_PROMOTE)
    && (forall i :: 0 <= i < |q.sizes| && !q.Retains(i) ==> q.sizes[i] == 0 && q.reuse[i] == 0)
  }

  // ---- operations ----

  /** A record emptied: out of its queue, no bytes, no history. */
  function Release(q: Queues, i: nat): Queues {
    Queues(Without(q.probation, i), Without(q.guarded, i),
           if i < |q.sizes| then q.sizes[i := 0] else q.sizes,
           if i < |q.reuse| then q.reuse[i := 0] else q.reuse)
  }

  /** Move the oldest guarded program to the young end of probation, its history forgotten. */
  function Demote(q: Queues): Queues
    requires q.guarded != []
  {
    var oldest := q.guarded[0];
    Queues(q.probation + [oldest], q.guarded[1..], q.sizes,
           if oldest < |q.reuse| then q.reuse[oldest := 0] else q.reuse)
  }

  predicate FitsGuarded(budget: nat, q: Queues, i: nat)
    requires i < |q.sizes|
  {
    Total(q.sizes, q.guarded) + q.sizes[i] <= GuardedBudget(budget)
  }

  /** One more hit on the reuse counter, which saturates. */
  function Mark(q: Queues, i: nat): Queues
    requires i < |q.reuse|
  {
    q.(reuse := q.reuse[i := if q.reuse[i] < REUSE_TO_PROMOTE then q.reuse[i] + 1 else q.reuse[i]])
  }

  /** Give `i` room in the guarded queue: demote at most one program, then promote if that was enough. */
  function Settle(budget: nat, q: Queues, i: nat): Queues
    requires i < |q.sizes|
  {
    var r := Crowded(budget, q, i);
    if FitsGuarded(budget, r, i) then Promote(r, i) else r
  }

  /** At most one demotion in favour of `i`. */
  function Crowded(budget: nat, q: Queues, i: nat): (r: Queues)
    requires i < |q.sizes|
    ensures r.sizes == q.sizes
  {
    if !FitsGuarded(budget, q, i) && q.guarded != [] then Demote(q) else q
  }

  function Promote(q: Queues, i: nat): Queues {
    q.(probation := Without(q.probation, i), guarded := q.guarded + [i])
  }

  function Refresh(q: Queues, i: nat): Queues {
    q.(guarded := Without(q.guarded, i) + [i])
  }

  /** A cached hit on entry `i`. */
  function Touch(budget: nat, q: Queues, i: nat): Queues
    requires i < |q.sizes| == |q.reuse|
  {
    if i in q.guarded then
      Refresh(q, i)
    else
      var marked := Mark(q, i);
      if marked.reuse[i] < REUSE_TO_PROMOTE || q.sizes[i] > GuardedBudget(budget) then marked
      else Settle(budget, marked, i)
  }

  /** A hit on `i` goes on to the guarded queue: it has shown reuse and could ever fit there. */
  predicate Qualifies(budget: nat, q: Queues, i: nat)
    requires i < |q.sizes| == |q.reuse|
  {
    i !in q.guarded && Mark(q, i).reuse[i] >= REUSE_TO_PROMOTE && q.sizes[i] <= GuardedBudget(budget)
  }

  /** The hit demotes the oldest guarded program. */
  predicate Demotes(budget: nat, q: Queues, i: nat)
    requires i < |q.sizes| == |q.reuse|
  {
    Qualifies(budget, q, i) && !FitsGuarded(budget, q, i)
  }

  /** Entry `i` fits once at most one guarded program has been demoted for it. */
  predicate Settles(budget: nat, q: Queues, i: nat)
    requires i < |q.sizes|
  {
    Total(q.sizes, if !FitsGuarded(budget, q, i) && q.guarded != [] then q.guarded[1..] else q.guarded) + q.sizes[i]
      <= GuardedBudget(budget)
  }

  /** The hit promotes `i`. */
  predicate Promotes(budget: nat, q: Queues, i: nat)
    requires i < |q.sizes| == |q.reuse|
  {
    Qualifies(budget, q, i) && Settles(budget, q, i)
  }

  /** How many of the oldest members have to go before `order` fits in `room`, at most `limit`. */
  function Victims(sizes: seq<nat>, order: seq<nat>, room: nat, limit: nat): (k: nat)
    ensures k <= limit && k <= |order|
  {
    if limit == 0 || Total(sizes, order) <= room then 0
    else 1 + Victims(sizes, order[1..], room, limit - 1)
  }

  function Zeroed(s: seq<nat>, gone: seq<nat>): (r: seq<nat>)
    ensures |r| == |s|
    ensures forall i :: 0 <= i < |s| ==> r[i] == if i in gone then 0 else s[i]
  {
    seq(|s|, i requires 0 <= i < |s| => if i in gone then 0 else s[i])
  }

  /** The `k` oldest programs retired: probation first, then the guarded queue. */
  function Drop(q: Queues, k: nat): Queues
    requires k <= |q.Order()|
  {
    var p := |q.probation|;
    Queues(if k <= p then q.probation[k..] else [],
           if k <= p then q.guarded else q.guarded[k - p..],
           Zeroed(q.sizes, q.Order()[..k]), Zeroed(q.reuse, q.Order()[..k]))
  }

  /** Make room for `n` bytes; an oversized request retires nothing. */
  function Retirements(budget: nat, q: Queues, n: nat): (k: nat)
    ensures k <= MAX_RETIREMENTS && k <= |q.Order()|
  {
    if n > budget then 0 else Victims(q.sizes, q.Order(), budget - n, MAX_RETIREMENTS)
  }

  function MakeRoom(budget: nat, q: Queues, n: nat): Queues {
    Drop(q, Retirements(budget, q, n))
  }

  predicate Admits(budget: nat, q: Queues, n: nat) {
    n <= budget && MakeRoom(budget, q, n).Held() + n <= budget
  }

  /** File a new program of `n` bytes at the young end of probation. */
  function Admit(q: Queues, i: nat, n: nat): Queues
    requires i < |q.sizes| == |q.reuse|
  {
    q.(probation := q.probation + [i], sizes := q.sizes[i := n])
  }

  /** One successful lookup of entry `i`, whose program, if it has to be compiled, takes `n` bytes. */
  function Lookup(budget: nat, q: Queues, i: nat, n: nat): Queues
    requires i < |q.sizes| == |q.reuse|
  {
    if q.Retains(i) then Touch(budget, q, i)
    else
      var r := MakeRoom(budget, q, n);
      if Admits(budget, q, n) then Admit(r, i, n) else r
  }

  /** A miss, in the order the code takes the decisions. */
  lemma MissSteps(budget: nat, q: Queues, i: nat, n: nat)
    requires i < |q.sizes| == |q.reuse| && !q.Retains(i)
    ensures var r := MakeRoom(budget, q, n);
      && |r.sizes| == |r.reuse| == |q.sizes|
      && Lookup(budget, q, i, n) == if Admits(budget, q, n) then Admit(r, i, n) else r
  {
  }

  function Blank(n: nat): Queues {
    Queues([], [], seq(n, _ => 0), seq(n, _ => 0))
  }

  /** What can happen to the queues between two lookups of the engine. */
  datatype Op = Look(i: nat, n: nat) | Forget(i: nat) | Clear

  ghost function Step(budget: nat, q: Queues, op: Op): Queues {
    match op
    case Look(i, n) => if i < |q.sizes| == |q.reuse| then Lookup(budget, q, i, n) else q
    case Forget(i) => Release(q, i)
    case Clear => Blank(|q.sizes|)
  }

  ghost function Run(budget: nat, q: Queues, ops: seq<Op>): Queues {
    if ops == [] then q else Step(budget, Run(budget, q, ops[..|ops| - 1]), ops[|ops| - 1])
  }

  // ---- hits ----

  /** A hit outside the guarded queue, in the order the code takes the decisions. */
  lemma TouchSteps(budget: nat, q: Queues, i: nat)
    requires i < |q.sizes| == |q.reuse| && i !in q.guarded
    ensures var g, qualifies := Mark(q, i), Mark(q, i).reuse[i] >= REUSE_TO_PROMOTE && q.sizes[i] <= GuardedBudget(budget);
      && |g.reuse| == |q.reuse| && g.sizes == q.sizes
      && Touch(budget, q, i) == (if qualifies then Settle(budget, g, i) else g)
      && (Demotes(budget, q, i) <==> qualifies && !FitsGuarded(budget, g, i))
      && (Promotes(budget, q, i) <==> qualifies && Settles(budget, g, i))
  {
  }

  /** Refreshing the youngest guarded program changes nothing, so the code skips it. */
  lemma RefreshYoungest(q: Queues, i: nat)
    requires Distinct(q.guarded) && q.guarded != [] && q.guarded[|q.guarded| - 1] == i
    ensures Refresh(q, i) == q
  {
    var k := |q.guarded| - 1;
    WithoutAt(q.guarded, k);
    assert q.guarded == q.guarded[..k] + [i];
  }

  /** Settling in the order the code takes the decisions. */
  lemma SettleSteps(budget: nat, q: Queues, i: nat)
    requires i < |q.sizes|
    ensures var r := Crowded(budget, q, i);
      && |r.sizes| == |q.sizes|
      && (Settles(budget, q, i) <==> FitsGuarded(budget, r, i))
      && Settle(budget, q, i) == if FitsGuarded(budget, r, i) then Promote(r, i) else r
  {
  }

  /** The two events of a hit, told apart by where programs end up. */
  lemma TouchEvents(budget: nat, q: Queues, i: nat)
    requires Sound(budget, q) && q.Retains(i)
    ensures Promotes(budget, q, i) <==> i !in q.guarded && i in Touch(budget, q, i).guarded
    ensures Demotes(budget, q, i) <==> q.guarded != [] && q.guarded[0] in Touch(budget, q, i).probation
  {
    var g := Mark(q, i);
    assert q.guarded != [] ==> q.guarded[0] in q.guarded;
    assert Demotes(budget, q, i) ==> q.guarded != [];
    if Demotes(budget, q, i) {
      assert Demote(g).guarded == q.guarded[1..];
      assert q.guarded[0] in Demote(g).probation by {
        assert Demote(g).probation[|q.probation|] == q.guarded[0];
      }
      if FitsGuarded(budget, Demote(g), i) {
        DemoteSound(budget, g);
        WithoutMembers(Demote(g).probation, i);
      }
    } else if Promotes(budget, q, i) {
      WithoutMembers(q.probation, i);
      assert Touch(budget, q, i).guarded[|q.guarded|] == i;
    } else if i in q.guarded {
      WithoutMembers(q.guarded, i);
    }
    if Demotes(budget, q, i) && Promotes(budget, q, i) {
      assert Touch(budget, q, i).guarded[|q.guarded| - 1] == i;
    }
  }

  // ---- making room ----

  /** Bytes held by what is left of an eviction order after its first `k` members. */
  function Beyond(sizes: seq<nat>, order: seq<nat>, k: nat): nat
    requires k <= |order|
  {
    Total(sizes, order[k..])
  }

  /** The retired count makes room, unless the work limit stops it first. */
  lemma {:induction false} VictimsSuffice(sizes: seq<nat>, order: seq<nat>, room: nat, limit: nat)
    ensures var k := Victims(sizes, order, room, limit);
      k == limit || Beyond(sizes, order, k) <= room
  {
    if limit == 0 || Total(sizes, order) <= room {
      assert order[0..] == order;
    } else {
      VictimsSuffice(sizes, order[1..], room, limit - 1);
      assert order[1..][Victims(sizes, order, room, limit) - 1..] == order[Victims(sizes, order, room, limit)..];
    }
  }

  /** No smaller count would have made room. */
  lemma {:induction false} VictimsNeeded(sizes: seq<nat>, order: seq<nat>, room: nat, limit: nat, j: nat)
    requires j < Victims(sizes, order, room, limit)
    ensures Beyond(sizes, order, j) > room
  {
    if j == 0 {
      assert order[0..] == order;
    } else {
      VictimsNeeded(sizes, order[1..], room, limit - 1, j - 1);
      assert order[1..][j - 1..] == order[j..];
    }
  }

  /** The count is the only one that is enough, needed, and within the limit. */
  lemma VictimsUnique(sizes: seq<nat>, order: seq<nat>, room: nat, limit: nat, k: nat)
    requires k <= |order| && k <= limit
    requires forall j :: 0 <= j < k ==> Beyond(sizes, order, j) > room
    requires k == limit || Beyond(sizes, order, k) <= room
    ensures k == Victims(sizes, order, room, limit)
  {
    VictimsSuffice(sizes, order, room, limit);
    if k < Victims(sizes, order, room, limit) {
      VictimsNeeded(sizes, order, room, limit, k);
    }
  }

  lemma TotalSuffix(sizes: seq<nat>, xs: seq<nat>, k: nat)
    requires k <= |xs|
    ensures Total(sizes, xs[k..]) <= Total(sizes, xs)
  {
    assert xs == xs[..k] + xs[k..];
    TotalAppend(sizes, xs[..k], xs[k..]);
  }

  /** Retiring `k` leaves exactly the younger part of the eviction order, at its old sizes. */
  lemma DropOrder(q: Queues, k: nat)
    requires k <= |q.Order()| && Distinct(q.Order())
    ensures Drop(q, k).Order() == q.Order()[k..]
    ensures Drop(q, k).Held() == Total(q.sizes, q.Order()[k..])
    ensures Total(Drop(q, k).sizes, Drop(q, k).guarded) == Total(q.sizes, Drop(q, k).guarded)
    ensures forall i :: i in q.Order()[k..] && i < |q.sizes| ==> Drop(q, k).sizes[i] == q.sizes[i]
    ensures forall i :: i in q.Order()[k..] && i < |q.reuse| ==> Drop(q, k).reuse[i] == q.reuse[i]
  {
    hide Total;
    var order := q.Order();
    assert forall i :: i in order[k..] ==> i !in order[..k];
    var d := Drop(q, k);
    assert d.Order() == order[k..];
    TotalAppend(d.sizes, d.probation, d.guarded);
    TotalAgree(d.sizes, q.sizes, order[k..]);
    assert forall i :: i in d.guarded ==> i in order[k..] by {
      assert d.Order() == d.probation + d.guarded;
    }
    TotalAgree(d.sizes, q.sizes, d.guarded);
  }

  lemma DropNone(q: Queues)
    ensures Drop(q, 0) == q
  {
  }

  lemma OrderDistinct(q: Queues)
    requires Distinct(q.probation) && Distinct(q.guarded)
    requires forall i :: i in q.probation ==> i !in q.guarded
    ensures Distinct(q.Order())
  {
    forall j, k | 0 <= j < k < |q.Order()| ensures q.Order()[j] != q.Order()[k] {
      if j < |q.probation| <= k {
        assert q.Order()[j] in q.probation && q.Order()[k] in q.guarded;
      }
    }
  }

  lemma SoundOrder(budget: nat, q: Queues)
    requires Sound(budget, q)
    ensures Distinct(q.Order()) && |q.sizes| == |q.reuse|
  {
    OrderDistinct(q);
  }

  /** Dropping one more is releasing the oldest that is left. */
  lemma DropStep(q: Queues, k: nat)
    requires k < |q.Order()| && Distinct(q.Order()) && |q.sizes| == |q.reuse|
    ensures Release(Drop(q, k), q.Order()[k]) == Drop(q, k + 1)
  {
    hide Zeroed, Total;
    var order := q.Order();
    var x := order[k];
    var d := Drop(q, k);
    DropOrder(q, k);
    assert d.Order()[0] == x;
    assert order[..k + 1] == order[..k] + [x];
    ZeroedMore(q.sizes, order[..k], x);
    ZeroedMore(q.reuse, order[..k], x);
    var p := |q.probation|;
    if k < p {
      assert d.probation[0] == x;
      NotGuarded(q, k);
      WithoutAbsent(d.guarded, x);
    } else {
      assert d.probation == [] && d.guarded[0] == x;
    }
  }

  lemma ZeroedMore(s: seq<nat>, gone: seq<nat>, x: nat)
    ensures Zeroed(s, gone + [x]) == if x < |s| then Zeroed(s, gone)[x := 0] else Zeroed(s, gone)
  {
  }

  lemma NotGuarded(q: Queues, k: nat)
    requires k < |q.probation| && Distinct(q.Order())
    ensures q.Order()[k] !in q.guarded
  {
    assert forall j :: 0 <= j < |q.guarded| ==> q.guarded[j] == q.Order()[|q.probation| + j];
  }

  /**
   One admission retires at most 64 programs, oldest first, probation before guarded, and no more
   than it needs; it succeeds exactly when that made room; an oversized request retires none.
   */
  lemma MakeRoomExact(budget: nat, q: Queues, n: nat)
    requires Sound(budget, q)
    ensures var k := Retirements(budget, q, n);
      && k <= 64
      && MakeRoom(budget, q, n).Order() == q.Order()[k..]
      && (n > budget ==> k == 0)
      && (forall j :: 0 <= j < k ==> Beyond(q.sizes, q.Order(), j) + n > budget)
      && (n <= budget && !Admits(budget, q, n) ==> k == 64)
      && (Admits(budget, q, n) <==> n <= budget && Beyond(q.sizes, q.Order(), k) + n <= budget)
  {
    hide Drop, Victims, Sound;
    var k := Retirements(budget, q, n);
    SoundOrder(budget, q);
    DropOrder(q, k);
    if n <= budget {
      VictimsSuffice(q.sizes, q.Order(), budget - n, MAX_RETIREMENTS);
      forall j | 0 <= j < k ensures Beyond(q.sizes, q.Order(), j) + n > budget {
        VictimsNeeded(q.sizes, q.Order(), budget - n, MAX_RETIREMENTS, j);
      }
    }
  }

  /**
   A guarded program is retired by an admission exactly when the request could fit the budget, all
   of probation goes within the work limit, and the guarded bytes alone still leave no room.
   */
  lemma GuardedLoss(budget: nat, q: Queues, n: nat)
    requires Sound(budget, q)
    ensures MakeRoom(budget, q, n).guarded != q.guarded <==>
      n <= budget && |q.probation| < 64 && Total(q.sizes, q.guarded) + n > budget
  {
    hide Victims, Sound, Zeroed;
    var k := Retirements(budget, q, n);
    var p := |q.probation|;
    assert q.Order()[p..] == q.guarded;
    if k > p {
      assert |q.guarded[k - p..]| < |q.guarded|;
    }
    if n <= budget {
      VictimsSuffice(q.sizes, q.Order(), budget - n, MAX_RETIREMENTS);
      if k > p {
        VictimsNeeded(q.sizes, q.Order(), budget - n, MAX_RETIREMENTS, p);
      } else {
        TotalSuffix(q.sizes, q.Order()[k..], p - k);
        assert q.Order()[k..][p - k..] == q.guarded;
      }
    }
  }

  // ---- every operation keeps the queues sound ----

  lemma ReleaseSound(budget: nat, q: Queues, i: nat)
    requires Sound(budget, q)
    ensures Sound(budget, Release(q, i)) && !Release(q, i).Retains(i)
    ensures Release(q, i).Held() + (if q.Retains(i) then q.sizes[i] else 0) == q.Held()
  {
    var r := Release(q, i);
    WithoutMembers(q.probation, i);
    WithoutMembers(q.guarded, i);
    ReleaseTotal(q.sizes, q.probation, i);
    ReleaseTotal(q.sizes, q.guarded, i);
  }

  lemma ReleaseTotal(sizes: seq<nat>, xs: seq<nat>, i: nat)
    requires Distinct(xs)
    ensures var s := if i < |sizes| then sizes[i := 0] else sizes;
      Total(s, Without(xs, i)) + (if i in xs && i < |sizes| then sizes[i] else 0) == Total(sizes, xs)
  {
    var s := if i < |sizes| then sizes[i := 0] else sizes;
    WithoutMembers(xs, i);
    TotalAgree(s, sizes, Without(xs, i));
    if i in xs {
      if i < |sizes| {
        TotalWithout(sizes, xs, i);
      } else {
        TotalWithoutFree(sizes, xs, i);
      }
    } else {
      WithoutAbsent(xs, i);
    }
  }

  lemma {:induction false} TotalWithoutFree(sizes: seq<nat>, xs: seq<nat>, x: nat)
    requires x >= |sizes|
    ensures Total(sizes, Without(xs, x)) == Total(sizes, xs)
  {
    if xs != [] && xs[0] != x {
      TotalWithoutFree(sizes, xs[1..], x);
      assert Without(xs, x)[1..] == Without(xs[1..], x);
    }
  }

  lemma DemoteSound(budget: nat, q: Queues)
    requires Sound(budget, q) && q.guarded != []
    ensures Sound(budget, Demote(q)) && Demote(q).Held() == q.Held()
    ensures Total(q.sizes, Demote(q).guarded) <= Total(q.sizes, q.guarded)
  {
    var oldest := q.guarded[0];
    assert oldest in q.guarded;
    TotalAppend(q.sizes, q.probation, [oldest]);
    assert forall i :: i in q.guarded <==> i == oldest || i in q.guarded[1..];
    assert oldest !in q.guarded[1..];
  }

  lemma PromoteSound(budget: nat, q: Queues, i: nat)
    requires Sound(budget, q) && i in q.probation && FitsGuarded(budget, q, i)
    ensures Sound(budget, Promote(q, i)) && Promote(q, i).Held() == q.Held()
  {
    WithoutMembers(q.probation, i);
    TotalWithout(q.sizes, q.probation, i);
    TotalAppend(q.sizes, q.guarded, [i]);
  }

  lemma RefreshSound(budget: nat, q: Queues, i: nat)
    requires Sound(budget, q) && i in q.guarded
    ensures Sound(budget, Refresh(q, i)) && Refresh(q, i).Held() == q.Held()
  {
    WithoutMembers(q.guarded, i);
    TotalWithout(q.sizes, q.guarded, i);
    TotalAppend(q.sizes, Without(q.guarded, i), [i]);
  }

  lemma SettleSound(budget: nat, q: Queues, i: nat)
    requires Sound(budget, q) && i in q.probation
    ensures Sound(budget, Settle(budget, q, i)) && Settle(budget, q, i).Held() == q.Held()
    ensures Settle(budget, q, i).Retains(i)
  {
    if !FitsGuarded(budget, q, i) && q.guarded != [] {
      DemoteSound(budget, q);
      if FitsGuarded(budget, Demote(q), i) {
        PromoteSound(budget, Demote(q), i);
      }
    } else if FitsGuarded(budget, q, i) {
      PromoteSound(budget, q, i);
    }
  }

  lemma TouchSound(budget: nat, q: Queues, i: nat)
    requires Sound(budget, q) && q.Retains(i)
    ensures Sound(budget, Touch(budget, q, i))
    ensures Touch(budget, q, i).Held() == q.Held() && Touch(budget, q, i).Retains(i)
  {
    if i in q.guarded {
      RefreshSound(budget, q, i);
    } else {
      SettleSound(budget, Mark(q, i), i);
    }
  }

  lemma {:induction false} DropSound(budget: nat, q: Queues, k: nat)
    requires Sound(budget, q) && k <= |q.Order()|
    ensures Sound(budget, Drop(q, k))
  {
    if k == 0 {
      assert Drop(q, 0) == q;
    } else {
      DropSound(budget, q, k - 1);
      OneLess(budget, q, k - 1);
    }
  }

  lemma OneLess(budget: nat, q: Queues, k: nat)
    requires Sound(budget, q) && k < |q.Order()| && Sound(budget, Drop(q, k))
    ensures Sound(budget, Drop(q, k + 1))
  {
    OrderDistinct(q);
    DropStep(q, k);
    ReleaseSound(budget, Drop(q, k), q.Order()[k]);
  }

  lemma AdmitSound(budget: nat, q: Queues, i: nat, n: nat)
    requires Sound(budget, q) && !q.Retains(i) && i < |q.sizes| && q.Held() + n <= budget
    ensures Sound(budget, Admit(q, i, n)) && Admit(q, i, n).Held() == q.Held() + n
  {
    var r := Admit(q, i, n);
    TotalAgree(r.sizes, q.sizes, q.probation);
    TotalAgree(r.sizes, q.sizes, q.guarded);
    TotalAppend(r.sizes, q.probation, [i]);
  }

  lemma LookupSound(budget: nat, q: Queues, i: nat, n: nat)
    requires Sound(budget, q) && i < |q.sizes|
    ensures Sound(budget, Lookup(budget, q, i, n))
  {
    if q.Retains(i) {
      TouchSound(budget, q, i);
    } else {
      var k := Retirements(budget, q, n);
      DropSound(budget, q, k);
      if Admits(budget, q, n) {
        OrderDistinct(q);
        DropOrder(q, k);
        assert !Drop(q, k).Retains(i);
        AdmitSound(budget, Drop(q, k), i, n);
      }
    }
  }

  lemma BlankSound(budget: nat, n: nat)
    ensures Sound(budget, Blank(n))
  {
  }

  /** Both byte budgets, and well-formedness, hold after every run of lookups, releases and clears. */
  lemma {:induction false} RunSound(budget: nat, q: Queues, ops: seq<Op>)
    requires Sound(budget, q)
    ensures Sound(budget, Run(budget, q, ops)) && |Run(budget, q, ops).sizes| == |q.sizes|
  {
    if ops != [] {
      var before := Run(budget, q, ops[..|ops| - 1]);
      RunSound(budget, q, ops[..|ops| - 1]);
      match ops[|ops| - 1] {
        case Look(i, n) => if i < |before.sizes| { LookupSound(budget, before, i, n); }
        case Forget(i) => ReleaseSound(budget, before, i);
        case Clear => BlankSound(budget, |before.sizes|);
      }
    }
  }
}
