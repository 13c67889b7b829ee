/**
 The representation of the retained-program queues: two intrusive doubly linked lists
 threaded through one array of decoded entries, with one-based indices and zero as null.
 Everything here is stated on sequences of entry values, so that the class over the real
 array (module RetentionCache) only has to equate its array with those values.
 */
module RetentionLists {

  /** A compiled program: its identity and the bytes it is charged for. */
  datatype Program = Null | Program(id: nat, bytes: nat)
  {
    function Size(): nat { if Null? then 0 else bytes }
  }

  /** What a decoded entry carries besides its list links. */
  datatype Record = Record(valid: bool, capability: nat, rejection: nat, program: Program, bytes: nat, reuse: nat)
  {
    /** The record a release leaves behind: no program and no history. */
    function Released(): Record {
      this.(program := Null, bytes := 0, reuse := 0)
    }
  }

  /** One decoded entry: its record and its place in the lists. */
  datatype Entry = Entry(record: Record, previous: nat, next: nat, queue: nat)
  {
    function Unfiled(): Entry {
      Entry(record, 0, 0, ABSENT)
    }
  }

  const ABSENT: nat := 0
  const PROBATION: nat := 1
  const PROTECTED: nat := 2

  const BLANK := Entry(Record(false, 0, 0, Null, 0, 0), 0, 0, ABSENT)

  ghost predicate Distinct(xs: seq<nat>) {
    forall j, k :: 0 <= j < k < |xs| ==> xs[j] != xs[k]
  }

  /** `xs` without its first occurrence of `x`. */
  function Without(xs: seq<nat>, x: nat): (r: seq<nat>)
  {
    if xs == [] then [] else if xs[0] == x then xs[1..] else [xs[0]] + Without(xs[1..], x)
  }

  /** The bytes charged to the members of a list. */
  function Total(sizes: seq<nat>, xs: seq<nat>): nat {
    if xs == [] then 0 else (if xs[0] < |sizes| then sizes[xs[0]] else 0) + Total(sizes, xs[1..])
  }

  function Sizes(es: seq<Entry>): (s: seq<nat>)
    ensures |s| == |es| && forall i :: 0 <= i < |es| ==> s[i] == es[i].record.bytes
  {
    seq(|es|, i requires 0 <= i < |es| => es[i].record.bytes)
  }

  function Reuses(es: seq<Entry>): (s: seq<nat>)
    ensures |s| == |es| && forall i :: 0 <= i < |es| ==> s[i] == es[i].record.reuse
  {
    seq(|es|, i requires 0 <= i < |es| => es[i].record.reuse)
  }

  /** One-based links: zero is null. */
  function Link(xs: seq<nat>, k: int): nat {
    if 0 <= k < |xs| then xs[k] + 1 else 0
  }

  /**
   `xs` is the list that starts at `head`: next and previous links, head and tail agree, and its
   members are exactly the entries filed under `queue`.
   */
  ghost predicate Linked(es: seq<Entry>, head: nat, tail: nat, queue: nat, xs: seq<nat>) {
    && Distinct(xs)
    && head == Link(xs, 0)
    && tail == Link(xs, |xs| - 1)
    && (forall k {:trigger Node(es, queue, xs, k)} :: 0 <= k < |xs| ==> Node(es, queue, xs, k))
    && (forall i {:trigger Filing(es, queue, xs, i)} :: 0 <= i < |es| ==> Filing(es, queue, xs, i))
  }

  /** Member `k` is filed under `queue` and linked to its neighbours. */
  ghost predicate Node(es: seq<Entry>, queue: nat, xs: seq<nat>, k: nat)
    requires k < |xs|
  {
    && xs[k] < |es|
    && es[xs[k]].queue == queue
    && es[xs[k]].previous == Link(xs, k - 1)
    && es[xs[k]].next == Link(xs, k + 1)
  }

  ghost predicate Filing(es: seq<Entry>, queue: nat, xs: seq<nat>, i: nat)
    requires i < |es|
  {
    es[i].queue == queue <==> i in xs
  }

  lemma {:induction false} WithoutAt(xs: seq<nat>, k: nat)
    requires Distinct(xs) && k < |xs|
    ensures Without(xs, xs[k]) == xs[..k] + xs[k + 1..]
  {
    if k > 0 {
      assert xs[0] != xs[k];
      WithoutAt(xs[1..], k - 1);
      assert xs[1..][..k - 1] == xs[1..k];
      assert xs[1..][k..] == xs[k + 1..];
      assert xs[..k] == [xs[0]] + xs[1..k];
    }
  }

  lemma {:induction false} WithoutMembers(xs: seq<nat>, x: nat)
    requires Distinct(xs)
    ensures Distinct(Without(xs, x))
    ensures forall y :: y in Without(xs, x) <==> y in xs && y != x
    ensures |Without(xs, x)| == if x in xs then |xs| - 1 else |xs|
  {
    if xs != [] {
      var rest := xs[1..];
      WithoutMembers(rest, x);
      assert xs == [xs[0]] + rest;
      forall y ensures y in xs <==> y == xs[0] || y in rest {
      }
      assert xs[0] !in rest;
      if xs[0] != x {
        assert Without(xs, x) == [xs[0]] + Without(rest, x);
        assert xs[0] !in Without(rest, x);
      }
    }
  }

  lemma {:induction false} TotalAppend(sizes: seq<nat>, xs: seq<nat>, ys: seq<nat>)
    ensures Total(sizes, xs + ys) == Total(sizes, xs) + Total(sizes, ys)
  {
    if xs == [] {
      assert xs + ys == ys;
    } else {
      TotalAppend(sizes, xs[1..], ys);
      assert (xs + ys)[1..] == xs[1..] + ys;
    }
  }

  lemma {:induction false} TotalWithout(sizes: seq<nat>, xs: seq<nat>, x: nat)
    requires x in xs && x < |sizes|
    ensures Total(sizes, Without(xs, x)) + sizes[x] == Total(sizes, xs)
  {
    if xs[0] != x {
      assert x in xs[1..];
      TotalWithout(sizes, xs[1..], x);
      assert Without(xs, x)[1..] == Without(xs[1..], x);
    }
  }

  /** Two size tables that agree on the members charge a list the same. */
  lemma {:induction false} TotalAgree(s: seq<nat>, t: seq<nat>, xs: seq<nat>)
    requires |s| == |t| && forall x :: x in xs && x < |s| ==> s[x] == t[x]
    ensures Total(s, xs) == Total(t, xs)
  {
    if xs != [] {
      assert xs[0] in xs;
      assert forall x :: x in xs[1..] ==> x in xs;
      TotalAgree(s, t, xs[1..]);
    }
  }

  // ---- the two link surgeries, on values ----

  /** Splice member `k` out: relink its neighbours and clear its links. */
  function Spliced(es: seq<Entry>, i: nat): (r: seq<Entry>)
    requires i < |es| && es[i].previous <= |es| && es[i].next <= |es|
    ensures |r| == |es|
  {
    var p, n := es[i].previous, es[i].next;
    var es1 := if p != 0 then es[p - 1 := es[p - 1].(next := n)] else es;
    var es2 := if n != 0 then es1[n - 1 := es1[n - 1].(previous := p)] else es1;
    es2[i := es2[i].Unfiled()]
  }

  lemma SplicedLinked(es: seq<Entry>, head: nat, tail: nat, queue: nat, xs: seq<nat>, k: nat)
    requires Linked(es, head, tail, queue, xs) && k < |xs| && queue != ABSENT
    ensures xs[k] < |es| && es[xs[k]].previous <= |es| && es[xs[k]].next <= |es|
    ensures var i := xs[k];
            Linked(Spliced(es, i),
                   if es[i].previous != 0 then head else es[i].next,
                   if es[i].next != 0 then tail else es[i].previous,
                   queue, Without(xs, i))
  {
    hide Spliced, Node, Without, Link;
    var i := xs[k];
    SplicedEnds(es, head, tail, queue, xs, k);
    var es', ys := Spliced(es, i), xs[..k] + xs[k + 1..];
    WithoutAt(xs, k);
    WithoutMembers(xs, i);
    forall j | 0 <= j < |ys| ensures Node(es', queue, ys, j) {
      SplicedNode(es, head, tail, queue, xs, k, j);
    }
    forall a | 0 <= a < |es'| ensures Filing(es', queue, Without(xs, i), a) {
      assert Filing(es, queue, xs, a);
      SplicedQueue(es, i, a);
    }
  }

  lemma SplicedQueue(es: seq<Entry>, i: nat, a: nat)
    requires i < |es| && es[i].previous <= |es| && es[i].next <= |es| && a < |es|
    ensures Spliced(es, i)[a].queue == if a == i then ABSENT else es[a].queue
  {
  }

  lemma SplicedEnds(es: seq<Entry>, head: nat, tail: nat, queue: nat, xs: seq<nat>, k: nat)
    requires Linked(es, head, tail, queue, xs) && k < |xs|
    ensures xs[k] < |es| && es[xs[k]].previous <= |es| && es[xs[k]].next <= |es|
    ensures var ys := xs[..k] + xs[k + 1..];
      && (if es[xs[k]].previous != 0 then head else es[xs[k]].next) == Link(ys, 0)
      && (if es[xs[k]].next != 0 then tail else es[xs[k]].previous) == Link(ys, |ys| - 1)
  {
    Neighbours(es, head, tail, queue, xs, k);
  }

  lemma SplicedNode(es: seq<Entry>, head: nat, tail: nat, queue: nat, xs: seq<nat>, k: nat, j: nat)
    requires Linked(es, head, tail, queue, xs) && k < |xs| && queue != ABSENT && j < |xs| - 1
    ensures xs[k] < |es| && es[xs[k]].previous <= |es| && es[xs[k]].next <= |es|
    ensures Node(Spliced(es, xs[k]), queue, xs[..k] + xs[k + 1..], j)
  {
    Neighbours(es, head, tail, queue, xs, k);
    var ys := xs[..k] + xs[k + 1..];
    if j < k {
      Neighbours(es, head, tail, queue, xs, j);
      assert ys[j] == xs[j] != xs[k];
      assert Link(ys, j - 1) == Link(xs, j - 1);
      if j + 1 < k {
        assert xs[j] != xs[k - 1];
        assert ys[j + 1] == xs[j + 1];
      } else {
        assert Link(ys, j + 1) == Link(xs, k + 1);
      }
      assert k + 1 < |xs| ==> xs[j] != xs[k + 1];
    } else {
      Neighbours(es, head, tail, queue, xs, j + 1);
      assert ys[j] == xs[j + 1] != xs[k];
      assert Link(ys, j + 1) == Link(xs, j + 2);
      if j > k {
        assert xs[j + 1] != xs[k + 1];
        assert ys[j - 1] == xs[j];
      } else {
        assert Link(ys, j - 1) == Link(xs, k - 1);
      }
      assert k > 0 ==> xs[j + 1] != xs[k - 1];
    }
  }

  /** The links of a member point at its neighbours in the list. */
  lemma Neighbours(es: seq<Entry>, head: nat, tail: nat, queue: nat, xs: seq<nat>, k: nat)
    requires Linked(es, head, tail, queue, xs) && k < |xs|
    ensures xs[k] < |es| && es[xs[k]].queue == queue
    ensures es[xs[k]].previous == (if k == 0 then 0 else xs[k - 1] + 1)
    ensures es[xs[k]].next == (if k + 1 == |xs| then 0 else xs[k + 1] + 1)
    ensures k > 0 ==> xs[k - 1] < |es| && es[xs[k - 1]].queue == queue
    ensures k + 1 < |xs| ==> xs[k + 1] < |es| && es[xs[k + 1]].queue == queue
  {
    assert Node(es, queue, xs, k);
    if k > 0 { assert Node(es, queue, xs, k - 1); }
    if k + 1 < |xs| { assert Node(es, queue, xs, k + 1); }
  }

  /** A list survives when no entry of it, and nothing that could join it, is touched. */
  lemma LinkedFrame(es: seq<Entry>, es': seq<Entry>, head: nat, tail: nat, queue: nat, xs: seq<nat>)
    requires Linked(es, head, tail, queue, xs) && |es'| == |es|
    requires forall a :: 0 <= a < |es| ==>
      (es[a].queue == queue ==> es'[a].queue == queue && es'[a].previous == es[a].previous && es'[a].next == es[a].next)
      && (es'[a].queue == queue ==> es[a].queue == queue)
    ensures Linked(es', head, tail, queue, xs)
  {
    forall k | 0 <= k < |xs| ensures Node(es', queue, xs, k) {
      assert Node(es, queue, xs, k);
    }
    forall a | 0 <= a < |es'| ensures Filing(es', queue, xs, a) {
      assert Filing(es, queue, xs, a);
    }
  }

  /** Splicing out of one list leaves the other alone. */
  lemma SplicedOther(es: seq<Entry>, head: nat, tail: nat, queue: nat, xs: seq<nat>, k: nat,
                     head': nat, tail': nat, other: nat, ys: seq<nat>)
    requires Linked(es, head, tail, queue, xs) && k < |xs| && queue != ABSENT
    requires Linked(es, head', tail', other, ys) && other != queue && other != ABSENT
    ensures xs[k] < |es| && es[xs[k]].previous <= |es| && es[xs[k]].next <= |es|
    ensures Linked(Spliced(es, xs[k]), head', tail', other, ys)
  {
    Neighbours(es, head, tail, queue, xs, k);
    LinkedFrame(es, Spliced(es, xs[k]), head', tail', other, ys);
  }

  /** Splicing changes only links. */
  lemma SplicedRecords(es: seq<Entry>, i: nat)
    requires i < |es| && es[i].previous <= |es| && es[i].next <= |es|
    ensures Spliced(es, i)[i] == es[i].Unfiled()
    ensures SameRecords(es, Spliced(es, i), i)
  {
  }

  /** The same records, and outside entry `i` the same queues too. */
  ghost predicate SameRecords(es: seq<Entry>, es': seq<Entry>, i: nat) {
    && |es'| == |es|
    && (forall a {:trigger es'[a]} :: 0 <= a < |es| ==>
          es'[a].record == es[a].record && (a != i ==> es'[a].queue == es[a].queue))
  }

  /** Outside entry `i`, the same records in the same queues. */
  ghost predicate Beside(es: seq<Entry>, es': seq<Entry>, i: nat) {
    && |es'| == |es|
    && (forall a {:trigger es'[a]} :: 0 <= a < |es| && a != i ==>
          es'[a].record == es[a].record && es'[a].queue == es[a].queue)
  }

  lemma SameTwice(a: seq<Entry>, b: seq<Entry>, c: seq<Entry>, i: nat)
    requires SameRecords(a, b, i) && SameRecords(b, c, i)
    ensures SameRecords(a, c, i)
  {
  }

  lemma SameSizes(es: seq<Entry>, es': seq<Entry>, i: nat)
    requires SameRecords(es, es', i)
    ensures Sizes(es') == Sizes(es) && Reuses(es') == Reuses(es)
  {
  }

  /** File entry `i` behind the one-based `tail` of `queue`. */
  function Filed(es: seq<Entry>, i: nat, tail: nat, queue: nat): (r: seq<Entry>)
    requires i < |es| && tail <= |es|
    ensures |r| == |es|
  {
    var es1 := es[i := es[i].(previous := tail, next := 0, queue := queue)];
    if tail != 0 then es1[tail - 1 := es1[tail - 1].(next := i + 1)] else es1
  }

  lemma FiledSteps(es: seq<Entry>, i: nat, tail: nat, queue: nat)
    requires i < |es| && tail <= |es|
    ensures Filed(es, i, tail, queue) ==
      var es1 := es[i := es[i].(previous := tail, next := 0, queue := queue)];
      if tail != 0 then es1[tail - 1 := es1[tail - 1].(next := i + 1)] else es1
  {
  }

  lemma FiledLinked(es: seq<Entry>, head: nat, tail: nat, queue: nat, xs: seq<nat>, i: nat)
    requires Linked(es, head, tail, queue, xs) && queue != ABSENT
    requires i < |es| && es[i].queue == ABSENT
    ensures tail <= |es|
    ensures Linked(Filed(es, i, tail, queue), if tail != 0 then head else i + 1, i + 1, queue, xs + [i])
  {
    var ys := xs + [i];
    assert i !in xs by { assert Filing(es, queue, xs, i); }
    if xs != [] {
      Neighbours(es, head, tail, queue, xs, |xs| - 1);
    }
    var es' := Filed(es, i, tail, queue);
    forall a | 0 <= a < |es'| ensures Filing(es', queue, ys, a) {
      assert Filing(es, queue, xs, a);
    }
    forall k | 0 <= k < |ys| ensures Node(es', queue, ys, k) {
      if k < |xs| {
        assert Node(es, queue, xs, k);
        assert xs[k] != i;
        assert k + 1 < |xs| ==> xs[k] != xs[|xs| - 1];
      }
    }
  }

  lemma FiledOther(es: seq<Entry>, head: nat, tail: nat, queue: nat, xs: seq<nat>, i: nat,
                   head': nat, tail': nat, other: nat, ys: seq<nat>)
    requires Linked(es, head, tail, queue, xs) && queue != ABSENT
    requires i < |es| && es[i].queue == ABSENT
    requires Linked(es, head', tail', other, ys) && other != queue && other != ABSENT
    ensures tail <= |es|
    ensures Linked(Filed(es, i, tail, queue), head', tail', other, ys)
  {
    if xs != [] {
      Neighbours(es, head, tail, queue, xs, |xs| - 1);
    }
    LinkedFrame(es, Filed(es, i, tail, queue), head', tail', other, ys);
  }

  lemma FiledRecords(es: seq<Entry>, i: nat, tail: nat, queue: nat)
    requires i < |es| && tail <= |es|
    ensures Filed(es, i, tail, queue)[i].queue == queue || tail == i + 1
    ensures SameRecords(es, Filed(es, i, tail, queue), i)
  {
  }

  /** Rewriting an entry's contents but not its links keeps every list. */
  lemma RewriteLinked(es: seq<Entry>, i: nat, e: Entry, head: nat, tail: nat, queue: nat, xs: seq<nat>)
    requires i < |es| && Linked(es, head, tail, queue, xs)
    requires e.previous == es[i].previous && e.next == es[i].next && e.queue == es[i].queue
    ensures Linked(es[i := e], head, tail, queue, xs)
  {
    LinkedFrame(es, es[i := e], head, tail, queue, xs);
  }

  // ---- both queues together, with the head, tail and byte tables ----

  /** The tables describe two well-formed lists and the byte counters are the sums of their members. */
  ghost predicate TwoLists(es: seq<Entry>, heads: seq<nat>, tails: seq<nat>, bytes: seq<nat>,
                           probation: seq<nat>, guarded: seq<nat>) {
    && |heads| == |tails| == |bytes| == 2
    && Linked(es, heads[0], tails[0], PROBATION, probation)
    && Linked(es, heads[1], tails[1], PROTECTED, guarded)
    && bytes[0] == Total(Sizes(es), probation)
    && bytes[1] == Total(Sizes(es), guarded)
  }

  lemma TablesTwo(es: seq<Entry>, heads: seq<nat>, tails: seq<nat>, bytes: seq<nat>,
                  probation: seq<nat>, guarded: seq<nat>)
    requires TwoLists(es, heads, tails, bytes, probation, guarded)
    ensures |heads| == |tails| == |bytes| == 2
  {
  }

  /** Unlinking entry `i` from the list that holds it, beside a list that does not. */
  lemma UnlinkOne(es: seq<Entry>, i: nat, queue: nat, head: nat, tail: nat, xs: seq<nat>,
                  other: nat, head': nat, tail': nat, ys: seq<nat>)
    requires Linked(es, head, tail, queue, xs) && Linked(es, head', tail', other, ys)
    requires queue != other && queue != ABSENT && other != ABSENT
    requires i < |es| && es[i].queue == queue
    ensures es[i].previous <= |es| && es[i].next <= |es|
    ensures Linked(Spliced(es, i),
                   if es[i].previous != 0 then head else es[i].next,
                   if es[i].next != 0 then tail else es[i].previous, queue, Without(xs, i))
    ensures Linked(Spliced(es, i), head', tail', other, ys) && Without(ys, i) == ys
    ensures Total(Sizes(es), Without(xs, i)) + es[i].record.bytes == Total(Sizes(es), xs)
  {
    assert i in xs by { assert Filing(es, queue, xs, i); }
    assert i !in ys by { assert Filing(es, other, ys, i); }
    var k :| 0 <= k < |xs| && xs[k] == i;
    SplicedEnds(es, head, tail, queue, xs, k);
    hide Linked, Spliced;
    SplicedLinked(es, head, tail, queue, xs, k);
    SplicedOther(es, head, tail, queue, xs, k, head', tail', other, ys);
    TotalWithout(Sizes(es), xs, i);
    WithoutAbsent(ys, i);
  }

  /** Unlinking entry `i` from whichever queue holds it. */
  lemma UnlinkTwo(es: seq<Entry>, heads: seq<nat>, tails: seq<nat>, bytes: seq<nat>,
                  probation: seq<nat>, guarded: seq<nat>, i: nat)
    requires TwoLists(es, heads, tails, bytes, probation, guarded)
    requires i < |es| && (es[i].queue == PROBATION || es[i].queue == PROTECTED)
    ensures es[i].previous <= |es| && es[i].next <= |es|
    ensures var q, e := es[i].queue - 1, es[i];
      && bytes[q] >= e.record.bytes
      && TwoLists(Spliced(es, i),
                  if e.previous != 0 then heads else heads[q := e.next],
                  if e.next != 0 then tails else tails[q := e.previous],
                  bytes[q := bytes[q] - e.record.bytes],
                  Without(probation, i), Without(guarded, i))
  {
    hide Linked, Total, Without, Spliced, Sizes;
    if es[i].queue == PROBATION {
      UnlinkOne(es, i, PROBATION, heads[0], tails[0], probation, PROTECTED, heads[1], tails[1], guarded);
    } else {
      UnlinkOne(es, i, PROTECTED, heads[1], tails[1], guarded, PROBATION, heads[0], tails[0], probation);
    }
    SplicedRecords(es, i);
    SameSizes(es, Spliced(es, i), i);
  }

  /** Appending unfiled entry `i` to queue number `q`. */
  lemma AppendTwo(es: seq<Entry>, heads: seq<nat>, tails: seq<nat>, bytes: seq<nat>,
                  probation: seq<nat>, guarded: seq<nat>, i: nat, q: nat)
    requires TwoLists(es, heads, tails, bytes, probation, guarded)
    requires i < |es| && es[i].queue == ABSENT && q < 2
    ensures tails[q] <= |es|
    ensures TwoLists(Filed(es, i, tails[q], q + 1),
                     if tails[q] != 0 then heads else heads[q := i + 1],
                     tails[q := i + 1],
                     bytes[q := bytes[q] + es[i].record.bytes],
                     if q == 0 then probation + [i] else probation,
                     if q == 1 then guarded + [i] else guarded)
  {
    var xs, ys := if q == 0 then probation else guarded, if q == 0 then guarded else probation;
    FiledLinked(es, heads[q], tails[q], q + 1, xs, i);
    FiledOther(es, heads[q], tails[q], q + 1, xs, i, heads[1 - q], tails[1 - q], 2 - q, ys);
    FiledRecords(es, i, tails[q], q + 1);
    SameSizes(es, Filed(es, i, tails[q], q + 1), i);
    TotalAppend(Sizes(es), xs, [i]);
    hide Linked, Filed;
  }

  lemma {:induction false} WithoutAbsent(xs: seq<nat>, x: nat)
    requires x !in xs
    ensures Without(xs, x) == xs
  {
    if xs != [] {
      WithoutAbsent(xs[1..], x);
    }
  }

  /** Rewriting the contents of an entry in neither queue keeps both queues. */
  lemma RewriteTwo(es: seq<Entry>, heads: seq<nat>, tails: seq<nat>, bytes: seq<nat>,
                   probation: seq<nat>, guarded: seq<nat>, i: nat, e: Entry)
    requires TwoLists(es, heads, tails, bytes, probation, guarded)
    requires i < |es| && e.previous == es[i].previous && e.next == es[i].next && e.queue == es[i].queue
    requires e.record.bytes == es[i].record.bytes || es[i].queue == ABSENT
    ensures TwoLists(es[i := e], heads, tails, bytes, probation, guarded)
  {
    RewriteLinked(es, i, e, heads[0], tails[0], PROBATION, probation);
    RewriteLinked(es, i, e, heads[1], tails[1], PROTECTED, guarded);
    assert es[i].queue == ABSENT ==> i !in probation && i !in guarded by {
      assert Filing(es, PROBATION, probation, i) && Filing(es, PROTECTED, guarded, i);
    }
    TotalAgree(Sizes(es), Sizes(es[i := e]), probation);
    TotalAgree(Sizes(es), Sizes(es[i := e]), guarded);
  }

  /** The head of a nonempty queue is its oldest member; a null head is an empty queue. */
  lemma HeadTwo(es: seq<Entry>, heads: seq<nat>, tails: seq<nat>, bytes: seq<nat>,
                probation: seq<nat>, guarded: seq<nat>, q: nat)
    requires TwoLists(es, heads, tails, bytes, probation, guarded) && q < 2
    ensures var xs := if q == 0 then probation else guarded;
      if heads[q] == 0 then xs == []
      else xs != [] && xs[0] == heads[q] - 1 && heads[q] <= |es| && es[heads[q] - 1].queue == q + 1
  {
    hide Node, Filing, Distinct, Total, Sizes;
    var xs := if q == 0 then probation else guarded;
    if xs != [] {
      Neighbours(es, heads[q], tails[q], q + 1, xs, 0);
    }
  }

  /** The queue field says which list holds an entry. */
  lemma WhereTwo(es: seq<Entry>, heads: seq<nat>, tails: seq<nat>, bytes: seq<nat>,
                 probation: seq<nat>, guarded: seq<nat>, i: nat)
    requires TwoLists(es, heads, tails, bytes, probation, guarded) && i < |es|
    ensures es[i].queue == PROBATION <==> i in probation
    ensures es[i].queue == PROTECTED <==> i in guarded
    ensures es[i].queue == PROTECTED && es[i].next == 0 ==> guarded != [] && guarded[|guarded| - 1] == i
  {
    assert Filing(es, PROBATION, probation, i) && Filing(es, PROTECTED, guarded, i);
    if i in guarded {
      var k :| 0 <= k < |guarded| && guarded[k] == i;
      Neighbours(es, heads[1], tails[1], PROTECTED, guarded, k);
    }
  }
}
