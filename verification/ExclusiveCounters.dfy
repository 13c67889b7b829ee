/**
 Exclusive reads and writes of shared memory. An exclusive read marks its page and its slot as observed
 and returns the slot's generation; a store gives its slot a new generation if both its page and its
 slot were ever observed; an exclusive write stores only if the generation is still the one that was
 read. Cells share slots through a hash, also across pages, so a store elsewhere can make a write fail,
 but never makes a wrong one succeed.
 */
module ExclusiveCounters {
  import opened Options
  import opened Sums
  import opened Words

  /** Where a cell lies: its page, and the slot its granule hashes to. */
  datatype Layout = Layout(page: nat -> nat, slot: nat -> nat)

  /** Cells, the pages and slots ever observed, and the generation of the last store each slot took note of. */
  datatype Memory = Memory(cells: seq<nat>, pages: set<nat>, slots: set<nat>, generations: map<nat, nat>, clock: nat)
  {
    function Generation(slot: nat): nat { if slot in generations then generations[slot] else 0 }

    predicate Sound() { forall s <- generations :: 0 < generations[s] <= clock }

    /** Somebody has read a cell of this page, and one of this slot, exclusively. */
    predicate Watched(l: Layout, cell: nat) { l.page(cell) in pages && l.slot(cell) in slots }

    /** A store; it draws a new generation only where it is watched. */
    function Store(l: Layout, cell: nat, value: nat): (m: Memory)
      requires cell < |cells|
      ensures Sound() ==> m.Sound()
    {
      var stored := this.(cells := cells[cell := value]);
      if Watched(l, cell) then stored.(clock := clock + 1, generations := generations[l.slot(cell) := clock + 1])
      else stored
    }

    function Observe(l: Layout, cell: nat): Memory {
      this.(pages := pages + {l.page(cell)}, slots := slots + {l.slot(cell)})
    }
  }

  function Blank(size: nat): Memory { Memory(seq(size, _ => 0), {}, {}, map[], 0) }

  // ---- the guest memory's operations ----

  class GuestMemory {
    const layout: Layout
    const cells: array<nat>
    var pages: set<nat>
    var slots: set<nat>
    var generations: map<nat, nat>
    var clock: nat
    var conflicts: nat
    var successes: nat

    function Value(): Memory
      reads this, cells
    {
      Memory(cells[..], pages, slots, generations, clock)
    }

    constructor (layout: Layout, size: nat)
      ensures this.layout == layout && fresh(cells) && Value() == Blank(size)
      ensures conflicts == 0 && successes == 0
    {
      this.layout, cells := layout, new nat[size](_ => 0);
      pages, slots, generations, clock, conflicts, successes := {}, {}, map[], 0, 0, 0;
      new;
      assert cells[..] == seq(size, _ => 0);
    }

    method Write(cell: nat, value: nat)
      requires cell < cells.Length
      modifies this`generations, this`clock, cells
      ensures Value() == old(Value()).Store(layout, cell, value)
    {
      cells[cell] := value;
      if layout.page(cell) !in pages {
        return;
      }
      var slot := layout.slot(cell);
      if slot in slots {
        clock := clock + 1;
        generations := generations[slot := clock];
      }
    }

    method ExclusiveRead(cell: nat) returns (value: nat, generation: nat)
      requires cell < cells.Length
      modifies this`pages, this`slots
      ensures Value() == old(Value()).Observe(layout, cell)
      ensures value == Value().cells[cell] && generation == Value().Generation(layout.slot(cell))
    {
      var slot := layout.slot(cell);
      pages, slots := pages + {layout.page(cell)}, slots + {slot};
      value := cells[cell];
      generation := if slot in generations then generations[slot] else 0;
    }

    method ExclusiveWrite(cell: nat, value: nat, expected: nat) returns (stored: bool)
      requires cell < cells.Length
      modifies this, cells
      ensures stored <==> old(Value()).Generation(layout.slot(cell)) == expected
      ensures Value() == if stored then old(Value()).Store(layout, cell, value) else old(Value())
      ensures conflicts == old(conflicts) + (if stored then 0 else 1) && successes == old(successes) + if stored then 1 else 0
    {
      var slot := layout.slot(cell);
      var generation := if slot in generations then generations[slot] else 0;
      if generation != expected {
        conflicts := conflicts + 1;
        return false;
      }
      Write(cell, value);
      successes := successes + 1;
      return true;
    }
  }

  // ---- workers that count ----

  datatype Reservation = Reservation(cell: nat, value: nat, generation: nat)

  /** What others do between a worker's read and its write. */
  datatype Access = Plain(cell: nat, value: nat) | Observing(cell: nat)

  datatype Worker = Worker(done: nat, failures: nat, successes: nat, held: Option<Reservation>)

  /** All cells, the ones that count, and every worker; `hits` says how often each counter was really stored to. */
  datatype State = State(memory: Memory, workers: seq<Worker>, hits: seq<nat>)

  /** How the workers run: so many iterations each, over the first `counters` cells, giving up or retrying after a conflict. */
  datatype Harness = Harness(layout: Layout, cells: nat, counters: nat, threads: nat, iterations: nat, retry: bool)
  {
    predicate Valid() { counters <= cells }

    function Initial(): State {
      State(Blank(cells), seq(threads, _ => Worker(0, 0, 0, None)), seq(counters, _ => 0))
    }

    /** Worker `t` reads a counter exclusively. */
    ghost predicate Reads(s: State, s': State, t: nat, cell: nat)
      requires t < |s.workers| && cell < |s.memory.cells|
    {
      var w := s.workers[t];
      && w.held.None? && w.done < iterations && cell < counters
      && s' == s.(memory := s.memory.Observe(layout, cell),
                  workers := s.workers[t := w.(held := Some(Reservation(cell, s.memory.cells[cell],
                                                                         s.memory.Generation(layout.slot(cell)))))])
    }

    /** Worker `t` writes the counter it holds, one higher; it stores only under the generation it read. */
    ghost predicate Writes(s: State, s': State, t: nat)
      requires t < |s.workers|
    {
      var w := s.workers[t];
      && w.held.Some? && w.held.value.cell < |s.memory.cells| && w.held.value.cell < |s.hits|
      && var r := w.held.value;
         if s.memory.Generation(layout.slot(r.cell)) == r.generation then
           s' == State(s.memory.Store(layout, r.cell, Incremented(r.value)),
                       s.workers[t := w.(done := w.done + 1, successes := w.successes + 1, held := None)],
                       s.hits[r.cell := s.hits[r.cell] + 1])
         else
           s' == s.(workers := s.workers[t := w.(done := if retry then w.done else w.done + 1, failures := w.failures + 1, held := None)])
    }

    /** Somebody else reads any cell exclusively, or stores to one that is no counter but may share a slot with one. */
    ghost predicate Disturbs(s: State, s': State, cell: nat, value: nat)
      requires cell < |s.memory.cells|
    {
      || s' == s.(memory := s.memory.Observe(layout, cell))
      || (cell >= counters && s' == s.(memory := s.memory.Store(layout, cell, value)))
    }

    ghost predicate Next(s: State, s': State) {
      || (exists t: nat, cell: nat :: t < |s.workers| && cell < |s.memory.cells| && Reads(s, s', t, cell))
      || (exists t: nat :: t < |s.workers| && Writes(s, s', t))
      || (exists cell: nat, value: nat :: cell < |s.memory.cells| && Disturbs(s, s', cell, value))
    }

    ghost predicate Run(r: seq<State>) {
      |r| > 0 && r[0] == Initial() && forall i :: 0 < i < |r| ==> Next(r[i - 1], r[i])
    }

    // ---- no lost update ----

    /** A reservation whose generation still stands holds the value the counter still has. */
    ghost predicate Holds(m: Memory, r: Reservation) {
      && r.cell < counters && r.cell < |m.cells| && m.Watched(layout, r.cell) && r.generation <= m.clock
      && (m.Generation(layout.slot(r.cell)) == r.generation ==> m.cells[r.cell] == r.value)
    }

    /** A store never turns a reservation into a wrong one: it ages every reservation of its slot. */
    lemma StoreHolds(m: Memory, r: Reservation, cell: nat, value: nat)
      requires m.Sound() && Holds(m, r) && cell < |m.cells|
      ensures Holds(m.Store(layout, cell, value), r)
    {
    }

    lemma ObserveKeeps(m: Memory, r: Reservation, cell: nat)
      requires m.Sound() && Holds(m, r)
      ensures Holds(m.Observe(layout, cell), r)
    {
    }

    lemma ObserveHolds(m: Memory, cell: nat)
      requires m.Sound() && cell < counters && cell < |m.cells|
      ensures Holds(m.Observe(layout, cell), Reservation(cell, m.cells[cell], m.Generation(layout.slot(cell))))
      ensures m.Observe(layout, cell).Sound()
    {
    }

    ghost predicate Accounted(w: Worker) {
      && w.done <= iterations && (w.held.Some? ==> w.done < iterations)
      && w.done == if retry then w.successes else w.successes + w.failures
    }

    ghost predicate Invariant(s: State) {
      && Valid() && |s.memory.cells| == cells && |s.workers| == threads && |s.hits| == counters && s.memory.Sound()
      && (forall c :: 0 <= c < counters ==> s.memory.cells[c] == s.hits[c] % WORD)
      && (forall t :: 0 <= t < threads ==> Accounted(s.workers[t]))
      && (forall t :: 0 <= t < threads ==> s.workers[t].held.Some? ==> Holds(s.memory, s.workers[t].held.value))
      && Sum(s.hits) == Total(s.workers, true)
    }

    lemma Starts()
      requires Valid()
      ensures Invariant(Initial())
    {
      var s := Initial();
      SumZeros(s.hits);
      NoneYet(s.workers, true);
    }

    lemma KeptByRead(s: State, s': State, t: nat, cell: nat)
      requires Valid() && Invariant(s) && t < |s.workers| && cell < |s.memory.cells| && Reads(s, s', t, cell)
      ensures Invariant(s')
    {
      ObserveHolds(s.memory, cell);
      TotalUpdate(s.workers, t, s'.workers[t], true);
    }

    lemma KeptByWrite(s: State, s': State, t: nat)
      requires Valid() && Invariant(s) && t < |s.workers| && Writes(s, s', t)
      ensures Invariant(s')
    {
      hide Accounted, Holds, Memory.Store, Incremented;
      var w := s.workers[t];
      var r := w.held.value;
      assert Holds(s.memory, r);
      AccountedAfter(w);
      HeldValue(s.memory, r);
      TotalUpdate(s.workers, t, s'.workers[t], true);
      if s.memory.Generation(layout.slot(r.cell)) == r.generation {
        SumUpdate(s.hits, r.cell, s.hits[r.cell] + 1);
        OneMore(s.hits[r.cell]);
        Stored(s.memory, r.cell, Incremented(r.value));
        forall u | 0 <= u < threads && s'.workers[u].held.Some? ensures Holds(s'.memory, s'.workers[u].held.value) {
          StoreHolds(s.memory, s'.workers[u].held.value, r.cell, Incremented(r.value));
        }
      }
    }

    lemma KeptByDisturbance(s: State, s': State, cell: nat, value: nat)
      requires Valid() && Invariant(s) && cell < |s.memory.cells| && Disturbs(s, s', cell, value)
      ensures Invariant(s')
    {
      hide Accounted, Holds, Memory.Store;
      Stored(s.memory, cell, value);
      forall u | 0 <= u < threads && s'.workers[u].held.Some? ensures Holds(s'.memory, s'.workers[u].held.value) {
        StoreHolds(s.memory, s'.workers[u].held.value, cell, value);
        ObserveKeeps(s.memory, s'.workers[u].held.value, cell);
      }
    }

    lemma Stored(m: Memory, cell: nat, value: nat)
      requires m.Sound() && cell < |m.cells|
      ensures m.Store(layout, cell, value).Sound() && m.Store(layout, cell, value).cells == m.cells[cell := value]
    {
    }

    lemma HeldValue(m: Memory, r: Reservation)
      requires Holds(m, r)
      ensures r.cell < counters && r.cell < |m.cells|
      ensures m.Generation(layout.slot(r.cell)) == r.generation ==> m.cells[r.cell] == r.value
    {
    }

    lemma AccountedAfter(w: Worker)
      requires Accounted(w) && w.held.Some?
      ensures Accounted(w.(done := w.done + 1, successes := w.successes + 1, held := None))
      ensures Accounted(w.(done := if retry then w.done else w.done + 1, failures := w.failures + 1, held := None))
    {
    }

    lemma {:induction false} RunInvariant(r: seq<State>, k: nat)
      requires Valid() && Run(r) && k < |r|
      ensures Invariant(r[k])
    {
      hide Invariant, Initial, Reads, Writes, Disturbs;
      if k == 0 {
        Starts();
      } else {
        RunInvariant(r, k - 1);
        var s, s' := r[k - 1], r[k];
        assert Next(s, s');
        if t: nat, cell: nat :| t < |s.workers| && cell < |s.memory.cells| && Reads(s, s', t, cell) {
          KeptByRead(s, s', t, cell);
        } else if t: nat :| t < |s.workers| && Writes(s, s', t) {
          KeptByWrite(s, s', t);
        } else {
          var cell: nat, value: nat :| cell < |s.memory.cells| && Disturbs(s, s', cell, value);
          KeptByDisturbance(s, s', cell, value);
        }
      }
    }

    ghost predicate Finished(s: State) {
      forall t :: 0 <= t < |s.workers| ==> s.workers[t].done == iterations
    }

    /** In every interleaving each counter holds exactly the stores to it, and together they are the successful writes. */
    lemma NoLostUpdate(r: seq<State>, k: nat)
      requires Valid() && Run(r) && k < |r|
      ensures var s := r[k];
        && |s.memory.cells| == cells && |s.hits| == counters
        && (forall c :: 0 <= c < counters ==> s.memory.cells[c] == s.hits[c] % WORD)
        && Sum(s.hits) == Total(s.workers, true)
    {
      RunInvariant(r, k);
    }

    /**
     When all workers are through, what the counters hold and the writes that failed make up all the
     iterations; with retries, the counters alone do.
     */
    lemma FinalCount(r: seq<State>, k: nat)
      requires Valid() && Run(r) && k < |r| && Finished(r[k]) && iterations * threads < WORD
      ensures |r[k].memory.cells| == cells
      ensures var total := Sum(r[k].memory.cells[..counters]);
        if retry then total == iterations * threads else total + Total(r[k].workers, false) == iterations * threads
    {
      hide WORD;
      RunInvariant(r, k);
      var s := r[k];
      if retry {
        AllSuccesses(s.workers, iterations);
      } else {
        AllTries(s.workers, iterations);
      }
      forall c | 0 <= c < counters ensures s.memory.cells[c] == s.hits[c] {
        SumBound(s.hits, c);
        Small(s.hits[c]);
      }
      assert s.memory.cells[..counters] == s.hits;
    }

    // ---- when a write goes through ----

    /** Access `i` is a store that the slot takes note of: from a page somebody had read exclusively by then. */
    ghost predicate Ages(m: Memory, r: Reservation, acts: seq<Access>, i: nat)
      requires i < |acts| && InRange(m, acts)
    {
      acts[i].Plain? && layout.slot(acts[i].cell) == layout.slot(r.cell) && layout.page(acts[i].cell) in After(m, acts[..i]).pages
    }

    predicate InRange(m: Memory, acts: seq<Access>) { forall i :: 0 <= i < |acts| ==> acts[i].cell < |m.cells| }

    function After(m: Memory, acts: seq<Access>): (later: Memory)
      requires InRange(m, acts)
      ensures |later.cells| == |m.cells|
    {
      if acts == [] then m
      else
        var before, last := After(m, acts[..|acts| - 1]), acts[|acts| - 1];
        match last
        case Plain(cell, value) => before.Store(layout, cell, value)
        case Observing(cell) => before.Observe(layout, cell)
    }

    /** A reserved write still goes through exactly if no store since, from a page observed by then, hit its slot. */
    lemma SucceedsExactly(m: Memory, r: Reservation, acts: seq<Access>)
      requires m.Sound() && Holds(m, r) && m.Generation(layout.slot(r.cell)) == r.generation && InRange(m, acts)
      ensures After(m, acts).Generation(layout.slot(r.cell)) == r.generation <==>
        forall i :: 0 <= i < |acts| ==> !Ages(m, r, acts, i)
    {
      AccessesAge(m, r, acts);
    }

    lemma {:induction false} AccessesAge(m: Memory, r: Reservation, acts: seq<Access>)
      requires m.Sound() && Holds(m, r) && m.Generation(layout.slot(r.cell)) == r.generation && InRange(m, acts)
      ensures var later := After(m, acts);
        && later.Sound() && Holds(later, r) && later.Generation(layout.slot(r.cell)) >= r.generation
        && (later.Generation(layout.slot(r.cell)) == r.generation <==> forall i :: 0 <= i < |acts| ==> !Ages(m, r, acts, i))
    {
      if acts != [] {
        var n := |acts| - 1;
        var before := acts[..n];
        AccessesAge(m, r, before);
        forall i | 0 <= i < n ensures Ages(m, r, acts, i) == Ages(m, r, before, i) {
          assert acts[..i] == before[..i];
        }
        LastAges(m, r, acts);
      }
    }

    /** What the last access does to a reservation. */
    lemma LastAges(m: Memory, r: Reservation, acts: seq<Access>)
      requires acts != [] && InRange(m, acts)
      requires var before := After(m, acts[..|acts| - 1]); before.Sound() && Holds(before, r)
      ensures var before, later := After(m, acts[..|acts| - 1]), After(m, acts);
        && later.Sound() && Holds(later, r)
        && if Ages(m, r, acts, |acts| - 1) then later.Generation(layout.slot(r.cell)) > before.clock >= r.generation
           else later.Generation(layout.slot(r.cell)) == before.Generation(layout.slot(r.cell))
    {
      var before, last := After(m, acts[..|acts| - 1]), acts[|acts| - 1];
      match last
      case Plain(cell, value) => StoreHolds(before, r, cell, value);
      case Observing(cell) => ObserveKeeps(before, r, cell);
    }
  }

  /** Every cell on a page of its own, all in one slot. */
  function OneSlot(): Layout { Layout((cell: nat) => cell, (cell: nat) => 0) }

  /** Two cells on different pages that share a slot, of which only the first has ever been read exclusively. */
  lemma UnobservedPageGoesUnnoticed()
    ensures var h := Harness(OneSlot(), 2, 1, 1, 1, false);
      var m, r := Blank(2).Observe(h.layout, 0), Reservation(0, 0, 0);
      && h.Holds(m, r) && h.layout.slot(1) == h.layout.slot(0)
      && m.Store(h.layout, 1, 7).Generation(0) == r.generation
      && m.Observe(h.layout, 1).Store(h.layout, 1, 7).Generation(0) != r.generation
  {
  }

  /** One more, in the width of a counter. */
  function Incremented(v: nat): nat { (v + 1) % WORD }

  // ---- sums ----

  /** All the successes of the workers, or all their failures. */
  function Total(ws: seq<Worker>, successes: bool): nat {
    if ws == [] then 0
    else Total(ws[..|ws| - 1], successes) + if successes then ws[|ws| - 1].successes else ws[|ws| - 1].failures
  }

  lemma {:induction false} NoneYet(ws: seq<Worker>, successes: bool)
    requires forall i :: 0 <= i < |ws| ==> ws[i].successes == ws[i].failures == 0
    ensures Total(ws, successes) == 0
  {
    if ws != [] {
      NoneYet(ws[..|ws| - 1], successes);
    }
  }

  lemma {:induction false} TotalUpdate(ws: seq<Worker>, t: nat, w: Worker, successes: bool)
    requires t < |ws|
    ensures Total(ws[t := w], successes) ==
      Total(ws, successes) - (if successes then ws[t].successes else ws[t].failures) + if successes then w.successes else w.failures
  {
    var us := ws[t := w];
    if t < |ws| - 1 {
      TotalUpdate(ws[..|ws| - 1], t, w, successes);
      assert us[..|ws| - 1] == ws[..|ws| - 1][t := w];
    } else {
      assert us[..|ws| - 1] == ws[..|ws| - 1];
    }
  }

  lemma {:induction false} AllSuccesses(ws: seq<Worker>, n: nat)
    requires forall i :: 0 <= i < |ws| ==> ws[i].successes == n
    ensures Total(ws, true) == n * |ws|
  {
    if ws != [] {
      AllSuccesses(ws[..|ws| - 1], n);
      assert n * |ws| == n * (|ws| - 1) + n;
    }
  }

  lemma {:induction false} AllTries(ws: seq<Worker>, n: nat)
    requires forall i :: 0 <= i < |ws| ==> ws[i].successes + ws[i].failures == n
    ensures Total(ws, true) + Total(ws, false) == n * |ws|
  {
    if ws != [] {
      AllTries(ws[..|ws| - 1], n);
      assert n * |ws| == n * (|ws| - 1) + n;
    }
  }

  lemma OneMore(n: nat)
    ensures Incremented(n % WORD) == (n + 1) % WORD
  {
    var q := n / WORD;
    assert n + 1 == q * WORD + (n % WORD + 1);
  }

  lemma Small(n: nat)
    requires n < WORD
    ensures n % WORD == n
  {
  }
}
