/**
 The owner of a chain run: guest timers that are charged for retired instructions and answer how many
 more may run before the nearest deadline. Two timers share one 64-bit counter that advances by a
 fixed number of cycles per instruction, or follows a host clock that is read every 1024 instructions.
 */
module ServiceTimer {
  import opened Words
  import opened GuestGraph
  import opened BoundedChain
  import opened Sums
  import opened ChainReference

  const MAX_ALLOWANCE: nat := WORD - 1
  const REFRESH: nat := 1024

  datatype Timer = Timer(control: nat, compare: nat)
  {
    /** Enabled and not masked. */
    predicate Armed() { control % 4 == 1 }

    predicate Asserted(counter: nat) { Armed() && counter >= compare }
  }

  datatype Timers = Timers(counter: nat, cycles: nat, physical: Timer, virtual: Timer, pending: bool, hosted: bool, refresh: nat)
  {
    predicate Wide() {
      counter < WORD && cycles < WORD && physical.compare < WORD && virtual.compare < WORD && refresh < REFRESH
    }

    /** Charge `count` instructions; `host` is what the host clock reads, should it be asked. */
    function Advance(count: nat, host: nat): Timers {
      if !hosted then this.(counter := (counter + count * cycles) % WORD)
      else if refresh + count >= REFRESH then this.(counter := host, refresh := 0)
      else this.(refresh := refresh + count)
    }

    predicate Interrupts() {
      pending || physical.Asserted(counter) || virtual.Asserted(counter)
    }

    /** An armed timer reaches its compare value within `k` more instructions, were the counter unbounded. */
    predicate Due(k: nat) {
      || (physical.Armed() && counter + k * cycles >= physical.compare)
      || (virtual.Armed() && counter + k * cycles >= virtual.compare)
    }

    /** The timers bound the next run: somebody listens, time passes by instructions, and a deadline is set. */
    predicate Counting(masked: bool) {
      !masked && !hosted && cycles > 0 && (physical.Armed() || virtual.Armed())
    }

    /** The instructions one timer allows, by ceiling division. */
    function Distance(timer: Timer): nat
      requires cycles > 0
    {
      if !timer.Armed() then MAX_ALLOWANCE
      else if timer.compare <= counter then 0
      else (timer.compare - counter) / cycles + if (timer.compare - counter) % cycles != 0 then 1 else 0
    }

    function Allowance(masked: bool): nat {
      if masked || hosted || cycles == 0 then MAX_ALLOWANCE
      else Min(Distance(physical), Distance(virtual))
    }

    function Decide(masked: bool): Decision {
      if !masked && Interrupts() then Decision(0, Irq) else Decision(Allowance(masked), Continue)
    }

    /** As a bounded run asks: never past the next host clock reading. */
    function DecideBounded(masked: bool): Decision {
      var d := Decide(masked);
      if !hosted || d.action != Continue then d
      else Decision(Min(d.nextSteps, if refresh < REFRESH then REFRESH - refresh else 1), Continue)
    }
  }

  /** A timer that is enabled and not masked, whose compare value the counter has reached. */
  predicate Reached(timer: Timer, counter: nat) { timer.control % 4 == 1 && counter >= timer.compare }

  // ---- the owner's two service calls ----

  class TimerOwner {
    var counter: nat
    const cycles: nat
    const timers: seq<Timer>
    var pending: bool
    const hosted: bool
    var refresh: nat

    ghost predicate Valid()
      reads this
    {
      |timers| == 2 && State().Wide()
    }

    function State(): Timers
      requires |timers| == 2
      reads this
    {
      Timers(counter, cycles, timers[0], timers[1], pending, hosted, refresh)
    }

    constructor (t: Timers)
      requires t.Wide()
      ensures Valid() && State() == t
    {
      counter, cycles, timers, pending := t.counter, t.cycles, [t.physical, t.virtual], t.pending;
      hosted, refresh := t.hosted, t.refresh;
    }

    method AdvanceTime(count: nat, masked: bool, host: nat) returns (irq: bool)
      requires Valid() && host < WORD
      modifies this
      ensures Valid() && State() == old(State()).Advance(count, host)
      ensures !hosted ==> counter == (old(counter) + count * cycles) % WORD && refresh == old(refresh)
      ensures hosted && old(refresh) + count >= 1024 ==> counter == host && refresh == 0
      ensures hosted && old(refresh) + count < 1024 ==> counter == old(counter) && refresh == old(refresh) + count
      ensures pending == old(pending)
      ensures irq <==> !masked && State().Interrupts()
      ensures irq <==> !masked && (pending || Reached(timers[0], counter) || Reached(timers[1], counter))
    {
      hide WORD;
      if hosted {
        refresh := refresh + count;
        if refresh >= REFRESH {
          counter, refresh := host, 0;
        }
      } else {
        counter := (counter + count * cycles) % WORD;
      }
      irq := !masked && (pending || timers[0].Asserted(counter) || timers[1].Asserted(counter));
    }

    /** Charge a retired prefix and answer with the exact number of instructions to the nearest deadline. */
    method Serve(delta: nat, masked: bool, host: nat) returns (d: Decision)
      requires Valid() && host < WORD
      modifies this
      ensures Valid() && State() == old(State()).Advance(delta, host)
      ensures !hosted ==> counter == (old(counter) + delta * cycles) % WORD && refresh == old(refresh)
      ensures hosted && old(refresh) + delta >= 1024 ==> counter == host && refresh == 0
      ensures hosted && old(refresh) + delta < 1024 ==> counter == old(counter) && refresh == old(refresh) + delta
      ensures pending == old(pending)
      ensures d == State().Decide(masked)
      ensures d.action == (if !masked && (pending || Reached(timers[0], counter) || Reached(timers[1], counter))
                           then Irq else Continue)
      ensures d.action == Irq ==> d.nextSteps == 0
      ensures d.action != Irq && (masked || hosted || cycles == 0) ==> d.nextSteps == WORD - 1
    {
      hide WORD;
      var irq := AdvanceTime(delta, masked, host);
      var allowance := MAX_ALLOWANCE;
      if !irq && !masked && !hosted && cycles > 0 {
        for i := 0 to 2
          invariant Valid() && !State().Interrupts() && State() == old(State()).Advance(delta, host)
          invariant allowance == if i == 0 then MAX_ALLOWANCE
                                 else if i == 1 then Min(MAX_ALLOWANCE, State().Distance(timers[0]))
                                 else Min(Min(MAX_ALLOWANCE, State().Distance(timers[0])), State().Distance(timers[1]))
        {
          // A compare value already reached has interrupted above.
          if timers[i].Armed() {
            var distance := timers[i].compare - counter;
            allowance := Min(allowance, distance / cycles + if distance % cycles != 0 then 1 else 0);
          }
        }
        DistanceBound(State(), timers[0]);
        DistanceBound(State(), timers[1]);
      }
      d := Decision(if irq then 0 else allowance, if irq then Irq else Continue);
    }

    method ServeBounded(delta: nat, masked: bool, host: nat) returns (d: Decision)
      requires Valid() && host < WORD
      modifies this
      ensures Valid() && State() == old(State()).Advance(delta, host)
      ensures !hosted ==> counter == (old(counter) + delta * cycles) % WORD && refresh == old(refresh)
      ensures hosted && old(refresh) + delta >= 1024 ==> counter == host && refresh == 0
      ensures hosted && old(refresh) + delta < 1024 ==> counter == old(counter) && refresh == old(refresh) + delta
      ensures pending == old(pending)
      ensures d == State().DecideBounded(masked)
      ensures d.action == (if !masked && (pending || Reached(timers[0], counter) || Reached(timers[1], counter))
                           then Irq else Continue)
      ensures hosted && d.action == Continue ==> d.nextSteps == 1024 - refresh
      ensures !hosted || d.action == Irq ==> d == State().Decide(masked)
    {
      d := Serve(delta, masked, host);
      if hosted && d.action == Continue {
        var remaining := if refresh < REFRESH then REFRESH - refresh else 1;
        if remaining < d.nextSteps {
          d := d.(nextSteps := remaining);
        }
      }
    }
  }

  // ---- ceilings ----

  lemma Times(a: nat, b: nat, c: nat)
    requires a <= b
    ensures a * c <= b * c
  {
    assert b * c - a * c == (b - a) * c;
  }

  /** Ceiling division answers with the least number of whole steps that covers a distance. */
  lemma Ceiling(distance: nat, cycles: nat, k: nat)
    requires cycles > 0
    ensures k * cycles >= distance <==> k >= distance / cycles + if distance % cycles != 0 then 1 else 0
  {
    var q, r := distance / cycles, distance % cycles;
    assert distance == q * cycles + r && r < cycles;
    assert (q + 1) * cycles == q * cycles + cycles;
    if k < q {
      Times(k + 1, q, cycles);
      assert (k + 1) * cycles == k * cycles + cycles;
    } else if k > q {
      Times(q + 1, k, cycles);
    }
  }

  lemma DistanceBound(t: Timers, timer: Timer)
    requires t.cycles > 0 && timer.compare < WORD
    ensures t.Distance(timer) <= MAX_ALLOWANCE
  {
    hide WORD;
    if timer.Armed() && timer.compare > t.counter {
      var distance := timer.compare - t.counter;
      Times(1, t.cycles, distance);
      Ceiling(distance, t.cycles, distance);
    }
  }

  /** The allowance is the least number of instructions after which a deadline is due. */
  lemma AllowanceExact(t: Timers, k: nat)
    requires t.Wide() && t.Counting(false)
    ensures t.Due(k) <==> k >= t.Allowance(false)
  {
    hide WORD;
    if t.physical.Armed() {
      OneTimer(t, t.physical, k);
      DistanceBound(t, t.physical);
    }
    if t.virtual.Armed() {
      OneTimer(t, t.virtual, k);
      DistanceBound(t, t.virtual);
    }
  }

  lemma OneTimer(t: Timers, timer: Timer, k: nat)
    requires t.cycles > 0 && timer.Armed()
    ensures t.counter + k * t.cycles >= timer.compare <==> k >= t.Distance(timer)
  {
    if timer.compare > t.counter {
      Ceiling(timer.compare - t.counter, t.cycles, k);
    }
  }

  // ---- a run up to its deadline ----

  /** Charging in pieces charges the whole. */
  function Charged(t: Timers, deltas: seq<nat>): Timers
    decreases |deltas|
  {
    if deltas == [] then t else Charged(t.Advance(deltas[0], 0), deltas[1..])
  }

  lemma WrapTwice(counter: nat, a: nat, b: nat)
    ensures ((counter + a) % WORD + b) % WORD == (counter + a + b) % WORD
  {
    var q := (counter + a) / WORD;
    assert counter + a == q * WORD + (counter + a) % WORD;
  }

  lemma {:induction false} ChargedWhole(t: Timers, deltas: seq<nat>)
    requires !t.hosted && t.counter < WORD
    ensures Charged(t, deltas) == t.Advance(Sum(deltas), 0)
    decreases |deltas|
  {
    hide WORD, Timers.Advance;
    if deltas == [] {
      Exact(t, 0);
    } else {
      var rest := Sum(deltas[1..]);
      AdvanceTwice(t, deltas[0], rest);
      ChargedWhole(t.Advance(deltas[0], 0), deltas[1..]);
    }
  }

  lemma AdvanceTwice(t: Timers, a: nat, b: nat)
    requires !t.hosted
    ensures t.Advance(a, 0).Advance(b, 0) == t.Advance(a + b, 0)
    ensures !t.Advance(a, 0).hosted && t.Advance(a, 0).counter < WORD
  {
    WrapTwice(t.counter, a * t.cycles, b * t.cycles);
    assert a * t.cycles + b * t.cycles == (a + b) * t.cycles;
  }

  /** Short of the top of the counter, charging is plain addition. */
  lemma Exact(t: Timers, k: nat)
    requires !t.hosted && t.counter + k * t.cycles < WORD
    ensures t.Advance(k, 0) == t.(counter := t.counter + k * t.cycles)
  {
  }

  predicate Watching(t: Timers) { t.Wide() && t.Counting(false) && !t.Interrupts() }

  /** The counter reaches the deadline before it wraps around. */
  predicate Reachable(t: Timers)
    requires t.cycles > 0
  {
    t.counter + t.Allowance(false) * t.cycles < WORD
  }

  /** What is due, and what interrupts, at a counter that has not wrapped. */
  lemma InterruptsWhenDue(t: Timers, k: nat)
    requires Watching(t) && t.counter + k * t.cycles < WORD
    ensures t.Advance(k, 0).Interrupts() <==> t.Due(k)
  {
    hide WORD, Timers.Advance;
    Exact(t, k);
  }

  /** Before the deadline nothing interrupts, the counter is exact, and the allowance is what is left of the first one. */
  lemma BeforeDeadline(t: Timers, k: nat)
    requires Watching(t) && k < t.Allowance(false)
    ensures t.Advance(k, 0).counter == t.counter + k * t.cycles < WORD
    ensures !t.Advance(k, 0).Interrupts() && t.Advance(k, 0).Allowance(false) == t.Allowance(false) - k
  {
    hide WORD, Timers.Advance, Timers.Allowance, Timers.Interrupts;
    AllowanceExact(t, k);
    Exact(t, k);
    InterruptsWhenDue(t, k);
    LaterDue(t, k, t.Allowance(false) - k);
    LaterDue(t, k, t.Advance(k, 0).Allowance(false));
  }

  lemma LaterDue(t: Timers, k: nat, more: nat)
    requires Watching(t) && t.counter + k * t.cycles < WORD
    ensures more >= t.Advance(k, 0).Allowance(false) <==> k + more >= t.Allowance(false)
  {
    hide WORD, Timers.Advance, Timers.Allowance, Timers.Interrupts;
    Exact(t, k);
    AllowanceExact(t, k + more);
    AllowanceExact(t.Advance(k, 0), more);
    SumTimes(k, more, t.cycles);
  }

  lemma SumTimes(a: nat, b: nat, c: nat)
    ensures a * c + b * c == (a + b) * c
  {
  }

  /** At the deadline the interrupt is up exactly when the counter has not wrapped on the way. */
  lemma AtDeadline(t: Timers)
    requires Watching(t)
    ensures t.Allowance(false) > 0
    ensures t.Advance(t.Allowance(false), 0).Interrupts() <==> Reachable(t)
  {
    hide WORD, Timers.Advance, Timers.Allowance, Timers.Interrupts;
    var n := t.Allowance(false);
    AllowanceExact(t, 0);
    DueNow(t);
    AllowanceExact(t, n);
    if Reachable(t) {
      InterruptsWhenDue(t, n);
    } else {
      AllowanceExact(t, n - 1);
      SumTimes(n - 1, 1, t.cycles);
      Wrapped(t, n);
    }
  }

  lemma DueNow(t: Timers)
    requires Watching(t)
    ensures !t.Due(0)
  {
  }

  /** One step over the top of the counter: it ends below every compare value that was still ahead. */
  lemma Wrapped(t: Timers, n: nat)
    requires Watching(t) && n > 0 && !t.Due(n - 1) && t.counter + n * t.cycles >= WORD
    requires n * t.cycles == (n - 1) * t.cycles + t.cycles
    ensures !t.Advance(n, 0).Interrupts()
  {
    var last := t.counter + (n - 1) * t.cycles;
    assert last < WORD;
    assert t.Advance(n, 0).counter == last + t.cycles - WORD < last;
  }

  /** A compare value next to the top of the counter: the counter steps over it and wraps, and no interrupt comes. */
  lemma DeadlineSteppedOver()
    ensures var t := Timers(WORD - 2, 2, Timer(1, WORD - 1), Timer(0, 0), false, false, 0);
      && Watching(t) && t.Decide(false) == Decision(1, Continue)
      && t.Advance(1, 0).counter == 0 && !t.Advance(1, 0).Interrupts()
      && t.Advance(1, 0).Decide(false).nextSteps > 1
  {
    var t := Timers(WORD - 2, 2, Timer(1, WORD - 1), Timer(0, 0), false, false, 0);
    assert t.Due(1);
    AllowanceExact(t, 1);
    assert !t.Due(0);
    AllowanceExact(t, 0);
    var later := t.Advance(1, 0);
    assert !later.Due(1);
    AllowanceExact(later, 1);
  }

  /** What a chain run plans from a deadline: the allowance, then an interrupt. */
  function PlanOf(t: Timers): Plan { Plan(t.Allowance(false), Service(Decision(0, Irq), true, false)) }

  /** The timers as the owner of a chain run. */
  function Watch(t: Timers): Answers {
    (call: nat, steps: nat) => Service(t.Advance(steps, 0).Decide(false), true, false)
  }

  lemma WatchesSteadily(t: Timers)
    requires Watching(t) && Reachable(t)
    ensures Steady(Watch(t), PlanOf(t))
  {
    hide Timers.Advance, Timers.Interrupts, Timers.Allowance;
    AtDeadline(t);
    forall steps: nat | steps <= PlanOf(t).cap
      ensures Service(t.Advance(steps, 0).Decide(false), true, false) == PlanOf(t).Answer(steps)
    {
      if steps < PlanOf(t).cap {
        BeforeDeadline(t, steps);
      }
    }
  }

  /**
   A run under timers, through either runner: it never passes the deadline, the counter ends at start
   plus steps times cycles, an interrupt is up exactly at the deadline, and the deadline is what stops
   the run whenever no other limit is met first.
   */
  method RunTimed(l: Limits, script: Script, world: World, t: Timers)
      returns (r: Result, cpu: Cpu, later: Timers, charges: seq<nat>)
    requires script.Ready() && script.Lives(0) && Quiet(world) && l.Positive() && Watching(t) && Reachable(t)
    ensures cpu == script.At(r.steps) && r.visits == script.Visits(r.steps) && r.steps <= t.Allowance(false)
    ensures Charged(t, r.charges) == Charged(t, charges) == later && later.counter == t.counter + r.steps * t.cycles
    ensures |charges| == r.visits + 1
    ensures later.Interrupts() <==> r.steps == t.Allowance(false)
    ensures forall k :: 0 <= k < r.steps ==> !t.Due(k)
    ensures later.Interrupts() ==> t.Due(r.steps) && r.stop == ByCallback && r.action == Irq
    ensures Allows(Scene(script, world, l.StepLimit(), l.VisitLimit()), t.Allowance(false)) ==> later.Interrupts()
  {
    hide Admissible, Script.At, Script.Begins, Script.Visits, MemberAt, Scene.FirstHalt, Scene.ExitAt, Scene.Asked,
         Scene.Counted, Scene.Irrevocable, Quiet, Steady, Sum, WORD, Timers.Allowance, Timers.Interrupts, Timers.Advance,
         Watch, Charged, Timers.Due, Allows;
    var plan := PlanOf(t);
    WatchesSteadily(t);
    AtDeadline(t);
    r, cpu, charges := RunPlanned(l, script, world, Watch(t), plan);
    later := t.Advance(r.steps, 0);
    ChargedWhole(t, r.charges);
    ChargedWhole(t, charges);
    if r.steps < t.Allowance(false) {
      BeforeDeadline(t, r.steps);
    } else {
      Exact(t, r.steps);
    }
    AllowanceExact(t, r.steps);
    forall k | 0 <= k < r.steps ensures !t.Due(k) {
      AllowanceExact(t, k);
    }
  }

  /** Both runners under one plan. */
  method RunPlanned(l: Limits, script: Script, world: World, answers: Answers, plan: Plan)
      returns (r: Result, cpu: Cpu, charges: seq<nat>)
    requires script.Ready() && script.Lives(0) && Quiet(world) && l.Positive() && Steady(answers, plan)
    requires plan.end == Service(Decision(0, Irq), true, false)
    ensures cpu == script.At(r.steps) && r.visits == script.Visits(r.steps) && r.steps <= plan.cap
    ensures Sum(r.charges) == Sum(charges) == r.steps && |charges| == r.visits + 1
    ensures r.steps == plan.cap ==> r.stop == ByCallback && r.action == Irq
    ensures Allows(Scene(script, world, l.StepLimit(), l.VisitLimit()), plan.cap) ==> r.steps == plan.cap
  {
    hide Admissible, Script.At, Script.Begins, Script.Visits, MemberAt, Scene.FirstHalt, Scene.ExitAt, Scene.Asked,
         Scene.Counted, Scene.Irrevocable, Quiet, Sum;
    var serviced, servicedCpu;
    r, cpu, serviced, servicedCpu := CompareRunners(l, script, world, answers, plan);
    charges := serviced.charges;
    PlannedStop(l, script, world, plan, r);
  }

  /** Where a run under a plan that ends in an interrupt stops. */
  lemma PlannedStop(l: Limits, script: Script, world: World, plan: Plan, r: Result)
    requires script.Ready() && Quiet(world) && AsBounded(l, script, world, plan, r)
    requires plan.end == Service(Decision(0, Irq), true, false)
    ensures r.steps <= plan.cap && r.visits == script.Visits(r.steps)
    ensures r.steps == plan.cap ==> r.stop == ByCallback
    ensures Allows(Scene(script, world, l.StepLimit(), l.VisitLimit()), plan.cap) ==> r.steps == plan.cap
  {
    hide Admissible, Script.At, Script.Begins, Script.Visits, MemberAt, Scene.FirstHalt, Scene.ExitAt, Scene.Counted,
         Scene.Irrevocable, Quiet, LastWas;
    var scene := Scene(script, world, Min(plan.cap, l.StepLimit()), l.VisitLimit());
    QuietRun(scene, r.steps);
    QuietExit(scene, r.steps);
    if Allows(Scene(script, world, l.StepLimit(), l.VisitLimit()), plan.cap) {
      QuietRun(scene, plan.cap);
      scene.FirstHaltUnique(plan.cap, r.steps);
    }
  }

  // ---- whatever else happens meanwhile ----

  /** Every question a run may ask its owner is answered by the timers; validity and events are anybody's. */
  ghost predicate TimersAnswer(t: Timers, world: World, owner: Owner) {
    && owner.initial.decision == t.Decide(false)
    && forall n: nat ::
      && owner.final(n).decision == t.Advance(n, 0).Decide(false)
      && (world.paths(n).Slow? ==> world.paths(n).before.decision == t.Advance(n, 0).Decide(false))
  }

  /** What the timers say after a run that has not passed their deadline. */
  ghost predicate OnTime(t: Timers, steps: nat, later: Timers)
    requires Watching(t)
  {
    && steps <= t.Allowance(false) && later.counter == t.counter + steps * t.cycles
    && (later.Interrupts() <==> steps == t.Allowance(false))
    && (forall k :: 0 <= k < steps ==> !t.Due(k)) && (t.Due(steps) <==> steps == t.Allowance(false))
  }

  lemma ChargedOnTime(t: Timers, charges: seq<nat>, steps: nat)
    requires Watching(t) && Reachable(t) && Sum(charges) == steps <= t.Allowance(false)
    ensures OnTime(t, steps, Charged(t, charges)) && Charged(t, charges) == t.Advance(steps, 0)
  {
    hide WORD, Timers.Allowance, Timers.Interrupts, Timers.Advance, Charged, Timers.Due;
    AtDeadline(t);
    ChargedWhole(t, charges);
    if steps < t.Allowance(false) {
      BeforeDeadline(t, steps);
    } else {
      Exact(t, steps);
    }
    forall k: nat | k <= steps ensures t.Due(k) <==> k == t.Allowance(false) {
      AllowanceExact(t, k);
    }
  }

  /**
   In every world, disturbed as it may be, a bounded run owned by the timers is on time: it never
   passes the deadline, the counter is exact, and the interrupt is up, and reported, exactly at it.
   */
  method RunTimedAnywhere(l: Limits, script: Script, world: World, owner: Owner, prepared: bool, active: bool, halted: bool, ghost t: Timers)
      returns (r: Result, cpu: Cpu)
    requires script.Ready() && Watching(t) && Reachable(t) && TimersAnswer(t, world, owner)
    ensures cpu == script.At(r.steps) && OnTime(t, r.steps, Charged(t, r.charges))
    ensures r.action == Irq <==> r.steps == t.Allowance(false)
  {
    hide Admissible, Script.At, Script.Begins, Script.Visits, MemberAt, Scene.FirstHalt, Scene.ExitAt, Scene.Asked,
         Scene.Counted, Scene.Irrevocable, Sum, WORD, Timers.Allowance, Timers.Interrupts, Timers.Advance, Charged,
         OnTime, LastWas, FinalStop, TimersAnswer, Timers.Decide, FinalAction, Retires, ReasonExplained, BooksExplained;
    r, cpu := RunBounded(l, script, world, owner, prepared, active, halted);
    FirstAnswer(t, world, owner);
    if Entered(l, script, owner, prepared, active, halted) {
      var scene := Staged(l, script, world, owner);
      scene.HaltedWithin(r.steps);
      ActionOnTime(t, scene, owner, r.steps);
    }
    ChargedOnTime(t, r.charges, r.steps);
  }

  /** Before it is charged the owner goes on, with the whole allowance. */
  lemma FirstAnswer(t: Timers, world: World, owner: Owner)
    requires Watching(t) && TimersAnswer(t, world, owner)
    ensures owner.initial.decision == Decision(t.Allowance(false), Continue) && t.Allowance(false) > 0
  {
    AtDeadline(t);
  }

  /** The last action is an interrupt exactly at the deadline, even when an earlier veto is what stands. */
  lemma ActionOnTime(t: Timers, scene: Scene, owner: Owner, n: nat)
    requires scene.Ready() && Watching(t) && Reachable(t) && TimersAnswer(t, scene.world, owner) && n <= t.Allowance(false)
    requires scene.budget <= t.Allowance(false) && scene.FirstHalt(n)
    ensures FinalAction(scene, owner, n) == Irq <==> n == t.Allowance(false)
  {
    hide WORD, Timers.Allowance, Timers.Interrupts, Timers.Advance, Script.At, Script.Visits, Script.Begins, Scene.FirstHalt;
    AtDeadline(t);
    if n < t.Allowance(false) {
      BeforeDeadline(t, n);
    }
    if scene.ExitAt(n).Vetoed? {
      VetoAt(scene, n);
    }
  }

  lemma VetoAt(scene: Scene, n: nat)
    requires scene.Ready() && scene.ExitAt(n).Vetoed?
    ensures scene.world.paths(n).Slow? && scene.ExitAt(n).action == scene.world.paths(n).before.decision.action
  {
  }

  /** The runner that calls its owner between visits is on time as well, in every world. */
  method ServeTimedAnywhere(l: Limits, script: Script, world: World, answers: Answers, entryValid: bool, active: bool, halted: bool, ghost t: Timers)
      returns (r: Result, cpu: Cpu)
    requires script.Ready() && Watching(t) && Reachable(t)
    requires forall call: nat, steps: nat :: answers(call, steps).decision == t.Advance(steps, 0).Decide(false)
    ensures cpu == script.At(r.steps) && OnTime(t, r.steps, Charged(t, r.charges))
    ensures r.action == Irq <==> r.steps == t.Allowance(false)
  {
    hide Admissible, Script.At, Script.Begins, Script.Visits, MemberAt, Sum, WORD, Timers.Allowance, Timers.Interrupts,
         Timers.Advance, Charged, OnTime, Between, AsBounded, Served, Timers.Decide;
    ghost var calls;
    r, cpu, calls := RunServiced(l, script, world, answers, entryValid, active, halted);
    AtDeadline(t);
    if l.Positive() && !active && !halted && entryValid {
      ServedSome(l, script, world, answers, calls);
      CallsWithin(l, script, world, answers, calls, t, |calls| - 1);
      AnswerOnTime(t, r.steps);
    }
    ChargedOnTime(t, r.charges, r.steps);
  }

  lemma AnswerOnTime(t: Timers, n: nat)
    requires Watching(t) && Reachable(t) && n <= t.Allowance(false)
    ensures t.Advance(n, 0).Decide(false).action == Irq <==> n == t.Allowance(false)
    ensures n < t.Allowance(false) ==> t.Advance(n, 0).Decide(false) == Decision(t.Allowance(false) - n, Continue)
  {
    hide WORD, Timers.Allowance, Timers.Interrupts, Timers.Advance;
    AtDeadline(t);
    if n < t.Allowance(false) {
      BeforeDeadline(t, n);
    }
  }

  /** No visit of a serviced run passes the deadline. */
  lemma {:induction false} CallsWithin(l: Limits, script: Script, world: World, answers: Answers, calls: seq<Call>, t: Timers, i: nat)
    requires script.Ready() && Watching(t) && Reachable(t) && i < |calls| && Served(l, script, world, answers, calls)
    requires forall call: nat, steps: nat :: answers(call, steps).decision == t.Advance(steps, 0).Decide(false)
    ensures calls[i].steps <= t.Allowance(false)
  {
    hide WORD, Timers.Allowance, Timers.Interrupts, Timers.Advance, Timers.Decide, Admissible, Script.At, MemberAt,
         LeftAt, EndsAt, FaultsAt;
    if i > 0 {
      CallsWithin(l, script, world, answers, calls, t, i - 1);
      var p, c := calls[i - 1], calls[i];
      assert VisitBetween(l, script, world, answers, i - 1, p, c);
      AnswerOnTime(t, p.steps);
    }
  }

  // ---- the host clock ----

  /** The timers after a run of batches; `clock` is what the host clock reads as each of them is charged. */
  function After(t: Timers, deltas: seq<nat>, clock: seq<nat>): Timers
    requires |deltas| == |clock|
    decreases |deltas|
  {
    if deltas == [] then t else After(t.Advance(deltas[0], clock[0]), deltas[1..], clock[1..])
  }

  /** A run of bounded batches, each within the allowance the one before it was given. */
  ghost predicate Obeys(t: Timers, deltas: seq<nat>, clock: seq<nat>)
    requires |deltas| == |clock|
    decreases |deltas|
  {
    deltas == [] ||
    (deltas[0] <= t.DecideBounded(false).nextSteps && !t.Interrupts()
     && Obeys(t.Advance(deltas[0], clock[0]), deltas[1..], clock[1..]))
  }

  /** How often such a run reads the host clock. */
  function Readings(t: Timers, deltas: seq<nat>, clock: seq<nat>): nat
    requires |deltas| == |clock|
    decreases |deltas|
  {
    if deltas == [] then 0
    else (if t.refresh + deltas[0] >= REFRESH then 1 else 0) + Readings(t.Advance(deltas[0], clock[0]), deltas[1..], clock[1..])
  }

  /** Whether the charge of batch `i` reads the host clock. */
  predicate ReadsAt(t: Timers, deltas: seq<nat>, clock: seq<nat>, i: nat)
    requires |deltas| == |clock| && i < |deltas|
    decreases |deltas|
  {
    if i == 0 then t.refresh + deltas[0] >= REFRESH
    else ReadsAt(t.Advance(deltas[0], clock[0]), deltas[1..], clock[1..], i - 1)
  }

  /** With batch `i` the instructions charged so far reach a multiple of 1024. */
  ghost predicate Crosses(t: Timers, deltas: seq<nat>, i: nat)
    requires i < |deltas|
  {
    deltas[i] > 0 && (t.refresh + Sum(deltas[..i + 1])) % 1024 == 0
  }

  /** No batch goes past the next multiple of 1024. */
  ghost predicate Windowed(t: Timers, deltas: seq<nat>) {
    forall i :: 0 <= i < |deltas| ==> InWindow(t, deltas, i)
  }

  ghost predicate InWindow(t: Timers, deltas: seq<nat>, i: nat)
    requires i < |deltas|
  {
    (t.refresh + Sum(deltas[..i])) % 1024 + deltas[i] <= 1024
  }

  /** However long the batches are, the clock is read where the instructions charged so far reach a multiple of 1024, and nowhere else. */
  lemma {:induction false} HostReadingPlaces(t: Timers, deltas: seq<nat>, clock: seq<nat>, i: nat)
    requires t.hosted && t.refresh < REFRESH && |deltas| == |clock| && Obeys(t, deltas, clock) && i < |deltas|
    ensures ReadsAt(t, deltas, clock, i) <==> deltas[i] > 0 && (t.refresh + Sum(deltas[..i + 1])) % REFRESH == 0
    decreases |deltas|
  {
    hide WORD;
    assert t.refresh + deltas[0] <= REFRESH;
    assert deltas[..i + 1][0] == deltas[0] && deltas[..i + 1][1..] == deltas[1..][..i];
    if i == 0 {
      assert Sum(deltas[..1]) == deltas[0] + Sum([]);
    } else {
      HostReadingPlaces(t.Advance(deltas[0], clock[0]), deltas[1..], clock[1..], i - 1);
    }
  }

  /** In all, the clock is read once for every 1024 instructions. */
  lemma {:induction false} HostReadings(t: Timers, deltas: seq<nat>, clock: seq<nat>)
    requires t.hosted && t.refresh < REFRESH && |deltas| == |clock| && Obeys(t, deltas, clock)
    decreases |deltas|
    ensures Readings(t, deltas, clock) == (t.refresh + Sum(deltas)) / REFRESH
  {
    hide WORD;
    if deltas != [] {
      var next := t.Advance(deltas[0], clock[0]);
      assert t.refresh + deltas[0] <= REFRESH;
      HostReadings(next, deltas[1..], clock[1..]);
    }
  }

  /** Whoever keeps to the allowances never charges past a multiple of 1024. */
  lemma {:induction false} ObeysWindowed(t: Timers, deltas: seq<nat>, clock: seq<nat>)
    requires t.hosted && t.refresh < 1024 && |deltas| == |clock| && Obeys(t, deltas, clock)
    ensures Windowed(t, deltas)
    decreases |deltas|
  {
    hide WORD;
    if deltas != [] {
      assert t.refresh + deltas[0] <= 1024;
      var next := t.Advance(deltas[0], clock[0]);
      ObeysWindowed(next, deltas[1..], clock[1..]);
      forall i | 0 <= i < |deltas| ensures InWindow(t, deltas, i) {
        if i > 0 {
          assert deltas[..i][0] == deltas[0] && deltas[..i][1..] == deltas[1..][..i - 1];
          assert InWindow(next, deltas[1..], i - 1);
          Window(t.refresh + deltas[0], Sum(deltas[1..][..i - 1]));
        }
      }
    }
  }

  lemma Window(a: nat, b: nat)
    requires a <= 1024
    ensures ((if a >= 1024 then 0 else a) + b) % 1024 == (a + b) % 1024
  {
  }

  lemma {:induction false} AfterSnoc(t: Timers, deltas: seq<nat>, clock: seq<nat>, delta: nat, reading: nat)
    requires |deltas| == |clock|
    ensures After(t, deltas + [delta], clock + [reading]) == After(t, deltas, clock).Advance(delta, reading)
    decreases |deltas|
  {
    hide WORD, Timers.Advance;
    if deltas == [] {
      assert deltas + [delta] == [delta] && clock + [reading] == [reading];
    } else {
      AfterSnoc(t.Advance(deltas[0], clock[0]), deltas[1..], clock[1..], delta, reading);
      assert (deltas + [delta])[1..] == deltas[1..] + [delta] && (clock + [reading])[1..] == clock[1..] + [reading];
    }
  }

  /**
   Under a host clock the counter is what the clock was last seen to read: each batch that reaches a
   multiple of 1024 sets it, every other one leaves it alone, and nothing else of the timers changes.
   */
  lemma {:induction false} HostedCounter(t: Timers, deltas: seq<nat>, clock: seq<nat>)
    requires t.hosted && t.refresh < 1024 && |deltas| == |clock| && Windowed(t, deltas)
    ensures var u := After(t, deltas, clock);
      && u == t.(counter := u.counter, refresh := (t.refresh + Sum(deltas)) % 1024)
      && (forall j :: 0 <= j < |deltas| && Crosses(t, deltas, j) && (forall k :: j < k < |deltas| ==> !Crosses(t, deltas, k)) ==>
            u.counter == clock[j])
      && ((forall k :: 0 <= k < |deltas| ==> !Crosses(t, deltas, k)) ==> u.counter == t.counter)
    decreases |deltas|
  {
    hide WORD, Crosses, Windowed;
    if deltas != [] {
      var n := |deltas| - 1;
      HostedStep(t, deltas, clock);
      HostedCounter(t, deltas[..n], clock[..n]);
      Prefixes(t, deltas, clock, n);
    }
  }

  /** The last batch of a run sets the counter exactly if it reaches a multiple of 1024. */
  lemma {:induction false} HostedStep(t: Timers, deltas: seq<nat>, clock: seq<nat>)
    requires t.hosted && t.refresh < 1024 && |deltas| == |clock| > 0 && Windowed(t, deltas)
    ensures var n := |deltas| - 1;
      var u, v := After(t, deltas[..n], clock[..n]), After(t, deltas, clock);
      && Windowed(t, deltas[..n])
      && v == t.(counter := v.counter, refresh := (t.refresh + Sum(deltas)) % 1024)
      && v.counter == if Crosses(t, deltas, n) then clock[n] else u.counter
    decreases |deltas|
  {
    hide WORD, Windowed, After, Sum, Timers.Advance;
    var n := |deltas| - 1;
    LastBatch(t, deltas);
    if n > 0 {
      HostedStep(t, deltas[..n], clock[..n]);
    } else {
      NoBatches(t, deltas[..n], clock[..n]);
    }
    assert deltas == deltas[..n] + [deltas[n]] && clock == clock[..n] + [clock[n]];
    AfterSnoc(t, deltas[..n], clock[..n], deltas[n], clock[n]);
    ChargeInWindow(t, After(t, deltas[..n], clock[..n]), t.refresh + Sum(deltas[..n]), deltas[n], clock[n]);
  }

  lemma NoBatches(t: Timers, deltas: seq<nat>, clock: seq<nat>)
    requires t.refresh < 1024 && deltas == clock == []
    ensures After(t, deltas, clock) == t == t.(refresh := (t.refresh + Sum(deltas)) % 1024)
  {
  }

  lemma LastBatch(t: Timers, deltas: seq<nat>)
    requires |deltas| > 0 && Windowed(t, deltas)
    ensures var n := |deltas| - 1;
      && Windowed(t, deltas[..n]) && deltas[..n + 1] == deltas && Sum(deltas) == Sum(deltas[..n]) + deltas[n]
      && (t.refresh + Sum(deltas[..n])) % 1024 + deltas[n] <= 1024
  {
    hide Sum;
    var n := |deltas| - 1;
    SumSnoc(deltas[..n], deltas[n]);
    assert deltas == deltas[..n] + [deltas[n]];
    assert InWindow(t, deltas, n);
    forall i | 0 <= i < n ensures InWindow(t, deltas[..n], i) {
      assert InWindow(t, deltas, i) && deltas[..n][..i] == deltas[..i];
    }
  }

  /** One batch that stays within the window, charged after `a` instructions. */
  lemma ChargeInWindow(t: Timers, u: Timers, a: nat, delta: nat, reading: nat)
    requires t.hosted && u == t.(counter := u.counter, refresh := a % 1024) && a % 1024 + delta <= 1024
    ensures var v := u.Advance(delta, reading);
      && v == t.(counter := v.counter, refresh := (a + delta) % 1024)
      && v.counter == if delta > 0 && (a + delta) % 1024 == 0 then reading else u.counter
  {
    hide WORD;
    WindowEnds(a, delta);
  }

  lemma WindowEnds(a: nat, d: nat)
    requires a % 1024 + d <= 1024
    ensures a % 1024 + d >= 1024 <==> d > 0 && (a + d) % 1024 == 0
    ensures (a + d) % 1024 == if a % 1024 + d >= 1024 then 0 else a % 1024 + d
  {
    var q := a / 1024;
    assert a == 1024 * q + a % 1024;
  }

  /** Some timer's compare value is at or below this reading. */
  predicate Past(t: Timers, reading: nat) { Reached(t.physical, reading) || Reached(t.virtual, reading) }

  /**
   Under a host clock the first interrupt comes with the first reading that is at or past an armed
   timer's compare value: with that batch, and with no batch before it.
   */
  lemma FirstInterrupt(t: Timers, deltas: seq<nat>, clock: seq<nat>)
    requires t.hosted && t.refresh < 1024 && |deltas| == |clock| > 0 && Windowed(t, deltas)
    requires !t.pending && !Past(t, t.counter)
    ensures var n := |deltas| - 1;
      (&& After(t, deltas, clock).DecideBounded(false).action == Irq
       && forall i :: 0 <= i <= n ==> After(t, deltas[..i], clock[..i]).DecideBounded(false).action == Continue)
      <==>
      (&& Crosses(t, deltas, n) && Past(t, clock[n])
       && forall j :: 0 <= j < n && Crosses(t, deltas, j) ==> !Past(t, clock[j]))
  {
    hide WORD, Crosses, Windowed, Past, After, Timers.DecideBounded, Sum;
    var n := |deltas| - 1;
    HostedStep(t, deltas, clock);
    AnswersByCounter(t, After(t, deltas, clock));
    NoneYet(t, deltas[..n], clock[..n]);
    Prefixes(t, deltas, clock, n);
  }

  /** A prefix of a prefix, and what crosses in it. */
  lemma Prefixes(t: Timers, deltas: seq<nat>, clock: seq<nat>, n: nat)
    requires n <= |deltas| == |clock|
    ensures forall i :: 0 <= i <= n ==> After(t, deltas[..n][..i], clock[..n][..i]) == After(t, deltas[..i], clock[..i])
    ensures forall j :: 0 <= j < n ==> (Crosses(t, deltas[..n], j) <==> Crosses(t, deltas, j))
  {
    forall i | 0 <= i <= n ensures After(t, deltas[..n][..i], clock[..n][..i]) == After(t, deltas[..i], clock[..i]) {
      assert deltas[..n][..i] == deltas[..i] && clock[..n][..i] == clock[..i];
    }
    forall j | 0 <= j < n ensures Crosses(t, deltas[..n], j) <==> Crosses(t, deltas, j) {
      assert deltas[..n][..j + 1] == deltas[..j + 1];
    }
  }

  /** What the owner answers depends on the counter only. */
  lemma AnswersByCounter(t: Timers, u: Timers)
    requires t.hosted && !t.pending && u.refresh < 1024 && u == t.(counter := u.counter, refresh := u.refresh)
    ensures u.DecideBounded(false).action == if Past(t, u.counter) then Irq else Continue
  {
  }

  /** Nothing has interrupted so far exactly if no reading so far was past an armed timer's compare value. */
  lemma {:induction false} NoneYet(t: Timers, deltas: seq<nat>, clock: seq<nat>)
    requires t.hosted && t.refresh < 1024 && |deltas| == |clock| && Windowed(t, deltas)
    requires !t.pending && !Past(t, t.counter)
    ensures (forall i :: 0 <= i <= |deltas| ==> After(t, deltas[..i], clock[..i]).DecideBounded(false).action == Continue)
      <==> (forall j :: 0 <= j < |deltas| && Crosses(t, deltas, j) ==> !Past(t, clock[j]))
    ensures (forall j :: 0 <= j < |deltas| && Crosses(t, deltas, j) ==> !Past(t, clock[j])) ==>
      !Past(t, After(t, deltas, clock).counter)
    decreases |deltas|
  {
    hide WORD, Crosses, Windowed, Past, Timers.DecideBounded, Timers.Advance;
    if deltas == [] {
      AnswersByCounter(t, t);
    } else {
      var n := |deltas| - 1;
      HostedStep(t, deltas, clock);
      AnswersByCounter(t, After(t, deltas, clock));
      NoneYet(t, deltas[..n], clock[..n]);
      assert deltas[..n + 1] == deltas && clock[..n + 1] == clock;
      Prefixes(t, deltas, clock, n);
    }
  }
}
