/**
 The two-member counting loop the chain tests run: the first member adds one to x0 and branches to
 the second, the second adds one to x1 and branches back. Its bounded runs have a closed form.
 */
module CountingLoop {
  import opened Words
  import opened GuestGraph
  import opened BoundedChain
  import opened Sums
  import opened ChainReference

  function Loop(base: nat, next: nat): Graph {
    [Member(base, [Add(0, 0, 1), B(next)]), Member(next, [Add(1, 1, 1), B(base)])]
  }

  predicate Placed(base: nat, next: nat) {
    base % 4 == 0 && next % 4 == 0 && base % PAGE <= PAGE - 8 && next % PAGE <= PAGE - 8
    && base + 8 <= next && next + 8 < WORD
  }

  function Start(base: nat, next: nat, mem: Memory): Script {
    Script(Loop(base, next), mem, Cpu(base, map[], Flags(false, false, false, false)))
  }

  /** The four program counters of the loop, in turn. */
  function Pc(base: nat, next: nat, n: nat): nat { [base, base + 4, next, next + 4][n % 4] }

  /** The state after `n` instructions: four program counters in turn, one count every other visit. */
  ghost predicate Counts(base: nat, next: nat, cpu: Cpu, n: nat) {
    && cpu.pc == Pc(base, next, n)
    && cpu.Read(0) == (n + 3) / 4 % WORD
    && cpu.Read(1) == (n + 1) / 4 % WORD
  }

  lemma LoopAdmissible(base: nat, next: nat)
    requires Placed(base, next)
    ensures Admissible(Loop(base, next))
  {
    SamePage(base);
    SamePage(next);
    var g := Loop(base, next);
    assert Block(g[0]) && Block(g[1]);
  }

  lemma SamePage(base: nat)
    requires base % PAGE <= PAGE - 8
    ensures base / PAGE == (base + 4) / PAGE
  {
    assert base == PAGE * (base / PAGE) + base % PAGE;
  }

  /** Which member and instruction each of the four program counters is. */
  lemma LoopMembers(base: nat, next: nat, n: nat)
    requires Placed(base, next) && Admissible(Loop(base, next))
    ensures var g, pc := Loop(base, next), Pc(base, next, n);
      && MemberAt(g, pc) == n % 4 / 2 && Inside(g, pc)
      && InstrAt(g, pc) == g[n % 4 / 2].code[n % 2] && (AtLast(g, pc) <==> n % 2 == 1)
  {
    hide Admissible, Block, MemberFrom;
    var g, pc, k := Loop(base, next), Pc(base, next, n), n % 4;
    assert n % 2 == k % 2;
    assert g[k / 2].Contains(pc);
    MemberUnique(g, pc, k / 2);
  }

  lemma LoopStarts(base: nat, next: nat, mem: Memory)
    requires Start(base, next, mem).Ready()
    ensures Counts(base, next, Start(base, next, mem).cpu, 0)
  {
  }

  lemma {:induction false} LoopAt(base: nat, next: nat, mem: Memory, n: nat)
    requires Placed(base, next) && Start(base, next, mem).Ready()
    ensures var s := Start(base, next, mem);
      && Counts(base, next, s.At(n), n) && s.Lives(n)
      && (s.Begins(n) <==> n % 2 == 0) && s.Visits(n) == (n + 1) / 2
  {
    hide Admissible, MemberAt, AtLast, InstrAt, Script.At, Script.Begins, Script.Visits, Instr.Step, Cpu.Read, Pc, Loop;
    var s := Start(base, next, mem);
    s.NoSteps();
    LoopStarts(base, next, mem);
    LoopMembers(base, next, n);
    if n > 0 {
      LoopAt(base, next, mem, n - 1);
      LoopMembers(base, next, n - 1);
      s.OneStep(n - 1);
      s.OneVisit(n - 1);
      LoopStep(base, next, s.At(n - 1), n - 1, mem(n - 1));
    }
  }

  /** One instruction of the loop. */
  lemma LoopStep(base: nat, next: nat, cpu: Cpu, n: nat, loaded: nat)
    requires Counts(base, next, cpu, n)
    ensures Counts(base, next, Loop(base, next)[n % 4 / 2].code[n % 2].Step(cpu, loaded), n + 1)
  {
    hide WORD, Loop;
    Wraps((n + 3) / 4);
    Wraps((n + 1) / 4);
    Quarters(n);
    LoopCode(base, next, n);
  }

  /** Which counts go up at the `n`-th instruction. */
  lemma Quarters(n: nat)
    ensures (n + 4) / 4 == (n + 3) / 4 + if n % 4 == 0 then 1 else 0
    ensures (n + 2) / 4 == (n + 1) / 4 + if n % 4 == 2 then 1 else 0
    ensures (n + 1) % 4 == (if n % 4 == 3 then 0 else n % 4 + 1)
  {
    var q, k := n / 4, n % 4;
    assert n == 4 * q + k;
  }

  lemma LoopCode(base: nat, next: nat, n: nat)
    ensures Loop(base, next)[n % 4 / 2].code[n % 2] == [Add(0, 0, 1), B(next), Add(1, 1, 1), B(base)][n % 4]
  {
    assert n % 2 == n % 4 % 2;
  }

  lemma Wraps(a: nat)
    ensures (a % WORD + 1) % WORD == (a + 1) % WORD
  {
    assert a + 1 == WORD * (a / WORD) + (a % WORD + 1);
  }

  /** The member the last of `n` instructions belongs to. */
  lemma LastOf(base: nat, next: nat, mem: Memory, n: nat)
    requires Placed(base, next) && Start(base, next, mem).Ready() && n > 0
    ensures var g, pc := Loop(base, next), Start(base, next, mem).At(n - 1).pc;
      Inside(g, pc) && g[MemberAt(g, pc)].base == if (n + 1) / 2 % 2 == 1 then base else next
  {
    hide Admissible, MemberAt, AtLast, InstrAt, Script.At, Script.Begins, Script.Visits, Instr.Step, Cpu.Read, Pc;
    LoopAt(base, next, mem, n - 1);
    LoopMembers(base, next, n - 1);
    HalfTurns(n);
  }

  lemma HalfTurns(n: nat)
    requires n > 0
    ensures (n - 1) % 4 / 2 == (if (n + 1) / 2 % 2 == 1 then 0 else 1)
  {
    var q, k := (n - 1) / 4, (n - 1) % 4;
    assert n - 1 == 4 * q + k;
    assert (n + 1) / 2 == 2 * q + (k + 2) / 2;
  }

  /** The largest number of steps every limit allows. */
  function Retired(l: Limits, cap: nat): nat {
    Min(Min(l.StepLimit(), cap), 2 * l.VisitLimit())
  }

  /**
   A bounded run of the loop: which limit ends it, in the stated order of priority, what it counts,
   where it stands, and that its two charges add up to what it retired.
   */
  method RunLoop(base: nat, next: nat, mem: Memory, world: World, l: Limits, cap: nat) returns (r: Result, cpu: Cpu)
    requires Placed(base, next) && Quiet(world) && l.Positive() && cap > 0
    ensures r.steps == Retired(l, cap) && r.visits == (r.steps + 1) / 2
    ensures Counts(base, next, cpu, r.steps)
    ensures r.last == LastMember(if r.visits % 2 == 1 then base else next)
    ensures r.stop == if r.steps == l.steps then AtSteps
                      else if r.steps == l.checkpointSteps || r.visits == l.checkpointVisits then AtCheckpoint
                      else if r.visits == l.visits then AtVisits else AtAllowance
    ensures |r.charges| == 2 && Sum(r.charges) == r.steps && r.action == Continue
  {
    hide Admissible, Script.At, Script.Begins, Script.Visits, MemberAt, Scene.FirstHalt, Scene.ExitAt, Scene.Asked,
         Scene.Counted, Scene.Irrevocable, Quiet, Sum, Instr.Step, Counts, Retires, ReasonExplained, BooksExplained;
    LoopAdmissible(base, next);
    var script := Start(base, next, mem);
    var owner := Owner(true, Calm(cap), (n: nat) => Calm(cap));
    script.NoSteps();
    LoopAt(base, next, mem, 0);
    r, cpu := RunBounded(l, script, world, owner, true, false, false);
    var scene, n := Staged(l, script, world, owner), Retired(l, cap);
    LoopHalts(base, next, mem, scene, n);
    scene.FirstHaltUnique(n, r.steps);
    QuietExit(scene, n);
    LoopAt(base, next, mem, n);
    LastOf(base, next, mem, n);
  }

  /** The loop never leaves its graph, so only the two budgets stop an undisturbed run of it. */
  lemma LoopHalts(base: nat, next: nat, mem: Memory, scene: Scene, n: nat)
    requires Placed(base, next) && scene.script == Start(base, next, mem) && scene.Ready() && Quiet(scene.world)
    requires n == Min(scene.budget, 2 * scene.visits)
    ensures scene.FirstHalt(n)
  {
    hide Script.At, Script.Begins, Script.Visits, MemberAt, Scene.FirstHalt, Quiet, Counts;
    forall k: nat ensures scene.script.Lives(k) && scene.script.Visits(k) == (k + 1) / 2 {
      LoopAt(base, next, mem, k);
    }
    QuietRun(scene, n);
  }

  /** Peers publish exactly once as far as the run can see: a proof has moved when it comes to its `gate`-th gate. */
  ghost predicate MovedAt(world: World, gate: nat) {
    forall t: nat :: world.guards(t) && world.paths(t) == Hot && world.polls(t) == if t == 2 * gate then Stale else Clear
  }

  /** The owner of that run: it allows the whole run, and has nothing to say at its end. */
  function Patient(cap: nat): Owner { Owner(true, Calm(cap), (n: nat) => Calm(1)) }

  /** Where such a run stops, and what it then has to report. */
  lemma MovedStops(base: nat, next: nat, mem: Memory, world: World, l: Limits, gate: nat, k: nat)
    requires Placed(base, next) && MovedAt(world, gate) && Start(base, next, mem).Ready() && k <= 2 * gate
    requires 2 * gate < l.steps && 2 * gate < l.checkpointSteps && gate < l.visits && gate < l.checkpointVisits
    ensures Retires(l, Start(base, next, mem), world, Patient(2 * gate + 1), k) <==> k < 2 * gate
    ensures !ColdBefore(Start(base, next, mem), world, k) && !Faults(l, Start(base, next, mem), world, Patient(2 * gate + 1), k)
    ensures !Denied(l, Start(base, next, mem), world, Patient(2 * gate + 1), k)
    ensures k == 2 * gate ==> Outdated(l, Start(base, next, mem), world, Patient(2 * gate + 1), k)
  {
    hide Admissible, Script.At, Script.Begins, Script.Visits, Script.Lives, MemberAt, MovedAt, Counts, Loop;
    LoopAt(base, next, mem, k);
    MovedMeans(world, gate, k);
    if k > 0 {
      MovedMeans(world, gate, k - 1);
    }
  }

  /** A moved proof keeps its gate shut: the run ends there, whatever its limits still allow. */
  method RunMoved(base: nat, next: nat, mem: Memory, world: World, l: Limits, gate: nat) returns (r: Result, cpu: Cpu)
    requires Placed(base, next) && MovedAt(world, gate)
    requires 2 * gate < l.steps && 2 * gate < l.checkpointSteps && gate < l.visits && gate < l.checkpointVisits
    ensures r.steps == 2 * gate && r.visits == gate && r.stop == ByProof && r.charges == [0, 2 * gate]
    ensures Counts(base, next, cpu, 2 * gate)
  {
    hide Admissible, Script.At, Script.Begins, Script.Visits, Scene.FirstHalt, Scene.ExitAt, Inside,
         Scene.Asked, Scene.Counted, Scene.Irrevocable, Sum, Counts, FinalStop, FinalAction, LastWas, Scene.Halts, MovedAt,
         Retires, ColdBefore, Faults, Denied, Outdated, Loop, Pc;
    LoopAdmissible(base, next);
    var script := Start(base, next, mem);
    LoopAt(base, next, mem, 0);
    script.NoSteps();
    var owner := Patient(2 * gate + 1);
    r, cpu := RunBounded(l, script, world, owner, true, false, false);
    forall k | 0 <= k <= 2 * gate ensures Retires(l, script, world, owner, k) <==> k < 2 * gate {
      MovedStops(base, next, mem, world, l, gate, k);
    }
    assert !Retires(l, script, world, owner, 2 * gate) && !Retires(l, script, world, owner, r.steps);
    LoopAt(base, next, mem, 2 * gate);
    MovedStops(base, next, mem, world, l, gate, 2 * gate);
  }

  lemma MovedMeans(world: World, gate: nat, t: nat)
    requires MovedAt(world, gate)
    ensures world.guards(t) && world.paths(t) == Hot && world.polls(t) == if t == 2 * gate then Stale else Clear
  {
  }
}
