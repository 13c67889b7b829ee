/**
 What a bounded run is compared with: the loop that enters one member suffix per visit, the runner
 that calls its owner between visits, and the closed form of the two-member counting loop.
 */
module ChainReference {
  import opened GuestGraph
  import opened BoundedChain
  import opened Sums

  // ---- runs nobody disturbs ----

  /** Peers publish nothing that matters and every access is hot. */
  ghost predicate Quiet(world: World) {
    forall t: nat :: world.guards(t) && world.polls(t) == Clear && world.paths(t) == Hot && world.entries(t)
  }

  /** `n` steps stay inside the graph and within both budgets. */
  ghost predicate Allows(scene: Scene, n: nat)
    requires scene.Ready()
  {
    && n <= scene.budget && scene.script.Visits(n) <= scene.visits
    && forall k :: 0 <= k < n ==> scene.script.Lives(k)
  }

  lemma {:induction false} VisitsGrow(script: Script, m: nat, n: nat)
    requires script.Ready() && m <= n
    ensures script.Visits(m) <= script.Visits(n)
  {
    hide Script.Begins, Script.At, Admissible;
    if m < n {
      VisitsGrow(script, m, n - 1);
    }
  }

  lemma QuietHalts(scene: Scene, k: nat)
    requires scene.Ready() && Quiet(scene.world)
    ensures scene.Halts(k) <==>
      k >= scene.budget || !scene.script.Lives(k) || (scene.script.Begins(k) && scene.script.Visits(k) >= scene.visits)
  {
    hide Script.Begins, Script.At, Script.Visits, Admissible;
    assert scene.world.guards(k) && scene.world.polls(k) == Clear && scene.world.paths(k) == Hot;
    if k > 0 {
      assert scene.world.paths(k - 1) == Hot;
    }
  }

  /** An undisturbed run stops at the largest number of steps that is allowed, and nowhere else. */
  lemma QuietRun(scene: Scene, n: nat)
    requires scene.Ready() && Quiet(scene.world)
    ensures scene.FirstHalt(n) <==> Allows(scene, n) && !Allows(scene, n + 1)
  {
    hide Script.Begins, Script.At, Script.Visits, Script.Lives, Admissible, Scene.Halts;
    scene.script.OneVisit(n);
    QuietHalts(scene, n);
    if scene.FirstHalt(n) {
      scene.VisitsWithin(n);
      scene.HaltedWithin(n);
      forall k | 0 <= k < n ensures scene.script.Lives(k) {
        QuietHalts(scene, k);
      }
    }
    if Allows(scene, n) && !Allows(scene, n + 1) {
      forall k | 0 <= k < n ensures !scene.Halts(k) {
        QuietHalts(scene, k);
        VisitsGrow(scene.script, k + 1, n);
        scene.script.OneVisit(k);
      }
    }
  }

  lemma StillHalts(scene: Scene, k: nat)
    requires scene.Ready()
    requires k >= scene.budget || !scene.script.Lives(k) || (scene.script.Begins(k) && scene.script.Visits(k) >= scene.visits)
    ensures scene.Halts(k)
  {
    hide Script.Begins, Script.At, Script.Visits, Script.Lives, Admissible;
  }

  /** The exit of an undisturbed run says which of its two budgets, or the edge of the graph, stopped it. */
  lemma QuietExit(scene: Scene, n: nat)
    requires scene.Ready() && Quiet(scene.world) && scene.FirstHalt(n)
    ensures scene.ExitAt(n) == if n == scene.budget then MaxSteps
                               else if !scene.script.Lives(n) then OutsideBlock else Yielded
    ensures !scene.Irrevocable(n) && scene.Counted(n) == scene.script.Visits(n) && scene.Asked(n) == [0]
    ensures scene.ExitAt(n) == Yielded ==> scene.script.Visits(n) == scene.visits
  {
    hide Script.Begins, Script.At, Script.Visits, Script.Lives, Script.Current, Admissible;
    assert scene.world.guards(n) && scene.world.polls(n) == Clear && scene.world.paths(n) == Hot;
    if n > 0 {
      assert scene.world.paths(n - 1) == Hot;
    }
    scene.HaltedWithin(n);
    scene.VisitsWithin(n);
  }

  // ---- a run cut into pieces ----

  /** What is left of a run after its first `k` steps. */
  function Rest(script: Script, k: nat): Script
    requires script.Ready()
  {
    Script(script.g, (i: nat) => script.mem(k + i), script.At(k))
  }

  /**
   Running the rest continues the whole run, whatever `k` is: a budget may end anywhere inside a
   member. The rest counts one visit more exactly when it re-enters a member in the middle.
   */
  lemma {:induction false} Resumes(script: Script, k: nat, j: nat)
    requires script.Ready() && forall i :: 0 <= i < k + j ==> script.Lives(i)
    ensures Rest(script, k).At(j) == script.At(k + j)
    ensures j > 0 ==> (Rest(script, k).Begins(j) <==> script.Begins(k + j))
    ensures j > 0 ==>
      script.Visits(k) + Rest(script, k).Visits(j) == script.Visits(k + j) + if script.Begins(k) then 0 else 1
  {
    hide Admissible, AtLast, MemberAt, Script.At, Script.Begins, Script.Visits, Instr.Step;
    var rest := Rest(script, k);
    rest.NoSteps();
    if j > 0 {
      Resumes(script, k, j - 1);
      assert script.Lives(k + j - 1);
      assert rest.Current(j - 1) == script.Current(k + j - 1);
      rest.OneStep(j - 1);
      script.OneStep(k + j - 1);
      rest.OneVisit(j - 1);
      script.OneVisit(k + j - 1);
    }
  }

  /**
   Whatever peers, owner and memory do, it can only end a run earlier, never change or prolong it: the
   steps an undisturbed run would have taken beyond it lead from where it stopped to the same state.
   */
  lemma DisturbedStopsEarlier(scene: Scene, quiet: World, n: nat, m: nat)
    requires scene.Ready() && Quiet(quiet) && scene.FirstHalt(n) && scene.(world := quiet).FirstHalt(m)
    ensures n <= m && Rest(scene.script, n).At(m - n) == scene.script.At(m)
  {
    hide Script.Begins, Script.At, Script.Visits, Script.Lives, Admissible, Scene.Halts;
    if m < n {
      QuietHalts(scene.(world := quiet), m);
      StillHalts(scene, m);
    }
    QuietRun(scene.(world := quiet), m);
    Resumes(scene.script, n, m - n);
  }

  // ---- the loop that enters one member suffix per visit ----

  /** `done` instructions into the suffix of member `i` that begins at step `start` in state `from`. */
  ghost predicate Along(script: Script, i: nat, from: Cpu, start: nat, after: Cpu, done: nat)
    requires script.Ready() && i < |script.g| && script.g[i].base % 4 == 0 && script.g[i].Contains(from.pc)
  {
    var m := script.g[i];
    var left := |m.code| - m.Index(from.pc);
    && done <= left && after == script.At(start + done)
    && (forall k :: start <= k < start + done ==>
          script.Lives(k) && MemberAt(script.g, script.At(k).pc) == i && (k > start ==> !script.Begins(k)))
    && (done < left ==>
          && MemberAt(script.g, after.pc) == i && m.Contains(after.pc) && m.Index(after.pc) == m.Index(from.pc) + done
          && (done > 0 ==> !script.Begins(start + done)))
    && (done > 0 && done == left ==> script.Begins(start + done))
  }

  lemma AlongStarts(script: Script, i: nat, from: Cpu, start: nat)
    requires script.Ready() && i < |script.g| && script.g[i].base % 4 == 0 && script.g[i].Contains(from.pc)
    requires from == script.At(start) && MemberAt(script.g, from.pc) == i
    ensures Along(script, i, from, start, from, 0)
  {
  }

  /** One more instruction of the suffix. */
  lemma AlongStep(script: Script, i: nat, from: Cpu, start: nat, after: Cpu, done: nat)
    requires script.Ready() && i < |script.g| && script.g[i].base % 4 == 0 && script.g[i].Contains(from.pc)
    requires Along(script, i, from, start, after, done) && done < |script.g[i].code| - script.g[i].Index(from.pc)
    ensures script.Lives(start + done) && script.g[i].Contains(after.pc)
    ensures script.g[i].code[script.g[i].Index(after.pc)] == script.Current(start + done)
    ensures Along(script, i, from, start, script.Current(start + done).Step(after, script.mem(start + done)), done + 1)
  {
    hide Admissible, Script.At, Script.Begins, MemberFrom, Instr.Step;
    script.OneStep(start + done);
    if !AtLast(script.g, after.pc) {
      FallsThrough(script.g, after, script.mem(start + done));
    }
  }

  /** Run a member's own program from its entry point for `count` instructions. */
  method RunBlock(script: Script, i: nat, cpu: Cpu, count: nat, start: nat) returns (after: Cpu)
    requires script.Ready() && i < |script.g| && cpu == script.At(start) && script.Lives(start)
    requires MemberAt(script.g, cpu.pc) == i && script.g[i].base % 4 == 0 && script.g[i].Contains(cpu.pc)
    requires count <= |script.g[i].code| - script.g[i].Index(cpu.pc)
    ensures after == script.At(start + count)
    ensures forall k :: start <= k < start + count ==> script.Lives(k) && (k > start ==> !script.Begins(k))
    ensures count > 0 && count == |script.g[i].code| - script.g[i].Index(cpu.pc) ==> script.Begins(start + count)
  {
    hide Admissible, Script.At, Script.Begins, Script.Current, MemberFrom, Instr.Step;
    after := cpu;
    var done := 0;
    var m := script.g[i];
    AlongStarts(script, i, cpu, start);
    while done < count
      invariant done <= count && Along(script, i, cpu, start, after, done)
    {
      AlongStep(script, i, cpu, start, after, done);
      after := m.code[m.Index(after.pc)].Step(after, script.mem(start + done));
      done := done + 1;
    }
  }

  /** The reference: pick the member, run its suffix or what is left of the budget, count one visit. */
  method RunVisits(script: Script, budget: nat) returns (after: Cpu, steps: nat, visits: nat)
    requires script.Ready()
    ensures after == script.At(steps) && visits == script.Visits(steps) && steps <= budget
    ensures steps == budget || !script.Lives(steps)
    ensures forall k :: 0 <= k < steps ==> script.Lives(k)
  {
    hide Admissible, Script.At, Script.Begins, Script.Visits, Script.Current, MemberFrom;
    script.NoSteps();
    after, steps, visits := script.cpu, 0, 0;
    while steps < budget && MemberAt(script.g, after.pc) < |script.g|
      invariant after == script.At(steps) && visits == script.Visits(steps) && steps <= budget
      invariant steps < budget ==> script.Begins(steps)
      invariant forall k :: 0 <= k < steps ==> script.Lives(k)
      decreases budget - steps
    {
      var i := MemberAt(script.g, after.pc);
      BlockAt(script.g, i);
      var n := Min(|script.g[i].code| - script.g[i].Index(after.pc), budget - steps);
      after := RunBlock(script, i, after, n, steps);
      OneVisitOnly(script, steps, n);
      steps, visits := steps + n, visits + 1;
    }
  }

  lemma {:induction false} OneVisitOnly(script: Script, start: nat, n: nat)
    requires script.Ready() && script.Begins(start) && n > 0
    requires forall k :: start < k < start + n ==> !script.Begins(k)
    ensures script.Visits(start + n) == script.Visits(start) + 1
  {
    hide Admissible, Script.At, Script.Begins;
    script.OneVisit(start + n - 1);
    if n > 1 {
      OneVisitOnly(script, start, n - 1);
    }
  }

  /**
   The differential check: with no visit budget in the way, the bounded runner and the per-visit loop
   give the same state, the same steps and the same visits, from any entry and under any budget.
   */
  method Compare(script: Script, world: World, budget: nat) returns (chain: Result, chainCpu: Cpu, steps: nat, visits: nat, loopCpu: Cpu)
    requires script.Ready() && script.Lives(0) && Quiet(world) && budget > 0
    ensures chainCpu == loopCpu && chain.steps == steps && chain.visits == visits
    ensures steps == budget ==> chain.stop == AtSteps
    ensures steps < budget ==> chain.stop == LeftGraph && !script.Lives(steps)
  {
    hide Admissible, Script.At, Script.Begins, Script.Visits, MemberFrom, Scene.FirstHalt, Scene.ExitAt, Scene.Asked,
         Scene.Counted, Scene.Irrevocable, LastWas, Quiet, Sum, Retires, ReasonExplained, BooksExplained;
    var limits := Limits(budget, budget + 1, budget + 1, budget + 1);
    var agree := Service(Decision(budget, Continue), true, false);
    var owner := Owner(true, agree, (n: nat) => agree);
    script.NoSteps();
    chain, chainCpu := RunBounded(limits, script, world, owner, true, false, false);
    loopCpu, steps, visits := RunVisits(script, budget);
    var scene := Staged(limits, script, world, owner);
    script.VisitsBound(steps);
    script.VisitsBound(steps + 1);
    QuietRun(scene, steps);
    scene.FirstHaltUnique(steps, chain.steps);
    QuietExit(scene, steps);
  }

  // ---- the runner that calls its owner between visits ----

  /** What the owner answers to its `call`-th service call, made after `steps` retired instructions. */
  type Answers = (nat, nat) -> Service

  /** How one visit ended: its budget is used up, the entry or a guard failed, or an access faulted. */
  datatype Part = Paused | Failed | Faulted

  /** Instruction `k` is an access whose helper faults. */
  ghost predicate FaultsAt(script: Script, world: World, k: nat)
    requires script.Ready()
  {
    script.Lives(k) && script.Current(k).Load? && world.paths(k).Slow? && world.paths(k).faults
  }

  /** Instruction `k` retires but ends its visit: an access off the hot path, or a guard that does not hold after it. */
  ghost predicate EndsAt(script: Script, world: World, k: nat)
    requires script.Ready()
  {
    script.Lives(k) && ((script.Current(k).Load? && !world.paths(k).Hot?) || !world.guards(k + 1))
  }

  /**
   How a visit from `start` ends after `done` instructions: rejected at its entry, with its allowance
   used up, after an instruction that ends it, or before one that faults; and nothing before that would
   have ended it.
   */
  ghost predicate VisitEnds(script: Script, world: World, entry: bool, start: nat, allowance: nat, done: nat, part: Part)
    requires script.Ready()
  {
    && (!entry ==> done == 0 && part == Failed)
    && (entry ==>
          && done <= allowance
          && (forall k :: start <= k < start + done ==> !FaultsAt(script, world, k))
          && (forall k :: start <= k < start + done - 1 ==> !EndsAt(script, world, k))
          && (part == Failed <==> done > 0 && EndsAt(script, world, start + done - 1))
          && (part == Paused <==> done == allowance && !(done > 0 && EndsAt(script, world, start + done - 1)))
          && (part == Faulted ==> done < allowance && FaultsAt(script, world, start + done)))
  }

  /**
   Run one member suffix for at most `allowance` instructions, checking guards and serving accesses;
   `entry` says whether the guards hold as the executor is entered.
   */
  method RunSuffix(script: Script, world: World, entry: bool, i: nat, cpu: Cpu, allowance: nat, start: nat)
      returns (after: Cpu, done: nat, part: Part)
    requires script.Ready() && i < |script.g| && cpu == script.At(start) && script.Lives(start)
    requires MemberAt(script.g, cpu.pc) == i && script.g[i].base % 4 == 0 && script.g[i].Contains(cpu.pc)
    requires 0 < allowance <= |script.g[i].code| - script.g[i].Index(cpu.pc)
    ensures after == script.At(start + done) && done <= allowance
    ensures forall k :: start <= k < start + done ==>
      script.Lives(k) && MemberAt(script.g, script.At(k).pc) == i && (k > start ==> !script.Begins(k))
    ensures done > 0 && done == |script.g[i].code| - script.g[i].Index(cpu.pc) ==> script.Begins(start + done)
    ensures VisitEnds(script, world, entry, start, allowance, done, part)
  {
    hide Admissible, Script.At, Script.Begins, Script.Lives, Script.Current, Instr.Step, FaultsAt, EndsAt, VisitEnds,
         Undisturbed, Along;
    after, done, part := cpu, 0, Paused;
    VisitStarts(script, world, entry, start, allowance);
    AlongStarts(script, i, cpu, start);
    if entry {
      var m := script.g[i];
      while done < allowance
        invariant done <= allowance && part == Paused && Along(script, i, cpu, start, after, done)
        invariant Undisturbed(script, world, start, done)
      {
        AlongStep(script, i, cpu, start, after, done);
        var instr, path := m.code[m.Index(after.pc)], world.paths(start + done);
        OneInstruction(script, world, start, allowance, done);
        if instr.Load? && path.Slow? && path.faults {
          part := Faulted;
          break;
        }
        after := instr.Step(after, script.mem(start + done));
        done := done + 1;
        if (instr.Load? && !path.Hot?) || !world.guards(start + done) {
          part := Failed;
          break;
        }
      }
      if part == Paused {
        VisitPauses(script, world, start, allowance);
      }
    } else {
      part := Failed;
    }
    AlongMeans(script, i, cpu, start, after, done);
  }

  lemma AlongMeans(script: Script, i: nat, from: Cpu, start: nat, after: Cpu, done: nat)
    requires script.Ready() && i < |script.g| && script.g[i].base % 4 == 0 && script.g[i].Contains(from.pc)
    requires Along(script, i, from, start, after, done)
    ensures after == script.At(start + done)
    ensures forall k :: start <= k < start + done ==>
      script.Lives(k) && MemberAt(script.g, script.At(k).pc) == i && (k > start ==> !script.Begins(k))
    ensures done > 0 && done == |script.g[i].code| - script.g[i].Index(from.pc) ==> script.Begins(start + done)
  {
  }

  /** Nothing in the first instructions of a visit faulted or ended it. */
  ghost predicate Undisturbed(script: Script, world: World, start: nat, done: nat)
    requires script.Ready()
  {
    forall k :: start <= k < start + done ==> !FaultsAt(script, world, k) && !EndsAt(script, world, k)
  }

  lemma VisitStarts(script: Script, world: World, entry: bool, start: nat, allowance: nat)
    requires script.Ready() && allowance > 0
    ensures !entry ==> VisitEnds(script, world, entry, start, allowance, 0, Failed)
    ensures Undisturbed(script, world, start, 0)
  {
  }

  /** One instruction of a visit: it faults, ends the visit, or neither. */
  lemma OneInstruction(script: Script, world: World, start: nat, allowance: nat, done: nat)
    requires script.Ready() && Undisturbed(script, world, start, done) && done < allowance && script.Lives(start + done)
    ensures var instr, path := script.Current(start + done), world.paths(start + done);
      if instr.Load? && path.Slow? && path.faults then VisitEnds(script, world, true, start, allowance, done, Faulted)
      else if (instr.Load? && !path.Hot?) || !world.guards(start + done + 1) then
        VisitEnds(script, world, true, start, allowance, done + 1, Failed)
      else Undisturbed(script, world, start, done + 1)
  {
    hide Script.At, Script.Lives, Script.Current;
  }

  lemma VisitPauses(script: Script, world: World, start: nat, allowance: nat)
    requires script.Ready() && Undisturbed(script, world, start, allowance)
    ensures VisitEnds(script, world, true, start, allowance, allowance, Paused)
  {
    hide Script.At, Script.Lives, Script.Current;
  }

  /** A visit nothing disturbs uses up its allowance. */
  lemma QuietVisit(script: Script, world: World, entry: bool, start: nat, allowance: nat, done: nat, part: Part)
    requires script.Ready() && Quiet(world) && entry && VisitEnds(script, world, entry, start, allowance, done, part)
    ensures part == Paused && done == allowance
  {
    hide Script.At, Script.Lives, Script.Current;
    assert world.paths(start + done) == Hot;
    if done > 0 {
      assert world.paths(start + done - 1) == Hot && world.guards(start + done);
    }
  }

  /** The reason one service call between visits ends the run for, or none. */
  function Between(l: Limits, service: Service, part: Part, steps: nat, visits: nat, inside: bool): (s: seq<Stop>)
    ensures |s| <= 1
  {
    if part != Paused then [ByExecutor]
    else if service.Final().Verdict() != [] then service.Final().Verdict()
    else if steps == l.steps then [AtSteps]
    else if steps == l.checkpointSteps || visits == l.checkpointVisits then [AtCheckpoint]
    else if visits == l.visits then [AtVisits]
    else if service.decision.nextSteps == 0 then [AtAllowance]
    else if !inside then [LeftGraph]
    else []
  }

  /** A service call after which the run goes on: an orderly visit, an owner that agrees, no limit met, and inside. */
  ghost predicate GoesOn(l: Limits, service: Service, part: Part, steps: nat, visits: nat, inside: bool) {
    && part == Paused && Agrees(service) && inside
    && steps != l.steps && steps != l.checkpointSteps && visits != l.visits && visits != l.checkpointVisits
  }

  /** What a service call that ends the run has to report, by what was answered and where the run stands. */
  ghost predicate Reports(l: Limits, service: Service, part: Part, steps: nat, visits: nat, inside: bool, stop: Stop) {
    var heard := service.valid && service.decision.action == Continue;
    var counted := steps == l.steps || steps == l.checkpointSteps || visits == l.checkpointVisits || visits == l.visits;
    if part != Paused then stop == ByExecutor
    else
      && (stop == ByProof <==> !service.valid)
      && (stop == Invalid <==> service.valid && service.decision.action == Unknown)
      && (stop == ByCallback <==>
            service.valid && service.decision.action != Unknown && service.decision.action != Continue)
      && (stop == ByEvent <==> heard && service.event)
      && (stop == AtSteps <==> heard && !service.event && steps == l.steps)
      && (stop == AtCheckpoint <==>
            heard && !service.event && steps != l.steps && (steps == l.checkpointSteps || visits == l.checkpointVisits))
      && (stop == AtVisits <==>
            heard && !service.event && steps != l.steps && steps != l.checkpointSteps
            && visits != l.checkpointVisits && visits == l.visits)
      && (stop == AtAllowance <==> heard && !service.event && !counted && service.decision.nextSteps == 0)
      && (stop == LeftGraph <==> heard && !service.event && !counted && service.decision.nextSteps > 0 && !inside)
  }

  /** The verdict of a service call is exactly that. */
  lemma BetweenExactly(l: Limits, service: Service, part: Part, steps: nat, visits: nat, inside: bool)
    ensures Between(l, service, part, steps, visits, inside) == [] <==> GoesOn(l, service, part, steps, visits, inside)
    ensures Between(l, service, part, steps, visits, inside) != [] ==>
      Reports(l, service, part, steps, visits, inside, Between(l, service, part, steps, visits, inside)[0])
  {
  }

  lemma CallsGoOn(l: Limits, script: Script, world: World, answers: Answers, calls: seq<Call>)
    requires script.Ready() && Served(l, script, world, answers, calls)
    ensures forall i :: 0 <= i < |calls| - 1 ==>
      GoesOn(l, answers(i, calls[i].steps), calls[i].part, calls[i].steps, calls[i].visits, script.Lives(calls[i].steps))
  {
    hide Admissible, Script.At, MemberAt, VisitEnds, Between, GoesOn;
    forall i | 0 <= i < |calls| - 1
      ensures GoesOn(l, answers(i, calls[i].steps), calls[i].part, calls[i].steps, calls[i].visits, script.Lives(calls[i].steps))
    {
      var c := calls[i];
      assert VisitBetween(l, script, world, answers, i, c, calls[i + 1]);
      BetweenExactly(l, answers(i, c.steps), c.part, c.steps, c.visits, true);
    }
  }

  /** An exact allowance: it shrinks by what is charged, and once it is used up the answer ends the run. */
  datatype Plan = Plan(cap: nat, end: Service)
  {
    predicate Ends() { cap > 0 && end.Verdict() != [] }

    function Answer(steps: nat): Service { if steps < cap then Calm(cap - steps) else end }

    /** The plan as the owner of a bounded run. */
    function Keeper(): Owner { Owner(true, Calm(cap), (steps: nat) => Answer(steps)) }
  }

  /** Nothing to object to, and an allowance. */
  function Calm(cap: nat): Service { Service(Decision(cap, Continue), true, false) }

  /** An owner that follows a plan, as one that watches a deadline does. */
  ghost predicate Steady(answers: Answers, plan: Plan) {
    plan.Ends() && forall call: nat, steps: nat :: steps <= plan.cap ==> answers(call, steps) == plan.Answer(steps)
  }

  ghost predicate LastVisited(script: Script, n: nat, last: LastMember)
    requires script.Ready()
  {
    if n == 0 then last == NoMember
    else script.Lives(n - 1) && last == LastMember(script.g[MemberAt(script.g, script.At(n - 1).pc)].base)
  }

  // ---- what a serviced run did, call by call ----

  /** Where a run stood at a service call: steps and visits so far, and how the visit before it ended. */
  datatype Call = Call(steps: nat, visits: nat, part: Part)

  /** How many instructions of its member a state has left. */
  function LeftAt(script: Script, n: nat): nat
    requires script.Ready() && script.Lives(n)
  {
    var pc := script.At(n).pc;
    var m := script.g[MemberAt(script.g, pc)];
    BlockAt(script.g, MemberAt(script.g, pc));
    |m.code| - m.Index(pc)
  }

  /** The allowance of the visit after a service call that goes on. */
  function AllowanceAt(l: Limits, script: Script, steps: nat, next: nat): nat
    requires script.Ready() && script.Lives(steps) && steps <= l.StepLimit()
  {
    Min(Min(l.steps - steps, l.checkpointSteps - steps), Min(next, LeftAt(script, steps)))
  }

  /** The visit between call `i` and the next: the answer went on, and the visit ended as the world had it. */
  ghost predicate VisitBetween(l: Limits, script: Script, world: World, answers: Answers, i: nat, p: Call, c: Call)
    requires script.Ready()
  {
    && p.steps <= c.steps && p.steps <= l.StepLimit() && script.Lives(p.steps)
    && Between(l, answers(i, p.steps), p.part, p.steps, p.visits, true) == []
    && VisitEnds(script, world, world.entries(i), p.steps,
                 AllowanceAt(l, script, p.steps, answers(i, p.steps).decision.nextSteps), c.steps - p.steps, c.part)
    && c.visits == p.visits + if c.steps > p.steps || c.part == Faulted then 1 else 0
  }

  /** The calls of a run so far, each visit following from the answer before it. */
  ghost predicate Served(l: Limits, script: Script, world: World, answers: Answers, calls: seq<Call>)
    requires script.Ready()
  {
    && calls != [] && calls[0] == Call(0, 0, Paused)
    && forall i :: 0 <= i < |calls| - 1 ==> VisitBetween(l, script, world, answers, i, calls[i], calls[i + 1])
  }

  lemma ServedFirst(l: Limits, script: Script, world: World, answers: Answers)
    requires script.Ready()
    ensures Served(l, script, world, answers, [Call(0, 0, Paused)])
  {
  }

  lemma ServedSome(l: Limits, script: Script, world: World, answers: Answers, calls: seq<Call>)
    requires script.Ready() && Served(l, script, world, answers, calls)
    ensures calls != []
  {
  }

  lemma ServedOn(l: Limits, script: Script, world: World, answers: Answers, calls: seq<Call>, next: Call)
    requires script.Ready() && Served(l, script, world, answers, calls)
    requires VisitBetween(l, script, world, answers, |calls| - 1, calls[|calls| - 1], next)
    ensures Served(l, script, world, answers, calls + [next])
  {
    hide VisitBetween;
  }

  /** Each service call is told to charge what has retired since the one before it. */
  ghost predicate ChargedBy(calls: seq<Call>, charges: seq<nat>) {
    && |charges| <= |calls|
    && forall i :: 0 <= i < |charges| ==> charges[i] == Since(calls, i)
  }

  /** What has retired between service call `i` and the one before it. */
  ghost function Since(calls: seq<Call>, i: nat): int
    requires i < |calls|
  {
    calls[i].steps - if i == 0 then 0 else calls[i - 1].steps
  }

  /** The member of the last visit that counted. */
  ghost function LastCounted(script: Script, calls: seq<Call>): LastMember
    requires script.Ready()
  {
    var n := |calls| - 1;
    if n < 1 then NoMember
    else if calls[n].visits > calls[n - 1].visits && script.Lives(calls[n - 1].steps) then
      LastMember(script.g[MemberAt(script.g, script.At(calls[n - 1].steps).pc)].base)
    else LastCounted(script, calls[..n])
  }

  /** Run a chain graph with one service call before it, and one after every visit. */
  method RunServiced(l: Limits, script: Script, world: World, answers: Answers, entryValid: bool, active: bool, halted: bool)
      returns (r: Result, after: Cpu, ghost calls: seq<Call>)
    requires script.Ready()
    ensures after == script.At(r.steps) && Sum(r.charges) == r.steps
    ensures r.steps <= l.StepLimit() && r.visits <= l.VisitLimit() && (forall k :: 0 <= k < r.steps ==> script.Lives(k))
    ensures !l.Positive() || active ==> r == Refused(Invalid)
    ensures l.Positive() && !active && (halted || !entryValid) ==> r == Refused(if halted then ByExecutor else ByProof)
    ensures l.Positive() && !active && !halted && entryValid ==>
      && Served(l, script, world, answers, calls) && |r.charges| == |calls|
      && var n := |calls| - 1;
         && calls[n].steps == r.steps && calls[n].visits == r.visits && r.action == answers(n, r.steps).decision.action
         && Between(l, answers(n, r.steps), calls[n].part, r.steps, r.visits, script.Lives(r.steps)) == [r.stop]
         && Reports(l, answers(n, r.steps), calls[n].part, r.steps, r.visits, script.Lives(r.steps), r.stop)
         && (forall i :: 0 <= i < n ==>
               GoesOn(l, answers(i, calls[i].steps), calls[i].part, calls[i].steps, calls[i].visits, script.Lives(calls[i].steps)))
         && ChargedBy(calls, r.charges) && r.last == LastCounted(script, calls)
    ensures forall plan: Plan ::
      l.Positive() && !active && !halted && entryValid && Quiet(world) && Steady(answers, plan) && script.Lives(0) ==>
        AsBounded(l, script, world, plan, r) && |r.charges| == r.visits + 1 && r.action == plan.Answer(r.steps).decision.action
  {
    hide Admissible, Script.At, Script.Begins, Script.Visits, Script.Current, MemberAt, Quiet, Between, AsBounded,
         Follows, LastVisited, Served, VisitBetween, GoesOn, Reports, LastCounted, ChargedBy;
    script.NoSteps();
    calls := [Call(0, 0, Paused)];
    if !l.Positive() || active {
      return Refused(Invalid), script.cpu, calls;
    }
    if halted {
      return Refused(ByExecutor), script.cpu, calls;
    }
    if !entryValid {
      return Refused(ByProof), script.cpu, calls;
    }
    after, r := script.cpu, Result(0, 0, [], Invalid, Continue, NoMember);
    var delta, part := 0, Paused;
    Starts(l, script, world, answers, r);
    ServedFirst(l, script, world, answers);
    assert LastCounted(script, calls) == NoMember && ChargedBy(calls, []) by { NoneCounted(script, calls); }
    while true
      invariant after == script.At(r.steps) && Sum(r.charges) + delta == r.steps
      invariant Sound(l, script, world, answers, r)
      invariant Served(l, script, world, answers, calls) && |calls| == |r.charges| + 1
      invariant calls[|r.charges|] == Call(r.steps, r.visits, part)
      invariant ChargedBy(calls, r.charges) && r.last == LastCounted(script, calls)
      invariant delta == r.steps - if |r.charges| == 0 then 0 else calls[|r.charges| - 1].steps
      invariant Quiet(world) ==> part == Paused && |r.charges| == r.visits
      decreases l.StepLimit() - r.steps, if part == Paused then 1 else 0
    {
      var call := |r.charges|;
      var service := answers(call, r.steps);
      forall plan: Plan | Quiet(world) && Steady(answers, plan) ensures service == plan.Answer(r.steps) {
        AnswersPlan(l, script, world, answers, r, plan, call);
      }
      SumSnoc(r.charges, delta);
      ChargedMore(calls, r.charges, delta);
      r := r.(charges := r.charges + [delta], action := service.decision.action);
      var inside := MemberAt(script.g, after.pc) < |script.g|;
      var verdict := Between(l, service, part, r.steps, r.visits, inside);
      if verdict != [] {
        r := r.(stop := verdict[0]);
        forall plan: Plan | Quiet(world) && Steady(answers, plan) && script.Lives(0)
          ensures AsBounded(l, script, world, plan, r) && r.action == plan.Answer(r.steps).decision.action
        {
          ServicedStops(l, script, world, answers, plan, r);
        }
        BetweenExactly(l, service, part, r.steps, r.visits, inside);
        CallsGoOn(l, script, world, answers, calls);
        return;
      }
      GoesAround(l, service, part, r.steps, r.visits, inside);
      after, r, delta, part := VisitOnce(l, script, world, answers, after, service, r, part, call, calls);
      LastMore(script, calls, Call(r.steps, r.visits, part));
      ChargedLess(calls, r.charges, Call(r.steps, r.visits, part));
      calls := calls + [Call(r.steps, r.visits, part)];
    }
  }

  lemma NoneCounted(script: Script, calls: seq<Call>)
    requires script.Ready() && |calls| == 1
    ensures LastCounted(script, calls) == NoMember && ChargedBy(calls, [])
  {
  }

  lemma ChargedMore(calls: seq<Call>, charges: seq<nat>, delta: nat)
    requires ChargedBy(calls, charges) && |calls| == |charges| + 1
    requires delta == calls[|charges|].steps - if charges == [] then 0 else calls[|charges| - 1].steps
    ensures ChargedBy(calls, charges + [delta])
  {
  }

  lemma ChargedLess(calls: seq<Call>, charges: seq<nat>, next: Call)
    requires ChargedBy(calls, charges)
    ensures ChargedBy(calls + [next], charges)
  {
    forall i | 0 <= i < |charges| ensures Since(calls + [next], i) == Since(calls, i) {
    }
  }

  lemma LastMore(script: Script, calls: seq<Call>, c: Call)
    requires script.Ready() && calls != [] && script.Lives(calls[|calls| - 1].steps)
    ensures LastCounted(script, calls + [c]) ==
      if c.visits > calls[|calls| - 1].visits then
        LastMember(script.g[MemberAt(script.g, script.At(calls[|calls| - 1].steps).pc)].base)
      else LastCounted(script, calls)
  {
    assert (calls + [c])[..|calls|] == calls;
  }

  /** Select the member under the program counter and run its suffix within every allowance left. */
  method VisitOnce(l: Limits, script: Script, world: World, ghost answers: Answers, cpu: Cpu, service: Service, before: Result,
                   ghost ended: Part, call: nat, ghost calls: seq<Call>)
      returns (after: Cpu, r: Result, delta: nat, part: Part)
    requires script.Ready() && cpu == script.At(before.steps) && script.Lives(before.steps)
    requires Sound(l, script, world, answers, before)
    requires Between(l, service, ended, before.steps, before.visits, true) == []
    requires service == answers(call, before.steps)
    requires |calls| == call + 1 && calls[call] == Call(before.steps, before.visits, ended)
    requires Served(l, script, world, answers, calls)
    requires forall plan: Plan :: Quiet(world) && Steady(answers, plan) ==> service == plan.Answer(before.steps)
    ensures after == script.At(r.steps) && r.steps == before.steps + delta && r.charges == before.charges
    ensures r.last == if r.visits > before.visits
                      then LastMember(script.g[MemberAt(script.g, script.At(before.steps).pc)].base) else before.last
    ensures Sound(l, script, world, answers, r) && (part == Paused ==> delta > 0)
    ensures Quiet(world) ==> part == Paused && r.visits == before.visits + 1
    ensures Served(l, script, world, answers, calls + [Call(r.steps, r.visits, part)])
  {
    hide Admissible, Script.At, Script.Begins, Script.Visits, Script.Current, MemberFrom, Quiet, Follows, Member.Index,
         VisitEnds, Served, Between;
    GoesAround(l, service, ended, before.steps, before.visits, true);
    var i := MemberAt(script.g, cpu.pc);
    BlockAt(script.g, i);
    var left := |script.g[i].code| - script.g[i].Index(cpu.pc);
    var allowance := Min(Min(l.steps - before.steps, l.checkpointSteps - before.steps), Min(service.decision.nextSteps, left));
    after, delta, part := RunSuffix(script, world, world.entries(call), i, cpu, allowance, before.steps);
    r := before.(steps := before.steps + delta);
    if delta > 0 || part == Faulted {
      r := r.(visits := r.visits + 1, last := LastMember(script.g[i].base));
    }
    PausedAll(script, world, world.entries(call), before.steps, allowance, delta, part);
    ServedOn(l, script, world, answers, calls, Call(r.steps, r.visits, part));
    if Quiet(world) {
      QuietEntry(world, call);
      QuietVisit(script, world, world.entries(call), before.steps, allowance, delta, part);
    }
    forall plan: Plan | Quiet(world) && Steady(answers, plan) ensures Follows(l, script, plan, r.steps, r.visits) {
      assert Follows(l, script, plan, before.steps, before.visits);
      FollowsOn(l, script, plan, before.steps, before.visits, delta);
    }
  }

  lemma PausedAll(script: Script, world: World, entry: bool, start: nat, allowance: nat, done: nat, part: Part)
    requires script.Ready() && VisitEnds(script, world, entry, start, allowance, done, part)
    ensures part == Paused ==> done == allowance
  {
  }

  lemma QuietEntry(world: World, t: nat)
    requires Quiet(world)
    ensures world.entries(t)
  {
  }

  /** What holds between two visits. */
  ghost predicate Sound(l: Limits, script: Script, world: World, answers: Answers, r: Result)
    requires script.Ready()
  {
    && r.steps <= l.StepLimit() && r.visits <= l.VisitLimit() && (forall k :: 0 <= k < r.steps ==> script.Lives(k))
    && (Quiet(world) ==> LastVisited(script, r.steps, r.last))
    && (forall plan: Plan :: Quiet(world) && Steady(answers, plan) ==> Follows(l, script, plan, r.steps, r.visits))
  }

  /** A steady owner answers a run by its plan. */
  lemma AnswersPlan(l: Limits, script: Script, world: World, answers: Answers, r: Result, plan: Plan, call: nat)
    requires script.Ready() && Sound(l, script, world, answers, r) && Quiet(world) && Steady(answers, plan)
    ensures answers(call, r.steps) == plan.Answer(r.steps)
  {
    hide Quiet, Script.At, Script.Begins, Script.Visits, Admissible;
    assert Follows(l, script, plan, r.steps, r.visits);
  }

  lemma Starts(l: Limits, script: Script, world: World, answers: Answers, r: Result)
    requires script.Ready() && r == Result(0, 0, [], Invalid, Continue, NoMember)
    ensures Sound(l, script, world, answers, r)
  {
    hide Admissible, Script.At, Quiet, Steady;
    script.NoSteps();
  }

  /** Under a steady owner every visit starts where a visit of the single-stepped run does. */
  ghost predicate Follows(l: Limits, script: Script, plan: Plan, n: nat, visits: nat)
    requires script.Ready()
  {
    && n <= plan.cap && visits == script.Visits(n)
    && (n < Min(plan.cap, l.StepLimit()) ==> script.Begins(n))
  }

  lemma GoesAround(l: Limits, service: Service, part: Part, steps: nat, visits: nat, inside: bool)
    requires Between(l, service, part, steps, visits, inside) == []
    ensures part == Paused && inside && steps != l.steps && steps != l.checkpointSteps
    ensures visits != l.visits && visits != l.checkpointVisits && service.Verdict() == []
  {
  }

  /** One more visit under a steady owner. */
  lemma FollowsOn(l: Limits, script: Script, plan: Plan, start: nat, visits: nat, delta: nat)
    requires script.Ready() && Follows(l, script, plan, start, visits) && script.Lives(start) && start < Min(plan.cap, l.StepLimit())
    requires forall k :: start < k < start + delta ==> !script.Begins(k)
    requires var m := script.g[MemberAt(script.g, script.At(start).pc)];
      && m.base % 4 == 0
      && var left := |m.code| - m.Index(script.At(start).pc);
         && delta == Min(Min(l.steps - start, l.checkpointSteps - start), Min(plan.cap - start, left))
         && (delta == left ==> script.Begins(start + delta))
    ensures Follows(l, script, plan, start + delta, visits + 1)
  {
    hide Admissible, Script.At, Script.Begins, Script.Visits;
    OneVisitOnly(script, start, delta);
  }

  /** The run ended where, and why, the bounded runner ends under the same allowance. */
  ghost predicate AsBounded(l: Limits, script: Script, world: World, plan: Plan, r: Result)
    requires script.Ready()
  {
    var scene := Scene(script, world, Min(plan.cap, l.StepLimit()), l.VisitLimit());
    && scene.FirstHalt(r.steps) && r.visits == scene.Counted(r.steps) && LastWas(scene, r.steps, r.last)
    && r.stop == FinalStop(l, scene, plan.Keeper(), r.steps)
  }

  /** A steady owner ends an undisturbed run between visits exactly where, and why, the bounded runner stops. */
  lemma ServicedStops(l: Limits, script: Script, world: World, answers: Answers, plan: Plan, r: Result)
    requires script.Ready() && Quiet(world) && Steady(answers, plan) && l.Positive() && script.Lives(0)
    requires Sound(l, script, world, answers, r)
    requires Between(l, plan.Answer(r.steps), Paused, r.steps, r.visits, script.Lives(r.steps)) == [r.stop]
    ensures AsBounded(l, script, world, plan, r)
  {
    hide Admissible, Script.At, Script.Begins, Script.Visits, MemberFrom, Quiet, Scene.FirstHalt, Scene.ExitAt,
         Scene.Counted, Scene.Irrevocable;
    var scene := Scene(script, world, Min(plan.cap, l.StepLimit()), l.VisitLimit());
    script.OneVisit(r.steps);
    QuietRun(scene, r.steps);
    QuietExit(scene, r.steps);
    script.VisitsBound(r.steps);
    script.NoSteps();
  }

  /**
   The two runners agree: under the same limits and the same exact allowance an undisturbed run gives
   the same state, steps, visits, reason and last member, with two owner calls instead of one per visit.
   */
  method CompareRunners(l: Limits, script: Script, world: World, answers: Answers, plan: Plan)
      returns (bounded: Result, boundedCpu: Cpu, serviced: Result, servicedCpu: Cpu)
    requires script.Ready() && script.Lives(0) && Quiet(world) && l.Positive() && Steady(answers, plan)
    ensures boundedCpu == servicedCpu && bounded.(charges := []) == serviced.(charges := [])
    ensures Sum(bounded.charges) == Sum(serviced.charges)
    ensures |bounded.charges| == 2 && |serviced.charges| == bounded.visits + 1
    ensures boundedCpu == script.At(bounded.steps) && Sum(bounded.charges) == bounded.steps
    ensures AsBounded(l, script, world, plan, bounded) && bounded.action == plan.Answer(bounded.steps).decision.action
  {
    hide Admissible, Script.At, Script.Begins, Script.Visits, MemberFrom, Scene.ExitAt, Scene.Asked,
         Scene.Counted, Scene.Irrevocable, Scene.Halts, Quiet, Sum, FinalStop, Retires, ReasonExplained, BooksExplained,
         Served, GoesOn, Reports, ChargedBy, LastCounted, Between;
    var owner := plan.Keeper();
    script.NoSteps();
    bounded, boundedCpu := RunBounded(l, script, world, owner, true, false, false);
    ghost var calls;
    serviced, servicedCpu, calls := RunServiced(l, script, world, answers, true, false, false);
    var scene := Staged(l, script, world, owner);
    scene.FirstHaltUnique(bounded.steps, serviced.steps);
    QuietExit(scene, bounded.steps);
  }
}
