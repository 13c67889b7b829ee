/**
 Bounded execution of a chain graph. The runner is threaded code: operations linked to one another
 by pointers fixed when the graph was prepared, with a gate in front of every member suffix, and it
 keeps one budget across all members. It is proved to reach exactly the state single stepping
 reaches, whatever peers publish and the owner answers meanwhile: they only decide where it stops.
 */
module BoundedChain {
  import opened GuestGraph
  import opened Sums

  // ---- linked operations ----

  /** A linked operation: a gate before a member suffix, an instruction, or the exit. */
  datatype Pointer = Gate(member: nat, index: nat) | Op(member: nat, index: nat) | Outside

  /** The gate the preparation links a guest address to. */
  function GateAt(g: Graph, pc: nat): Pointer
    requires Admissible(g)
  {
    var i := MemberAt(g, pc);
    if i == |g| then Outside else (assert Block(g[i]); Gate(i, g[i].Index(pc)))
  }

  /** A pointer stands for the guest address `pc`. */
  ghost predicate PointsAt(g: Graph, p: Pointer, pc: nat) {
    match p
    case Outside => !Inside(g, pc)
    case Gate(m, j) => m < |g| && j < |g[m].code| && pc == g[m].base + 4 * j
    case Op(m, j) => m < |g| && j < |g[m].code| && pc == g[m].base + 4 * j
  }

  /** What a pointer's position says about the program counter it stands for. */
  lemma PointedMember(g: Graph, p: Pointer, pc: nat)
    requires Admissible(g) && PointsAt(g, p, pc) && !p.Outside?
    ensures MemberAt(g, pc) == p.member && Inside(g, pc)
    ensures p.member < |g| && p.index < |g[p.member].code| && pc == g[p.member].base + 4 * p.index
    ensures g[p.member].base % 4 == 0 && g[p.member].Contains(pc) && g[p.member].Index(pc) == p.index
    ensures InstrAt(g, pc) == g[p.member].code[p.index]
    ensures AtLast(g, pc) <==> p.index == |g[p.member].code| - 1
  {
    hide Admissible, Block;
    BlockAt(g, p.member);
    assert g[p.member].Contains(pc);
    MemberUnique(g, pc, p.member);
  }

  /** The successor link of instruction `j` of member `m`, taken or not, as preparation fixed it. */
  function Successor(g: Graph, m: nat, j: nat, taken: bool): Pointer
    requires Admissible(g) && m < |g| && j < |g[m].code|
    requires taken ==> g[m].code[j].Branches() && !g[m].code[j].Indirect()
  {
    if taken then GateAt(g, g[m].code[j].target)
    else if j + 1 < |g[m].code| then Op(m, j + 1)
    else GateAt(g, g[m].End())
  }

  lemma GateAtPoints(g: Graph, pc: nat)
    requires Admissible(g)
    ensures PointsAt(g, GateAt(g, pc), pc) && !GateAt(g, pc).Op?
  {
    if Inside(g, pc) {
      assert Block(g[MemberAt(g, pc)]);
    }
  }

  /** The links fixed at preparation follow the guest program counter, and leave a member only through a gate. */
  lemma SuccessorFollows(g: Graph, m: nat, j: nat, cpu: Cpu, loaded: nat)
    requires Admissible(g) && m < |g| && j < |g[m].code| && cpu.pc == g[m].base + 4 * j
    requires g[m].code[j].Takes(cpu) ==> !g[m].code[j].Indirect()
    ensures var instr := g[m].code[j];
      var p, next := Successor(g, m, j, instr.Takes(cpu)), instr.Step(cpu, loaded);
      PointsAt(g, p, next.pc) && (p.Op? <==> j + 1 < |g[m].code|)
  {
    assert Block(g[m]);
    var instr := g[m].code[j];
    GateAtPoints(g, g[m].End());
    if instr.Takes(cpu) {
      GateAtPoints(g, instr.target);
    }
  }

  /** An indirect branch: misaligned targets leave the graph, others are looked up in the target ranges. */
  method FollowIndirect(g: Graph, target: nat) returns (p: Pointer)
    requires Admissible(g)
    ensures p == GateAt(g, target) && PointsAt(g, p, target) && !p.Op?
  {
    GateAtPoints(g, target);
    if target % 4 != 0 {
      return Outside;
    }
    var i := SearchTargets(g, target);
    return if i == |g| then Outside else Gate(i, (target - g[i].base) / 4);
  }

  /** The operation that follows instruction `j` of member `m`: the next one, or the gate where the branch leads. */
  method Follow(g: Graph, m: nat, j: nat, cpu: Cpu, ghost loaded: nat) returns (p: Pointer)
    requires Admissible(g) && m < |g| && j < |g[m].code| && cpu.pc == g[m].base + 4 * j
    ensures PointsAt(g, p, g[m].code[j].Step(cpu, loaded).pc)
    ensures p.Op? <==> j + 1 < |g[m].code|
    ensures p.Op? ==> p == Op(m, j + 1)
  {
    BlockAt(g, m);
    var instr := g[m].code[j];
    if instr.Indirect() {
      p := FollowIndirect(g, instr.Destination(cpu));
    } else {
      SuccessorFollows(g, m, j, cpu, loaded);
      p := Successor(g, m, j, instr.Takes(cpu));
    }
  }

  // ---- what peers, owner and memory do to a run ----

  datatype Action = Continue | Irq | Deadline | Checkpoint | Preempt | Reselect | Unknown

  datatype Decision = Decision(nextSteps: nat, action: Action)

  datatype Stop =
    | Invalid | AtSteps | AtVisits | AtCheckpoint | AtAllowance | ByCallback | ByEvent
    | ByProof | LeftGraph | ByExecutor | ByPreparation

  /** One service call: what the owner decides, whether the graph validates after it, and whether an event is up. */
  datatype Service = Service(decision: Decision, valid: bool, event: bool)
  {
    /** The reason this answer ends the run for, or none. */
    function Verdict(): (s: seq<Stop>)
      ensures |s| <= 1
    {
      if !valid then [ByProof]
      else if decision.action == Unknown then [Invalid]
      else if decision.action != Continue then [ByCallback]
      else if event then [ByEvent]
      else if decision.nextSteps == 0 then [AtAllowance]
      else []
    }

    /** A final answer renews no allowance, so an exhausted one does not end the run again. */
    function Final(): Service {
      this.(decision := decision.(nextSteps := 1))
    }
  }

  /** What a gate sees of the peers when it polls: events first, then every proof token. */
  datatype Poll = Clear | Event | Stale

  /**
   How memory serves an access: from the hot path; from the hot path but into tracked code, which
   ends the run once published; or by a slow helper, which the owner may veto and which may fault.
   */
  datatype Path = Hot | Published | Slow(before: Service, faults: bool)

  /**
   Everything outside the guest, as the run observes it: whether the global guards hold after `t`
   retired instructions, what the gate reached there sees, and how an access made there is served; and,
   for a runner that leaves the executor between visits, whether the guards hold at its `t`-th re-entry.
   */
  datatype World = World(guards: nat -> bool, polls: nat -> Poll, paths: nat -> Path, entries: nat -> bool)

  datatype Exit = MaxSteps | Yielded | Revalidate | OutsideBlock | MemoryFault | Vetoed(stop: Stop, action: Action)

  // ---- where a run stops ----

  /** A run under its limits. */
  datatype Scene = Scene(script: Script, world: World, budget: nat, visits: nat)
  {
    predicate Ready() { script.Ready() }

    /** Instruction `n` is an access whose helper the owner is asked about. */
    predicate Asks(n: nat)
      requires Ready()
    {
      script.Lives(n) && script.Current(n).Load? && world.paths(n).Slow?
    }

    /** The owner vetoes the helper of instruction `n`, or the helper faults: the instruction does not retire. */
    predicate Blocked(n: nat)
      requires Ready()
    {
      Asks(n) && (world.paths(n).before.Verdict() != [] || world.paths(n).faults)
    }

    /** Instruction `n` retires but ends the run: its helper succeeded, or it wrote tracked code. */
    predicate Terminal(n: nat)
      requires Ready()
    {
      script.Lives(n) && script.Current(n).Load? && !world.paths(n).Hot? && !Blocked(n)
    }

    /** The gate before step `n`, if there is one, does not open. */
    predicate Shut(n: nat)
      requires Ready()
    {
      script.Begins(n) && (world.polls(n) != Clear || script.Visits(n) >= visits)
    }

    /** The run cannot retire another instruction after `n`. */
    predicate Halts(n: nat)
      requires Ready()
    {
      || (n > 0 && Terminal(n - 1))
      || !world.guards(n)
      || n >= budget
      || !script.Lives(n)
      || Shut(n)
      || Blocked(n)
    }

    ghost predicate FirstHalt(n: nat)
      requires Ready()
    {
      Halts(n) && forall k :: 0 <= k < n ==> !Halts(k)
    }

    /** Why it stopped there, in the order the runner looks. */
    function ExitAt(n: nat): Exit
      requires Ready()
    {
      if n > 0 && Terminal(n - 1) then Revalidate
      else if !world.guards(n) then Revalidate
      else if n >= budget then MaxSteps
      else if !script.Lives(n) then OutsideBlock
      else if Shut(n) then (if world.polls(n) == Stale then Revalidate else Yielded)
      else if Blocked(n) then
        var before := world.paths(n).before;
        if before.Verdict() != [] then Vetoed(before.Verdict()[0], before.decision.action) else MemoryFault
      else MaxSteps
    }

    /** The run ended inside an executor step that no service answer may undo: a helper ran, or code was published. */
    predicate Irrevocable(n: nat)
      requires Ready()
    {
      ExitAt(n) == MemoryFault || (n > 0 && Terminal(n - 1))
    }

    /** The gate before instruction `n` opened but nothing has retired behind it. */
    predicate Provisional(n: nat)
      requires Ready()
    {
      (ExitAt(n).MemoryFault? || ExitAt(n).Vetoed?) && script.Begins(n)
    }

    /** What the owner is told to charge before the run is over: nothing at first, the prefix before a helper. */
    function Asked(n: nat): seq<nat>
      requires Ready()
    {
      if n > 0 && Terminal(n - 1) then (if Asks(n - 1) then [0, n - 1] else [0])
      else if ExitAt(n).MemoryFault? || ExitAt(n).Vetoed? then [0, n]
      else [0]
    }

    /** Visits counted: every suffix that retired an instruction or faulted on its first one. */
    function Counted(n: nat): nat
      requires Ready()
    {
      script.Visits(n) + if ExitAt(n) == MemoryFault && script.Begins(n) then 1 else 0
    }

    /** Stopping between instructions: nothing is provisional, nothing was asked, nothing is irrevocable. */
    lemma StopsBetween(n: nat)
      requires Ready() && (n > 0 ==> !Terminal(n - 1))
      requires !world.guards(n) || n >= budget || !script.Lives(n) || Shut(n)
      ensures Halts(n) && !Irrevocable(n) && !Provisional(n) && Asked(n) == [0]
      ensures ExitAt(n) == if !world.guards(n) then Revalidate else if n >= budget then MaxSteps
                           else if !script.Lives(n) then OutsideBlock
                           else if world.polls(n) == Stale then Revalidate else Yielded
    {
    }

    /** A cold access ends the run, one way or the other. */
    lemma AccessEnds(n: nat)
      requires Ready() && script.Lives(n) && script.Current(n).Load? && !world.paths(n).Hot?
      requires (n > 0 ==> !Terminal(n - 1)) && world.guards(n) && n < budget && !Shut(n)
      ensures Asks(n) <==> world.paths(n).Slow?
      ensures Blocked(n) <==> world.paths(n).Slow? && (world.paths(n).before.Verdict() != [] || world.paths(n).faults)
      ensures Blocked(n) ==>
        && Halts(n) && Asked(n) == [0, n] && (Provisional(n) <==> script.Begins(n))
        && var before := world.paths(n).before;
           && ExitAt(n) == (if before.Verdict() != [] then Vetoed(before.Verdict()[0], before.decision.action)
                            else MemoryFault)
           && (Irrevocable(n) <==> before.Verdict() == [])
      ensures !Blocked(n) ==>
        && !Halts(n) && Halts(n + 1) && ExitAt(n + 1) == Revalidate && Irrevocable(n + 1) && !Provisional(n + 1)
        && Asked(n + 1) == if Asks(n) then [0, n] else [0]
    {
      if Blocked(n) {
        StopsAt(n);
      } else {
        StopsAfter(n);
        GoesOn(n);
      }
    }

    lemma NotShut(n: nat)
      requires Ready() && !script.Begins(n)
      ensures !Shut(n)
    {
    }

    lemma GoesOn(n: nat)
      requires Ready() && (n > 0 ==> !Terminal(n - 1))
      requires world.guards(n) && n < budget && script.Lives(n) && !Shut(n) && !Blocked(n)
      ensures !Halts(n)
    {
    }

    /** An instruction that is no access, or a hot one, neither blocks nor ends the run. */
    lemma Ordinary(n: nat)
      requires Ready() && script.Lives(n) && (!script.Current(n).Load? || world.paths(n).Hot?)
      ensures !Blocked(n) && !Terminal(n)
    {
    }

    /** An access that does not retire is where the run stops, in the middle of a visit. */
    lemma StopsAt(n: nat)
      requires Ready() && (n > 0 ==> !Terminal(n - 1)) && world.guards(n) && n < budget && !Shut(n) && Blocked(n)
      ensures Halts(n) && Asked(n) == [0, n] && (Provisional(n) <==> script.Begins(n))
      ensures var before := world.paths(n).before;
        && ExitAt(n) == (if before.Verdict() != [] then Vetoed(before.Verdict()[0], before.decision.action)
                         else MemoryFault)
        && (Irrevocable(n) <==> before.Verdict() == [])
    {
    }

    /** An access that retires and ends the run. */
    lemma StopsAfter(n: nat)
      requires Ready() && Terminal(n)
      ensures Halts(n + 1) && ExitAt(n + 1) == Revalidate && Irrevocable(n + 1) && !Provisional(n + 1)
      ensures Asked(n + 1) == if Asks(n) then [0, n] else [0]
      ensures !Blocked(n)
    {
    }

    /** A halted run is within its limits, and stood inside the graph before its last instruction. */
    lemma HaltedWithin(n: nat)
      requires Ready() && FirstHalt(n)
      ensures n <= budget && Counted(n) <= visits
      ensures n > 0 ==> script.Lives(n - 1)
      ensures ExitAt(n).MemoryFault? ==> script.Lives(n)
    {
      hide Script.At, Script.Visits, Script.Begins, Script.Ready, Script.Lives, Script.Current;
      VisitsWithin(n);
      if n > 0 {
        assert !Halts(n - 1);
      }
    }

    /** Charges before the final one never exceed what has retired. */
    lemma AskedSum(n: nat)
      requires Ready()
      ensures Sum(Asked(n)) <= n && Sum(Asked(n) + [n - Sum(Asked(n))]) == n
    {
      hide Terminal, ExitAt, Asks;
      var a := Asked(n);
      assert Sum([0]) == 0;
      assert |a| == 2 ==> a == [0] + [a[1]];
      if |a| == 2 {
        SumSnoc([0], a[1]);
      }
      SumSnoc(a, n - Sum(a));
    }

    /** There is only one place to stop. */
    lemma FirstHaltUnique(m: nat, n: nat)
      requires Ready() && FirstHalt(m) && FirstHalt(n)
      ensures m == n
    {
    }

    /** As long as a run has not had to stop it has not begun more visits than it may. */
    lemma {:induction false} VisitsWithin(n: nat)
      requires Ready() && forall k :: 0 <= k < n ==> !Halts(k)
      ensures script.Visits(n) <= visits
    {
      hide Script.At, Script.Begins, Script.Ready, Blocked, Terminal, Script.Lives;
      if n > 0 {
        VisitsWithin(n - 1);
        assert !Halts(n - 1);
        script.OneVisit(n - 1);
      }
    }
  }

  // ---- the runner ----

  class Runner {
    const scene: Scene
    var cpu: Cpu
    var pointer: Pointer
    var budget: nat
    var retired: nat
    var remaining: nat
    var entries: nat
    var lastMember: nat
    var previousMember: nat
    var memberStart: nat
    var event: bool
    var terminal: bool
    var exit: Exit
    var charged: seq<nat>   // what each service call so far was told to charge

    constructor (scene: Scene)
      requires scene.Ready() && scene.script.Lives(0) && scene.budget > 0
      ensures this.scene == scene && Fresh()
    {
      this.scene := scene;
      cpu, pointer := scene.script.cpu, GateAt(scene.script.g, scene.script.cpu.pc);
      budget, retired, remaining, entries := scene.budget, 0, scene.visits, 0;
      lastMember, previousMember, memberStart, event, terminal := 0, 0, 0, false, false;
      exit, charged := MaxSteps, [0];
      new;
      GateAtPoints(scene.script.g, cpu.pc);
    }

    ghost predicate Fresh()
      reads this
    {
      && scene.Ready() && cpu == scene.script.cpu && budget == scene.budget > 0 && retired == 0
      && remaining == scene.visits && entries == 0 && !event && !terminal && charged == [0]
      && pointer.Gate? && PointsAt(scene.script.g, pointer, cpu.pc)
    }

    /** The loop invariant of the executor. */
    ghost predicate Running()
      reads this
    {
      && scene.Ready() && cpu == scene.script.At(retired)
      && retired + budget == scene.budget && budget > 0 && entries + remaining == scene.visits
      && PointsAt(scene.script.g, pointer, cpu.pc) && !event && !terminal && charged == [0]
      && scene.world.guards(retired) && (retired > 0 ==> !scene.Terminal(retired - 1))
      && (forall k :: 0 <= k < retired ==> !scene.Halts(k))
      && (pointer.Op? ==> InMember())
      && (!pointer.Op? ==>
            && scene.script.Begins(retired) && entries == scene.script.Visits(retired)
            && (entries > 0 ==> memberStart < retired && lastMember == MemberAt(scene.script.g, scene.script.At(retired - 1).pc)))
    }

    /** Behind an open gate: the visit is provisional until its first instruction retires. */
    ghost predicate InMember()
      requires scene.Ready() && pointer.Op?
      reads this
    {
      && !scene.Shut(retired) && entries == scene.script.Visits(retired + 1) > 0
      && memberStart <= retired && lastMember == pointer.member
      && (memberStart == retired <==> scene.script.Begins(retired))
      && (memberStart < retired ==> lastMember == MemberAt(scene.script.g, scene.script.At(retired - 1).pc))
      && (memberStart == retired && entries > 1 ==>
            retired > 0 && previousMember == MemberAt(scene.script.g, scene.script.At(retired - 1).pc))
    }

    ghost predicate Done()
      reads this
    {
      && scene.Ready() && cpu == scene.script.At(retired) && scene.FirstHalt(retired)
      && exit == scene.ExitAt(retired)
      && (event <==> exit == Yielded && scene.world.polls(retired) == Event)
      && (terminal <==> scene.Irrevocable(retired))
      && charged == scene.Asked(retired)
      && entries == scene.script.Visits(retired) + (if scene.Provisional(retired) then 1 else 0)
      && (entries > 0 ==>
            && (memberStart == retired <==> scene.Provisional(retired))
            && (if memberStart == retired then
                  && lastMember == MemberAt(scene.script.g, cpu.pc)
                  && (entries > 1 ==> retired > 0 && previousMember == MemberAt(scene.script.g, scene.script.At(retired - 1).pc))
                else retired > 0 && lastMember == MemberAt(scene.script.g, scene.script.At(retired - 1).pc)))
    }

    /** Run until a budget, a proof, an event, an access or the edge of the graph stops it. */
    method Enter()
      requires Fresh()
      modifies this
      ensures Done()
    {
      hide Admissible, Script.At, Script.Visits, Script.Begins, Scene.Halts, Scene.Blocked, Scene.Terminal, Scene.ExitAt,
           Scene.Asked, Scene.Provisional, Scene.Irrevocable;
      scene.script.NoSteps();
      PointedMember(scene.script.g, pointer, cpu.pc);
      if !scene.world.guards(0) {
        scene.StopsBetween(0);
      }
      if !scene.world.guards(0) {
        exit := Revalidate;
        return;
      }
      while true
        invariant Running()
        decreases budget, if pointer.Op? then 0 else 1
      {
        match pointer
        case Outside =>
          scene.StopsBetween(retired);
          exit := OutsideBlock;
          return;
        case Gate(m, j) =>
          var stop := PassGate(m, j);
          if stop {
            return;
          }
        case Op(m, j) =>
          var stop := Retire(m, j);
          if stop {
            return;
          }
      }
    }

    /** The gate: events, then proofs, then the visit budget; an open gate starts a provisional visit. */
    method PassGate(m: nat, j: nat) returns (stop: bool)
      requires Running() && pointer == Gate(m, j)
      modifies this
      ensures if stop then Done() else Running() && pointer.Op? && budget == old(budget)
    {
      hide Admissible, Script.At, Script.Visits, Script.Begins, Scene.Halts, Scene.Blocked, Scene.Terminal, Scene.ExitAt,
           Scene.Asked, Scene.Provisional, Scene.Irrevocable, MemberFrom, Instr.Step, GateAt;
      PointedMember(scene.script.g, pointer, cpu.pc);
      if scene.Shut(retired) {
        scene.StopsBetween(retired);
      }
      match scene.world.polls(retired) {
        case Event =>
          event, exit := true, Yielded;
          return true;
        case Stale =>
          exit := Revalidate;
          return true;
        case Clear =>
      }
      if remaining == 0 {
        exit := Yielded;
        return true;
      }
      scene.script.OneVisit(retired);
      remaining, entries := remaining - 1, entries + 1;
      previousMember, lastMember, memberStart := lastMember, m, retired;
      pointer := Op(m, j);
      return false;
    }

    /** Execute the instruction under the pointer, follow its link, and check guards and budget. */
    method Retire(m: nat, j: nat) returns (stop: bool)
      requires Running() && pointer == Op(m, j)
      modifies this
      ensures if stop then Done() else Running() && budget < old(budget)
    {
      hide Admissible, Script.At, Script.Visits, Script.Begins, AtLast, MemberFrom, Instr.Step, PointsAt,
           Scene.Halts, Scene.Blocked, Scene.Terminal, Scene.ExitAt,
           Scene.Asked, Scene.Provisional, Scene.Irrevocable, Scene.Shut;
      PointedMember(scene.script.g, pointer, cpu.pc);
      var instr := scene.script.g[m].code[j];
      if instr.Load? && !scene.world.paths(retired).Hot? {
        Access(instr);
        return true;
      }
      Execute(m, j);
      if !scene.world.guards(retired) || budget == 0 {
        scene.StopsBetween(retired);
      }
      if !scene.world.guards(retired) {
        exit := Revalidate;
        return true;
      }
      if budget == 0 {
        exit := MaxSteps;
        return true;
      }
      if pointer.Op? {
        scene.NotShut(retired);
      }
      return false;
    }

    /** An instruction has retired and its guards and the budget have not been looked at yet. */
    ghost predicate Stepped()
      reads this
    {
      && scene.Ready() && cpu == scene.script.At(retired) && retired > 0
      && retired + budget == scene.budget && entries + remaining == scene.visits
      && PointsAt(scene.script.g, pointer, cpu.pc) && !event && !terminal && charged == [0]
      && !scene.Terminal(retired - 1) && (forall k :: 0 <= k < retired ==> !scene.Halts(k))
      && entries == scene.script.Visits(retired) > 0 && memberStart < retired
      && lastMember == MemberAt(scene.script.g, scene.script.At(retired - 1).pc)
      && (pointer.Op? <==> !scene.script.Begins(retired))
      && (pointer.Op? ==> pointer.member == lastMember && scene.script.Visits(retired + 1) == scene.script.Visits(retired))
    }

    /** Retire one ordinary instruction and follow its link. */
    method Execute(m: nat, j: nat)
      requires Running() && pointer == Op(m, j)
      requires m < |scene.script.g| && j < |scene.script.g[m].code|
      requires scene.script.g[m].code[j].Load? ==> scene.world.paths(retired).Hot?
      modifies this
      ensures Stepped() && budget == old(budget) - 1
    {
      hide Admissible, Script.At, Script.Visits, Script.Begins, AtLast, MemberFrom, Instr.Step, PointsAt,
           Scene.Halts, Scene.Blocked, Scene.Terminal, Scene.ExitAt,
           Scene.Asked, Scene.Provisional, Scene.Irrevocable, Scene.Shut;
      PointedMember(scene.script.g, pointer, cpu.pc);
      scene.Ordinary(retired);
      scene.GoesOn(retired);
      scene.script.OneStep(retired);
      scene.script.OneVisit(retired + 1);
      pointer := Follow(scene.script.g, m, j, cpu, scene.script.mem(retired));
      cpu := scene.script.g[m].code[j].Step(cpu, scene.script.mem(retired));
      retired, budget := retired + 1, budget - 1;
    }

    /** An access is about to be served off the hot path; it will be the last thing the run does. */
    ghost predicate Accessing()
      reads this
    {
      && Running() && pointer.Op?
      && scene.script.Lives(retired) && scene.script.Current(retired).Load? && !scene.world.paths(retired).Hot?
      && MemberAt(scene.script.g, cpu.pc) == pointer.member
    }

    /** An access the hot path does not finish: published code, or a helper the owner may veto. Always the last. */
    method Access(instr: Instr)
      requires Accessing() && scene.script.Current(retired) == instr
      modifies this
      ensures Done()
    {
      hide Admissible, Script.At, Script.Visits, Script.Begins, Script.Lives, Script.Current, AtLast, MemberAt, PointsAt,
           Scene.Halts, Scene.Blocked, Scene.Terminal, Scene.Shut, Done;
      scene.AccessEnds(retired);
      match scene.world.paths(retired)
      case Published =>
        Complete(instr);
      case Slow(before, faults) =>
        var stop := AskHelper(before, faults);
        if !stop {
          Complete(instr);
        }
    }

    /** The owner is asked before the helper runs; a veto or a fault leaves the instruction unretired. */
    method AskHelper(before: Service, faults: bool) returns (stop: bool)
      requires Accessing() && charged == [0] && scene.world.paths(retired) == Slow(before, faults)
      modifies this`charged, this`exit, this`terminal
      ensures stop <==> scene.Blocked(retired)
      ensures stop ==> Done()
      ensures !stop ==> charged == [0, retired] && terminal
    {
      hide Admissible, Script.At, Script.Visits, Script.Begins, AtLast, MemberFrom, Instr.Step, PointsAt,
           Scene.Halts, Scene.Blocked, Scene.Terminal, Scene.ExitAt,
           Scene.Asked, Scene.Provisional, Scene.Irrevocable, Scene.Shut;
      scene.AccessEnds(retired);
      scene.script.OneVisit(retired);
      charged := charged + [retired];
      var verdict := before.Verdict();
      if verdict != [] {
        exit := Vetoed(verdict[0], before.decision.action);
        return true;
      }
      terminal := true;
      if faults {
        exit := MemoryFault;
        return true;
      }
      return false;
    }

    /** The access is done: retire its instruction and leave for revalidation. */
    method Complete(instr: Instr)
      requires scene.Ready() && cpu == scene.script.At(retired) && retired < scene.budget && !event
      requires pointer.Op? && InMember() && MemberAt(scene.script.g, cpu.pc) == pointer.member
      requires scene.script.Lives(retired) && scene.script.Current(retired) == instr && instr.Load?
      requires !scene.world.paths(retired).Hot? && !scene.Blocked(retired) && scene.world.guards(retired)
      requires retired > 0 ==> !scene.Terminal(retired - 1)
      requires forall k :: 0 <= k < retired ==> !scene.Halts(k)
      requires charged == if scene.world.paths(retired).Slow? then [0, retired] else [0]
      modifies this
      ensures Done()
    {
      hide Admissible, Script.At, Script.Visits, Script.Begins, AtLast, MemberFrom, Instr.Step, PointsAt,
           Scene.Halts, Scene.Blocked, Scene.Terminal, Scene.ExitAt,
           Scene.Asked, Scene.Provisional, Scene.Irrevocable, Scene.Shut;
      scene.AccessEnds(retired);
      scene.script.OneStep(retired);
      terminal, exit := true, Revalidate;
      cpu, retired := instr.Step(cpu, scene.script.mem(retired)), retired + 1;
    }
  }

  // ---- the bounded runner ----

  datatype Limits = Limits(steps: nat, checkpointSteps: nat, visits: nat, checkpointVisits: nat)
  {
    predicate Positive() { steps > 0 && checkpointSteps > 0 && visits > 0 && checkpointVisits > 0 }

    function StepLimit(): nat { Min(steps, checkpointSteps) }

    function VisitLimit(): nat { Min(visits, checkpointVisits) }
  }

  /** Whether the graph validates on entry, and what the owner answers before a run and after `n` retired steps. */
  datatype Owner = Owner(entryValid: bool, initial: Service, final: nat -> Service)

  datatype LastMember = NoMember | LastMember(base: nat)

  datatype Result = Result(steps: nat, visits: nat, charges: seq<nat>, stop: Stop, action: Action, last: LastMember)

  function Min(a: nat, b: nat): nat { if a < b then a else b }

  function Refused(stop: Stop): Result { Result(0, 0, [], stop, Continue, NoMember) }

  /** Nothing refuses the run before its first gate. */
  predicate Entered(l: Limits, script: Script, owner: Owner, prepared: bool, active: bool, halted: bool) {
    && l.Positive() && !active && !halted && prepared && owner.entryValid
    && owner.initial.Verdict() == [] && Inside(script.g, script.cpu.pc)
  }

  /** What a run that is refused reports: the first obstacle, and the owner's answer if it was asked. */
  function Refusal(l: Limits, script: Script, owner: Owner, prepared: bool, active: bool, halted: bool): Result {
    if !l.Positive() || active then Refused(Invalid)
    else if halted then Refused(ByExecutor)
    else if !prepared then Refused(ByPreparation)
    else if !owner.entryValid then Refused(ByProof)
    else
      var verdict := owner.initial.Verdict();
      Refused(if verdict != [] then verdict[0] else LeftGraph).(charges := [0], action := owner.initial.decision.action)
  }

  /** The run those limits and that initial answer describe. */
  function Staged(l: Limits, script: Script, world: World, owner: Owner): Scene {
    Scene(script, world, Min(owner.initial.decision.nextSteps, l.StepLimit()), l.VisitLimit())
  }

  /** The reason a run that was entered reports, in the order the runner decides it. */
  function FinalStop(l: Limits, scene: Scene, owner: Owner, n: nat): Stop
    requires scene.Ready()
  {
    var exit, final := scene.ExitAt(n), owner.final(n).Final().Verdict();
    if scene.Irrevocable(n) then ByExecutor
    else if exit.Vetoed? then
      if !owner.final(n).valid || owner.final(n).decision.action != Continue then final[0] else exit.stop
    else if exit == Revalidate then ByProof
    else if final != [] then final[0]
    else if n == l.steps then AtSteps
    else if n == l.checkpointSteps || scene.Counted(n) == l.checkpointVisits then AtCheckpoint
    else if scene.Counted(n) == l.visits then AtVisits
    else if exit == Yielded && scene.world.polls(n) == Event then ByEvent
    else if exit == OutsideBlock then LeftGraph
    else AtAllowance
  }

  /** The owner's last word: its final answer, unless that one lets an earlier veto stand. */
  function FinalAction(scene: Scene, owner: Owner, n: nat): Action
    requires scene.Ready()
  {
    var exit := scene.ExitAt(n);
    if exit.Vetoed? && owner.final(n).valid && owner.final(n).decision.action == Continue then exit.action
    else owner.final(n).decision.action
  }

  /** The member the run was last in: where its last instruction retired, or where the first of a visit faulted. */
  ghost predicate LastWas(scene: Scene, n: nat, last: LastMember)
    requires scene.Ready()
  {
    if scene.Counted(n) == 0 then last == NoMember
    else
      var pc := if scene.ExitAt(n).MemoryFault? || n == 0 then scene.script.At(n).pc else scene.script.At(n - 1).pc;
      Inside(scene.script.g, pc) && last == LastMember(scene.script.g[MemberAt(scene.script.g, pc)].base)
  }

  // ---- what a run owes to peers, owner and memory, said without the runner's own notions ----

  /** The owner lets a run go on: the graph validates, no event is up, and some allowance is left. */
  predicate Agrees(s: Service) {
    s.valid && s.decision.action == Continue && !s.event && s.decision.nextSteps > 0
  }

  /** Instruction `k` is an access that is not served from the hot path. */
  ghost predicate Cold(script: Script, world: World, k: nat)
    requires script.Ready()
  {
    script.Lives(k) && script.Current(k).Load? && !world.paths(k).Hot?
  }

  /** After `k` instructions there is room for another by every limit on steps, and it is inside the graph. */
  ghost predicate Roomy(l: Limits, script: Script, owner: Owner, k: nat)
    requires script.Ready()
  {
    k < l.steps && k < l.checkpointSteps && k < owner.initial.decision.nextSteps && script.Lives(k)
  }

  /** The run stands before a gate after `k` instructions. */
  ghost predicate AtGate(l: Limits, script: Script, owner: Owner, k: nat)
    requires script.Ready()
  {
    Roomy(l, script, owner, k) && script.Begins(k)
  }

  /** The global guards fail after `n` instructions, or the gate there finds a proof that has moved. */
  ghost predicate Outdated(l: Limits, script: Script, world: World, owner: Owner, n: nat)
    requires script.Ready()
  {
    !world.guards(n) || (AtGate(l, script, owner, n) && world.polls(n) == Stale)
  }

  /**
   A run that has retired `k` instructions gets to the next one: none of them was a cold access, the
   global guards hold, there is room, and the gate there, if there is one, sees neither an event nor a
   moved proof and has a visit left.
   */
  ghost predicate Reaches(l: Limits, script: Script, world: World, owner: Owner, k: nat)
    requires script.Ready()
  {
    && (k > 0 ==> !Cold(script, world, k - 1)) && world.guards(k) && Roomy(l, script, owner, k)
    && (script.Begins(k) ==>
          world.polls(k) == Clear && script.Visits(k) < l.visits && script.Visits(k) < l.checkpointVisits)
  }

  /** The next instruction is reached, and the owner forbids the helper it needs. */
  ghost predicate Denied(l: Limits, script: Script, world: World, owner: Owner, k: nat)
    requires script.Ready()
  {
    && Reaches(l, script, world, owner, k) && script.Current(k).Load? && world.paths(k).Slow?
    && !Agrees(world.paths(k).before)
  }

  /** The next instruction is reached, and the helper it needs is allowed and faults. */
  ghost predicate Faults(l: Limits, script: Script, world: World, owner: Owner, k: nat)
    requires script.Ready()
  {
    && Reaches(l, script, world, owner, k) && script.Current(k).Load? && world.paths(k).Slow?
    && Agrees(world.paths(k).before) && world.paths(k).faults
  }

  /** The next instruction is reached and retires. */
  ghost predicate Retires(l: Limits, script: Script, world: World, owner: Owner, k: nat)
    requires script.Ready()
  {
    && Reaches(l, script, world, owner, k)
    && !Denied(l, script, world, owner, k) && !Faults(l, script, world, owner, k)
  }

  /** The last instruction a run retired was an access off the hot path. */
  ghost predicate ColdBefore(script: Script, world: World, n: nat)
    requires script.Ready()
  {
    n > 0 && Cold(script, world, n - 1)
  }

  /** The reason a run reports, by what the world showed where it stopped. */
  ghost predicate ReasonExplained(l: Limits, script: Script, world: World, owner: Owner, r: Result)
    requires script.Ready()
  {
    var n, final := r.steps, owner.final(r.steps);
    var ended := ColdBefore(script, world, n) || Faults(l, script, world, owner, n);
    && (r.stop == ByExecutor <==> ended)
    && (!ended ==>
          if Outdated(l, script, world, owner, n) || !final.valid then r.stop == ByProof
          else if final.decision.action == Unknown then r.stop == Invalid
          else if final.decision.action != Continue then r.stop == ByCallback
          else if Denied(l, script, world, owner, n) then DeniedBy(world.paths(n).before, r)
          else if final.event then r.stop == ByEvent
          else Limited(l, script, world, owner, r))
  }

  /** Visits, charges, action and last member a run reports, by what happened where it stopped. */
  ghost predicate BooksExplained(l: Limits, script: Script, world: World, owner: Owner, r: Result)
    requires script.Ready()
  {
    var n, final := r.steps, owner.final(r.steps);
    var denied, faults := Denied(l, script, world, owner, n), Faults(l, script, world, owner, n);
    && r.visits == script.Visits(n) + (if faults && script.Begins(n) then 1 else 0)
    && r.charges == (if ColdBefore(script, world, n) then (if world.paths(n - 1).Slow? then [0, n - 1, 1] else [0, n])
                     else if denied || faults then [0, n, 0] else [0, n])
    && r.action == (if denied && final.valid && final.decision.action == Continue
                    then world.paths(n).before.decision.action else final.decision.action)
    && (r.visits == 0 ==> r.last == NoMember)
    && (r.visits > 0 ==>
          exists i: nat ::
            && i < |script.g| && r.last == LastMember(script.g[i].base)
            && script.g[i].Contains(script.At(if faults || n == 0 then n else n - 1).pc))
  }

  /** The reason a helper was forbidden for. */
  ghost predicate DeniedBy(before: Service, r: Result) {
    && (r.stop == ByProof <==> !before.valid)
    && (r.stop == Invalid <==> before.valid && before.decision.action == Unknown)
    && (r.stop == ByCallback <==>
          before.valid && before.decision.action != Unknown && before.decision.action != Continue)
    && (r.stop == ByEvent <==> before.valid && before.decision.action == Continue && before.event)
    && (r.stop == AtAllowance <==>
          before.valid && before.decision.action == Continue && !before.event && before.decision.nextSteps == 0)
  }

  /** Which limit stopped a run nobody stopped; a gate's event counts when no limit is reached. */
  ghost predicate Limited(l: Limits, script: Script, world: World, owner: Owner, r: Result)
    requires script.Ready()
  {
    var n := r.steps;
    var counted := n == l.steps || n == l.checkpointSteps || r.visits == l.checkpointVisits || r.visits == l.visits;
    && (r.stop == AtSteps <==> n == l.steps)
    && (r.stop == AtCheckpoint <==> n != l.steps && (n == l.checkpointSteps || r.visits == l.checkpointVisits))
    && (r.stop == AtVisits <==>
          n != l.steps && n != l.checkpointSteps && r.visits != l.checkpointVisits && r.visits == l.visits)
    && (r.stop == ByEvent <==> !counted && AtGate(l, script, owner, n) && world.polls(n) == Event)
    && (r.stop == LeftGraph <==> !counted && n < owner.initial.decision.nextSteps && !script.Lives(n))
    && (r.stop == AtAllowance <==> !counted && n == owner.initial.decision.nextSteps)
  }

  /** A run that has not been stopped so far is stopped next exactly if it may not retire another instruction. */
  lemma HaltsExactly(l: Limits, script: Script, world: World, owner: Owner, k: nat)
    requires script.Ready() && (k > 0 ==> !Staged(l, script, world, owner).Blocked(k - 1))
    ensures Staged(l, script, world, owner).Halts(k) <==> !Retires(l, script, world, owner, k)
  {
    hide Admissible, Script.At, Script.Visits, Script.Begins, MemberFrom;
  }

  /** The place where a run stops is the only one with every instruction before it free to retire, and the next one not. */
  lemma StopsExactly(l: Limits, script: Script, world: World, owner: Owner, n: nat)
    requires script.Ready()
    ensures Staged(l, script, world, owner).FirstHalt(n) <==>
      (forall k :: 0 <= k < n ==> Retires(l, script, world, owner, k)) && !Retires(l, script, world, owner, n)
  {
    hide Admissible, Script.At, Script.Visits, Script.Begins, MemberFrom, Scene.Halts, Retires;
    var scene := Staged(l, script, world, owner);
    if scene.FirstHalt(n) {
      forall k | 0 <= k <= n ensures scene.Halts(k) <==> !Retires(l, script, world, owner, k) {
        if k > 0 {
          BlockedHalts(scene, k - 1);
        }
        HaltsExactly(l, script, world, owner, k);
      }
    } else if forall k :: 0 <= k < n ==> Retires(l, script, world, owner, k) {
      forall k | 0 <= k <= n ensures scene.Halts(k) <==> !Retires(l, script, world, owner, k) {
        if k > 0 {
          RetiresUnblocked(l, script, world, owner, k - 1);
        }
        HaltsExactly(l, script, world, owner, k);
      }
    }
  }

  lemma BlockedHalts(scene: Scene, k: nat)
    requires scene.Ready()
    ensures scene.Blocked(k) ==> scene.Halts(k)
  {
    hide Scene.Blocked;
  }

  lemma RetiresUnblocked(l: Limits, script: Script, world: World, owner: Owner, k: nat)
    requires script.Ready() && Retires(l, script, world, owner, k)
    ensures !Staged(l, script, world, owner).Blocked(k)
  {
    hide Admissible, Script.At, Script.Visits, Script.Begins, MemberFrom;
  }

  /** At that place, what the runner calls its exit is one of the exits' situations. */
  lemma SituationAt(l: Limits, script: Script, world: World, owner: Owner, n: nat)
    requires script.Ready() && Staged(l, script, world, owner).FirstHalt(n)
    ensures var scene := Staged(l, script, world, owner);
      var served := n > 0 && Cold(script, world, n - 1);
      && (served <==> n > 0 && scene.Terminal(n - 1))
      && (scene.ExitAt(n).MemoryFault? <==> Faults(l, script, world, owner, n))
      && (scene.ExitAt(n).Vetoed? <==> Denied(l, script, world, owner, n))
      && (scene.ExitAt(n).Revalidate? <==> served || Outdated(l, script, world, owner, n))
      && (scene.ExitAt(n).Vetoed? ==>
            && world.paths(n).Slow? && world.paths(n).before.Verdict() != []
            && scene.ExitAt(n) == Vetoed(world.paths(n).before.Verdict()[0], world.paths(n).before.decision.action))
      && (scene.ExitAt(n).MaxSteps? <==> !served && world.guards(n) && n == scene.budget)
      && (scene.ExitAt(n).OutsideBlock? <==> !served && world.guards(n) && n < scene.budget && !script.Lives(n))
      && (scene.ExitAt(n).Yielded? <==>
            !served && world.guards(n) && AtGate(l, script, owner, n)
            && (world.polls(n) == Event || (world.polls(n) == Clear && script.Visits(n) == scene.visits)))
  {
    hide Admissible, Script.At, Script.Visits, Script.Begins, MemberFrom;
    var scene := Staged(l, script, world, owner);
    scene.VisitsWithin(n);
    scene.HaltedWithin(n);
    if n > 0 {
      BlockedHalts(scene, n - 1);
    }
  }

  /** What is charged at a stop: nothing before the first gate, the prefix before a helper, the rest at the end. */
  lemma ChargesAt(scene: Scene, n: nat)
    requires scene.Ready()
    ensures scene.Asked(n) + [n - Sum(scene.Asked(n))] ==
      if n > 0 && scene.Terminal(n - 1) then (if scene.Asks(n - 1) then [0, n - 1, 1] else [0, n])
      else if scene.ExitAt(n).MemoryFault? || scene.ExitAt(n).Vetoed? then [0, n, 0]
      else [0, n]
  {
    hide Scene.Terminal, Scene.ExitAt, Scene.Asks;
    assert Sum([0]) == 0;
    SumSnoc([0], n);
    assert [0] + [n] == [0, n];
    if n > 0 {
      SumSnoc([0], n - 1);
      assert [0] + [n - 1] == [0, n - 1];
    }
  }

  lemma LastNone(scene: Scene, n: nat, last: LastMember)
    requires scene.Ready() && LastWas(scene, n, last) && scene.Counted(n) == 0
    ensures last == NoMember
  {
    hide Scene.Counted;
  }

  /** Where the last instruction of a stopped run lies. */
  lemma LastExplained(scene: Scene, n: nat, last: LastMember)
    requires scene.Ready() && LastWas(scene, n, last) && scene.Counted(n) > 0
    ensures exists i: nat ::
      && i < |scene.script.g| && last == LastMember(scene.script.g[i].base)
      && scene.script.g[i].Contains(scene.script.At(if scene.ExitAt(n).MemoryFault? || n == 0 then n else n - 1).pc)
  {
    hide Admissible, Script.At, Script.Visits, Script.Begins, MemberFrom, Scene.Halts, Scene.Blocked, Scene.Terminal,
         Scene.ExitAt, Scene.Shut, Scene.FirstHalt;
    scene.script.NoSteps();
  }

  /** The reason a run reports is explained by what the world showed where it stopped. */
  lemma ReasonHolds(l: Limits, script: Script, world: World, owner: Owner, r: Result)
    requires script.Ready() && Staged(l, script, world, owner).FirstHalt(r.steps)
    requires r.visits == Staged(l, script, world, owner).Counted(r.steps)
    requires r.stop == FinalStop(l, Staged(l, script, world, owner), owner, r.steps)
    ensures ReasonExplained(l, script, world, owner, r)
  {
    hide Admissible, Script.At, Script.Visits, Script.Begins, MemberFrom, Scene.Halts, Scene.Blocked, Scene.Terminal,
         Scene.ExitAt, Scene.Shut, Scene.FirstHalt, Denied, Faults, Outdated, Cold;
    SituationAt(l, script, world, owner, r.steps);
  }

  /** And so are the counts, the charges, the action and the member. */
  lemma BooksHold(l: Limits, script: Script, world: World, owner: Owner, r: Result)
    requires script.Ready() && Staged(l, script, world, owner).FirstHalt(r.steps)
    requires var scene, n := Staged(l, script, world, owner), r.steps;
      && r.visits == scene.Counted(n) && LastWas(scene, n, r.last) && r.action == FinalAction(scene, owner, n)
      && r.charges == scene.Asked(n) + [n - Sum(scene.Asked(n))]
    ensures BooksExplained(l, script, world, owner, r)
  {
    hide Admissible, Script.At, Script.Visits, Script.Begins, MemberFrom, Scene.Halts, Scene.Blocked,
         Scene.ExitAt, Scene.Shut, Scene.FirstHalt, Scene.Asked, Denied, Faults, Outdated, Sum, LastWas;
    var scene, n := Staged(l, script, world, owner), r.steps;
    SituationAt(l, script, world, owner, n);
    ChargesAt(scene, n);
    if r.visits > 0 {
      LastExplained(scene, n, r.last);
    } else {
      LastNone(scene, n, r.last);
    }
  }

  /**
   Run a chain graph to a limit, an event, a failed proof, a slow access or the edge of the graph.
   The state reached is the one single stepping reaches, and every retired step is charged once.
   */
  method RunBounded(l: Limits, script: Script, world: World, owner: Owner,
                    prepared: bool, active: bool, halted: bool) returns (r: Result, after: Cpu)
    requires script.Ready()
    ensures after == script.At(r.steps) && Sum(r.charges) == r.steps <= l.StepLimit() && r.visits <= l.VisitLimit()
    ensures !Entered(l, script, owner, prepared, active, halted) ==> r.steps == 0 && r.visits == 0 && |r.charges| <= 1
    ensures !Entered(l, script, owner, prepared, active, halted) ==>
      r == Refusal(l, script, owner, prepared, active, halted)
    ensures Entered(l, script, owner, prepared, active, halted) ==>
      var scene := Staged(l, script, world, owner);
      && scene.FirstHalt(r.steps) && r.visits == scene.Counted(r.steps)
      && r.stop == FinalStop(l, scene, owner, r.steps) && LastWas(scene, r.steps, r.last)
      && r.charges == scene.Asked(r.steps) + [r.steps - Sum(scene.Asked(r.steps))]
      && r.action == FinalAction(scene, owner, r.steps)
    ensures (l.Positive() && !active && !halted && prepared && owner.entryValid && Agrees(owner.initial)
             && Inside(script.g, script.cpu.pc)) ==>
      && (forall k :: 0 <= k < r.steps ==> Retires(l, script, world, owner, k))
      && !Retires(l, script, world, owner, r.steps)
      && ReasonExplained(l, script, world, owner, r) && BooksExplained(l, script, world, owner, r)
    ensures r.steps > 0 || r.visits > 0 ==>
      && l.Positive() && !active && !halted && prepared && owner.entryValid && Agrees(owner.initial)
      && Inside(script.g, script.cpu.pc)
    ensures l.Positive() && !active && !halted && prepared && owner.entryValid && !Agrees(owner.initial) ==>
      DeniedBy(owner.initial, r)
  {
    hide Admissible, Script.At, Script.Visits, Script.Begins, Retires, ReasonExplained, BooksExplained,
         Scene.FirstHalt, FinalStop, FinalAction, LastWas, Scene.Counted, Scene.Asked, Sum;
    script.NoSteps();
    assert Sum([]) == 0 && Sum([0]) == 0 by { SumZeros([]); SumZeros([0]); }
    if !l.Positive() || active {
      return Refused(Invalid), script.cpu;
    }
    if halted {
      return Refused(ByExecutor), script.cpu;
    }
    if !prepared {
      return Refused(ByPreparation), script.cpu;
    }
    if !owner.entryValid {
      return Refused(ByProof), script.cpu;
    }
    var verdict := owner.initial.Verdict();
    if verdict != [] {
      return Refused(verdict[0]).(charges := [0], action := owner.initial.decision.action), script.cpu;
    }
    if MemberAt(script.g, script.cpu.pc) == |script.g| {
      return Refused(LeftGraph).(charges := [0], action := owner.initial.decision.action), script.cpu;
    }
    r, after := RunEntered(l, script, world, owner);
    StopsExactly(l, script, world, owner, r.steps);
    ReasonHolds(l, script, world, owner, r);
    BooksHold(l, script, world, owner, r);
  }

  /** The part of a run that passes its first gate or more: execute, then settle. */
  method RunEntered(l: Limits, script: Script, world: World, owner: Owner) returns (r: Result, after: Cpu)
    requires script.Ready() && l.Positive() && owner.initial.Verdict() == [] && Inside(script.g, script.cpu.pc)
    ensures after == script.At(r.steps) && Sum(r.charges) == r.steps <= l.StepLimit() && r.visits <= l.VisitLimit()
    ensures var scene := Staged(l, script, world, owner);
      && scene.FirstHalt(r.steps) && r.visits == scene.Counted(r.steps)
      && r.stop == FinalStop(l, scene, owner, r.steps) && LastWas(scene, r.steps, r.last)
      && r.charges == scene.Asked(r.steps) + [r.steps - Sum(scene.Asked(r.steps))]
      && r.action == FinalAction(scene, owner, r.steps)
  {
    hide Admissible, Script.At, Script.Visits, Script.Begins;
    script.NoSteps();
    var scene := Staged(l, script, world, owner);
    var run := new Runner(scene);
    run.Enter();
    r := Settle(run, l, owner);
    after := run.cpu;
  }

  /** After the graph was left: snapshot, final service, and the reason to report. */
  method Settle(run: Runner, l: Limits, owner: Owner) returns (r: Result)
    requires run.Done() && run.scene == Staged(l, run.scene.script, run.scene.world, owner)
    ensures r.steps == run.retired && Sum(r.charges) == r.steps <= l.StepLimit() && r.visits <= l.VisitLimit()
    ensures r.visits == run.scene.Counted(r.steps) && r.stop == FinalStop(l, run.scene, owner, r.steps)
    ensures LastWas(run.scene, r.steps, r.last)
    ensures r.charges == run.scene.Asked(r.steps) + [r.steps - Sum(run.scene.Asked(r.steps))]
    ensures r.action == FinalAction(run.scene, owner, r.steps)
  {
    hide Admissible, Script.At, Script.Visits, Script.Begins, MemberFrom, Scene.Halts, Scene.Blocked, Scene.Terminal,
         Scene.Asks, Scene.ExitAt, Scene.Shut, Scene.FirstHalt;
    var scene, n := run.scene, run.retired;
    scene.HaltedWithin(n);
    scene.script.NoSteps();
    if n > 0 && !scene.script.Begins(n) {
      scene.script.InsideBetween(n);
    }
    // The last gate counts only if something retired, or faulted, after it opened.
    var visits, last := run.entries, run.lastMember;
    if visits > 0 && run.memberStart == n && !run.exit.MemoryFault? {
      visits, last := visits - 1, run.previousMember;
    }
    var member := if visits > 0 then LastMember(scene.script.g[last].base) else NoMember;
    var charges := run.charged + [n - Sum(run.charged)];
    scene.AskedSum(n);
    var stop, action := Decide(run, l, owner, visits);
    return Result(n, visits, charges, stop, action, member);
  }

  /** The reason and the action to report, decided from where the runner stands and the final answer. */
  method Decide(run: Runner, l: Limits, owner: Owner, visits: nat) returns (stop: Stop, action: Action)
    requires run.Done() && visits == run.scene.Counted(run.retired)
    ensures stop == FinalStop(l, run.scene, owner, run.retired) && action == FinalAction(run.scene, owner, run.retired)
  {
    hide Script.At, Script.Visits, Script.Begins, MemberFrom, Scene.Halts, Scene.Blocked, Scene.Terminal,
         Scene.Asks, Scene.Shut, Scene.FirstHalt, Scene.Counted, Scene.Asked, Scene.Provisional, Scene.ExitAt;
    ExitReasons(run.scene, run.retired);
    var final := owner.final(run.retired);
    action := final.decision.action;
    if run.terminal || run.exit.MemoryFault? {
      stop := ByExecutor;
    } else if run.exit.Vetoed? {
      if !final.valid {
        stop := ByProof;
      } else if action == Unknown {
        stop := Invalid;
      } else if action != Continue {
        stop := ByCallback;
      } else {
        stop, action := run.exit.stop, run.exit.action;
      }
    } else if run.exit.Revalidate? || !final.valid {
      stop := ByProof;
    } else if action == Unknown {
      stop := Invalid;
    } else if action != Continue {
      stop := ByCallback;
    } else if final.event {
      stop := ByEvent;
    } else if run.retired == l.steps {
      stop := AtSteps;
    } else if run.retired == l.checkpointSteps || visits == l.checkpointVisits {
      stop := AtCheckpoint;
    } else if visits == l.visits {
      stop := AtVisits;
    } else if run.event {
      stop := ByEvent;
    } else if run.exit.OutsideBlock? {
      stop := LeftGraph;
    } else {
      stop := AtAllowance;
    }
  }

  /** A memory fault is irrevocable, and what is irrevocable is a fault or ends for revalidation. */
  lemma ExitReasons(scene: Scene, n: nat)
    requires scene.Ready()
    ensures scene.ExitAt(n).MemoryFault? ==> scene.Irrevocable(n)
    ensures scene.Irrevocable(n) ==> scene.ExitAt(n).MemoryFault? || scene.ExitAt(n).Revalidate?
  {
  }
}
