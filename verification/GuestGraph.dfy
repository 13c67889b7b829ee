/**
 The guest code a chain graph holds: a small slice of the guest instruction set (the forms that
 matter to control flow), members that are straight-line blocks with a branch only at the end, and
 plain single stepping over them, which is the reference every runner is compared with.
 */
module GuestGraph {
  import opened Words

  /** Register 31 reads as zero and ignores writes. */
  const ZR: nat := 31
  const LR: nat := 30

  datatype Flags = Flags(n: bool, z: bool, c: bool, v: bool)

  datatype Cpu = Cpu(pc: nat, x: map<nat, nat>, flags: Flags)
  {
    function Read(r: nat): nat {
      if r == ZR || r !in x then 0 else x[r]
    }

    function Write(r: nat, value: nat): Cpu {
      if r == ZR then this else this.(x := x[r := value % WORD])
    }
  }

  datatype Instr =
    | Nop
    | Add(d: nat, n: nat, imm: nat)
    | Adds(d: nat, n: nat, imm: nat)
    | Adc(d: nat, n: nat, m: nat)
    | Load(d: nat)
    | B(target: nat)
    | BEq(target: nat)
    | Cbz(t: nat, target: nat)
    | Tbz(t: nat, bit: nat, target: nat)
    | Br(n: nat)
    | Blr(n: nat)
  {
    predicate Branches() { B? || BEq? || Cbz? || Tbz? || Br? || Blr? }

    predicate Indirect() { Br? || Blr? }

    /** Whether a branch leaves the straight line. */
    predicate Takes(cpu: Cpu) {
      match this
      case B(_) | Br(_) | Blr(_) => true
      case BEq(_) => cpu.flags.z
      case Cbz(t, _) => cpu.Read(t) == 0
      case Tbz(t, bit, _) => cpu.Read(t) / Pow2(bit) % 2 == 0
      case _ => false
    }

    function Destination(cpu: Cpu): nat
      requires Branches()
    {
      if Indirect() then cpu.Read(n) else target
    }

    /** The effect on everything but the program counter; `loaded` is what memory answers a load. */
    function Effect(cpu: Cpu, loaded: nat): Cpu {
      match this
      case Add(d, n, imm) => cpu.Write(d, cpu.Read(n) + imm)
      case Adds(d, n, imm) => cpu.(flags := AddFlags(cpu.Read(n), imm)).Write(d, cpu.Read(n) + imm)
      case Adc(d, n, m) => cpu.Write(d, cpu.Read(n) + cpu.Read(m) + if cpu.flags.c then 1 else 0)
      case Load(d) => cpu.Write(d, loaded)
      case Blr(_) => cpu.Write(LR, cpu.pc + 4)
      case _ => cpu
    }

    /** One retired instruction. A linking branch reads its target before it writes the link. */
    function Step(cpu: Cpu, loaded: nat): (r: Cpu)
      ensures r.pc == if Takes(cpu) then Destination(cpu) else cpu.pc + 4
    {
      Effect(cpu, loaded).(pc := if Takes(cpu) then Destination(cpu) else cpu.pc + 4)
    }
  }

  function Pow2(k: nat): (p: nat)
    ensures p > 0
  {
    if k == 0 then 1 else 2 * Pow2(k - 1)
  }

  function AddFlags(a: nat, b: nat): Flags {
    var sum := (a + b) % WORD;
    var half := WORD / 2;
    Flags(sum >= half, sum == 0, a + b >= WORD, (a >= half) == (b >= half) && (a >= half) != (sum >= half))
  }

  datatype Member = Member(base: nat, code: seq<Instr>)
  {
    function End(): nat { base + 4 * |code| }

    predicate Contains(pc: nat) { pc % 4 == 0 && base <= pc < End() }

    function Index(pc: nat): (j: nat)
      requires base % 4 == 0 && Contains(pc)
      ensures j < |code| && pc == base + 4 * j
    {
      (pc - base) / 4
    }
  }

  const MAX_MEMBERS: nat := 8
  const MAX_INSTRUCTIONS: nat := 16
  const PAGE: nat := 4096

  type Graph = seq<Member>

  /** What the runtime admits: few, small, sorted, disjoint, single-page members that branch only at their end. */
  predicate Admissible(g: Graph) {
    && 1 <= |g| <= MAX_MEMBERS
    && (forall i :: 0 <= i < |g| ==> Block(g[i]))
    && (forall i :: 0 < i < |g| ==> g[i - 1].End() <= g[i].base)
  }

  predicate Block(m: Member) {
    && 1 <= |m.code| <= MAX_INSTRUCTIONS
    && m.base % 4 == 0 && m.End() < WORD
    && m.base / PAGE == (m.base + 4 * (|m.code| - 1)) / PAGE
    && (forall j :: 0 <= j < |m.code| - 1 ==> !m.code[j].Branches())
  }

  /** The first member that holds `pc`, or the member count. */
  function MemberFrom(g: Graph, pc: nat, i: nat): (r: nat)
    requires i <= |g|
    ensures i <= r <= |g|
    ensures r < |g| ==> g[r].Contains(pc)
    ensures forall k :: i <= k < r ==> !g[k].Contains(pc)
    decreases |g| - i
  {
    if i == |g| || g[i].Contains(pc) then i else MemberFrom(g, pc, i + 1)
  }

  function MemberAt(g: Graph, pc: nat): (r: nat)
    ensures r <= |g|
    ensures r < |g| ==> g[r].Contains(pc)
    ensures forall k :: 0 <= k < r ==> !g[k].Contains(pc)
  {
    MemberFrom(g, pc, 0)
  }

  predicate Inside(g: Graph, pc: nat) { MemberAt(g, pc) < |g| }

  function InstrAt(g: Graph, pc: nat): Instr
    requires Admissible(g) && Inside(g, pc)
  {
    var m := g[MemberAt(g, pc)];
    m.code[m.Index(pc)]
  }

  /** The last instruction of its member, the only place control can leave a member from. */
  predicate AtLast(g: Graph, pc: nat)
    requires Admissible(g) && Inside(g, pc)
  {
    var m := g[MemberAt(g, pc)];
    m.Index(pc) == |m.code| - 1
  }

  /** What memory answers the load that is the `t`-th instruction of a run. */
  type Memory = nat -> nat

  /** A guest run: the code, what memory will answer, and the state it starts from. */
  datatype Script = Script(g: Graph, mem: Memory, cpu: Cpu)
  {
    predicate Ready() { Admissible(g) }

    /** The state after `k` single steps; a program counter outside the graph is where stepping stops. */
    function At(k: nat): Cpu
      requires Ready()
    {
      if k == 0 then cpu
      else
        var c := At(k - 1);
        if Inside(g, c.pc) then InstrAt(g, c.pc).Step(c, mem(k - 1)) else c
    }

    /** Step number `k` is still inside the graph. */
    predicate Lives(k: nat)
      requires Ready()
    {
      Inside(g, At(k).pc)
    }

    /** The instruction that step number `k` executes. */
    function Current(k: nat): Instr
      requires Ready() && Lives(k)
    {
      InstrAt(g, At(k).pc)
    }

    /** Step number `k` begins a visit: it is the first, or the step before it left a member. */
    predicate Begins(k: nat)
      requires Ready()
    {
      k == 0 || (Lives(k - 1) && AtLast(g, At(k - 1).pc))
    }

    /** How many visits the first `k` steps begin. */
    function Visits(k: nat): nat
      requires Ready()
    {
      if k == 0 then 0 else Visits(k - 1) + if Begins(k - 1) then 1 else 0
    }

    lemma OneStep(k: nat)
      requires Ready() && Lives(k)
      ensures At(k + 1) == Current(k).Step(At(k), mem(k))
      ensures Begins(k + 1) <==> AtLast(g, At(k).pc)
    {
    }

    lemma OneVisit(k: nat)
      requires Ready()
      ensures Visits(k + 1) == Visits(k) + if Begins(k) then 1 else 0
    {
    }

    lemma NoSteps()
      requires Ready()
      ensures At(0) == cpu && Begins(0) && Visits(0) == 0
    {
    }

    /** Between visits a run stays inside: only the start and the ends of members can leave the graph. */
    lemma InsideBetween(k: nat)
      requires Ready() && k > 0 && !Begins(k) && Lives(k - 1)
      ensures Lives(k) && MemberAt(g, At(k).pc) == MemberAt(g, At(k - 1).pc)
    {
      FallsThrough(g, At(k - 1), mem(k - 1));
    }

    /** A positive number of steps begins at least one visit, and no more visits than steps. */
    lemma {:induction false} VisitsBound(k: nat)
      requires Ready()
      ensures Visits(k) <= k && (k > 0 ==> Visits(k) > 0)
    {
      hide At, Ready;
      if k > 0 {
        VisitsBound(k - 1);
      }
    }
  }

  lemma BlockAt(g: Graph, i: nat)
    requires Admissible(g) && i < |g|
    ensures Block(g[i]) && g[i].base % 4 == 0
  {
  }

  // ---- looking members up ----

  lemma {:induction false} Sorted(g: Graph, i: nat, j: nat)
    requires Admissible(g) && i < j < |g|
    ensures g[i].End() <= g[j].base
  {
    if i + 1 < j {
      Sorted(g, i, j - 1);
      assert Block(g[j - 1]);
    }
  }

  /** At most one member holds a program counter. */
  lemma MemberUnique(g: Graph, pc: nat, i: nat)
    requires Admissible(g) && i < |g| && g[i].Contains(pc)
    ensures MemberAt(g, pc) == i
  {
    var r := MemberAt(g, pc);
    if r < i {
      Sorted(g, r, i);
    }
  }

  /** The lookup of an indirect branch: a binary search over the pinned, sorted target ranges. */
  method SearchTargets(g: Graph, pc: nat) returns (i: nat)
    requires Admissible(g) && pc % 4 == 0
    ensures i == MemberAt(g, pc)
  {
    var lo, hi := 0, |g|;
    while lo < hi
      invariant lo <= hi <= |g|
      invariant forall k :: 0 <= k < lo ==> !g[k].Contains(pc)
      invariant forall k :: hi <= k < |g| ==> !g[k].Contains(pc)
    {
      var mid := lo + (hi - lo) / 2;
      assert Block(g[mid]);
      if pc < g[mid].base {
        forall k | mid < k < |g| ensures !g[k].Contains(pc) {
          Sorted(g, mid, k);
        }
        hi := mid;
      } else if (pc - g[mid].base) / 4 >= |g[mid].code| {
        forall k | 0 <= k < mid ensures !g[k].Contains(pc) {
          Sorted(g, k, mid);
        }
        lo := mid + 1;
      } else {
        MemberUnique(g, pc, mid);
        return mid;
      }
    }
    return |g|;
  }

  /** Inside a member, an instruction that is not the last falls through to the next one. */
  lemma FallsThrough(g: Graph, cpu: Cpu, loaded: nat)
    requires Admissible(g) && Inside(g, cpu.pc) && !AtLast(g, cpu.pc)
    ensures var next := InstrAt(g, cpu.pc).Step(cpu, loaded);
      && MemberAt(g, next.pc) == MemberAt(g, cpu.pc)
      && g[MemberAt(g, cpu.pc)].Index(next.pc) == g[MemberAt(g, cpu.pc)].Index(cpu.pc) + 1
  {
    hide Admissible, Block, MemberAt, Instr.Step;
    var i := MemberAt(g, cpu.pc);
    var m := g[i];
    BlockAt(g, i);
    var j := m.Index(cpu.pc);
    StraightOn(m, j, cpu, loaded);
    MemberUnique(g, cpu.pc + 4, i);
  }

  lemma StraightOn(m: Member, j: nat, cpu: Cpu, loaded: nat)
    requires Block(m) && j < |m.code| - 1
    ensures m.code[j].Step(cpu, loaded).pc == cpu.pc + 4
  {
    hide Instr.Effect;
    assert !m.code[j].Branches();
  }

  // ---- what the instructions mean ----

  /** A word read as two's complement. */
  function Signed(w: nat): int { if w < WORD / 2 then w else w - WORD }

  /** The flags of an addition: sign and zero of the sum, carry out of the word, and signed overflow. */
  lemma FlagsMean(a: nat, b: nat)
    requires a < WORD && b < WORD
    ensures var sum, f := (a + b) % WORD, AddFlags(a, b);
      && (f.n <==> Signed(sum) < 0) && (f.z <==> sum == 0)
      && a + b == (if f.c then WORD else 0) + sum
      && (f.v <==> Signed(a) + Signed(b) != Signed(sum))
  {
  }

  /**
   Two words added as one: a low half with its carry, then a high half that takes it in. What is lost is
   at most a carry out of the high half.
   */
  lemma WideAddition(cpu: Cpu, imm: nat, loaded: nat) returns (out: nat)
    requires imm < WORD && cpu.Read(0) < WORD && cpu.Read(1) < WORD && cpu.Read(2) < WORD
    ensures var low := Adds(0, 0, imm).Step(cpu, loaded);
      var high := Adc(1, 1, 2).Step(low, loaded);
      && high.pc == cpu.pc + 8 && high.flags == low.flags && high.Read(0) < WORD && high.Read(1) < WORD && out <= 1
      && WORD * (cpu.Read(1) + cpu.Read(2)) + (cpu.Read(0) + imm) == WORD * (WORD * out + high.Read(1)) + high.Read(0)
  {
    hide WORD, Instr.Step, AddFlags, Cpu.Read;
    LowHalf(cpu, imm, loaded);
    var low := Adds(0, 0, imm).Step(cpu, loaded);
    HighHalf(low, loaded);
    CarryOut(cpu.Read(0), imm);
    out := WideNumbers(WORD, cpu.Read(1), cpu.Read(2), cpu.Read(0) + imm, low.flags.c, low.Read(0));
  }

  lemma CarryOut(a: nat, b: nat)
    requires a < WORD && b < WORD
    ensures a + b == (if AddFlags(a, b).c then WORD else 0) + (a + b) % WORD && (a + b) % WORD < WORD
  {
    FlagsMean(a, b);
  }

  lemma WideNumbers(w: nat, a: nat, b: nat, total: nat, carry: bool, low: nat) returns (out: nat)
    requires a < w && b < w && low < w && total == (if carry then w else 0) + low
    ensures out <= 1 && (a + b + if carry then 1 else 0) % w < w
    ensures w * (a + b) + total == w * (w * out + (a + b + if carry then 1 else 0) % w) + low
  {
    var high := a + b + if carry then 1 else 0;
    out := if high < w then 0 else 1;
    Remainder(w, out, high - w * out);
    assert w * high == w * (a + b) + if carry then w else 0;
  }

  lemma LowHalf(cpu: Cpu, imm: nat, loaded: nat)
    ensures var low := Adds(0, 0, imm).Step(cpu, loaded);
      && low.pc == cpu.pc + 4 && low.flags == AddFlags(cpu.Read(0), imm) && low.Read(0) == (cpu.Read(0) + imm) % WORD
      && low.Read(1) == cpu.Read(1) && low.Read(2) == cpu.Read(2)
  {
    hide WORD, AddFlags;
  }

  lemma HighHalf(cpu: Cpu, loaded: nat)
    ensures var high := Adc(1, 1, 2).Step(cpu, loaded);
      && high.pc == cpu.pc + 4 && high.flags == cpu.flags && high.Read(0) == cpu.Read(0)
      && high.Read(1) == (cpu.Read(1) + cpu.Read(2) + if cpu.flags.c then 1 else 0) % WORD
  {
    hide WORD;
  }

  lemma Remainder(m: nat, q: nat, r: nat)
    requires r < m
    ensures (m * q + r) % m == r
  {
    var k, s := (m * q + r) / m, (m * q + r) % m;
    Multiples(m, k - q);
    assert m * (k - q) == m * k - m * q == r - s;
  }

  lemma Multiples(m: nat, d: int)
    ensures d >= 1 ==> m * d >= m
    ensures d <= -1 ==> m * d <= 0 - m
  {
    if d >= 1 {
      assert m * d - m == m * (d - 1) >= 0;
    } else if d <= -1 {
      assert m * d + m == m * (d + 1) <= 0;
    }
  }

  /** Conditional branches change the program counter only: on the zero flag, a zero register, a clear bit. */
  lemma BranchesMean(cpu: Cpu, t: nat, bit: nat, target: nat, loaded: nat)
    ensures BEq(target).Step(cpu, loaded) == cpu.(pc := if cpu.flags.z then target else cpu.pc + 4)
    ensures Cbz(t, target).Step(cpu, loaded) == cpu.(pc := if cpu.Read(t) == 0 then target else cpu.pc + 4)
    ensures Tbz(t, bit, target).Step(cpu, loaded) == cpu.(pc := if BitSet(cpu.Read(t), bit) then cpu.pc + 4 else target)
  {
    BitMeans(cpu.Read(t), bit);
  }

  /** Bit `k` of a word, by taking the bits below it off one at a time. */
  predicate BitSet(w: nat, k: nat) { if k == 0 then w % 2 == 1 else BitSet(w / 2, k - 1) }

  lemma {:induction false} BitMeans(w: nat, k: nat)
    ensures BitSet(w, k) <==> w / Pow2(k) % 2 == 1
  {
    if k > 0 {
      BitMeans(w / 2, k - 1);
      HalfFirst(w, Pow2(k - 1));
    }
  }

  lemma HalfFirst(w: nat, p: nat)
    requires p > 0
    ensures w / 2 / p == w / (2 * p)
  {
    var q, r := w / (2 * p), w % (2 * p);
    assert w == 2 * (p * q) + r;
    assert w / 2 == p * q + r / 2 && r / 2 < p;
    Quotient(p, q, r / 2);
  }

  lemma Quotient(m: nat, q: nat, r: nat)
    requires r < m
    ensures (m * q + r) / m == q
  {
    Remainder(m, q, r);
    assert m * ((m * q + r) / m) == m * q;
  }

  /** A linking branch goes where its register pointed before the link was written, also when it is the link register. */
  lemma LinkMeans(cpu: Cpu, n: nat, loaded: nat)
    requires cpu.pc + 4 < WORD
    ensures var next := Blr(n).Step(cpu, loaded);
      && next.pc == cpu.Read(n) && next.Read(30) == cpu.pc + 4 && next.flags == cpu.flags
      && forall r: nat :: r != 30 ==> next.Read(r) == cpu.Read(r)
  {
  }
}
