/**
 The frame profiler: nested, reentrant stage timers of one frame. A stage's inclusive time runs while
 its nesting depth is positive, so reentrant calls count once. Marks allocate nothing and never fail;
 anything inconsistent only clears the frame's `valid` flag.
 */
module FrameProfile {
  import opened Words

  const COUNT: nat := 10
  const MAX_MARKS: nat := 8192
  const FRAME: nat := 0
  const PAINT: nat := 3

  const NAMES: seq<string> := ["frame", "update", "layout", "paint", "gsk_diff",
    "cairo_begin", "cairo_draw", "cairo_end", "texture_diff", "texture_download"]

  datatype Stage = Stage(calls: nat, wallStart: nat, cpuStart: nat, wall: nat, thread: nat, depth: nat)
  {
    /** An outermost leave: the interval is added, with the accumulators' wrap-around. */
    function Close(w: nat, c: nat): Stage
      requires wallStart <= w && cpuStart <= c
    {
      this.(wall := (wall + (w - wallStart)) % WORD, thread := (thread + (c - cpuStart)) % WORD)
    }

    /** A clock reads less at this leave than it did when the outermost interval began. */
    predicate Backwards(m: Mark) { !m.entering && depth == 1 && (m.wall < wallStart || m.cpu < cpuStart) }

    /** The stage after a mark of its own. */
    function Marked(m: Mark): Stage
      requires (m.entering || depth > 0) && !Backwards(m)
    {
      if m.entering then
        (if depth == 0 then this.(wallStart := m.wall, cpuStart := m.cpu) else this).(calls := calls + 1, depth := depth + 1)
      else if depth > 1 then this.(depth := depth - 1)
      else this.(depth := 0).Close(m.wall, m.cpu)
    }
  }

  /** A mark: the stage it names (`COUNT` for an unknown name), its direction, and the two clock readings. */
  datatype Mark = Mark(stage: nat, entering: bool, wall: nat, cpu: nat)

  datatype Profile = Profile(stages: seq<Stage>, frame: nat, seqBegin: nat, beginNs: nat, endNs: nat, marks: nat,
                             active: bool, valid: bool, ready: bool)
  {
    predicate Shaped() { |stages| == COUNT }

    function MarkAt(m: Mark): (r: Profile)
      requires Shaped()
      ensures r.Shaped() && r.(stages := stages, valid := valid) == this && (r.valid ==> valid)
    {
      if !active then this
      else if m.stage >= COUNT || m.wall == 0 || m.cpu == 0 then this.(valid := false)
      else
        var s := stages[m.stage];
        if !m.entering && s.depth == 0 then this.(valid := false)
        else if s.Backwards(m) then this.(stages := stages[m.stage := s.(depth := 0)], valid := false)
        else this.(stages := stages[m.stage := s.Marked(m)])
    }

    function Take(m: Mark): (r: Profile)
      requires Shaped()
      ensures r.Shaped() && r.(stages := stages, valid := valid, marks := marks) == this && (r.valid ==> valid)
    {
      if !active then this
      else if marks >= MAX_MARKS then this.(valid := false)
      else this.(marks := marks + 1).MarkAt(m)
    }

    /** Forget everything and enter the frame stage; a frame that interrupts an active one is never valid. */
    function Begin(frame: nat, sequence: nat, w: nat, c: nat): (r: Profile)
      requires Shaped()
      ensures r.Shaped()
    {
      var p := Cleared(!active, frame, sequence).Take(Mark(FRAME, true, w, c));
      p.(beginNs := p.stages[FRAME].wallStart)
    }

    function Stop(w: nat, c: nat): (r: Profile)
      requires Shaped()
      ensures r.Shaped()
    {
      if !active then this
      else
        var p := Take(Mark(FRAME, false, w, c));
        p.(endNs := (p.stages[FRAME].wallStart + p.stages[FRAME].wall) % WORD, active := false, ready := true,
           valid := p.valid && forall i :: 0 <= i < COUNT ==> p.stages[i].depth == 0)
    }
  }

  const IDLE: Stage := Stage(0, 0, 0, 0, 0, 0)

  function Cleared(valid: bool, frame: nat, sequence: nat): (r: Profile)
    ensures r.Shaped()
  {
    Profile(seq(COUNT, _ => IDLE), frame, sequence, 0, 0, 0, true, valid, false)
  }

  // ---- the profiler ----

  /** The stage a name stands for, or `COUNT`. */
  function StageFrom(name: string, i: nat): (r: nat)
    requires i <= COUNT
    ensures i <= r <= COUNT && (r < COUNT ==> NAMES[r] == name)
    ensures forall j :: i <= j < r ==> NAMES[j] != name
    decreases COUNT - i
  {
    if i == COUNT || NAMES[i] == name then i else StageFrom(name, i + 1)
  }

  class Profiler {
    const stages: array<Stage>
    var frame: nat
    var seqBegin: nat
    var beginNs: nat
    var endNs: nat
    var marks: nat
    var active: bool
    var valid: bool
    var ready: bool

    ghost predicate Valid()
      reads this
    {
      stages.Length == COUNT
    }

    ghost function Value(): (p: Profile)
      requires Valid()
      reads this, stages
      ensures p.Shaped()
    {
      Profile(stages[..], frame, seqBegin, beginNs, endNs, marks, active, valid, ready)
    }

    constructor ()
      ensures Valid() && fresh(stages) && Value() == Cleared(false, 0, 0).(active := false)
    {
      stages := new Stage[COUNT](_ => IDLE);
      frame, seqBegin, beginNs, endNs, marks := 0, 0, 0, 0, 0;
      active, valid, ready := false, false, false;
      new;
      assert stages[..] == Cleared(false, 0, 0).stages;
    }

    method MarkAt(name: string, entering: bool, w: nat, c: nat)
      requires Valid()
      modifies this`valid, stages
      ensures Valid() && Value() == old(Value()).MarkAt(Mark(StageFrom(name, 0), entering, w, c))
    {
      if !active {
        return;
      }
      var i := 0;
      while i < COUNT && NAMES[i] != name
        invariant i <= COUNT && StageFrom(name, i) == StageFrom(name, 0)
      {
        i := i + 1;
      }
      if i == COUNT || w == 0 || c == 0 {
        valid := false;
        return;
      }
      var s := stages[i];
      if entering {
        s := s.(calls := s.calls + 1);
        if s.depth == 0 {
          s := s.(wallStart := w, cpuStart := c);
        }
        s := s.(depth := s.depth + 1);
      } else if s.depth == 0 {
        valid := false;
      } else {
        s := s.(depth := s.depth - 1);
        if s.depth == 0 {
          if w < s.wallStart || c < s.cpuStart {
            valid := false;
          } else {
            s := s.(wall := (s.wall + (w - s.wallStart)) % WORD, thread := (s.thread + (c - s.cpuStart)) % WORD);
          }
        }
      }
      stages[i] := s;
    }

    method TakeMark(name: string, entering: bool, w: nat, c: nat)
      requires Valid()
      modifies this`valid, this`marks, stages
      ensures Valid() && Value() == old(Value()).Take(Mark(StageFrom(name, 0), entering, w, c))
    {
      if !active {
        return;
      }
      if marks >= MAX_MARKS {
        valid := false;
        return;
      }
      marks := marks + 1;
      MarkAt(name, entering, w, c);
    }

    method Begin(frame: nat, sequence: nat, w: nat, c: nat)
      requires Valid()
      modifies this, stages
      ensures Valid() && Value() == old(Value()).Begin(frame, sequence, w, c)
    {
      var interrupted := active;
      forall i | 0 <= i < COUNT {
        stages[i] := IDLE;
      }
      beginNs, endNs, marks, ready := 0, 0, 0, false;
      active, valid := true, !interrupted;
      this.frame, seqBegin := frame, sequence;
      assert Value() == Cleared(!interrupted, frame, sequence);
      TakeMark("frame", true, w, c);
      beginNs := stages[FRAME].wallStart;
    }

    method Stop(w: nat, c: nat)
      requires Valid()
      modifies this, stages
      ensures Valid() && Value() == old(Value()).Stop(w, c)
    {
      if !active {
        return;
      }
      TakeMark("frame", false, w, c);
      endNs := (stages[FRAME].wallStart + stages[FRAME].wall) % WORD;
      active, ready := false, true;
      ghost var taken := Value();
      for i := 0 to COUNT
        invariant Valid() && Value() == taken.(valid := valid)
        invariant valid <==> taken.valid && forall j :: 0 <= j < i ==> taken.stages[j].depth == 0
      {
        if stages[i].depth > 0 {
          valid := false;
        }
      }
    }
  }

  // ---- what a sequence of marks means ----

  /** Whether the marks of a stage are counted on the wall clock or on the thread's own. */
  datatype Clock = Wall | Thread

  function Reading(m: Mark, clock: Clock): nat { if clock.Wall? then m.wall else m.cpu }

  function Enters(ms: seq<Mark>, s: nat): nat {
    if ms == [] then 0
    else Enters(ms[..|ms| - 1], s) + (if ms[|ms| - 1].stage == s && ms[|ms| - 1].entering then 1 else 0)
  }

  /** How deeply stage `s` is nested after the marks: enters less leaves. */
  function Depth(ms: seq<Mark>, s: nat): int {
    if ms == [] then 0
    else Depth(ms[..|ms| - 1], s) +
         (if ms[|ms| - 1].stage != s then 0 else if ms[|ms| - 1].entering then 1 else -1)
  }

  /** The time between the first mark and the last during which stage `s` was entered and not yet left. */
  function InStage(ms: seq<Mark>, s: nat, clock: Clock): int {
    if |ms| <= 1 then 0
    else
      var before := ms[..|ms| - 1];
      InStage(before, s, clock) +
        if Depth(before, s) > 0 then Reading(ms[|ms| - 1], clock) - Reading(before[|before| - 1], clock) else 0
  }

  /** The mark that opened the last outermost interval of stage `s`. */
  function Opener(ms: seq<Mark>, s: nat): (j: nat)
    ensures ms != [] ==> j < |ms|
  {
    if ms == [] then 0
    else
      var before, last := ms[..|ms| - 1], ms[|ms| - 1];
      if last.stage == s && last.entering && Depth(before, s) == 0 then |ms| - 1 else Opener(before, s)
  }

  /** A mark the accounting understands: a known stage, working clocks, and a leave only of an entered stage. */
  ghost predicate Understood(ms: seq<Mark>, k: nat)
    requires k < |ms|
  {
    var m := ms[k];
    && m.stage < COUNT && m.wall > 0 && m.cpu > 0
    && (!m.entering ==> Depth(ms[..k], m.stage) > 0)
  }

  /** An outermost interval that ends at mark `k` does not end before its start, on either clock. */
  ghost predicate Forward(ms: seq<Mark>, k: nat)
    requires k < |ms|
  {
    var m := ms[k];
    Depth(ms[..k], m.stage) == 1 && !m.entering ==>
      var start := ms[Opener(ms[..k], m.stage)];
      start.wall <= m.wall && start.cpu <= m.cpu
  }

  ghost predicate Consistent(ms: seq<Mark>) {
    |ms| <= MAX_MARKS && forall k :: 0 <= k < |ms| ==> Understood(ms, k) && Forward(ms, k)
  }

  /** The profile after the marks of one frame; the first of them is the entry that begins the frame. */
  function After(p: Profile, ms: seq<Mark>): (r: Profile)
    requires p.Shaped()
    ensures r.Shaped() && r.(stages := p.stages, valid := p.valid, marks := p.marks) == p
  {
    if ms == [] then p else After(p, ms[..|ms| - 1]).Take(ms[|ms| - 1])
  }

  lemma ConsistentSnoc(ms: seq<Mark>)
    requires ms != []
    ensures Consistent(ms) <==>
      |ms| <= MAX_MARKS && Consistent(ms[..|ms| - 1]) && Understood(ms, |ms| - 1) && Forward(ms, |ms| - 1)
  {
    var before := ms[..|ms| - 1];
    forall k | 0 <= k < |before|
      ensures Understood(ms, k) == Understood(before, k) && Forward(ms, k) == Forward(before, k)
    {
      assert ms[..k] == before[..k];
    }
  }

  /** What the accumulators of a stage hold while its marks are consistent. */
  ghost predicate Tracks(st: Stage, ms: seq<Mark>, s: nat) {
    && st.depth == Depth(ms, s) && st.calls == Enters(ms, s)
    && (ms != [] && st.depth > 0 ==>
          && st.wallStart == ms[Opener(ms, s)].wall && st.cpuStart == ms[Opener(ms, s)].cpu)
    && st.wall == (InStage(ms, s, Wall) - Open(st, ms, Wall)) % WORD
    && st.thread == (InStage(ms, s, Thread) - Open(st, ms, Thread)) % WORD
  }

  /** The part of the running interval that is not accumulated yet. */
  function Open(st: Stage, ms: seq<Mark>, clock: Clock): int {
    if ms == [] || st.depth == 0 then 0
    else Reading(ms[|ms| - 1], clock) - (if clock.Wall? then st.wallStart else st.cpuStart)
  }

  /** The flag and the accumulators of a frame, whatever its marks are. */
  lemma {:induction false} Accounts(p: Profile, ms: seq<Mark>)
    requires exists valid, frame, sequence :: p == Cleared(valid, frame, sequence)
    ensures var r := After(p, ms);
      && r.active && (r.valid <==> p.valid && Consistent(ms))
      && (|ms| <= MAX_MARKS ==> r.marks == |ms|) && (|ms| > MAX_MARKS ==> r.marks == MAX_MARKS)
      && (r.valid ==> forall s :: 0 <= s < COUNT ==> Tracks(r.stages[s], ms, s))
  {
    hide WORD;
    if ms == [] {
      forall s | 0 <= s < COUNT ensures Tracks(p.stages[s], ms, s) {
        TracksIdle(s);
      }
    } else {
      var before, m := ms[..|ms| - 1], ms[|ms| - 1];
      Accounts(p, before);
      ConsistentSnoc(ms);
      var q := After(p, before);
      if q.valid && |ms| <= MAX_MARKS && m.stage < COUNT {
        TakesOne(q, ms);
      }
    }
  }

  /** One mark on consistent accounts. */
  lemma TakesOne(q: Profile, ms: seq<Mark>)
    requires ms != [] && |ms| <= MAX_MARKS && q.Shaped() && q.active && q.valid && q.marks == |ms| - 1
    requires forall s :: 0 <= s < COUNT ==> Tracks(q.stages[s], ms[..|ms| - 1], s)
    requires ms[|ms| - 1].stage < COUNT
    ensures var r := q.Take(ms[|ms| - 1]);
      && (r.valid <==> Understood(ms, |ms| - 1) && Forward(ms, |ms| - 1))
      && (r.valid ==> forall s :: 0 <= s < COUNT ==> Tracks(r.stages[s], ms, s))
  {
    hide WORD, Enters, InStage, Open, Stage.Marked;
    var before, m := ms[..|ms| - 1], ms[|ms| - 1];
    var r := q.Take(m);
    assert Tracks(q.stages[m.stage], before, m.stage);
    if r.valid {
      forall s | 0 <= s < COUNT ensures Tracks(r.stages[s], ms, s) {
        assert Tracks(q.stages[s], before, s);
        if s == m.stage {
          OwnMark(q.stages[s], ms);
        } else {
          OtherMark(q.stages[s], ms, s);
        }
      }
    }
  }

  /** A mark of another stage only lets time pass. */
  lemma OtherMark(st: Stage, ms: seq<Mark>, s: nat)
    requires ms != [] && Tracks(st, ms[..|ms| - 1], s) && ms[|ms| - 1].stage != s
    ensures Tracks(st, ms, s)
  {
    hide WORD;
  }

  /** A mark of the stage itself: it opens, nests, unnests or closes its interval. */
  lemma OwnMark(st: Stage, ms: seq<Mark>)
    requires ms != [] && Tracks(st, ms[..|ms| - 1], ms[|ms| - 1].stage)
    requires (ms[|ms| - 1].entering || st.depth > 0) && !st.Backwards(ms[|ms| - 1])
    ensures Tracks(st.Marked(ms[|ms| - 1]), ms, ms[|ms| - 1].stage)
  {
    hide WORD;
    var before, m := ms[..|ms| - 1], ms[|ms| - 1];
    if !m.entering && st.depth == 1 {
      WrapSum(InStage(before, m.stage, Wall) - Open(st, before, Wall), m.wall - st.wallStart);
      WrapSum(InStage(before, m.stage, Thread) - Open(st, before, Thread), m.cpu - st.cpuStart);
    }
  }

  lemma WrapSum(a: int, b: int)
    ensures (a % WORD + b) % WORD == (a + b) % WORD
  {
    var q := a / WORD;
    assert a == q * WORD + a % WORD;
  }

  lemma TracksIdle(s: nat)
    ensures Tracks(IDLE, [], s)
  {
  }
}
