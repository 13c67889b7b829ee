/**
 Which frames are profiled and written out. Budgets keep a run bounded: 512 records in all, four for
 each insertion, and only while the insertion sequence is between 1 and 256. A valid frame that
 painted nothing is dropped and costs nothing.
 */
module FrameCapture {
  import opened FrameProfile

  const MAX_FRAMES: nat := 512
  const PER_SEQUENCE: nat := 4
  const MAX_SEQUENCE: nat := 256

  datatype Totals = Totals(calls: nat, wall: nat, thread: nat)

  datatype Record = Record(pid: nat, frame: nat, seqBegin: nat, seqEnd: nat, beginNs: nat, endNs: nat, valid: bool,
                           stages: seq<Totals>)

  /** What the toolkit's signals report, with the clock readings taken at them. */
  datatype Event =
    | Insert
    | FrameBegin(counter: nat, wall: nat, cpu: nat)
    | StageMark(stage: nat, entering: bool, wall: nat, cpu: nat)
    | FrameStop(wall: nat, cpu: nat)
    | FrameEnd

  /** The observer's counters, its profiler, and what it has written. */
  datatype Observer = Observer(pid: nat, sequence: nat, frames: nat, current: nat, currentFrames: nat, endSequence: nat,
                               pc: Profile, log: seq<Record>)
  {
    predicate Shaped() { pc.Shaped() }

    predicate Spent() { sequence == 0 || sequence > MAX_SEQUENCE || frames >= MAX_FRAMES }

    /** The budget of a new insertion starts afresh. */
    function Renewed(): Observer {
      if Spent() || current == sequence then this else this.(current := sequence, currentFrames := 0)
    }

    predicate Allowed() { !Spent() && Renewed().currentFrames < PER_SEQUENCE }

    function Written(): Record
      requires Shaped()
    {
      Record(pid, pc.frame, pc.seqBegin, endSequence, pc.beginNs, pc.endNs, pc.valid,
             seq(COUNT, i requires 0 <= i < COUNT => Totals(pc.stages[i].calls, pc.stages[i].wall, pc.stages[i].thread)))
    }

    function Step(e: Event): (r: Observer)
      requires Shaped()
      ensures r.Shaped() && r.pid == pid
    {
      match e
      case Insert => this.(sequence := sequence + 1)
      case FrameBegin(counter, w, c) =>
        if Allowed() then Renewed().(pc := pc.Begin(counter, sequence, w, c)) else Renewed()
      case StageMark(stage, entering, w, c) => this.(pc := pc.Take(Mark(stage, entering, w, c)))
      case FrameStop(w, c) => this.(endSequence := sequence, pc := pc.Stop(w, c))
      case FrameEnd =>
        if !pc.ready then this
        else if pc.valid && pc.stages[PAINT].calls == 0 then this.(pc := pc.(ready := false))
        else this.(frames := frames + 1, currentFrames := currentFrames + 1, pc := pc.(ready := false), log := log + [Written()])
    }
  }

  /** Everything zero, as a process starts. */
  function Unstarted(pid: nat): (o: Observer)
    ensures o.Shaped()
  {
    Observer(pid, 0, 0, 0, 0, 0, Cleared(false, 0, 0).(active := false), [])
  }

  function Run(pid: nat, es: seq<Event>): (o: Observer)
    ensures o.Shaped() && o.pid == pid
  {
    if es == [] then Unstarted(pid) else Run(pid, es[..|es| - 1]).Step(es[|es| - 1])
  }

  // ---- the observer's signal handlers ----

  class Hooks {
    const pid: nat
    const profiler: Profiler
    var sequence: nat
    var frames: nat
    var current: nat
    var currentFrames: nat
    var endSequence: nat
    var log: seq<Record>

    constructor (pid: nat)
      ensures Valid() && fresh(profiler) && fresh(profiler.stages) && Value() == Unstarted(pid)
    {
      this.pid, sequence, frames, current, currentFrames, endSequence, log := pid, 0, 0, 0, 0, 0, [];
      profiler := new Profiler();
      new;
    }

    ghost predicate Valid()
      reads this, profiler
    {
      profiler.Valid()
    }

    ghost function Value(): (o: Observer)
      requires Valid()
      reads this, profiler, profiler.stages
      ensures o.Shaped()
    {
      Observer(pid, sequence, frames, current, currentFrames, endSequence, profiler.Value(), log)
    }

    method InsertBefore()
      requires Valid()
      modifies this`sequence
      ensures Valid() && Value() == old(Value()).Step(Insert)
    {
      sequence := sequence + 1;
    }

    method CaptureAllowed() returns (allowed: bool)
      requires Valid()
      modifies this`current, this`currentFrames
      ensures Valid() && allowed == old(Value()).Allowed() && Value() == old(Value()).Renewed()
    {
      if sequence == 0 || sequence > MAX_SEQUENCE || frames >= MAX_FRAMES {
        return false;
      }
      if current != sequence {
        current, currentFrames := sequence, 0;
      }
      return currentFrames < PER_SEQUENCE;
    }

    method ShouldEmit() returns (emit: bool)
      requires Valid()
      modifies this`frames, this`currentFrames, profiler`ready
      ensures Valid()
      ensures var o := old(Value());
        && emit == (o.pc.ready && !(o.pc.valid && o.pc.stages[PAINT].calls == 0))
        && Value() == if emit then o.(frames := o.frames + 1, currentFrames := o.currentFrames + 1)
                      else o.(pc := o.pc.(ready := false))
    {
      if !profiler.ready {
        return false;
      }
      if profiler.valid && profiler.stages[PAINT].calls == 0 {
        profiler.ready := false;
        return false;
      }
      frames, currentFrames := frames + 1, currentFrames + 1;
      return true;
    }

    method FrameBegins(counter: nat, w: nat, c: nat)
      requires Valid()
      modifies this, profiler, profiler.stages
      ensures Valid() && Value() == old(Value()).Step(FrameBegin(counter, w, c))
    {
      var allowed := CaptureAllowed();
      if allowed {
        profiler.Begin(counter, sequence, w, c);
      }
    }

    method Marks(name: string, entering: bool, w: nat, c: nat)
      requires Valid()
      modifies profiler, profiler.stages
      ensures Valid() && Value() == old(Value()).Step(StageMark(StageFrom(name, 0), entering, w, c))
    {
      profiler.TakeMark(name, entering, w, c);
    }

    method FrameStops(w: nat, c: nat)
      requires Valid()
      modifies this, profiler, profiler.stages
      ensures Valid() && Value() == old(Value()).Step(FrameStop(w, c))
    {
      endSequence := sequence;
      profiler.Stop(w, c);
    }

    method FrameEnds()
      requires Valid()
      modifies this, profiler
      ensures Valid() && Value() == old(Value()).Step(FrameEnd)
    {
      var emit := ShouldEmit();
      if emit {
        profiler.ready := false;
        var totals: seq<Totals> := [];
        for i := 0 to COUNT
          invariant Valid() && profiler.Value() == old(profiler.Value()).(ready := false) && log == old(log)
          invariant |totals| == i && forall k :: 0 <= k < i ==>
            totals[k] == Totals(profiler.stages[k].calls, profiler.stages[k].wall, profiler.stages[k].thread)
        {
          totals := totals + [Totals(profiler.stages[i].calls, profiler.stages[i].wall, profiler.stages[i].thread)];
        }
        assert totals == old(Value()).Written().stages;
        log := log + [Record(pid, profiler.frame, profiler.seqBegin, endSequence, profiler.beginNs, profiler.endNs,
                             profiler.valid, totals)];
      }
    }
  }

  // ---- the budgets ----

  /** The records written for an insertion. */
  function For(log: seq<Record>, sequence: nat): nat {
    if log == [] then 0
    else For(log[..|log| - 1], sequence) + if log[|log| - 1].seqBegin == sequence then 1 else 0
  }

  ghost predicate Budgeted(o: Observer) {
    && |o.log| == o.frames <= MAX_FRAMES && o.currentFrames == For(o.log, o.current) <= PER_SEQUENCE
    && o.current <= o.sequence && !(o.pc.active && o.pc.ready)
    && (forall i :: 0 <= i < |o.log| ==> 1 <= o.log[i].seqBegin <= o.current && o.log[i].seqBegin <= MAX_SEQUENCE)
    && (forall s :: For(o.log, s) <= PER_SEQUENCE)
    && (o.pc.active || o.pc.ready ==>
          && o.pc.seqBegin == o.current && 1 <= o.current <= MAX_SEQUENCE
          && o.frames < MAX_FRAMES && o.currentFrames < PER_SEQUENCE)
  }

  lemma {:induction false} NoneLater(log: seq<Record>, s: nat)
    requires forall i :: 0 <= i < |log| ==> log[i].seqBegin != s
    ensures For(log, s) == 0
  {
    if log != [] {
      NoneLater(log[..|log| - 1], s);
    }
  }

  lemma {:induction false} BudgetsHold(pid: nat, es: seq<Event>)
    ensures Budgeted(Run(pid, es))
  {
    hide Profile.MarkAt;
    if es != [] {
      BudgetsHold(pid, es[..|es| - 1]);
      StepBudgeted(Run(pid, es[..|es| - 1]), es[|es| - 1]);
    }
  }

  lemma StepBudgeted(o: Observer, e: Event)
    requires o.Shaped() && Budgeted(o)
    ensures Budgeted(o.Step(e))
  {
    hide Profile.MarkAt, For;
    match e
    case FrameBegin(counter, w, c) =>
      if o.Renewed() != o {
        NoneLater(o.log, o.sequence);
      }
    case FrameEnd =>
      if o.Step(e).log != o.log {
        var r := o.Written();
        forall s ensures For(o.log + [r], s) == For(o.log, s) + if r.seqBegin == s then 1 else 0 {
          OneMore(o.log, r, s);
        }
      }
    case _ =>
  }

  lemma OneMore(log: seq<Record>, r: Record, s: nat)
    ensures For(log + [r], s) == For(log, s) + if r.seqBegin == s then 1 else 0
  {
    assert (log + [r])[..|log|] == log;
  }

  /**
   Over every run: at most 512 records, at most four for one insertion, none outside insertions 1 to
   256; the two counters count exactly the records written, in all and for the current insertion.
   */
  lemma CaptureBudget(pid: nat, es: seq<Event>, sequence: nat)
    ensures var o := Run(pid, es);
      && o.frames == |o.log| <= MAX_FRAMES && o.currentFrames == For(o.log, o.current)
      && For(o.log, sequence) <= PER_SEQUENCE
      && (sequence == 0 || sequence > MAX_SEQUENCE ==> For(o.log, sequence) == 0)
  {
    BudgetsHold(pid, es);
    if sequence == 0 || sequence > MAX_SEQUENCE {
      NoneLater(Run(pid, es).log, sequence);
    }
  }

  /** The insertions a run has seen. */
  function Insertions(es: seq<Event>): nat {
    if es == [] then 0 else Insertions(es[..|es| - 1]) + if es[|es| - 1].Insert? then 1 else 0
  }

  lemma {:induction false} SequenceCounts(pid: nat, es: seq<Event>)
    ensures Run(pid, es).sequence == Insertions(es)
  {
    hide Profile.MarkAt;
    if es != [] {
      SequenceCounts(pid, es[..|es| - 1]);
    }
  }

  /**
   A frame that begins after any run is profiled, under the number of insertions so far, exactly if that
   is between 1 and 256, fewer than 512 records have been written, and fewer than four of them began
   under that same insertion.
   */
  lemma FrameIsCaptured(pid: nat, es: seq<Event>, counter: nat, wall: nat, cpu: nat)
    ensures var o, r, n := Run(pid, es), Run(pid, es + [FrameBegin(counter, wall, cpu)]), Insertions(es);
      && r.log == o.log
      && (if 1 <= n <= 256 && |o.log| < 512 && For(o.log, n) < 4
          then r.pc == o.pc.Begin(counter, n, wall, cpu) && r.pc.active && !r.pc.ready && r.pc.seqBegin == n
               && r.pc.frame == counter && r.pc.beginNs == (if wall == 0 || cpu == 0 then 0 else wall)
               && (r.pc.valid <==> !o.pc.active && wall > 0 && cpu > 0)
          else r.pc == o.pc)
  {
    hide Run, For, Budgeted, Observer.Allowed, Profile.MarkAt, Profile.Begin;
    var o := Run(pid, es);
    BudgetsHold(pid, es);
    SequenceCounts(pid, es);
    AllowedExactly(o);
    RunOn(pid, es, FrameBegin(counter, wall, cpu));
    BeginFields(o.pc, counter, o.sequence, wall, cpu);
  }

  lemma AllowedExactly(o: Observer)
    requires Budgeted(o)
    ensures o.Allowed() <==> 1 <= o.sequence <= 256 && |o.log| < 512 && For(o.log, o.sequence) < 4
  {
    hide For;
    if o.current < o.sequence {
      NoneLater(o.log, o.sequence);
    }
  }

  lemma BeginFields(pc: Profile, counter: nat, sequence: nat, wall: nat, cpu: nat)
    requires pc.Shaped()
    ensures var r := pc.Begin(counter, sequence, wall, cpu);
      && r.active && !r.ready && r.seqBegin == sequence && r.frame == counter
      && r.beginNs == (if wall == 0 || cpu == 0 then 0 else wall)
      && (r.valid <==> !pc.active && wall > 0 && cpu > 0)
  {
  }

  // ---- frames that painted nothing ----

  /** No frame is in progress and none waits to be written. */
  predicate Dormant(o: Observer) { !o.pc.active && !o.pc.ready }

  /** How many records the current insertion has had. */
  function Used(o: Observer): nat { if o.current == o.sequence then o.currentFrames else 0 }

  /**
   Two observers that will do the same from here on: they have written the same, and are either in the
   same frame or both between frames with the same budget left.
   */
  ghost predicate Alike(o: Observer, q: Observer) {
    && o.pid == q.pid && o.sequence == q.sequence && o.frames == q.frames && o.log == q.log
    && o.current <= o.sequence && q.current <= q.sequence
    && ((Dormant(o) && Dormant(q) && Used(o) == Used(q))
        || (o.pc == q.pc && o.current == q.current && o.currentFrames == q.currentFrames
            && (o.pc.ready ==> o.endSequence == q.endSequence)))
  }

  lemma StepAlike(o: Observer, q: Observer, e: Event)
    requires o.Shaped() && q.Shaped() && Alike(o, q)
    ensures Alike(o.Step(e), q.Step(e))
  {
    hide Profile.MarkAt;
  }

  lemma {:induction false} RunAlike(pid: nat, es: seq<Event>, fs: seq<Event>, rest: seq<Event>)
    requires Alike(Run(pid, es), Run(pid, fs))
    ensures Alike(Run(pid, es + rest), Run(pid, fs + rest))
  {
    hide Alike, Observer.Step;
    if rest == [] {
      assert es + rest == es && fs + rest == fs;
    } else {
      var most, last := rest[..|rest| - 1], rest[|rest| - 1];
      RunAlike(pid, es, fs, most);
      RunOn(pid, es + most, last);
      RunOn(pid, fs + most, last);
      assert es + rest == es + most + [last] && fs + rest == fs + most + [last];
      StepAlike(Run(pid, es + most), Run(pid, fs + most), last);
    }
  }

  lemma RunOn(pid: nat, es: seq<Event>, e: Event)
    ensures Run(pid, es + [e]) == Run(pid, es).Step(e)
  {
    assert (es + [e])[..|es|] == es;
  }

  /** The events of one frame: it begins, is marked, stops and ends. */
  predicate OneFrame(frame: seq<Event>) {
    && |frame| >= 3 && frame[0].FrameBegin? && frame[|frame| - 2].FrameStop? && frame[|frame| - 1].FrameEnd?
    && forall i :: 0 < i < |frame| - 2 ==> frame[i].StageMark?
  }

  /** The part of a frame before its end leaves budget and log alone, whatever the profile makes of it. */
  lemma {:induction false} FrameSoFar(pid: nat, before: seq<Event>, frame: seq<Event>, k: nat)
    requires OneFrame(frame) && 0 < k < |frame|
    ensures var o, q := Run(pid, before), Run(pid, before + frame[..k]);
      q.(pc := o.pc, endSequence := o.endSequence) == o.Renewed()
    ensures Dormant(Run(pid, before)) && k < |frame| - 1 ==> !Run(pid, before + frame[..k]).pc.ready
    ensures Dormant(Run(pid, before)) && k == |frame| - 1 ==> !Run(pid, before + frame[..k]).pc.active
  {
    hide Profile.MarkAt;
    assert before + frame[..k] == before + frame[..k - 1] + [frame[k - 1]];
    RunOn(pid, before + frame[..k - 1], frame[k - 1]);
    if k == 1 {
      assert before + frame[..0] == before;
    } else {
      FrameSoFar(pid, before, frame, k - 1);
    }
  }

  /**
   A whole frame that is valid and painted nothing may be taken out of a run, wherever no other frame
   was under way: every budget and every record, earlier or later, stays as it is.
   */
  lemma IdleFramesAreFree(pid: nat, before: seq<Event>, frame: seq<Event>, rest: seq<Event>)
    requires Dormant(Run(pid, before)) && OneFrame(frame)
    requires var pc := Run(pid, before + frame[..|frame| - 1]).pc; pc.ready ==> pc.valid && pc.stages[PAINT].calls == 0
    ensures var o, q := Run(pid, before + rest), Run(pid, before + frame + rest);
      q.log == o.log && q.frames == o.frames && q.sequence == o.sequence && Alike(o, q)
    ensures Run(pid, before + frame + rest).Allowed() == Run(pid, before + rest).Allowed()
  {
    hide Profile.MarkAt;
    var n := |frame| - 1;
    FrameSoFar(pid, before, frame, n);
    assert before + frame == before + frame[..n] + [FrameEnd];
    RunOn(pid, before + frame[..n], FrameEnd);
    BudgetsHold(pid, before);
    assert Alike(Run(pid, before), Run(pid, before + frame));
    RunAlike(pid, before, before + frame, rest);
    AlikeAllowed(Run(pid, before + rest), Run(pid, before + frame + rest));
  }

  lemma AlikeAllowed(o: Observer, q: Observer)
    requires Alike(o, q)
    ensures o.Allowed() == q.Allowed()
  {
  }

  /** The insertions seen when a frame was last stopped. */
  function StoppedUnder(es: seq<Event>): nat {
    if es == [] then 0
    else if es[|es| - 1].FrameStop? then Insertions(es[..|es| - 1])
    else StoppedUnder(es[..|es| - 1])
  }

  lemma {:induction false} EndSequenceCounts(pid: nat, es: seq<Event>)
    ensures Run(pid, es).endSequence == StoppedUnder(es)
  {
    hide Profile.MarkAt;
    if es != [] {
      EndSequenceCounts(pid, es[..|es| - 1]);
      SequenceCounts(pid, es[..|es| - 1]);
    }
  }

  /** A record holds the numbers of its frame, with the insertions seen when it began and when it was stopped. */
  lemma WrittenShows(pid: nat, es: seq<Event>)
    ensures var o := Run(pid, es); var r, pc := o.Written(), o.pc;
      && r.pid == pid && r.frame == pc.frame && r.seqBegin == pc.seqBegin && r.seqEnd == StoppedUnder(es)
      && r.beginNs == pc.beginNs && r.endNs == pc.endNs && r.valid == pc.valid && |r.stages| == 10
      && forall i :: 0 <= i < 10 ==>
           r.stages[i].calls == pc.stages[i].calls && r.stages[i].wall == pc.stages[i].wall
           && r.stages[i].thread == pc.stages[i].thread
  {
    EndSequenceCounts(pid, es);
  }

  /** Any other frame that is ready is written, and costs one record of each budget. */
  lemma OtherFramesAreWritten(pid: nat, es: seq<Event>)
    requires var pc := Run(pid, es).pc; pc.ready && !(pc.valid && pc.stages[PAINT].calls == 0)
    ensures var o, r := Run(pid, es), Run(pid, es + [FrameEnd]);
      && r.log == o.log + [o.Written()] && r.frames == o.frames + 1
      && For(r.log, o.pc.seqBegin) == For(o.log, o.pc.seqBegin) + 1 && For(r.log, o.pc.seqBegin) <= PER_SEQUENCE
      && 1 <= o.pc.seqBegin <= MAX_SEQUENCE
  {
    hide Profile.MarkAt;
    RunOn(pid, es, FrameEnd);
    BudgetsHold(pid, es);
    OneMore(Run(pid, es).log, Run(pid, es).Written(), Run(pid, es).pc.seqBegin);
    BudgetsHold(pid, es + [FrameEnd]);
  }
}
