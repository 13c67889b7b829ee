/**
 The two programs agree: whatever the profiler writes, in any run whose clocks do not run backwards,
 whose frame counters increase and whose inner marks never name the frame stage, its reader accepts,
 also when the records of several processes are mixed in one log.
 */
module FrameContract {
  import opened Words
  import opened FrameProfile
  import opened FrameAccounting
  import opened FrameCapture
  import R = FrameRecords

  // ---- disciplined runs ----

  function WallOf(e: Event): nat {
    match e
    case FrameBegin(_, w, _) => w
    case StageMark(_, _, w, _) => w
    case FrameStop(w, _) => w
    case _ => 0
  }

  /** The last wall clock reading that did not fail; a failed reading is zero. */
  function Now(es: seq<Event>): nat {
    if es == [] then 0
    else if WallOf(es[|es| - 1]) > 0 then WallOf(es[|es| - 1]) else Now(es[..|es| - 1])
  }

  /** Above every frame counter so far. */
  function NextCounter(es: seq<Event>): nat {
    if es == [] then 0
    else if es[|es| - 1].FrameBegin? then es[|es| - 1].counter + 1 else NextCounter(es[..|es| - 1])
  }

  predicate Disciplined(es: seq<Event>) {
    es == [] ||
    var before, e := es[..|es| - 1], es[|es| - 1];
    && Disciplined(before)
    && (WallOf(e) == 0 || Now(before) <= WallOf(e) < WORD)
    && (e.FrameBegin? ==> e.counter >= NextCounter(before))
    && (e.StageMark? ==> e.stage != FRAME)
  }

  // ---- what the profiler has been through ----

  /** Where a frame came from: the profile it began on, its identity, and its marks up to now. */
  datatype Origin = Origin(q: Profile, frame: nat, sequence: nat, w0: nat, c0: nat, inner: seq<Mark>)
  {
    /** The wall clock readings of the marks. */
    function Walls(): seq<nat> { [w0] + seq(|inner|, i requires 0 <= i < |inner| => inner[i].wall) }
  }

  /** How the profile came about: nothing to write, a frame in progress, or a frame finished and not written yet. */
  datatype Story = Idle | Framing(o: Origin) | Waiting(o: Origin, w1: nat, c1: nat)
  {
    function Walls(): seq<nat> {
      match this
      case Idle => []
      case Framing(o) => o.Walls()
      case Waiting(o, w1, _) => o.Walls() + [w1]
    }
  }

  function Next(s: Story, o: Observer, e: Event): Story
    requires o.Shaped()
  {
    match e
    case FrameBegin(counter, w, c) => if o.Allowed() then Framing(Origin(o.pc, counter, o.sequence, w, c, [])) else s
    case StageMark(stage, entering, w, c) =>
      if s.Framing? then Framing(s.o.(inner := s.o.inner + [Mark(stage, entering, w, c)])) else s
    case FrameStop(w, c) => if s.Framing? then Waiting(s.o, w, c) else s
    case FrameEnd => if s.Waiting? then Idle else s
    case Insert => s
  }

  function StoryOf(pid: nat, es: seq<Event>): Story {
    if es == [] then Idle else Next(StoryOf(pid, es[..|es| - 1]), Run(pid, es[..|es| - 1]), es[|es| - 1])
  }

  ghost predicate Matches(s: Story, pc: Profile) {
    match s
    case Idle => !pc.active && !pc.ready
    case Framing(o) =>
      o.q.Shaped() && pc == After(o.q.Begin(o.frame, o.sequence, o.w0, o.c0), o.inner) && pc.active && !pc.ready
    case Waiting(o, w1, c1) =>
      o.q.Shaped() && pc == Finished(o.q, o.frame, o.sequence, o.w0, o.c0, o.inner, w1, c1) && !pc.active && pc.ready
  }

  /** Readings that did not fail are in order, from `first` to `last`. */
  ghost predicate Timed(ws: seq<nat>, first: nat, last: nat) {
    && (forall i :: 0 <= i < |ws| && ws[i] > 0 ==> first <= ws[i] <= last)
    && (forall i, j :: 0 <= i < j < |ws| && ws[i] > 0 && ws[j] > 0 ==> ws[i] <= ws[j])
  }

  /** What the reader asks of one record. */
  ghost predicate Good(r: Record) {
    |r.stages| == COUNT &&
    (r.valid ==>
      && 0 < r.beginNs <= r.endNs && r.seqBegin <= r.seqEnd
      && r.stages[FRAME].calls == 1 && r.stages[FRAME].wall == r.endNs - r.beginNs
      && forall s :: 0 <= s < COUNT ==>
           && r.stages[s].wall <= r.endNs - r.beginNs
           && (r.stages[s].calls == 0 ==> r.stages[s].wall == 0 && r.stages[s].thread == 0))
  }

  /** When the last record, if valid, ended; nothing that follows it may begin earlier. */
  function LastEnd(log: seq<Record>): nat {
    if log != [] && log[|log| - 1].valid then log[|log| - 1].endNs else 0
  }

  /** A log the reader accepts. */
  ghost predicate Fine(log: seq<Record>, pid: nat) {
    && (forall i :: 0 <= i < |log| ==> Good(log[i]) && log[i].pid == pid)
    && (forall i, j :: 0 <= i < j < |log| ==> log[i].frame < log[j].frame)
    && (forall i :: 0 < i < |log| && log[i].valid ==> LastEnd(log[..i]) <= log[i].beginNs)
  }

  /** The frame in progress is later than all that is written. */
  ghost predicate Ahead(o: Observer, s: Story, now: nat, next: nat) {
    && Timed(s.Walls(), LastEnd(o.log), now) && LastEnd(o.log) <= now < WORD
    && (forall i :: 0 <= i < |o.log| ==> o.log[i].frame < next)
    && (!s.Idle? ==>
          && s.o.frame < next && (forall i :: 0 <= i < |o.log| ==> o.log[i].frame < s.o.frame)
          && (forall i :: 0 <= i < |s.o.inner| ==> s.o.inner[i].stage != FRAME)
          && s.o.sequence <= o.sequence)
    && (s.Waiting? ==> s.o.sequence <= o.endSequence)
  }

  // ---- every step keeps the contract ----

  lemma StoryMatches(o: Observer, s: Story, e: Event)
    requires o.Shaped() && Matches(s, o.pc)
    ensures Matches(Next(s, o, e), o.Step(e).pc)
  {
    hide Profile.MarkAt;
    match e
    case StageMark(stage, entering, w, c) =>
      if s.Framing? {
        var m := Mark(stage, entering, w, c);
        assert (s.o.inner + [m])[..|s.o.inner|] == s.o.inner;
      }
    case _ =>
  }

  lemma TimedMore(ws: seq<nat>, first: nat, last: nat, w: nat)
    requires Timed(ws, first, last) && (w == 0 || last <= w) && first <= last
    ensures Timed(ws + [w], first, if w > 0 then w else last) && Timed(ws, first, if w > 0 then w else last)
  {
  }

  lemma TimedNone(first: nat, last: nat)
    ensures Timed([], first, last)
  {
  }

  lemma Alone(o: Origin)
    requires o.inner == []
    ensures o.Walls() == [] + [o.w0]
  {
  }

  lemma WallsMore(o: Origin, m: Mark)
    ensures o.(inner := o.inner + [m]).Walls() == o.Walls() + [m.wall]
  {
  }

  /** Nothing is written before a frame ends. */
  lemma WritesNothing(o: Observer, e: Event)
    requires o.Shaped() && !e.FrameEnd?
    ensures o.Step(e).log == o.log && o.Step(e).pid == o.pid && o.Step(e).sequence >= o.sequence
    ensures o.Step(e).endSequence == if e.FrameStop? then o.sequence else o.endSequence
  {
  }

  /** All but the end of a frame only lets time pass and marks be added. */
  lemma StaysAhead(o: Observer, s: Story, e: Event, now: nat, next: nat)
    requires o.Shaped() && Ahead(o, s, now, next) && !e.FrameEnd?
    requires WallOf(e) == 0 || now <= WallOf(e) < WORD
    requires (e.FrameBegin? ==> e.counter >= next) && (e.StageMark? ==> e.stage != FRAME)
    ensures Ahead(o.Step(e), Next(s, o, e), if WallOf(e) > 0 then WallOf(e) else now,
                  if e.FrameBegin? then e.counter + 1 else next)
  {
    hide Observer.Step, Observer.Allowed, Timed, LastEnd, Origin.Walls, WORD;
    WritesNothing(o, e);
    match e
    case StageMark(stage, entering, w, c) =>
      TimedMore(s.Walls(), LastEnd(o.log), now, w);
      if s.Framing? {
        WallsMore(s.o, Mark(stage, entering, w, c));
      }
    case FrameStop(w, c) =>
      TimedMore(s.Walls(), LastEnd(o.log), now, w);
    case FrameBegin(counter, w, c) =>
      TimedNone(LastEnd(o.log), now);
      TimedMore([], LastEnd(o.log), now, w);
      Alone(Origin(o.pc, counter, o.sequence, w, c, []));
      TimedMore(s.Walls(), LastEnd(o.log), now, w);
    case Insert =>
  }

  /** Readings that are all present and timed are an ordered clock. */
  lemma OrderedWalls(o: Origin, w1: nat, c1: nat, first: nat, last: nat)
    requires Timed(o.Walls() + [w1], first, last) && last < WORD
    requires Consistent(Marks(o.w0, o.c0, o.inner, w1, c1))
    ensures Ordered(Marks(o.w0, o.c0, o.inner, w1, c1), Wall)
    ensures first <= o.w0 && w1 <= last
  {
    hide WORD, Forward;
    var ms, ws := Marks(o.w0, o.c0, o.inner, w1, c1), o.Walls() + [w1];
    forall i | 0 <= i < |ms| ensures ms[i].wall == ws[i] > 0 {
      assert Understood(ms, i);
    }
    assert ws[0] == ms[0].wall && ws[|ws| - 1] == ms[|ms| - 1].wall;
  }

  /** The record of a finished frame is one the reader takes, and belongs after the ones written before it. */
  lemma WritesGood(o: Observer, s: Story, now: nat, next: nat)
    requires o.Shaped() && Matches(s, o.pc) && Ahead(o, s, now, next) && s.Waiting?
    ensures Good(o.Written()) && o.Written().pid == o.pid && o.Written().frame == s.o.frame
    ensures o.Written().valid ==> LastEnd(o.log) <= o.Written().beginNs && o.Written().endNs <= now
  {
    hide Profile.Begin, Profile.Stop, After, Consistent, InStage, Enters, WORD;
    var w := s.o;
    FinishedFrame(w.q, w.frame, w.sequence, w.w0, w.c0, w.inner, s.w1, s.c1);
    if o.pc.valid {
      OrderedWalls(w, s.w1, s.c1, LastEnd(o.log), now);
      ValidFrame(w.q, w.frame, w.sequence, w.w0, w.c0, w.inner, s.w1, s.c1);
    }
  }

  lemma FineMore(log: seq<Record>, pid: nat, r: Record)
    requires Fine(log, pid) && Good(r) && r.pid == pid && (r.valid ==> LastEnd(log) <= r.beginNs)
    requires forall i :: 0 <= i < |log| ==> log[i].frame < r.frame
    ensures Fine(log + [r], pid)
  {
    hide Good;
    var more := log + [r];
    forall i | 0 < i < |more| && more[i].valid ensures LastEnd(more[..i]) <= more[i].beginNs {
      assert more[..i] == log[..i];
    }
  }

  lemma {:induction false} Contract(pid: nat, es: seq<Event>)
    requires Disciplined(es)
    ensures var o, s := Run(pid, es), StoryOf(pid, es);
      Matches(s, o.pc) && Fine(o.log, pid) && Ahead(o, s, Now(es), NextCounter(es))
  {
    hide Profile.Take, Profile.Begin, Profile.Stop, Good, Timed, LastEnd, WORD, Observer.Written, Observer.Renewed;
    if es == [] {
      Starts(pid);
    } else {
      var before, e := es[..|es| - 1], es[|es| - 1];
      Contract(pid, before);
      var o, s := Run(pid, before), StoryOf(pid, before);
      StoryMatches(o, s, e);
      if !e.FrameEnd? {
        WritesNothing(o, e);
        StaysAhead(o, s, e, Now(before), NextCounter(before));
      } else {
        EndsFine(o, s, Now(before), NextCounter(before));
      }
    }
  }

  lemma Starts(pid: nat)
    ensures var o := Run(pid, []); Matches(Idle, o.pc) && Fine(o.log, pid) && Ahead(o, Idle, 0, 0)
  {
  }

  lemma EndsFine(o: Observer, s: Story, now: nat, next: nat)
    requires o.Shaped() && Matches(s, o.pc) && Ahead(o, s, now, next) && Fine(o.log, o.pid)
    ensures var r := o.Step(FrameEnd); Fine(r.log, o.pid) && Ahead(r, Next(s, o, FrameEnd), now, next)
  {
    hide Profile.Begin, Profile.Stop, After, Good, WORD, Observer.Written, Fine, Matches, Ahead;
    EndStep(o, s);
    if s.Waiting? {
      WritesGood(o, s, now, next);
      EndsAhead(o, s, now, next);
      FineMore(o.log, o.pid, o.Written());
    }
  }

  /** The end of a frame writes its record, drops it, or finds nothing to write. */
  lemma EndStep(o: Observer, s: Story)
    requires o.Shaped() && Matches(s, o.pc)
    ensures var r := o.Step(FrameEnd);
      && r.sequence == o.sequence && r.endSequence == o.endSequence
      && (r.log == o.log || (s.Waiting? && r.log == o.log + [o.Written()]))
      && (!s.Waiting? ==> r == o)
  {
  }

  lemma EndsAhead(o: Observer, s: Story, now: nat, next: nat)
    requires o.Shaped() && Ahead(o, s, now, next) && s.Waiting? && Matches(s, o.pc)
    requires o.Written().frame == s.o.frame && (o.Written().valid ==> o.Written().endNs <= now)
    ensures Ahead(o.Step(FrameEnd), Idle, now, next)
    ensures forall i :: 0 <= i < |o.log| ==> o.log[i].frame < o.Written().frame
  {
    hide Observer.Written, Observer.Step, Matches, WORD;
    EndStep(o, s);
  }

  // ---- what is written is what is read ----

  function EncodedStage(t: Totals): R.Json {
    R.Object(map[R.Calls := R.Int(t.calls), R.WallNs := R.Int(t.wall), R.ThreadNs := R.Int(t.thread)])
  }

  function Encoded(r: Record): R.Json
    requires |r.stages| == COUNT
  {
    R.Object(map[
      R.Version := R.Int(1), R.Pid := R.Int(r.pid), R.Frame := R.Int(r.frame),
      R.SeqBegin := R.Int(r.seqBegin), R.SeqEnd := R.Int(r.seqEnd),
      R.BeginNs := R.Int(r.beginNs), R.EndNs := R.Int(r.endNs), R.IsValid := R.Int(if r.valid then 1 else 0),
      R.Stages := R.Object(map i | 0 <= i < COUNT :: R.Stage(i) := EncodedStage(r.stages[i]))])
  }

  lemma EncodedFields(r: Record)
    requires |r.stages| == COUNT && r.pid > 0
    ensures var j := Encoded(r);
      && R.Record(j) && (R.ClaimsValid(j) <==> r.valid)
      && R.Num(j, R.Pid) == r.pid && R.Num(j, R.Frame) == r.frame
      && R.Num(j, R.SeqBegin) == r.seqBegin && R.Num(j, R.SeqEnd) == r.seqEnd
      && R.Num(j, R.BeginNs) == r.beginNs && R.Num(j, R.EndNs) == r.endNs
  {
  }

  lemma EncodedSound(r: Record)
    requires Good(r) && r.pid > 0
    ensures R.Sound(Encoded(r))
  {
    hide R.Schema, R.Integers, R.Header, R.Num;
    EncodedFields(r);
    var j := Encoded(r);
    if r.valid {
      var all := j.fields[R.Stages].fields;
      assert all.Keys == R.STAGES;
      forall k <- R.STAGES ensures all[k] == EncodedStage(r.stages[k.i]) && R.StageFields(all[k]) {
      }
      assert R.Stage(0) in R.STAGES;
    }
  }

  /** The records of one process among the first `n` of a log. */
  function Of(log: seq<Record>, n: nat, pid: nat): seq<Record>
    requires n <= |log|
  {
    if n == 0 then [] else Of(log, n - 1, pid) + if log[n - 1].pid == pid then [log[n - 1]] else []
  }

  lemma {:induction false} OfGrows(log: seq<Record>, m: nat, n: nat, pid: nat)
    requires m <= n <= |log|
    ensures Of(log, m, pid) <= Of(log, n, pid)
    ensures (forall k :: m <= k < n ==> log[k].pid != pid) ==> Of(log, n, pid) == Of(log, m, pid)
  {
    if m < n {
      OfGrows(log, m, n - 1, pid);
    }
  }

  /** Where a record of a log stands among those of its process: after those of it that came before. */
  lemma OfNext(log: seq<Record>, n: nat, pid: nat)
    requires n < |log|
    ensures Of(log, n + 1, pid) == Of(log, n, pid) + if log[n].pid == pid then [log[n]] else []
  {
  }

  /** A log that mixes what several processes wrote, each in a disciplined run of its own. */
  ghost predicate Mixed(log: seq<Record>, runs: map<nat, seq<Event>>) {
    && (forall n :: 0 <= n < |log| ==> log[n].pid in runs)
    && (forall pid <- runs :: pid > 0 && Disciplined(runs[pid]) && Of(log, |log|, pid) == Run(pid, runs[pid]).log)
  }

  lemma MixedGood(log: seq<Record>, runs: map<nat, seq<Event>>, n: nat)
    requires Mixed(log, runs) && n < |log|
    ensures Good(log[n]) && log[n].pid > 0
  {
    hide Disciplined, Good, Of;
    var pid := log[n].pid;
    OfNext(log, n, pid);
    OfGrows(log, n + 1, |log|, pid);
    Contract(pid, runs[pid]);
    assert Of(log, |log|, pid)[|Of(log, n, pid)|] == log[n];
  }

  /** Two records of one process are in the order its run wrote them. */
  lemma MixedPair(log: seq<Record>, runs: map<nat, seq<Event>>, i: nat, n: nat)
    requires Mixed(log, runs) && i < n < |log| && log[i].pid == log[n].pid
    ensures log[i].frame < log[n].frame
    ensures (forall k :: i < k < n ==> log[k].pid != log[n].pid) && log[i].valid && log[n].valid ==> log[i].endNs <= log[n].beginNs
  {
    hide Disciplined, Good, Of;
    var pid := log[n].pid;
    var all, a, b := Of(log, |log|, pid), |Of(log, i, pid)|, |Of(log, n, pid)|;
    OfNext(log, i, pid);
    OfNext(log, n, pid);
    OfGrows(log, i + 1, n, pid);
    OfGrows(log, n + 1, |log|, pid);
    Contract(pid, runs[pid]);
    assert all[a] == log[i] && all[b] == log[n];
    if b == a + 1 {
      assert all[..b][|all[..b]| - 1] == all[a];
    }
  }

  function Lines(log: seq<Record>): seq<R.Line>
    requires forall n :: 0 <= n < |log| ==> |log[n].stages| == COUNT
  {
    seq(|log|, n requires 0 <= n < |log| => R.Parsed(Encoded(log[n])))
  }

  /** The reader accepts every log that profilers wrote. */
  lemma ReaderAccepts(log: seq<Record>, runs: map<nat, seq<Event>>)
    requires Mixed(log, runs)
    ensures forall n :: 0 <= n < |log| ==> |log[n].stages| == COUNT
    ensures R.Acceptable(Lines(log), |log|)
  {
    hide R.Sound, R.Record, R.Num, R.ClaimsValid, Encoded, Disciplined, Mixed, Good;
    forall n | 0 <= n < |log| ensures |log[n].stages| == COUNT && R.Sound(Encoded(log[n])) {
      MixedGood(log, runs, n);
      GoodShape(log[n]);
      EncodedSound(log[n]);
    }
    var lines := Lines(log);
    forall n | 0 <= n < |log| ensures R.Admitted(lines, n) {
      forall i | 0 <= i < n ensures R.Increases(lines, i, n) && R.Separate(lines, i, n) {
        Apart(log, runs, i, n);
      }
    }
  }

  lemma GoodShape(r: Record)
    requires Good(r)
    ensures |r.stages| == COUNT
  {
  }

  lemma Apart(log: seq<Record>, runs: map<nat, seq<Event>>, i: nat, n: nat)
    requires Mixed(log, runs) && i < n < |log| && forall k :: 0 <= k < |log| ==> |log[k].stages| == COUNT
    ensures R.Increases(Lines(log), i, n) && R.Separate(Lines(log), i, n)
  {
    hide R.Record, R.Num, R.ClaimsValid, Encoded, Disciplined, Mixed, Good;
    forall k | 0 <= k < |log| ensures forall pid :: R.OfPid(Lines(log)[k], pid) <==> log[k].pid == pid {
      MixedGood(log, runs, k);
      EncodedFields(log[k]);
    }
    MixedGood(log, runs, i);
    EncodedFields(log[i]);
    MixedGood(log, runs, n);
    EncodedFields(log[n]);
    var pid := log[n].pid;
    if log[i].pid == pid {
      MixedPair(log, runs, i, n);
      if R.Previous(Lines(log), n, pid, i) {
        forall k | i < k < n ensures log[k].pid != pid {
          assert !R.OfPid(Lines(log)[k], pid);
        }
      }
    }
  }

  // ---- the condition on inner marks is needed ----

  /** Marks that never enter a stage and leave it nowhere do not name it at all. */
  lemma {:induction false} NotNamed(ms: seq<Mark>, s: nat)
    requires Enters(ms, s) == 0
    ensures Depth(ms, s) <= 0 && (Depth(ms, s) == 0 ==> forall i :: 0 <= i < |ms| ==> ms[i].stage != s)
  {
    if ms != [] {
      NotNamed(ms[..|ms| - 1], s);
    }
  }

  lemma {:induction false} FrameCounts(w: nat, c: nat, inner: seq<Mark>)
    ensures var ms := [Mark(FRAME, true, w, c)] + inner;
      Enters(ms, FRAME) == 1 + Enters(inner, FRAME) && Depth(ms, FRAME) == 1 + Depth(inner, FRAME)
  {
    var ms := [Mark(FRAME, true, w, c)] + inner;
    if inner == [] {
      assert ms[..|ms| - 1] == [];
    } else {
      FrameCounts(w, c, inner[..|inner| - 1]);
      assert ms[..|ms| - 1] == [Mark(FRAME, true, w, c)] + inner[..|inner| - 1];
    }
  }

  lemma MarksCounts(w0: nat, c0: nat, inner: seq<Mark>, w1: nat, c1: nat)
    ensures var ms := Marks(w0, c0, inner, w1, c1);
      Enters(ms, FRAME) == 1 + Enters(inner, FRAME) && Depth(ms, FRAME) == Depth(inner, FRAME)
  {
    FrameCounts(w0, c0, inner);
    var ms := Marks(w0, c0, inner, w1, c1);
    assert ms[..|ms| - 1] == [Mark(FRAME, true, w0, c0)] + inner;
  }

  /** A valid frame under ordered clocks is read exactly when none of its inner marks names the frame stage. */
  lemma InnerMarksExact(o: Observer, w: Origin, w1: nat, c1: nat)
    requires o.Shaped() && o.pid > 0 && w.q.Shaped() && w.sequence <= o.endSequence
    requires o.pc == Finished(w.q, w.frame, w.sequence, w.w0, w.c0, w.inner, w1, c1) && o.pc.valid
    requires Ordered(Marks(w.w0, w.c0, w.inner, w1, c1), Wall)
    ensures |o.Written().stages| == COUNT
    ensures R.Sound(Encoded(o.Written())) <==> forall i :: 0 <= i < |w.inner| ==> w.inner[i].stage != FRAME
  {
    hide Profile.Begin, Profile.Stop, After, Consistent, InStage, Enters, Depth, R.Schema, R.Integers, R.Header, R.Num, WORD, Finished;
    var r := o.Written();
    FinishedFrame(w.q, w.frame, w.sequence, w.w0, w.c0, w.inner, w1, c1);
    MarksCounts(w.w0, w.c0, w.inner, w1, c1);
    if forall i :: 0 <= i < |w.inner| ==> w.inner[i].stage != FRAME {
      ValidFrame(w.q, w.frame, w.sequence, w.w0, w.c0, w.inner, w1, c1);
      EncodedSound(r);
    } else {
      if Enters(w.inner, FRAME) == 0 {
        NotNamed(w.inner, FRAME);
      }
      EncodedFields(r);
      EncodedFrame(r);
    }
  }

  lemma EncodedFrame(r: Record)
    requires |r.stages| == COUNT && r.pid > 0 && r.valid && r.stages[FRAME].calls != 1
    ensures !R.Sound(Encoded(r))
  {
    hide R.Schema, R.Integers, R.Header, R.Num;
    EncodedFields(r);
    assert Encoded(r).fields[R.Stages].fields[R.Stage(0)] == EncodedStage(r.stages[0]);
  }
}
