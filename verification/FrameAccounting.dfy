/** What a finished frame reports: exactly when it is valid, and what its times and call counts mean. */
module FrameAccounting {
  import opened Words
  import opened FrameProfile

  /** Every mark of a frame, from the entry that begins it to the leave that stops it. */
  function Marks(w0: nat, c0: nat, inner: seq<Mark>, w1: nat, c1: nat): seq<Mark> {
    [Mark(FRAME, true, w0, c0)] + inner + [Mark(FRAME, false, w1, c1)]
  }

  function Finished(q: Profile, frame: nat, sequence: nat, w0: nat, c0: nat, inner: seq<Mark>, w1: nat, c1: nat): (r: Profile)
    requires q.Shaped()
    ensures r.Shaped()
  {
    After(q.Begin(frame, sequence, w0, c0), inner).Stop(w1, c1)
  }

  /** Beginning a frame is its first mark, apart from the begin time that is noted after it. */
  lemma {:induction false} BeginsMarked(q: Profile, frame: nat, sequence: nat, w: nat, c: nat, inner: seq<Mark>)
    requires q.Shaped()
    ensures var b := q.Begin(frame, sequence, w, c);
      After(b, inner) == After(Cleared(!q.active, frame, sequence), [Mark(FRAME, true, w, c)] + inner).(beginNs := b.beginNs)
  {
    hide Profile.MarkAt;
    var first, ms := Mark(FRAME, true, w, c), [Mark(FRAME, true, w, c)] + inner;
    var p := Cleared(!q.active, frame, sequence);
    if inner == [] {
      assert ms[..|ms| - 1] == [];
    } else {
      BeginsMarked(q, frame, sequence, w, c, inner[..|inner| - 1]);
      assert ms[..|ms| - 1] == [first] + inner[..|inner| - 1];
      TakeKeepsBegin(After(p, ms[..|ms| - 1]), q.Begin(frame, sequence, w, c).beginNs, ms[|ms| - 1]);
    }
  }

  lemma TakeKeepsBegin(p: Profile, t: nat, m: Mark)
    requires p.Shaped()
    ensures p.(beginNs := t).Take(m) == p.Take(m).(beginNs := t)
  {
  }

  /** Every stage has been left as often as it was entered. */
  ghost predicate Balanced(ms: seq<Mark>) {
    forall s :: 0 <= s < COUNT ==> Depth(ms, s) == 0
  }

  /**
   A finished frame is valid exactly when it interrupted no other, its marks are few, known, nested,
   clocked and in order, and every stage was left. Then each stage reports how often it was entered,
   and the time its nesting depth was positive.
   */
  lemma FinishedFrame(q: Profile, frame: nat, sequence: nat, w0: nat, c0: nat, inner: seq<Mark>, w1: nat, c1: nat)
    requires q.Shaped()
    ensures var r, ms := Finished(q, frame, sequence, w0, c0, inner, w1, c1), Marks(w0, c0, inner, w1, c1);
      && r.ready && !r.active && r.frame == frame && r.seqBegin == sequence
      && (r.valid <==> !q.active && Consistent(ms) && Balanced(ms))
      && (r.valid ==>
            && r.beginNs == w0 > 0 && r.endNs == (r.stages[FRAME].wallStart + r.stages[FRAME].wall) % WORD
            && forall s :: 0 <= s < COUNT ==>
                 && r.stages[s].calls == Enters(ms, s)
                 && r.stages[s].wall == InStage(ms, s, Wall) % WORD
                 && r.stages[s].thread == InStage(ms, s, Thread) % WORD)
  {
    hide Profile.MarkAt, WORD, Consistent, InStage, Enters, Depth, Opener;
    var ms := Marks(w0, c0, inner, w1, c1);
    var p := Cleared(!q.active, frame, sequence);
    var before := [Mark(FRAME, true, w0, c0)] + inner;
    assert ms[..|ms| - 1] == before;
    BeginsMarked(q, frame, sequence, w0, c0, inner);
    Accounts(p, before);
    Accounts(p, ms);
    BeginNoted(q, frame, sequence, w0, c0);
    var b := q.Begin(frame, sequence, w0, c0);
    TakeKeepsBegin(After(p, before), b.beginNs, ms[|ms| - 1]);
    StopTakes(After(b, inner), w1, c1);
    var taken := After(p, ms);
    if taken.valid {
      forall s | 0 <= s < COUNT ensures taken.stages[s].depth == Depth(ms, s) {
        assert Tracks(taken.stages[s], ms, s);
      }
      FirstMark(ms);
    }
  }

  lemma StopTakes(p: Profile, w: nat, c: nat)
    requires p.Shaped() && p.active
    ensures var t, r := p.Take(Mark(FRAME, false, w, c)), p.Stop(w, c);
      && r.stages == t.stages && r.ready && !r.active && r.frame == p.frame && r.seqBegin == p.seqBegin && r.beginNs == p.beginNs
      && r.endNs == (t.stages[FRAME].wallStart + t.stages[FRAME].wall) % WORD
      && (r.valid <==> t.valid && forall i :: 0 <= i < COUNT ==> t.stages[i].depth == 0)
  {
  }

  lemma BeginNoted(q: Profile, frame: nat, sequence: nat, w: nat, c: nat)
    requires q.Shaped()
    ensures var b := q.Begin(frame, sequence, w, c);
      && b.active && !b.ready && b.frame == frame && b.seqBegin == sequence && b.marks == 1 && (w > 0 && c > 0 ==> b.beginNs == w)
      && (b.valid <==> !q.active && w > 0 && c > 0)
  {
  }

  lemma FirstMark(ms: seq<Mark>)
    requires ms != [] && Consistent(ms)
    ensures ms[0].wall > 0 && ms[0].cpu > 0
  {
    assert Understood(ms, 0);
  }

  // ---- clocks that never run backwards ----

  ghost predicate Ordered(ms: seq<Mark>, clock: Clock) {
    forall i, j :: 0 <= i <= j < |ms| ==> Reading(ms[i], clock) <= Reading(ms[j], clock) < WORD
  }

  /** Under an ordered clock no stage takes longer than the frame, so nothing wraps around. */
  lemma {:induction false} WithinFrame(ms: seq<Mark>, s: nat, clock: Clock)
    requires ms != [] && Ordered(ms, clock)
    ensures 0 <= InStage(ms, s, clock) <= Reading(ms[|ms| - 1], clock) - Reading(ms[0], clock) < WORD
  {
    hide Depth;
    if |ms| > 1 {
      WithinFrame(ms[..|ms| - 1], s, clock);
    }
  }

  /** The frame stage is entered once and runs from the first mark to the last, if no inner mark names it. */
  lemma {:induction false} FrameStage(w: nat, c: nat, inner: seq<Mark>, clock: Clock)
    requires forall i :: 0 <= i < |inner| ==> inner[i].stage != FRAME
    ensures var ms := [Mark(FRAME, true, w, c)] + inner;
      && Depth(ms, FRAME) == 1 && Enters(ms, FRAME) == 1 && Opener(ms, FRAME) == 0
      && InStage(ms, FRAME, clock) == Reading(ms[|ms| - 1], clock) - Reading(ms[0], clock)
  {
    var ms := [Mark(FRAME, true, w, c)] + inner;
    if inner == [] {
      assert ms[..|ms| - 1] == [];
    } else {
      FrameStage(w, c, inner[..|inner| - 1], clock);
      assert ms[..|ms| - 1] == [Mark(FRAME, true, w, c)] + inner[..|inner| - 1];
    }
  }

  /** What the record of a valid frame says when its clocks are ordered and nobody else marks the frame stage. */
  lemma ValidFrame(q: Profile, frame: nat, sequence: nat, w0: nat, c0: nat, inner: seq<Mark>, w1: nat, c1: nat)
    requires q.Shaped() && forall i :: 0 <= i < |inner| ==> inner[i].stage != FRAME
    requires Ordered(Marks(w0, c0, inner, w1, c1), Wall)
    requires Finished(q, frame, sequence, w0, c0, inner, w1, c1).valid
    ensures var r, ms := Finished(q, frame, sequence, w0, c0, inner, w1, c1), Marks(w0, c0, inner, w1, c1);
      && r.beginNs == w0 > 0 && r.endNs == w1 >= w0
      && r.stages[FRAME].calls == 1 && r.stages[FRAME].wall == w1 - w0
      && forall s :: 0 <= s < COUNT ==>
           && r.stages[s].wall == InStage(ms, s, Wall) <= w1 - w0
           && (r.stages[s].calls == 0 ==> r.stages[s].wall == 0 && r.stages[s].thread == 0)
  {
    hide Profile.MarkAt, Consistent, InStage, Enters, Depth, Opener, After;
    var ms := Marks(w0, c0, inner, w1, c1);
    FinishedFrame(q, frame, sequence, w0, c0, inner, w1, c1);
    assert ms[0] == Mark(FRAME, true, w0, c0) && ms[|ms| - 1] == Mark(FRAME, false, w1, c1);
    forall s | 0 <= s < COUNT
      ensures 0 <= InStage(ms, s, Wall) <= w1 - w0 < WORD
      ensures Enters(ms, s) == 0 ==> InStage(ms, s, Wall) == 0 && InStage(ms, s, Thread) == 0
    {
      WithinFrame(ms, s, Wall);
      if Enters(ms, s) == 0 {
        NeverEntered(ms, s, Wall);
        NeverEntered(ms, s, Thread);
      }
    }
    WholeFrame(w0, c0, inner, w1, c1);
    WallStart(q, frame, sequence, w0, c0, inner, w1, c1);
  }

  lemma WholeFrame(w0: nat, c0: nat, inner: seq<Mark>, w1: nat, c1: nat)
    requires forall i :: 0 <= i < |inner| ==> inner[i].stage != FRAME
    ensures var ms := Marks(w0, c0, inner, w1, c1);
      Enters(ms, FRAME) == 1 && InStage(ms, FRAME, Wall) == w1 - w0 && Opener(ms, FRAME) == 0
  {
    var ms := Marks(w0, c0, inner, w1, c1);
    FrameStage(w0, c0, inner, Wall);
    assert ms[..|ms| - 1] == [Mark(FRAME, true, w0, c0)] + inner;
  }

  /** The start time the frame stage still holds when the frame stops. */
  lemma WallStart(q: Profile, frame: nat, sequence: nat, w0: nat, c0: nat, inner: seq<Mark>, w1: nat, c1: nat)
    requires q.Shaped() && forall i :: 0 <= i < |inner| ==> inner[i].stage != FRAME
    requires Finished(q, frame, sequence, w0, c0, inner, w1, c1).valid
    ensures Finished(q, frame, sequence, w0, c0, inner, w1, c1).stages[FRAME].wallStart == w0
  {
    hide Consistent, InStage, Enters, Depth, Opener;
    var before := [Mark(FRAME, true, w0, c0)] + inner;
    var p := Cleared(!q.active, frame, sequence);
    BeginsMarked(q, frame, sequence, w0, c0, inner);
    Accounts(p, before);
    FrameStage(w0, c0, inner, Wall);
    assert Tracks(After(p, before).stages[FRAME], before, FRAME);
    StopTakes(After(q.Begin(frame, sequence, w0, c0), inner), w1, c1);
  }

  lemma {:induction false} NeverEntered(ms: seq<Mark>, s: nat, clock: Clock)
    requires Enters(ms, s) == 0
    ensures Depth(ms, s) <= 0 && InStage(ms, s, clock) == 0
  {
    if ms != [] {
      NeverEntered(ms[..|ms| - 1], s, clock);
    }
  }
}
