/**
 The text of a frame record: it always fits the buffer it is printed into, and reading its numbers
 back gives the numbers that were printed.
 */
module FramePrint {
  import opened Options
  import opened Words
  import opened Decimals
  import opened FrameProfile
  import opened FrameCapture

  const CAPACITY: nat := 2048
  const HEADER: seq<string> := ["PINECONE_GTK_FRAME {\"version\":1,\"pid\":", ",\"frame\":", ",\"seqBegin\":", ",\"seqEnd\":",
    ",\"beginNs\":", ",\"endNs\":", ",\"valid\":"]
  const OPEN := ",\"stages\":{"
  const CALLS := "\":{\"calls\":"
  const WALL := ",\"wallNs\":"
  const THREAD := ",\"threadNs\":"
  const TAIL := "}}}\n"
  const FIELDS: nat := 37
  const END := "}}\n"
  const LEFT := "{"
  const RIGHT := "}"
  const QUOTE := "\""
  const COLON := "\":"

  /** The text in front of the `k`-th number. */
  function Label(k: nat): string
    requires k < FIELDS
  {
    if k < 7 then HEADER[k]
    else
      var i, j := (k - 7) / 3, (k - 7) % 3;
      if j == 0 then Lead(i) + Head(i)
      else if j == 1 then WALL else THREAD
  }

  function Number(r: Record, k: nat): nat
    requires |r.stages| == COUNT && k < FIELDS
  {
    if k < 7 then [r.pid, r.frame, r.seqBegin, r.seqEnd, r.beginNs, r.endNs, if r.valid then 1 else 0][k]
    else
      var s, j := r.stages[(k - 7) / 3], (k - 7) % 3;
      if j == 0 then s.calls else if j == 1 then s.wall else s.thread
  }

  function Item(r: Record, k: nat): string
    requires |r.stages| == COUNT && k < FIELDS
  {
    Label(k) + Printed(Number(r, k))
  }

  function TextFrom(r: Record, k: nat): string
    requires |r.stages| == COUNT && k <= FIELDS
    decreases FIELDS - k
  {
    if k == FIELDS then TAIL else Item(r, k) + TextFrom(r, k + 1)
  }

  function Text(r: Record): string
    requires |r.stages| == COUNT
  {
    TextFrom(r, 0)
  }

  // ---- printing ----

  function Head(i: nat): string
    requires i < COUNT
  {
    (if i == 0 then "" else ",") + QUOTE + NAMES[i] + CALLS
  }

  function StageText(t: Totals, i: nat): string
    requires i < COUNT
  {
    (Head(i) + Printed(t.calls)) + (WALL + Printed(t.wall)) + (THREAD + Printed(t.thread)) + RIGHT
  }

  /** What stands before stage `i`, and is already printed when its turn comes. */
  function Lead(i: nat): string { if i == 0 then OPEN else RIGHT }

  /** Everything before the `k`-th number's label. */
  function TextTo(r: Record, k: nat): string
    requires |r.stages| == COUNT && k <= FIELDS
  {
    if k == 0 then "" else TextTo(r, k - 1) + Item(r, k - 1)
  }

  lemma {:induction false} TextParts(r: Record, k: nat)
    requires |r.stages| == COUNT && k <= FIELDS
    ensures TextTo(r, k) + TextFrom(r, k) == Text(r)
  {
    hide Item;
    if k > 0 {
      TextParts(r, k - 1);
      assert TextTo(r, k - 1) + Item(r, k - 1) + TextFrom(r, k) == TextTo(r, k - 1) + (Item(r, k - 1) + TextFrom(r, k));
    }
  }

  /** A stage's text closes the text before it and leaves its own brace to the next. */
  lemma StageStep(r: Record, i: nat)
    requires |r.stages| == COUNT && i < COUNT
    ensures TextTo(r, 7 + 3 * i) + Lead(i) + StageText(r.stages[i], i) == TextTo(r, 7 + 3 * (i + 1)) + Lead(i + 1)
  {
    hide Label, Number, Printed, TextTo, Head;
    var t, k := r.stages[i], 7 + 3 * i;
    StageLabels(r, i);
    TextStep(r, k);
    TextStep(r, k + 1);
    TextStep(r, k + 2);
    Regroup(TextTo(r, k), Lead(i), Head(i), Printed(t.calls), WALL + Printed(t.wall), THREAD + Printed(t.thread), RIGHT);
  }

  lemma Regroup(a: string, b: string, c: string, d: string, e: string, f: string, g: string)
    ensures a + b + ((c + d) + e + f + g) == a + ((b + c) + d) + e + f + g
  {
  }

  lemma TextStep(r: Record, k: nat)
    requires |r.stages| == COUNT && k < FIELDS
    ensures TextTo(r, k + 1) == TextTo(r, k) + (Label(k) + Printed(Number(r, k)))
  {
  }

  lemma StageLabels(r: Record, i: nat)
    requires |r.stages| == COUNT && i < COUNT
    ensures var t, k := r.stages[i], 7 + 3 * i;
      && Label(k) == Lead(i) + Head(i) && Label(k + 1) == WALL && Label(k + 2) == THREAD
      && Number(r, k) == t.calls && Number(r, k + 1) == t.wall && Number(r, k + 2) == t.thread
  {
    hide Lead, Head;
    assert (7 + 3 * i - 7) / 3 == i && (7 + 3 * i - 7) % 3 == 0;
    assert (7 + 3 * i + 1 - 7) / 3 == i && (7 + 3 * i + 1 - 7) % 3 == 1;
    assert (7 + 3 * i + 2 - 7) / 3 == i && (7 + 3 * i + 2 - 7) % 3 == 2;
  }

  /** Print a record piece by piece; a piece that does not fit, with its terminator, leaves nothing at all. */
  method PrintRecord(r: Record, capacity: nat) returns (text: string)
    requires |r.stages| == COUNT
    ensures text == if |Text(r)| < capacity then Text(r) else ""
  {
    hide TextTo, TextFrom, StageText;
    TextParts(r, 7);
    text := TextTo(r, 7) + Lead(0);
    TextGoesOn(r, 0);
    if |text| >= capacity {
      return "";
    }
    for i := 0 to COUNT
      invariant text == TextTo(r, 7 + 3 * i) + Lead(i) && |text| < capacity
    {
      StageStep(r, i);
      TextGoesOn(r, i + 1);
      var piece := StageText(r.stages[i], i);
      if |piece| >= capacity - |text| {
        return "";
      }
      text := text + piece;
    }
    TextEnds(r);
    if 3 >= capacity - |text| {
      return "";
    }
    text := text + END;
  }

  /** What is printed up to a stage is a proper part of the whole text. */
  lemma TextGoesOn(r: Record, i: nat)
    requires |r.stages| == COUNT && i <= COUNT
    ensures |TextTo(r, 7 + 3 * i) + Lead(i)| < |Text(r)|
  {
    hide TextTo, Printed, Number;
    TextParts(r, 7 + 3 * i);
    if i < COUNT {
      StageLabels(r, i);
    }
  }

  lemma TextEnds(r: Record)
    requires |r.stages| == COUNT
    ensures TextTo(r, 37) + Lead(10) + END == Text(r)
  {
    hide TextTo;
    TextParts(r, 37);
    assert RIGHT + END == TAIL;
  }

  // ---- it fits ----

  /** A record of 64-bit numbers, and a process identifier that is a positive long. */
  predicate Sized(r: Record) {
    && |r.stages| == COUNT && 0 < r.pid < WORD / 2
    && r.frame < WORD && r.seqBegin < WORD && r.seqEnd < WORD && r.beginNs < WORD && r.endNs < WORD
    && forall i :: 0 <= i < COUNT ==> r.stages[i].calls < WORD && r.stages[i].wall < WORD && r.stages[i].thread < WORD
  }

  lemma NumberSized(r: Record, k: nat)
    requires Sized(r) && k < FIELDS
    ensures Number(r, k) < WORD && |Printed(Number(r, k))| <= 20
  {
    var n := Number(r, k);
    assert n < WORD;
    Power20();
    Width(n, 20);
  }

  lemma Power20()
    ensures Power(20) == 100_000_000_000_000_000_000
  {
    assert Power(5) == 100_000;
    assert Power(10) == 10_000_000_000;
    assert Power(15) == 1_000_000_000_000_000;
  }

  lemma LabelSized(k: nat)
    requires k < FIELDS
    ensures |Label(k)| <= if k >= 7 && (k - 7) % 3 == 0 then 39 else 38
    ensures k >= 7 && (k - 7) % 3 != 0 ==> |Label(k)| <= 12
    ensures 0 < k < 7 ==> |Label(k)| <= 12
  {
    assert forall i :: 0 <= i < COUNT ==> |NAMES[i]| <= 16;
  }

  /** What the text from one number on takes at most: 59 for the first number of a stage, 32 for any other. */
  function Bound(k: nat): nat
    requires 0 < k <= FIELDS
  {
    4 + if k >= 7 then (FIELDS - k) / 3 * 27 + (FIELDS - k) * 32 else 10 * 27 + (FIELDS - k) * 32
  }

  lemma BoundStep(k: nat)
    requires 0 < k < FIELDS
    ensures Bound(k) == Bound(k + 1) + if k >= 7 && (k - 7) % 3 == 0 then 59 else 32
  {
  }

  lemma {:induction false} TextSized(r: Record, k: nat)
    requires Sized(r) && 0 < k <= FIELDS
    ensures |TextFrom(r, k)| <= Bound(k)
    decreases FIELDS - k
  {
    hide Label, Number, Printed, Sized, Bound;
    if k < FIELDS {
      TextSized(r, k + 1);
      LabelSized(k);
      NumberSized(r, k);
      BoundStep(k);
    } else {
      BoundEnd();
    }
  }

  lemma BoundEnd()
    ensures Bound(FIELDS) == 4
  {
  }

  /** A record always fits the buffer, so a ready frame is never lost to truncation. */
  lemma TextFits(r: Record)
    requires Sized(r)
    ensures |Text(r)| < CAPACITY
  {
    hide Label, Number, Printed, Sized;
    TextSized(r, 1);
    LabelSized(0);
    NumberSized(r, 0);
  }

  // ---- every record of a run fits ----

  /** Clock readings and frame counters of 64 bits. */
  predicate WideEvent(e: Event) {
    match e
    case FrameBegin(counter, w, c) => counter < WORD && w < WORD && c < WORD
    case StageMark(_, _, w, c) => w < WORD && c < WORD
    case FrameStop(w, c) => w < WORD && c < WORD
    case _ => true
  }

  predicate WideStage(st: Stage, marks: nat) {
    st.wallStart < WORD && st.wall < WORD && st.thread < WORD && st.calls <= marks
  }

  predicate WideProfile(p: Profile) {
    && p.Shaped() && p.marks <= MAX_MARKS
    && p.frame < WORD && p.seqBegin < WORD && p.beginNs < WORD && p.endNs < WORD
    && forall i :: 0 <= i < COUNT ==> WideStage(p.stages[i], p.marks)
  }

  lemma TakeWide(p: Profile, m: Mark)
    requires WideProfile(p) && m.wall < WORD && m.cpu < WORD
    ensures WideProfile(p.Take(m))
  {
    hide WORD;
    if p.active && p.marks < MAX_MARKS && m.stage < COUNT {
      assert WideStage(p.stages[m.stage], p.marks);
      var q := p.Take(m);
      forall i | 0 <= i < COUNT ensures WideStage(q.stages[i], q.marks) {
        assert WideStage(p.stages[i], p.marks);
        if i == m.stage && (m.entering || p.stages[i].depth > 0) && !p.stages[i].Backwards(m) {
          MarkedWide(p.stages[i], m, p.marks);
        }
      }
    }
  }

  lemma MarkedWide(st: Stage, m: Mark, marks: nat)
    requires WideStage(st, marks) && m.wall < WORD && m.cpu < WORD
    requires (m.entering || st.depth > 0) && !st.Backwards(m)
    ensures WideStage(st.Marked(m), marks + 1)
  {
  }

  lemma BeginWide(p: Profile, frame: nat, sequence: nat, w: nat, c: nat)
    requires p.Shaped() && frame < WORD && sequence < WORD && w < WORD && c < WORD
    ensures WideProfile(p.Begin(frame, sequence, w, c))
  {
    hide Profile.Take;
    var cleared := Cleared(!p.active, frame, sequence);
    TakeWide(cleared, Mark(FRAME, true, w, c));
    assert WideStage(cleared.Take(Mark(FRAME, true, w, c)).stages[FRAME], cleared.Take(Mark(FRAME, true, w, c)).marks);
  }

  lemma StopWide(p: Profile, w: nat, c: nat)
    requires WideProfile(p) && w < WORD && c < WORD
    ensures WideProfile(p.Stop(w, c))
  {
    hide Profile.Take;
    TakeWide(p, Mark(FRAME, false, w, c));
  }

  ghost predicate WideObserver(o: Observer, insertions: nat) {
    && WideProfile(o.pc) && o.sequence <= insertions && o.endSequence <= insertions
    && forall i :: 0 <= i < |o.log| ==> Sized(o.log[i])
  }

  lemma StepWide(o: Observer, e: Event, insertions: nat)
    requires WideObserver(o, insertions) && WideEvent(e) && 0 < o.pid < WORD / 2 && insertions + 1 < WORD
    ensures WideObserver(o.Step(e), insertions + 1)
  {
    hide Profile.Take, Profile.Begin, Profile.Stop, WORD;
    match e
    case FrameBegin(counter, w, c) => BeginWide(o.pc, counter, o.sequence, w, c);
    case StageMark(stage, entering, w, c) => TakeWide(o.pc, Mark(stage, entering, w, c));
    case FrameStop(w, c) => StopWide(o.pc, w, c);
    case FrameEnd => WrittenSized(o, insertions);
    case Insert =>
  }

  lemma WrittenSized(o: Observer, insertions: nat)
    requires WideObserver(o, insertions) && 0 < o.pid < WORD / 2 && insertions < WORD
    ensures Sized(o.Written())
  {
    hide WORD;
    MarksWide();
    forall i | 0 <= i < COUNT
      ensures var t := o.Written().stages[i]; t.calls < WORD && t.wall < WORD && t.thread < WORD
    {
      assert WideStage(o.pc.stages[i], o.pc.marks);
    }
  }

  lemma MarksWide()
    ensures MAX_MARKS < WORD
  {
  }

  lemma {:induction false} RunWide(pid: nat, es: seq<Event>)
    requires 0 < pid < WORD / 2 && |es| < WORD && forall i :: 0 <= i < |es| ==> WideEvent(es[i])
    ensures WideObserver(Run(pid, es), |es|)
  {
    hide WideObserver, WideEvent, Observer.Step, WORD;
    if es == [] {
      NothingWide(pid);
    } else {
      RunWide(pid, es[..|es| - 1]);
      StepWide(Run(pid, es[..|es| - 1]), es[|es| - 1], |es| - 1);
    }
  }

  lemma NothingWide(pid: nat)
    ensures WideObserver(Run(pid, []), 0)
  {
  }

  /** No record of a run with 64-bit readings and counters is ever lost to truncation. */
  lemma EveryRecordFits(pid: nat, es: seq<Event>, i: nat)
    requires 0 < pid < WORD / 2 && |es| < WORD && forall j :: 0 <= j < |es| ==> WideEvent(es[j])
    requires i < |Run(pid, es).log|
    ensures |Run(pid, es).log[i].stages| == COUNT && |Text(Run(pid, es).log[i])| < CAPACITY
  {
    hide Sized, WideEvent, WORD, Text;
    RunWide(pid, es);
    SizedShape(Run(pid, es).log[i]);
    TextFits(Run(pid, es).log[i]);
  }

  lemma SizedShape(r: Record)
    requires Sized(r)
    ensures |r.stages| == COUNT
  {
  }

  // ---- reading back ----

  /** Where the digits at the front of a text end. */
  function DigitsEnd(s: string): (d: nat)
    ensures d <= |s| && forall i :: 0 <= i < d ==> Digit(s[i])
  {
    if s == "" || !Digit(s[0]) then 0 else 1 + DigitsEnd(s[1..])
  }

  /** Read the numbers of a record, from the `k`-th on: every label must stand where it belongs. */
  function ReadFrom(s: string, k: nat): Option<seq<nat>>
    requires k <= FIELDS
    decreases FIELDS - k
  {
    if k == FIELDS then (if s == TAIL then Some([]) else None)
    else if !(Label(k) <= s) then None
    else
      var rest := s[|Label(k)|..];
      var d := DigitsEnd(rest);
      if d == 0 then None
      else
        match ReadFrom(rest[d..], k + 1)
        case None => None
        case Some(ns) => Some([Value(rest[..d])] + ns)
  }

  function Numbers(r: Record, k: nat): (ns: seq<nat>)
    requires |r.stages| == COUNT && k <= FIELDS
    ensures |ns| == FIELDS - k && forall i :: 0 <= i < |ns| ==> ns[i] == Number(r, k + i)
    decreases FIELDS - k
  {
    if k == FIELDS then [] else [Number(r, k)] + Numbers(r, k + 1)
  }

  lemma {:induction false} DigitsThen(digits: string, rest: string)
    requires (forall i :: 0 <= i < |digits| ==> Digit(digits[i])) && rest != "" && !Digit(rest[0])
    ensures DigitsEnd(digits + rest) == |digits|
  {
    if digits == "" {
      assert digits + rest == rest;
    } else {
      DigitsThen(digits[1..], rest);
      assert (digits + rest)[1..] == digits[1..] + rest;
    }
  }

  /** What follows a number begins with no digit. */
  lemma NoDigitNext(r: Record, k: nat)
    requires |r.stages| == COUNT && 0 < k <= FIELDS
    ensures TextFrom(r, k) != "" && !Digit(TextFrom(r, k)[0])
  {
    hide Number, Printed;
    if k < FIELDS {
      var front := Label(k);
      assert front != "" && (front[0] == ',' || front[0] == RIGHT[0]);
      assert TextFrom(r, k)[0] == front[0];
    }
  }

  lemma {:induction false} ReadsText(r: Record, k: nat)
    requires |r.stages| == COUNT && k <= FIELDS
    ensures ReadFrom(TextFrom(r, k), k) == Some(Numbers(r, k))
    decreases FIELDS - k
  {
    hide Label, Number, DigitsEnd, Printed, Value;
    if k < FIELDS {
      ReadsText(r, k + 1);
      NoDigitNext(r, k + 1);
      var digits, after, s := Printed(Number(r, k)), TextFrom(r, k + 1), TextFrom(r, k);
      ReadsBack(Number(r, k));
      assert s == Label(k) + (digits + after);
      var rest := s[|Label(k)|..];
      assert rest == digits + after;
      DigitsThen(digits, after);
      assert rest[..|digits|] == digits && rest[|digits|..] == after;
    }
  }

  /** Reading a printed record gives back all its numbers, so two records that print alike are the same. */
  lemma RecordReadsBack(r: Record, q: Record)
    requires |r.stages| == COUNT && |q.stages| == COUNT
    ensures ReadFrom(Text(r), 0) == Some(Numbers(r, 0))
    ensures Text(r) == Text(q) ==> r == q
  {
    hide Label, TextFrom, ReadFrom;
    ReadsText(r, 0);
    ReadsText(q, 0);
    if Text(r) == Text(q) {
      var ns := Numbers(r, 0);
      forall k | 0 <= k < FIELDS ensures Number(r, k) == Number(q, k) {
        assert ns[k] == Number(r, 0 + k) && Numbers(q, 0)[k] == Number(q, 0 + k);
      }
      SameNumbers(r, q);
    }
  }

  lemma SameNumbers(r: Record, q: Record)
    requires |r.stages| == COUNT && |q.stages| == COUNT
    requires forall k :: 0 <= k < FIELDS ==> Number(r, k) == Number(q, k)
    ensures r == q
  {
    hide Number;
    HeadNumbers(r);
    HeadNumbers(q);
    forall i | 0 <= i < COUNT ensures r.stages[i] == q.stages[i] {
      StageLabels(r, i);
      StageLabels(q, i);
    }
    assert r.stages == q.stages;
  }

  lemma HeadNumbers(r: Record)
    requires |r.stages| == COUNT
    ensures Number(r, 0) == r.pid && Number(r, 1) == r.frame && Number(r, 2) == r.seqBegin && Number(r, 3) == r.seqEnd
    ensures Number(r, 4) == r.beginNs && Number(r, 5) == r.endNs && Number(r, 6) == if r.valid then 1 else 0
  {
  }
}
