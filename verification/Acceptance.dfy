/**
 The acceptance validator: it walks the captures and the attempts of a manifest once, comparing each
 with the last one of its epoch or clock, collects every error, and passes only if there is none. What
 each capture or attempt shows on its own (files, schema, logs, protocol details) is a fault count here.
 */
module Acceptance {
  import opened Options

  datatype Cohort = UnlockFull | ScrollShort | ScrollLong | Keyboard | AppCold | AppWarm | UnlockShort | OtherCohort
  {
    predicate Diagnostic() { UnlockShort? }

    predicate App() { AppCold? || AppWarm? }
  }

  const COHORTS: seq<Cohort> := [UnlockFull, ScrollShort, ScrollLong, Keyboard, AppCold, AppWarm]

  const REQUESTED := "applicationLaunchRequested"
  const PRESENTED := "applicationSurfacePresented"

  /** An absent or empty identifier, and a value that is no number, is `None`. */
  datatype Capture = Capture(id: Option<string>, epoch: Option<string>, clock: Option<string>, at: Option<real>,
                             faults: nat, elapsed: map<string, real>, execution: map<string, string>, frames: Option<nat>,
                             samples: seq<Sample>)

  /** A diagnostic sample of a capture: the generation it belongs to, and all it measured. */
  datatype Sample = Sample(generation: string, raw: string)

  datatype Attempt = Attempt(id: Option<string>, cohort: Cohort, before: Option<string>, after: Option<string>,
                             clock: Option<string>, started: Option<real>, finished: Option<real>, faults: nat,
                             passed: bool, evidence: Option<string>, completed: Option<real>,
                             timingClock: Option<string>, lastAbsent: Option<real>, firstPresent: Option<real>)

  datatype Requirements = Requirements(minimum: Option<nat>, interaction: real, launch: real, budgets: map<Cohort, real>)
  {
    predicate Declared() {
      && minimum.Some? && minimum.value >= 10 && interaction > 0.0 && launch > 0.0
      && forall c :: c in COHORTS ==> c in budgets && budgets[c] > 0.0
    }

    function Window(c: Cohort): real { if c.App() then launch else interaction }
  }

  datatype Manifest = Manifest(faults: nat, requirements: Requirements, captures: seq<Capture>, attempts: seq<Attempt>)

  // ---- captures ----

  /** A capture that is fine on its own. */
  predicate Clean(c: Capture) {
    && c.id.Some? && c.epoch.Some? && c.clock.Some? && c.at.Some? && c.faults == 0
    && c.frames.Some? && c.frames.value > 0
  }

  /** What a later capture of an epoch must keep: its clock, every milestone, and the order of time and frames. */
  predicate Continues(earlier: Capture, later: Capture) {
    && later.clock == earlier.clock
    && (earlier.at.Some? && later.at.Some? ==> later.at.value > earlier.at.value)
    && (forall k <- earlier.elapsed :: k in later.elapsed && later.elapsed[k] == earlier.elapsed[k])
    && (forall k <- earlier.execution :: k in later.execution && later.execution[k] == earlier.execution[k])
    && (earlier.frames.Some? && later.frames.Some? ==> later.frames.value >= earlier.frames.value)
  }

  ghost predicate CaptureFits(cs: seq<Capture>, n: nat)
    requires n < |cs|
  {
    OrderFits(cs, n) && SamplesFit(cs, n)
  }

  ghost predicate OrderFits(cs: seq<Capture>, n: nat)
    requires n < |cs|
  {
    && Clean(cs[n])
    && forall i :: 0 <= i < n ==> cs[i].id != cs[n].id && (cs[i].epoch == cs[n].epoch ==> Continues(cs[i], cs[n]))
  }

  ghost predicate CapturesFit(cs: seq<Capture>, n: nat)
    requires n <= |cs|
  {
    forall k :: 0 <= k < n ==> CaptureFits(cs, k)
  }

  // ---- diagnostic samples ----

  /** Sample `j` of capture `i` comes before sample `k` of capture `n`. */
  ghost predicate Past(cs: seq<Capture>, n: nat, k: nat, i: nat, j: nat) {
    i < |cs| && j < |cs[i].samples| && (i < n || (i == n && j < k))
  }

  /** A generation means the same measurements wherever it appears within an epoch. */
  ghost predicate SampleFits(cs: seq<Capture>, n: nat, k: nat)
    requires n < |cs| && k < |cs[n].samples|
  {
    forall i: nat, j: nat :: Past(cs, n, k, i, j) && cs[i].epoch == cs[n].epoch
                             && cs[i].samples[j].generation == cs[n].samples[k].generation ==>
      cs[i].samples[j].raw == cs[n].samples[k].raw
  }

  ghost predicate SamplesFit(cs: seq<Capture>, n: nat)
    requires n < |cs|
  {
    forall k :: 0 <= k < |cs[n].samples| ==> SampleFits(cs, n, k)
  }

  type Samples = map<(Option<string>, string), string>

  /** The dictionary holds exactly the samples that came before. */
  ghost predicate Holds(cs: seq<Capture>, n: nat, k: nat, known: Samples) {
    && (forall i: nat, j: nat :: Past(cs, n, k, i, j) ==> Recorded(cs[i].epoch, cs[i].samples[j], known))
    && (forall key <- known :: Occurs(cs, n, k, key))
  }

  /** A sample with this epoch and generation came before. */
  ghost predicate Occurs(cs: seq<Capture>, n: nat, k: nat, key: (Option<string>, string)) {
    exists i: nat, j: nat :: Past(cs, n, k, i, j) && KeyOf(cs, i, j) == key
  }

  predicate Recorded(epoch: Option<string>, s: Sample, known: Samples) {
    (epoch, s.generation) in known && known[(epoch, s.generation)] == s.raw
  }

  function KeyOf(cs: seq<Capture>, i: nat, j: nat): (Option<string>, string)
    requires i < |cs| && j < |cs[i].samples|
  {
    (cs[i].epoch, cs[i].samples[j].generation)
  }

  /** Looking a sample up compares it with all that came before. */
  lemma SampleStep(cs: seq<Capture>, n: nat, k: nat, known: Samples)
    requires n < |cs| && k < |cs[n].samples| && Holds(cs, n, k, known)
    ensures var key, raw := KeyOf(cs, n, k), cs[n].samples[k].raw;
      && (SampleFits(cs, n, k) <==> key !in known || known[key] == raw)
      && (SampleFits(cs, n, k) ==> Holds(cs, n, k + 1, known[key := raw]))
  {
    hide Holds, SampleFits, Occurs;
    var key, raw := KeyOf(cs, n, k), cs[n].samples[k].raw;
    if key in known {
      var i, j := SampleSource(cs, n, k, known, key);
      if known[key] == raw {
        SameAsKnown(cs, n, k, known);
      } else {
        NotAsKnown(cs, n, k, i, j);
      }
    } else {
      NewSample(cs, n, k, known);
    }
    if key !in known || known[key] == raw {
      HoldsMore(cs, n, k, known);
    }
  }

  /** Where the dictionary has a key from, and what it says for it. */
  lemma SampleSource(cs: seq<Capture>, n: nat, k: nat, known: Samples, key: (Option<string>, string)) returns (i: nat, j: nat)
    requires Holds(cs, n, k, known) && key in known
    ensures Past(cs, n, k, i, j) && KeyOf(cs, i, j) == key && cs[i].samples[j].raw == known[key]
  {
    hide Recorded;
    assert Occurs(cs, n, k, key);
    i, j :| Past(cs, n, k, i, j) && KeyOf(cs, i, j) == key;
    IsRecorded(cs, n, k, known, i, j);
  }

  lemma IsRecorded(cs: seq<Capture>, n: nat, k: nat, known: Samples, i: nat, j: nat)
    requires Holds(cs, n, k, known) && Past(cs, n, k, i, j)
    ensures KeyOf(cs, i, j) in known && known[KeyOf(cs, i, j)] == cs[i].samples[j].raw
  {
    hide Occurs;
    assert Recorded(cs[i].epoch, cs[i].samples[j], known);
  }

  lemma SameAsKnown(cs: seq<Capture>, n: nat, k: nat, known: Samples)
    requires n < |cs| && k < |cs[n].samples| && Holds(cs, n, k, known)
    requires KeyOf(cs, n, k) in known && known[KeyOf(cs, n, k)] == cs[n].samples[k].raw
    ensures SampleFits(cs, n, k)
  {
    hide Holds;
    forall i: nat, j: nat | Past(cs, n, k, i, j) && KeyOf(cs, i, j) == KeyOf(cs, n, k)
      ensures cs[i].samples[j].raw == cs[n].samples[k].raw
    {
      IsRecorded(cs, n, k, known, i, j);
    }
  }

  lemma NotAsKnown(cs: seq<Capture>, n: nat, k: nat, i: nat, j: nat)
    requires n < |cs| && k < |cs[n].samples| && Past(cs, n, k, i, j) && KeyOf(cs, i, j) == KeyOf(cs, n, k)
    requires cs[i].samples[j].raw != cs[n].samples[k].raw
    ensures !SampleFits(cs, n, k)
  {
  }

  lemma NewSample(cs: seq<Capture>, n: nat, k: nat, known: Samples)
    requires n < |cs| && k < |cs[n].samples| && Holds(cs, n, k, known) && KeyOf(cs, n, k) !in known
    ensures SampleFits(cs, n, k)
  {
    hide Holds;
    forall i: nat, j: nat | Past(cs, n, k, i, j) ensures KeyOf(cs, i, j) != KeyOf(cs, n, k) {
      IsRecorded(cs, n, k, known, i, j);
    }
  }

  lemma HoldsMore(cs: seq<Capture>, n: nat, k: nat, known: Samples)
    requires n < |cs| && k < |cs[n].samples| && Holds(cs, n, k, known)
    requires KeyOf(cs, n, k) in known ==> known[KeyOf(cs, n, k)] == cs[n].samples[k].raw
    ensures Holds(cs, n, k + 1, known[KeyOf(cs, n, k) := cs[n].samples[k].raw])
  {
    var key := KeyOf(cs, n, k);
    var more := known[key := cs[n].samples[k].raw];
    forall i: nat, j: nat | Past(cs, n, k + 1, i, j) ensures Recorded(cs[i].epoch, cs[i].samples[j], more) {
      hide Holds, Occurs;
      if Past(cs, n, k, i, j) {
        IsRecorded(cs, n, k, known, i, j);
      }
    }
    forall other <- more ensures Occurs(cs, n, k + 1, other) {
      if other in known {
        assert Occurs(cs, n, k, other);
        var i: nat, j: nat :| Past(cs, n, k, i, j) && KeyOf(cs, i, j) == other;
        assert Past(cs, n, k + 1, i, j);
      } else {
        assert Past(cs, n, k + 1, n, k);
      }
    }
  }

  lemma HoldsNext(cs: seq<Capture>, n: nat, known: Samples)
    requires n < |cs| && Holds(cs, n, |cs[n].samples|, known)
    ensures Holds(cs, n + 1, 0, known)
  {
    hide Recorded;
    forall i: nat, j: nat ensures Past(cs, n + 1, 0, i, j) <==> Past(cs, n, |cs[n].samples|, i, j) {
    }
    forall key <- known ensures Occurs(cs, n + 1, 0, key) {
      assert Occurs(cs, n, |cs[n].samples|, key);
      var i: nat, j: nat :| Past(cs, n, |cs[n].samples|, i, j) && KeyOf(cs, i, j) == key;
      assert Past(cs, n + 1, 0, i, j);
    }
  }

  /** The last capture of an epoch among the first `n`. */
  ghost predicate LastOf(cs: seq<Capture>, n: nat, epoch: Option<string>, prior: Option<Capture>)
    requires n <= |cs|
  {
    match prior
    case None => forall k :: 0 <= k < n ==> cs[k].epoch != epoch
    case Some(c) => exists i: nat :: i < n && IsLast(cs, n, epoch, i) && cs[i] == c
  }

  ghost predicate IsLast(cs: seq<Capture>, n: nat, epoch: Option<string>, i: nat)
    requires i < n <= |cs|
  {
    cs[i].epoch == epoch && forall k :: i < k < n ==> cs[k].epoch != epoch
  }

  lemma ContinuesOn(a: Capture, b: Capture, c: Capture)
    requires Continues(a, b) && Continues(b, c) && Clean(b)
    ensures Continues(a, c)
  {
  }

  /** Comparing a capture with the last one of its epoch compares it with all of them. */
  lemma CaptureStep(cs: seq<Capture>, n: nat, prior: Option<Capture>)
    requires n < |cs| && CapturesFit(cs, n) && LastOf(cs, n, cs[n].epoch, prior)
    ensures OrderFits(cs, n) <==>
      && Clean(cs[n]) && (forall k :: 0 <= k < n ==> cs[k].id != cs[n].id)
      && (prior.Some? ==> Continues(prior.value, cs[n]))
  {
    hide Continues, Clean;
    if prior.Some? {
      var p: nat :| p < n && IsLast(cs, n, cs[n].epoch, p) && cs[p] == prior.value;
      assert CaptureFits(cs, p);
      forall i | 0 <= i < n && cs[i].epoch == cs[n].epoch && Continues(cs[p], cs[n]) ensures Continues(cs[i], cs[n]) {
        if i < p {
          ContinuesOn(cs[i], cs[p], cs[n]);
        }
      }
    }
  }

  /** The capture of that identity among the first `n`. */
  function Find(cs: seq<Capture>, n: nat, id: Option<string>): (r: Option<Capture>)
    requires n <= |cs|
    ensures r.None? && id.Some? ==> forall k :: 0 <= k < n ==> cs[k].id != id
    ensures r.Some? ==> id.Some? && exists k: nat :: k < n && cs[k] == r.value && cs[k].id == id
  {
    if n == 0 || id.None? then None
    else if cs[n - 1].id == id then Some(cs[n - 1]) else Find(cs, n - 1, id)
  }

  // ---- attempts ----

  /** Times that are all present and in order. */
  predicate InOrder(ts: seq<Option<real>>) {
    && (forall i :: 0 <= i < |ts| ==> ts[i].Some?)
    && (forall i :: 0 < i < |ts| ==> ts[i - 1].value <= ts[i].value)
  }

  /** Two captures that bound the attempt, on one clock and in one epoch. */
  predicate Bounded(a: Attempt, before: Option<Capture>, after: Option<Capture>) {
    && before.Some? && after.Some?
    && before.value.epoch == after.value.epoch
    && OneClock(a, before.value, after.value) && InBetween(a, before.value, after.value)
  }

  predicate OneClock(a: Attempt, before: Capture, after: Capture) {
    a.clock == before.clock && a.clock == after.clock
  }

  predicate InBetween(a: Attempt, before: Capture, after: Capture) {
    InOrder([before.at, a.started, a.finished, after.at]) && a.started != a.finished
  }

  /** The scripted input is complete within the attempt. */
  predicate Typed(a: Attempt) { InOrder([a.started, a.completed, a.finished]) }

  predicate Launched(after: Capture) {
    && REQUESTED in after.elapsed && PRESENTED in after.elapsed
    && after.elapsed[PRESENTED] >= after.elapsed[REQUESTED]
  }

  /** The semantic observation: same clock, in order, not before the input was complete, within the window. */
  predicate Observed(a: Attempt, r: Requirements) {
    && a.timingClock.Some? && a.timingClock == a.clock
    && var times := [a.started, a.lastAbsent, a.firstPresent, a.finished];
       && InOrder(times)
       && (a.completed.Some? ==> times[2].value >= a.completed.value)
       && times[2].value - times[0].value <= r.Window(a.cohort)
  }

  /** An attempt that is fine but for its place among the others. */
  predicate Proper(a: Attempt, before: Option<Capture>, after: Option<Capture>, r: Requirements) {
    && !a.cohort.OtherCohort? && a.faults == 0 && a.evidence.Some?
    && Bounded(a, before, after) && Typed(a)
    && (a.passed || a.cohort.Diagnostic())
    && (a.cohort.App() ==> Launched(after.value))
    && ((a.cohort.Diagnostic() && !a.passed) || Observed(a, r))
  }

  function Upper(a: Attempt): Option<real> {
    if a.started.Some? && a.firstPresent.Some? then Some(a.firstPresent.value - a.started.value) else None
  }

  function Named(m: Manifest, id: Option<string>): Option<Capture> { Find(m.captures, |m.captures|, id) }

  ghost predicate AttemptFits(m: Manifest, n: nat)
    requires n < |m.attempts|
  {
    var a := m.attempts[n];
    && a.id.Some? && Proper(a, Named(m, a.before), Named(m, a.after), m.requirements)
    && forall i :: 0 <= i < n ==> Disjoint(m.attempts[i], a)
  }

  /** Different identity, different evidence, and on one clock one after the other. */
  predicate Disjoint(earlier: Attempt, later: Attempt) {
    && earlier.id != later.id && earlier.evidence != later.evidence
    && (earlier.clock == later.clock && earlier.finished.Some? && later.started.Some? ==>
          earlier.finished.value < later.started.value)
  }

  ghost predicate AttemptsFit(m: Manifest, n: nat)
    requires n <= |m.attempts|
  {
    forall k :: 0 <= k < n ==> AttemptFits(m, k)
  }

  // ---- cohorts ----

  /** The upper bounds of a cohort, in attempt order. */
  function Uppers(attempts: seq<Attempt>, c: Cohort): seq<real> {
    if attempts == [] then []
    else
      var a := attempts[|attempts| - 1];
      Uppers(attempts[..|attempts| - 1], c) + if a.cohort == c && Upper(a).Some? then [Upper(a).value] else []
  }

  function Within(values: seq<real>, budget: real): nat {
    if values == [] then 0 else Within(values[..|values| - 1], budget) + if values[|values| - 1] <= budget then 1 else 0
  }

  ghost predicate CohortFits(m: Manifest, c: Cohort) {
    var values := Uppers(m.attempts, c);
    && m.requirements.minimum.Some? && |values| >= m.requirements.minimum.value
    && c in m.requirements.budgets
    && 20 * Within(values, m.requirements.budgets[c]) >= 19 * |values|
  }

  /** What a passing manifest shows, stated over all pairs of captures and attempts. */
  ghost predicate Passes(m: Manifest) {
    && m.faults == 0 && m.requirements.Declared()
    && m.captures != [] && CapturesFit(m.captures, |m.captures|)
    && AttemptsFit(m, |m.attempts|)
    && forall c :: c in COHORTS ==> CohortFits(m, c)
  }

  // ---- nearest rank ----

  predicate Ascending(s: seq<real>) { forall i, j :: 0 <= i < j < |s| ==> s[i] <= s[j] }

  function Insert(s: seq<real>, x: real): (r: seq<real>)
    ensures |r| == |s| + 1
  {
    if s == [] || s[|s| - 1] <= x then s + [x] else Insert(s[..|s| - 1], x) + [s[|s| - 1]]
  }

  function Sorted(values: seq<real>): (r: seq<real>)
    ensures |r| == |values|
  {
    if values == [] then [] else Insert(Sorted(values[..|values| - 1]), values[|values| - 1])
  }

  /** The nearest-rank 95th percentile. */
  function P95(values: seq<real>): real
    requires values != []
  {
    Sorted(values)[(19 * |values| + 19) / 20 - 1]
  }

  lemma {:induction false} InsertAscends(s: seq<real>, x: real)
    requires Ascending(s)
    ensures Ascending(Insert(s, x)) && forall i :: 0 <= i < |s| + 1 ==> Insert(s, x)[i] == x || Insert(s, x)[i] in s
  {
    if s != [] && s[|s| - 1] > x {
      var init, last := s[..|s| - 1], s[|s| - 1];
      InsertAscends(init, x);
      assert forall y :: y in init ==> y <= last;
    }
  }

  lemma {:induction false} InsertWithin(s: seq<real>, x: real, budget: real)
    ensures Within(Insert(s, x), budget) == Within(s, budget) + if x <= budget then 1 else 0
  {
    if s == [] || s[|s| - 1] <= x {
      assert (s + [x])[..|s|] == s;
    } else {
      InsertWithin(s[..|s| - 1], x, budget);
      var r := Insert(s[..|s| - 1], x);
      assert (r + [s[|s| - 1]])[..|r|] == r;
    }
  }

  lemma {:induction false} SortedIs(values: seq<real>, budget: real)
    ensures Ascending(Sorted(values)) && Within(Sorted(values), budget) == Within(values, budget)
  {
    if values != [] {
      SortedIs(values[..|values| - 1], budget);
      InsertAscends(Sorted(values[..|values| - 1]), values[|values| - 1]);
      InsertWithin(Sorted(values[..|values| - 1]), values[|values| - 1], budget);
    }
  }

  lemma {:induction false} AscendingWithin(s: seq<real>, budget: real, i: nat)
    requires Ascending(s) && i < |s|
    ensures s[i] <= budget <==> Within(s, budget) > i
  {
    WithinBound(s, budget);
    if i < |s| - 1 {
      AscendingWithin(s[..|s| - 1], budget, i);
      if s[|s| - 1] <= budget {
        assert s[i] <= s[|s| - 1];
      }
    } else if s[i] <= budget {
      AllWithin(s, budget);
    } else {
      WithinBound(s[..|s| - 1], budget);
    }
  }

  lemma {:induction false} WithinBound(s: seq<real>, budget: real)
    ensures Within(s, budget) <= |s|
  {
    if s != [] {
      WithinBound(s[..|s| - 1], budget);
    }
  }

  lemma {:induction false} AllWithin(s: seq<real>, budget: real)
    requires forall i :: 0 <= i < |s| ==> s[i] <= budget
    ensures Within(s, budget) == |s|
  {
    if s != [] {
      AllWithin(s[..|s| - 1], budget);
    }
  }

  /** The percentile is within a budget exactly when at least 95 of 100 values are. */
  lemma NearestRank(values: seq<real>, budget: real)
    requires values != []
    ensures P95(values) <= budget <==> 20 * Within(values, budget) >= 19 * |values|
  {
    SortedIs(values, budget);
    AscendingWithin(Sorted(values), budget, (19 * |values| + 19) / 20 - 1);
  }

  // ---- the validator ----

  datatype Code =
    | InvalidSchema | InvalidCapture | MissingEvidence | Reset | MissingMetrics | InvalidCohort | InvalidCorrelation
    | InputProtocol | FunctionalFailure | ReusedObservation | MissingMilestone | Expired | DuplicateAttempt
    | InsufficientSamples | LatencyBudget

  datatype Checked = Checked(capture: Capture, valid: bool)

  datatype Outcome = Outcome(cohort: Cohort, valid: bool, upper: Option<real>)

  class Validator {
    var errors: seq<Code>

    constructor ()
      ensures errors == []
    {
      errors := [];
    }

    method Error(code: Code)
      modifies this
      ensures |errors| == |old(errors)| + 1
    {
      errors := errors + [code];
    }

    /** Note an error unless the condition holds. */
    method Demand(holds: bool, code: Code)
      modifies this
      ensures |errors| == |old(errors)| + if holds then 0 else 1
    {
      if !holds {
        Error(code);
      }
    }

    /** One capture, by itself and against the last one of its epoch. */
    method OneCapture(c: Capture, prior: Option<Capture>)
      requires c.id.Some? && (prior.Some? ==> prior.value.at.Some?)
      modifies this
      ensures |old(errors)| <= |errors|
      ensures |errors| == |old(errors)| <==> Clean(c) && (prior.Some? ==> Continues(prior.value, c))
    {
      Demand(c.epoch.Some?, InvalidCapture);
      Demand(c.clock.Some?, InvalidCapture);
      Demand(c.at.Some?, InvalidCapture);
      Demand(c.faults == 0, MissingEvidence);
      Demand(c.frames.Some? && c.frames.value > 0, MissingMilestone);
      if c.epoch.Some? && c.clock.Some? && c.at.Some? && prior.Some? {
        var p := prior.value;
        Demand(c.clock == p.clock, Reset);
        Demand(c.at.value > p.at.value, Reset);
        Demand(forall k <- p.elapsed :: k in c.elapsed && c.elapsed[k] == p.elapsed[k], Reset);
        Demand(forall k <- p.execution :: k in c.execution && c.execution[k] == p.execution[k], Reset);
        Demand(c.frames.Some? && p.frames.Some? ==> c.frames.value >= p.frames.value, Reset);
      }
    }

    /** The samples of capture `n` against all samples before them. */
    method OneSamples(ghost cs: seq<Capture>, ghost n: nat, c: Capture, before: Samples) returns (known: Samples)
      requires n < |cs| && c == cs[n]
      modifies this
      ensures |old(errors)| <= |errors|
      ensures Holds(cs, n, 0, before) ==>
        (|errors| == |old(errors)| <==> SamplesFit(cs, n)) && (SamplesFit(cs, n) ==> Holds(cs, n + 1, 0, known))
    {
      hide Holds, SampleFits;
      known := before;
      for k := 0 to |c.samples|
        invariant |old(errors)| <= |errors|
        invariant Holds(cs, n, 0, before) ==>
          && (|errors| == |old(errors)| <==> forall j :: 0 <= j < k ==> SampleFits(cs, n, j))
          && (|errors| == |old(errors)| ==> Holds(cs, n, k, known))
      {
        var s := c.samples[k];
        if Holds(cs, n, 0, before) && |errors| == |old(errors)| {
          SampleStep(cs, n, k, known);
        }
        var key := (c.epoch, s.generation);
        if key in known {
          Demand(known[key] == s.raw, InvalidCorrelation);
          assert known[key] == s.raw ==> known[key := s.raw] == known;
        } else {
          known := known[key := s.raw];
        }
      }
      if Holds(cs, n, |c.samples|, known) {
        HoldsNext(cs, n, known);
      }
    }

    method Captures(cs: seq<Capture>) returns (found: map<string, Checked>)
      modifies this
      ensures |old(errors)| <= |errors|
      ensures |errors| == |old(errors)| <==> cs != [] && CapturesFit(cs, |cs|)
      ensures CapturesFit(cs, |cs|) ==> forall id: string :: Known(found, Some(id)) == Find(cs, |cs|, Some(id))
    {
      hide Clean, Continues, CapturesFit, Find, Seen, Known, Holds, SamplesFit;
      found := map[];
      var previous: map<string, Capture>, samples: Samples := map[], map[];
      NothingSeen(cs);
      for n := 0 to |cs|
        invariant |old(errors)| <= |errors| && (|errors| == |old(errors)| <==> CapturesFit(cs, n))
        invariant CapturesFit(cs, n) ==> Seen(cs, n, found, previous) && Holds(cs, n, 0, samples)
        invariant forall e <- previous :: previous[e].at.Some?
      {
        var c := cs[n];
        FitsBefore(cs, n);
        if c.id.None? || c.id.value in found {
          Error(InvalidCapture);
          if CapturesFit(cs, n) {
            Misnamed(cs, n, found, previous);
          }
          continue;
        }
        var begin := |errors|;
        var prior := if c.epoch.Some? && c.epoch.value in previous then Some(previous[c.epoch.value]) else None;
        OneCapture(c, prior);
        samples := OneSamples(cs, n, c, samples);
        var valid := |errors| == begin;
        if CapturesFit(cs, n) {
          Placed(cs, n, found, previous, prior);
        }
        if c.epoch.Some? && c.clock.Some? && c.at.Some? {
          previous := previous[c.epoch.value := c];
        }
        found := found[c.id.value := Checked(c, valid)];
      }
      if cs == [] {
        Error(MissingMetrics);
      }
      if CapturesFit(cs, |cs|) {
        AllKnown(cs, found, previous);
      }
    }

    /** One attempt by itself, between the captures it names, and with evidence of its own. */
    method OneAttempt(a: Attempt, before: Option<Capture>, after: Option<Capture>, r: Requirements, used: set<string>)
        returns (o: Outcome)
      modifies this
      ensures |old(errors)| <= |errors|
      ensures |errors| == |old(errors)| <==> Proper(a, before, after, r) && a.evidence.Some? && a.evidence.value !in used
      ensures o.cohort == a.cohort && (o.valid <==> |errors| == |old(errors)|) && (o.upper.Some? ==> o.upper == Upper(a))
      ensures o.valid && !a.cohort.Diagnostic() ==> o.upper.Some?
    {
      hide OneClock, InBetween, Typed, Launched, Observed, Upper;
      o := Outcome(a.cohort, false, None);
      if a.cohort.OtherCohort? {
        Error(InvalidCohort);
        return;
      }
      var begin := |errors|;
      if before.None? || after.None? {
        Error(InvalidCapture);
      } else {
        Demand(before.value.epoch == after.value.epoch, Reset);
        Demand(OneClock(a, before.value, after.value), InvalidCorrelation);
        Demand(InBetween(a, before.value, after.value), InvalidCorrelation);
      }
      Demand(a.faults == 0, MissingEvidence);
      Demand(Typed(a), InputProtocol);
      Demand(a.passed || a.cohort.Diagnostic(), FunctionalFailure);
      Demand(a.evidence.Some?, MissingEvidence);
      Demand(a.evidence.Some? ==> a.evidence.value !in used, ReusedObservation);
      Demand(a.cohort.App() && after.Some? ==> Launched(after.value), MissingMilestone);
      if !(a.cohort.Diagnostic() && !a.passed) {
        o := TimeAttempt(a, r);
      }
      o := o.(valid := |errors| == begin);
    }

    /** The semantic observation of an attempt. */
    method TimeAttempt(a: Attempt, r: Requirements) returns (o: Outcome)
      modifies this
      ensures |old(errors)| <= |errors|
      ensures |errors| == |old(errors)| <==> Observed(a, r)
      ensures o.cohort == a.cohort && (o.upper.Some? ==> o.upper == Upper(a))
      ensures Observed(a, r) ==> o.upper.Some?
    {
      o := Outcome(a.cohort, false, None);
      Demand(a.timingClock.Some? && a.timingClock == a.clock, InvalidCorrelation);
      var times := [a.started, a.lastAbsent, a.firstPresent, a.finished];
      if !InOrder(times) {
        Error(InvalidCorrelation);
        return;
      }
      assert times[0].Some? && times[2].Some?;
      var upper := a.firstPresent.value - a.started.value;
      Demand(a.completed.Some? ==> a.firstPresent.value >= a.completed.value, InvalidCorrelation);
      Demand(upper <= r.Window(a.cohort), Expired);
      o := o.(upper := Some(upper));
    }

    /** The attempts in order, each after the last one of its clock. */
    method Attempts(m: Manifest, found: map<string, Checked>) returns (outcomes: seq<Outcome>)
      modifies this
      ensures |old(errors)| <= |errors| && Usable(outcomes)
      ensures Ready(m, found) ==> (|errors| == |old(errors)| <==> AttemptsFit(m, |m.attempts|))
      ensures Ready(m, found) && AttemptsFit(m, |m.attempts|) ==> Reported(m, |m.attempts|, outcomes)
    {
      hide AttemptsFit, Proper, Named, Known, Walked, Reported, Upper, Ready, Fresh;
      outcomes := [];
      var seen: set<string>, used: set<string>, ends: map<string, real> := {}, {}, map[];
      NothingWalked(m);
      for n := 0 to |m.attempts|
        invariant |old(errors)| <= |errors| && Usable(outcomes)
        invariant Ready(m, found) ==> (|errors| == |old(errors)| <==> AttemptsFit(m, n))
        invariant Ready(m, found) && AttemptsFit(m, n) ==> Walked(m, n, seen, used, ends) && Reported(m, n, outcomes)
      {
        var a := m.attempts[n];
        FitBefore(m, n);
        KnownNamed(m, found, a);
        if Ready(m, found) && AttemptsFit(m, n) {
          AttemptStep(m, n, seen, used, ends);
          FreshNamed(a, seen, used, ends);
        }
        if a.id.None? || a.id.value in seen {
          Error(DuplicateAttempt);
          continue;
        }
        var late := Late(a, ends);
        Demand(!late, InvalidCorrelation);
        var before, after := Known(found, a.before), Known(found, a.after);
        var o := OneAttempt(a, before, after, m.requirements, used);
        if Ready(m, found) && AttemptsFit(m, n + 1) {
          Walks(m, n, seen, used, ends, outcomes, o);
        }
        seen := seen + {a.id.value};
        if a.evidence.Some? {
          used := used + {a.evidence.value};
        }
        if Timed(a) {
          ends := ends[a.clock.value := a.finished.value];
        }
        outcomes := outcomes + [if late then o.(valid := false) else o];
      }
    }

    /** Enough valid attempts of every cohort, and their 95th percentile within the budget. */
    method Cohorts(r: Requirements, outcomes: seq<Outcome>)
      requires Usable(outcomes) && r.Declared()
      modifies this
      ensures |old(errors)| <= |errors|
      ensures |errors| == |old(errors)| <==>
        forall c :: c in COHORTS ==> Enough(ValidUppers(outcomes, c), r.minimum.value, r.budgets[c])
    {
      hide Usable, Enough;
      for n := 0 to |COHORTS|
        invariant |old(errors)| <= |errors|
        invariant |errors| == |old(errors)| <==>
          forall i :: 0 <= i < n ==> Enough(ValidUppers(outcomes, COHORTS[i]), r.minimum.value, r.budgets[COHORTS[i]])
      {
        var c := COHORTS[n];
        var values := ValidUppers(outcomes, c);
        EnoughExact(values, r.minimum.value, r.budgets[c]);
        Demand(|values| >= r.minimum.value, InsufficientSamples);
        if values != [] {
          Demand(P95(values) <= r.budgets[c], LatencyBudget);
        }
      }
    }

    /** The verdict: a manifest passes exactly when nothing is wrong with it. */
    method Run(m: Manifest) returns (pass: bool)
      requires errors == []
      modifies this
      ensures pass <==> Passes(m)
      ensures pass <==> Accepted(m)
    {
      hide CapturesFit, AttemptsFit, Reported, Usable, Enough, Ready, Known, Named, Requirements.Declared, CohortFits, Accepted;
      PassExactly(m);
      Demand(m.faults == 0, InvalidSchema);
      Demand(m.requirements.Declared(), InvalidSchema);
      var found := Captures(m.captures);
      if CapturesFit(m.captures, |m.captures|) {
        NowReady(m, found);
      }
      var outcomes := Attempts(m, found);
      if m.requirements.Declared() {
        Cohorts(m.requirements, outcomes);
        if Ready(m, found) && AttemptsFit(m, |m.attempts|) {
          CohortsExact(m, outcomes);
        }
      }
      pass := errors == [];
    }
  }

  /** Enough values, at least 95 of 100 of them within the budget. */
  predicate Enough(values: seq<real>, minimum: nat, budget: real) {
    |values| >= minimum && 20 * Within(values, budget) >= 19 * |values|
  }

  lemma EnoughExact(values: seq<real>, minimum: nat, budget: real)
    requires minimum > 0
    ensures Enough(values, minimum, budget) <==> |values| >= minimum && (values != [] ==> P95(values) <= budget)
  {
    if values != [] {
      NearestRank(values, budget);
    }
  }

  /** The upper bounds of the valid outcomes of a cohort. */
  function ValidUppers(outcomes: seq<Outcome>, c: Cohort): seq<real> {
    if outcomes == [] then []
    else
      var o := outcomes[|outcomes| - 1];
      ValidUppers(outcomes[..|outcomes| - 1], c) + if o.cohort == c && o.valid && o.upper.Some? then [o.upper.value] else []
  }

  lemma NowReady(m: Manifest, found: map<string, Checked>)
    requires CapturesFit(m.captures, |m.captures|)
    requires forall id: string :: Known(found, Some(id)) == Find(m.captures, |m.captures|, Some(id))
    ensures Ready(m, found)
  {
  }

  /** When every attempt is fine its upper bounds are the ones reported. */
  lemma {:induction false} ReportedUppers(m: Manifest, n: nat, outcomes: seq<Outcome>, c: Cohort)
    requires n <= |m.attempts| && Reported(m, n, outcomes) && !c.Diagnostic()
    ensures ValidUppers(outcomes, c) == Uppers(m.attempts[..n], c)
  {
    if n > 0 {
      ReportedUppers(m, n - 1, outcomes[..n - 1], c);
      assert m.attempts[..n][..n - 1] == m.attempts[..n - 1];
    }
  }

  lemma CohortsExact(m: Manifest, outcomes: seq<Outcome>)
    requires Reported(m, |m.attempts|, outcomes) && m.requirements.Declared()
    ensures (forall c :: c in COHORTS ==> CohortFits(m, c)) <==>
      forall c :: c in COHORTS ==> Enough(ValidUppers(outcomes, c), m.requirements.minimum.value, m.requirements.budgets[c])
  {
    hide Reported;
    forall c | c in COHORTS ensures ValidUppers(outcomes, c) == Uppers(m.attempts, c) {
      ReportedUppers(m, |m.attempts|, outcomes, c);
      assert m.attempts[..|m.attempts|] == m.attempts;
    }
  }

  /** Every capture was fine, and the dictionary holds them. */
  ghost predicate Ready(m: Manifest, found: map<string, Checked>) {
    && CapturesFit(m.captures, |m.captures|)
    && forall id: string :: Known(found, Some(id)) == Named(m, Some(id))
  }

  /** A capture that was found and is valid. */
  function Known(found: map<string, Checked>, id: Option<string>): Option<Capture> {
    if id.Some? && id.value in found && found[id.value].valid then Some(found[id.value].capture) else None
  }

  /** What the validator's dictionaries hold while every capture has been fine. */
  ghost predicate Seen(cs: seq<Capture>, n: nat, found: map<string, Checked>, previous: map<string, Capture>)
    requires n <= |cs|
  {
    && (forall id: string :: Known(found, Some(id)) == Find(cs, n, Some(id)))
    && (forall id <- found :: found[id].valid)
    && forall e: string :: LastOf(cs, n, Some(e), if e in previous then Some(previous[e]) else None)
  }

  lemma AllKnown(cs: seq<Capture>, found: map<string, Checked>, previous: map<string, Capture>)
    requires Seen(cs, |cs|, found, previous)
    ensures forall id: string :: Known(found, Some(id)) == Find(cs, |cs|, Some(id))
  {
  }

  lemma FitsBefore(cs: seq<Capture>, n: nat)
    requires n < |cs|
    ensures CapturesFit(cs, n + 1) ==> CapturesFit(cs, n)
  {
  }

  lemma NothingSeen(cs: seq<Capture>)
    ensures CapturesFit(cs, 0) && Seen(cs, 0, map[], map[]) && Holds(cs, 0, 0, map[])
  {
  }

  lemma Misnamed(cs: seq<Capture>, n: nat, found: map<string, Checked>, previous: map<string, Capture>)
    requires n < |cs| && CapturesFit(cs, n) && Seen(cs, n, found, previous)
    requires cs[n].id.None? || cs[n].id.value in found
    ensures !CapturesFit(cs, n + 1)
  {
    hide Continues;
    if cs[n].id.Some? {
      assert Known(found, Some(cs[n].id.value)) == Find(cs, n, Some(cs[n].id.value));
    }
    assert !CaptureFits(cs, n);
  }

  /** One more capture keeps the dictionaries, if it is fine. */
  lemma Placed(cs: seq<Capture>, n: nat, found: map<string, Checked>, previous: map<string, Capture>, prior: Option<Capture>)
    requires n < |cs| && CapturesFit(cs, n) && Seen(cs, n, found, previous)
    requires cs[n].id.Some? && cs[n].id.value !in found
    requires prior == if cs[n].epoch.Some? && cs[n].epoch.value in previous then Some(previous[cs[n].epoch.value]) else None
    ensures CapturesFit(cs, n + 1) <==>
      Clean(cs[n]) && (prior.Some? ==> Continues(prior.value, cs[n])) && SamplesFit(cs, n)
    ensures CapturesFit(cs, n + 1) ==>
      cs[n].epoch.Some? && cs[n].clock.Some? && cs[n].at.Some? &&
      Seen(cs, n + 1, found[cs[n].id.value := Checked(cs[n], true)], previous[cs[n].epoch.value := cs[n]])
  {
    hide Continues, LastOf, IsLast, SamplesFit;
    var c := cs[n];
    assert Known(found, Some(c.id.value)) == Find(cs, n, Some(c.id.value));
    if Clean(c) {
      assert LastOf(cs, n, Some(c.epoch.value), prior);
      CaptureStep(cs, n, prior);
      if CaptureFits(cs, n) {
        LastStep(cs, n, previous);
        FindStep(cs, n, found);
      }
    }
    assert CapturesFit(cs, n + 1) <==> CaptureFits(cs, n);
  }

  lemma FindStep(cs: seq<Capture>, n: nat, found: map<string, Checked>)
    requires n < |cs| && cs[n].id.Some? && forall id: string :: Known(found, Some(id)) == Find(cs, n, Some(id))
    ensures forall id: string ::
      Known(found[cs[n].id.value := Checked(cs[n], true)], Some(id)) == Find(cs, n + 1, Some(id))
  {
  }

  lemma LastStep(cs: seq<Capture>, n: nat, previous: map<string, Capture>)
    requires n < |cs| && cs[n].epoch.Some?
    requires forall e: string :: LastOf(cs, n, Some(e), if e in previous then Some(previous[e]) else None)
    ensures var next := previous[cs[n].epoch.value := cs[n]];
      forall e: string :: LastOf(cs, n + 1, Some(e), if e in next then Some(next[e]) else None)
  {
    var next := previous[cs[n].epoch.value := cs[n]];
    forall e: string ensures LastOf(cs, n + 1, Some(e), if e in next then Some(next[e]) else None) {
      if cs[n].epoch == Some(e) {
        assert IsLast(cs, n + 1, Some(e), n);
      } else if e in previous {
        var i: nat :| i < n && IsLast(cs, n, Some(e), i) && cs[i] == previous[e];
        assert IsLast(cs, n + 1, Some(e), i);
      }
    }
  }

  /** A valid outcome of a required cohort carries its upper bound. */
  predicate Usable(outcomes: seq<Outcome>) {
    forall i :: 0 <= i < |outcomes| && outcomes[i].valid && !outcomes[i].cohort.Diagnostic() ==> outcomes[i].upper.Some?
  }

  /** Every attempt so far is valid, and its outcome says what it took. */
  ghost predicate Reported(m: Manifest, n: nat, outcomes: seq<Outcome>)
    requires n <= |m.attempts|
  {
    && |outcomes| == n
    && forall i :: 0 <= i < n ==>
         && outcomes[i].cohort == m.attempts[i].cohort && outcomes[i].valid
         && (!outcomes[i].cohort.Diagnostic() ==> outcomes[i].upper == Upper(m.attempts[i]) != None)
  }

  /** What the walk remembers while every attempt has been fine. */
  ghost predicate Walked(m: Manifest, n: nat, seen: set<string>, used: set<string>, ends: map<string, real>)
    requires n <= |m.attempts|
  {
    && (forall i {:trigger Recalled(m.attempts[i], seen, used, ends)} :: 0 <= i < n ==> Recalled(m.attempts[i], seen, used, ends))
    && Grounded(m, n, seen, used, ends)
  }

  /** Nothing is remembered that was not there. */
  ghost predicate Grounded(m: Manifest, n: nat, seen: set<string>, used: set<string>, ends: map<string, real>)
    requires n <= |m.attempts|
  {
    && (forall id <- seen :: exists i :: 0 <= i < n && m.attempts[i].id == Some(id))
    && (forall e <- used :: exists i :: 0 <= i < n && m.attempts[i].evidence == Some(e))
    && (forall c <- ends :: exists i :: 0 <= i < n && EndsAt(m.attempts[i], c, ends[c]))
  }

  predicate EndsAt(a: Attempt, clock: string, end: real) { a.clock == Some(clock) && a.finished == Some(end) }

  ghost predicate Recalled(a: Attempt, seen: set<string>, used: set<string>, ends: map<string, real>) {
    && a.id.Some? && a.id.value in seen && a.evidence.Some? && a.evidence.value in used
    && a.clock.Some? && a.finished.Some? && a.clock.value in ends && a.finished.value <= ends[a.clock.value]
  }

  predicate Timed(a: Attempt) { a.clock.Some? && a.started.Some? && a.finished.Some? }

  /** An attempt that does not start after the last one on its clock has ended. */
  predicate Late(a: Attempt, ends: map<string, real>) {
    Timed(a) && a.clock.value in ends && a.started.value <= ends[a.clock.value]
  }

  predicate Fresh(a: Attempt, seen: set<string>, used: set<string>, ends: map<string, real>) {
    && a.id.Some? && a.id.value !in seen && a.evidence.Some? && a.evidence.value !in used && !Late(a, ends)
  }

  lemma NothingWalked(m: Manifest)
    ensures AttemptsFit(m, 0) && Walked(m, 0, {}, {}, map[]) && Reported(m, 0, [])
  {
  }

  lemma FitBefore(m: Manifest, n: nat)
    requires n < |m.attempts|
    ensures AttemptsFit(m, n + 1) ==> AttemptsFit(m, n)
  {
  }

  lemma KnownNamed(m: Manifest, found: map<string, Checked>, a: Attempt)
    ensures Ready(m, found) ==> Known(found, a.before) == Named(m, a.before) && Known(found, a.after) == Named(m, a.after)
    ensures Ready(m, found) ==> CapturesFit(m.captures, |m.captures|)
  {
    NamedNone(m);
    if Ready(m, found) && a.before.Some? {
      assert Known(found, Some(a.before.value)) == Named(m, Some(a.before.value));
    }
    if Ready(m, found) && a.after.Some? {
      assert Known(found, Some(a.after.value)) == Named(m, Some(a.after.value));
    }
  }

  lemma NamedNone(m: Manifest)
    ensures Named(m, None) == None
  {
  }

  /** Comparing an attempt with the last end on its clock compares it with all attempts on that clock. */
  lemma FreshIsDisjoint(m: Manifest, n: nat, seen: set<string>, used: set<string>, ends: map<string, real>)
    requires n < |m.attempts| && Walked(m, n, seen, used, ends) && m.attempts[n].id.Some? && m.attempts[n].evidence.Some?
    requires Timed(m.attempts[n])
    ensures Fresh(m.attempts[n], seen, used, ends) <==> forall i :: 0 <= i < n ==> Disjoint(m.attempts[i], m.attempts[n])
  {
    hide Recalled, Grounded, Disjoint, Fresh;
    var a := m.attempts[n];
    if Fresh(a, seen, used, ends) {
      forall i | 0 <= i < n ensures Disjoint(m.attempts[i], a) {
        RecalledApart(m.attempts[i], a, seen, used, ends);
      }
    } else {
      var i := Clash(m, n, seen, used, ends);
    }
  }

  lemma RecalledApart(earlier: Attempt, a: Attempt, seen: set<string>, used: set<string>, ends: map<string, real>)
    requires Recalled(earlier, seen, used, ends) && Fresh(a, seen, used, ends) && Timed(a)
    ensures Disjoint(earlier, a)
  {
  }

  /** An attempt that is not fresh clashes with an earlier one. */
  lemma Clash(m: Manifest, n: nat, seen: set<string>, used: set<string>, ends: map<string, real>) returns (i: nat)
    requires n < |m.attempts| && Grounded(m, n, seen, used, ends) && !Fresh(m.attempts[n], seen, used, ends)
    requires m.attempts[n].id.Some? && m.attempts[n].evidence.Some? && Timed(m.attempts[n])
    ensures i < n && !Disjoint(m.attempts[i], m.attempts[n])
  {
    var a := m.attempts[n];
    if a.id.value in seen {
      i :| 0 <= i < n && m.attempts[i].id == Some(a.id.value);
    } else if a.evidence.value in used {
      i :| 0 <= i < n && m.attempts[i].evidence == Some(a.evidence.value);
    } else {
      i :| 0 <= i < n && EndsAt(m.attempts[i], a.clock.value, ends[a.clock.value]);
    }
  }

  /** An attempt is fine exactly when it is so by itself and fresh among the others. */
  lemma AttemptStep(m: Manifest, n: nat, seen: set<string>, used: set<string>, ends: map<string, real>)
    requires n < |m.attempts| && AttemptsFit(m, n) && Walked(m, n, seen, used, ends)
    requires CapturesFit(m.captures, |m.captures|)
    ensures var a := m.attempts[n];
      var proper := Proper(a, Named(m, a.before), Named(m, a.after), m.requirements);
      && (AttemptsFit(m, n + 1) <==> proper && Fresh(a, seen, used, ends))
      && (proper ==> a.evidence.Some? && Timed(a) && a.started.value < a.finished.value)
  {
    hide Proper, Named, Walked, Fresh, Disjoint, CapturesFit;
    var a := m.attempts[n];
    assert AttemptsFit(m, n + 1) <==> AttemptFits(m, n);
    FreshNamed(a, seen, used, ends);
    if Proper(a, Named(m, a.before), Named(m, a.after), m.requirements) {
      NamedClock(m, a.before);
      ProperTimes(a, Named(m, a.before), Named(m, a.after), m.requirements);
      if a.id.Some? {
        FreshIsDisjoint(m, n, seen, used, ends);
      }
    }
  }

  lemma FreshNamed(a: Attempt, seen: set<string>, used: set<string>, ends: map<string, real>)
    ensures Fresh(a, seen, used, ends) <==>
      a.id.Some? && a.id.value !in seen && a.evidence.Some? && a.evidence.value !in used && !Late(a, ends)
  {
  }

  lemma NamedClock(m: Manifest, id: Option<string>)
    requires CapturesFit(m.captures, |m.captures|)
    ensures Named(m, id).Some? ==> Clean(Named(m, id).value)
  {
    hide Clean, Continues;
    if Named(m, id).Some? {
      var k: nat :| k < |m.captures| && m.captures[k] == Named(m, id).value && m.captures[k].id == id;
      assert CaptureFits(m.captures, k);
    }
  }

  lemma ProperTimes(a: Attempt, before: Option<Capture>, after: Option<Capture>, r: Requirements)
    requires Proper(a, before, after, r) && (before.Some? ==> Clean(before.value))
    ensures a.evidence.Some? && Timed(a) && a.started.value < a.finished.value
  {
    var times := [before.value.at, a.started, a.finished, after.value.at];
    assert times[1].Some? && times[2].Some? && times[2 - 1].value <= times[2].value;
  }

  /** What the walk remembers after one more fine attempt. */
  lemma Walks(m: Manifest, n: nat, seen: set<string>, used: set<string>, ends: map<string, real>,
              outcomes: seq<Outcome>, o: Outcome)
    requires n < |m.attempts| && Walked(m, n, seen, used, ends) && Reported(m, n, outcomes)
    requires var a := m.attempts[n];
      && Fresh(a, seen, used, ends) && Timed(a) && a.started.value < a.finished.value
      && o.cohort == a.cohort && o.valid && (o.upper.Some? ==> o.upper == Upper(a))
      && (!a.cohort.Diagnostic() ==> o.upper.Some?)
    ensures var a := m.attempts[n];
      && Reported(m, n + 1, outcomes + [o])
      && Walked(m, n + 1, seen + {a.id.value}, used + {a.evidence.value}, ends[a.clock.value := a.finished.value])
  {
    hide Upper, Fresh, Recalled, Grounded;
    var a := m.attempts[n];
    FreshNamed(a, seen, used, ends);
    var s, u, e := seen + {a.id.value}, used + {a.evidence.value}, ends[a.clock.value := a.finished.value];
    forall i | 0 <= i < n + 1 ensures Recalled(m.attempts[i], s, u, e) {
      RecallsMore(m.attempts[i], a, seen, used, ends, i < n);
    }
    GroundsMore(m, n, seen, used, ends);
  }

  lemma RecallsMore(b: Attempt, a: Attempt, seen: set<string>, used: set<string>, ends: map<string, real>, earlier: bool)
    requires if earlier then Recalled(b, seen, used, ends) else b == a
    requires Fresh(a, seen, used, ends) && Timed(a) && a.started.value < a.finished.value
    ensures Recalled(b, seen + {a.id.value}, used + {a.evidence.value}, ends[a.clock.value := a.finished.value])
  {
  }

  lemma GroundsMore(m: Manifest, n: nat, seen: set<string>, used: set<string>, ends: map<string, real>)
    requires n < |m.attempts| && Grounded(m, n, seen, used, ends)
    requires m.attempts[n].id.Some? && m.attempts[n].evidence.Some? && Timed(m.attempts[n])
    ensures var a := m.attempts[n];
      Grounded(m, n + 1, seen + {a.id.value}, used + {a.evidence.value}, ends[a.clock.value := a.finished.value])
  {
    var a := m.attempts[n];
    assert EndsAt(a, a.clock.value, a.finished.value);
  }

  // ---- what a pass means ----

  function Count(attempts: seq<Attempt>, c: Cohort): nat {
    if attempts == [] then 0
    else Count(attempts[..|attempts| - 1], c) + if attempts[|attempts| - 1].cohort == c then 1 else 0
  }

  lemma {:induction false} AllMeasured(attempts: seq<Attempt>, c: Cohort)
    requires forall i :: 0 <= i < |attempts| && attempts[i].cohort == c ==> Upper(attempts[i]).Some?
    ensures |Uppers(attempts, c)| == Count(attempts, c)
  {
    if attempts != [] {
      AllMeasured(attempts[..|attempts| - 1], c);
    }
  }

  /** Every attempt of a passing manifest took some time on a clock, between two captures of one epoch, and was observed in time. */
  lemma AttemptMeans(m: Manifest, n: nat)
    requires Passes(m) && n < |m.attempts|
    ensures var a := m.attempts[n];
      && Timed(a) && a.started.value < a.finished.value
      && (exists b: nat, c: nat :: b < |m.captures| && c < |m.captures| && Around(a, m.captures[b], m.captures[c]))
      && (!a.cohort.Diagnostic() ==> Upper(a).Some? && Upper(a).value <= m.requirements.Window(a.cohort))
  {
    hide CapturesFit, Clean, Find;
    var a := m.attempts[n];
    assert AttemptFits(m, n);
    var before, after := Named(m, a.before), Named(m, a.after);
    NamedClock(m, a.before);
    ProperTimes(a, before, after, m.requirements);
    ProperAround(a, before, after, m.requirements);
  }

  predicate Around(a: Attempt, before: Capture, after: Capture) {
    && before.epoch == after.epoch && before.clock == a.clock == after.clock
    && before.at.Some? && after.at.Some? && a.started.Some? && a.finished.Some?
    && before.at.value <= a.started.value && a.finished.value <= after.at.value
  }

  lemma ProperAround(a: Attempt, before: Option<Capture>, after: Option<Capture>, r: Requirements)
    requires Proper(a, before, after, r)
    ensures Around(a, before.value, after.value)
    ensures !a.cohort.Diagnostic() ==> Upper(a).Some? && Upper(a).value <= r.Window(a.cohort)
  {
    var times := [before.value.at, a.started, a.finished, after.value.at];
    assert times[0].Some? && times[1].Some? && times[2].Some? && times[3].Some?;
    assert times[1 - 1].value <= times[1].value && times[3 - 1].value <= times[3].value;
    if !a.cohort.Diagnostic() {
      var seen := [a.started, a.lastAbsent, a.firstPresent, a.finished];
      assert seen[0].Some? && seen[2].Some?;
    }
  }

  /** A pass: enough attempts of every cohort, at least 95 of 100 within the budget. */
  lemma CohortMeans(m: Manifest, c: Cohort)
    requires Passes(m) && c in COHORTS
    ensures var values, minimum := Uppers(m.attempts, c), m.requirements.minimum;
      && minimum.Some? && |values| == Count(m.attempts, c) >= minimum.value >= 10
      && c in m.requirements.budgets && 20 * Within(values, m.requirements.budgets[c]) >= 19 * |values|
  {
    hide Proper, CapturesFit;
    forall i | 0 <= i < |m.attempts| && m.attempts[i].cohort == c ensures Upper(m.attempts[i]).Some? {
      AttemptMeans(m, i);
    }
    AllMeasured(m.attempts, c);
    assert CohortFits(m, c);
  }

  /** A pass: on one clock any two attempts are disjoint, and within an epoch time only advances and milestones stay. */
  lemma OrderMeans(m: Manifest, i: nat, j: nat)
    requires Passes(m) && i < j
    ensures j < |m.attempts| ==> m.attempts[i].id != m.attempts[j].id && m.attempts[i].evidence != m.attempts[j].evidence
    ensures j < |m.attempts| && m.attempts[i].clock == m.attempts[j].clock ==>
      var a, b := m.attempts[i], m.attempts[j];
      Timed(a) && Timed(b) && a.started.value < a.finished.value < b.started.value < b.finished.value
    ensures j < |m.captures| && m.captures[i].epoch == m.captures[j].epoch ==>
      var a, b := m.captures[i], m.captures[j];
      && a.at.Some? && b.at.Some? && a.at.value < b.at.value && a.clock == b.clock
      && (forall k <- a.elapsed :: k in b.elapsed && b.elapsed[k] == a.elapsed[k])
      && (forall k <- a.execution :: k in b.execution && b.execution[k] == a.execution[k])
  {
    if j < |m.attempts| {
      AttemptMeans(m, i);
      AttemptMeans(m, j);
      assert AttemptFits(m, j);
    }
    if j < |m.captures| {
      assert CaptureFits(m.captures, i) && CaptureFits(m.captures, j);
    }
  }

  /** A pass: within an epoch a generation means the same measurements in every capture. */
  lemma SamplesMean(m: Manifest, i: nat, j: nat, n: nat, k: nat)
    requires Passes(m) && i < |m.captures| && n < |m.captures|
    requires j < |m.captures[i].samples| && k < |m.captures[n].samples|
    requires KeyOf(m.captures, i, j) == KeyOf(m.captures, n, k)
    ensures m.captures[i].samples[j].raw == m.captures[n].samples[k].raw
  {
    hide AttemptsFit, OrderFits;
    var cs := m.captures;
    assert CaptureFits(cs, i) && CaptureFits(cs, n);
    assert SampleFits(cs, i, j) && SampleFits(cs, n, k);
    assert Past(cs, n, k, i, j) || Past(cs, i, j, n, k) || (i == n && j == k);
  }

  // ---- a pass, said on the fields of the manifest alone ----

  /** At least ten attempts asked for, positive windows, and a positive budget for every required cohort. */
  ghost predicate Demanding(r: Requirements) {
    && r.minimum.Some? && r.minimum.value >= 10 && r.interaction > 0.0 && r.launch > 0.0
    && forall c: Cohort :: c != UnlockShort && c != OtherCohort ==> c in r.budgets && r.budgets[c] > 0.0
  }

  /** A capture that names itself, its epoch, clock and time, shows a frame, and has no fault. */
  ghost predicate Whole(c: Capture) {
    c.id.Some? && c.epoch.Some? && c.clock.Some? && c.at.Some? && c.faults == 0 && c.frames.Some? && c.frames.value > 0
  }

  /** Two captures, the second later in the manifest; within an epoch nothing that was seen is unseen. */
  ghost predicate Follows(b: Capture, c: Capture)
    requires Whole(b) && Whole(c)
  {
    && b.id != c.id
    && (b.epoch == c.epoch ==>
          && b.clock == c.clock && b.at.value < c.at.value && b.frames.value <= c.frames.value
          && (forall k :: k in b.elapsed ==> k in c.elapsed && c.elapsed[k] == b.elapsed[k])
          && (forall k :: k in b.execution ==> k in c.execution && c.execution[k] == b.execution[k]))
  }

  /** What every attempt has to show, between the captures it names. */
  ghost predicate Shown(a: Attempt, b: Capture, c: Capture)
    requires Whole(b) && Whole(c)
  {
    && a.id.Some? && a.cohort != OtherCohort && a.faults == 0 && a.evidence.Some?
    && a.before == b.id && a.after == c.id && b.epoch == c.epoch && a.clock == b.clock == c.clock
    && a.started.Some? && a.completed.Some? && a.finished.Some?
    && b.at.value <= a.started.value < a.finished.value <= c.at.value
    && a.started.value <= a.completed.value <= a.finished.value
    && (a.cohort == AppCold || a.cohort == AppWarm ==>
          && "applicationLaunchRequested" in c.elapsed && "applicationSurfacePresented" in c.elapsed
          && c.elapsed["applicationLaunchRequested"] <= c.elapsed["applicationSurfacePresented"])
  }

  /** The interface was seen absent, then present, on the attempt's clock, after the input and within the window. */
  ghost predicate SeenInTime(a: Attempt, r: Requirements) {
    && a.timingClock.Some? && a.timingClock == a.clock
    && a.started.Some? && a.lastAbsent.Some? && a.firstPresent.Some? && a.completed.Some? && a.finished.Some?
    && a.started.value <= a.lastAbsent.value <= a.firstPresent.value <= a.finished.value
    && a.completed.value <= a.firstPresent.value
    && a.firstPresent.value - a.started.value <=
       (if a.cohort == AppCold || a.cohort == AppWarm then r.launch else r.interaction)
  }

  /** An attempt that counts: only the short unlock, which is diagnostic, may fail, and is then not timed. */
  ghost predicate Counts(a: Attempt, r: Requirements) {
    (a.passed || a.cohort == UnlockShort) && (a.passed ==> SeenInTime(a, r))
  }

  /** Two attempts, the second later in the manifest. */
  ghost predicate Apart(a: Attempt, b: Attempt) {
    && a.id != b.id && a.evidence != b.evidence && a.finished.Some? && b.started.Some?
    && (a.clock == b.clock ==> a.finished.value < b.started.value)
  }

  /** Attempt `n` of the manifest is fine by itself. */
  ghost predicate Valid(m: Manifest, n: nat)
    requires n < |m.attempts| && forall k :: 0 <= k < |m.captures| ==> Whole(m.captures[k])
  {
    exists b: nat, c: nat ::
      && b < |m.captures| && c < |m.captures| && Shown(m.attempts[n], m.captures[b], m.captures[c])
      && Counts(m.attempts[n], m.requirements)
  }

  /** Samples of one generation within an epoch measured the same. */
  ghost predicate Agree(epoch: Option<string>, s: Sample, other: Option<string>, t: Sample) {
    epoch == other && s.generation == t.generation ==> s.raw == t.raw
  }

  ghost predicate SamplesAgree(cs: seq<Capture>) {
    forall i, j, n, k :: 0 <= i < |cs| && 0 <= n < |cs| && 0 <= j < |cs[i].samples| && 0 <= k < |cs[n].samples| ==>
      Agree(cs[i].epoch, cs[i].samples[j], cs[n].epoch, cs[n].samples[k])
  }

  /** The attempts of a cohort, and those of them that were seen within a budget. */
  ghost function Tried(attempts: seq<Attempt>, c: Cohort): set<nat> {
    set n: nat | n < |attempts| && attempts[n].cohort == c
  }

  ghost predicate Took(a: Attempt, budget: real) {
    a.started.Some? && a.firstPresent.Some? && a.firstPresent.value - a.started.value <= budget
  }

  ghost function Quick(attempts: seq<Attempt>, c: Cohort, budget: real): set<nat> {
    set n: nat | n < |attempts| && attempts[n].cohort == c && Took(attempts[n], budget)
  }

  /** Captures that are whole, follow each other, and agree on their samples. */
  ghost predicate Coherent(cs: seq<Capture>) {
    && (forall n :: 0 <= n < |cs| ==> Whole(cs[n]))
    && (forall i, n :: 0 <= i < n < |cs| ==> Follows(cs[i], cs[n]))
    && SamplesAgree(cs)
  }

  /** Attempts that are valid one by one, and apart from each other. */
  ghost predicate Orderly(m: Manifest)
    requires forall k :: 0 <= k < |m.captures| ==> Whole(m.captures[k])
  {
    && (forall n :: 0 <= n < |m.attempts| ==> Valid(m, n))
    && (forall i, n :: 0 <= i < n < |m.attempts| ==> Apart(m.attempts[i], m.attempts[n]))
  }

  /** What a manifest has to show to pass. */
  ghost predicate Accepted(m: Manifest) {
    && m.faults == 0 && Demanding(m.requirements) && m.captures != []
    && Coherent(m.captures) && Orderly(m)
    && (forall c: Cohort :: c != UnlockShort && c != OtherCohort ==>
          && |Tried(m.attempts, c)| >= m.requirements.minimum.value
          && 20 * |Quick(m.attempts, c, m.requirements.budgets[c])| >= 19 * |Tried(m.attempts, c)|)
  }

  lemma DemandingExactly(r: Requirements)
    ensures r.Declared() <==> Demanding(r)
  {
    RequiredCohorts();
  }

  lemma RequiredCohorts()
    ensures forall c: Cohort :: c in COHORTS <==> c != UnlockShort && c != OtherCohort
  {
    assert COHORTS[0] == UnlockFull && COHORTS[1] == ScrollShort && COHORTS[2] == ScrollLong;
    assert COHORTS[3] == Keyboard && COHORTS[4] == AppCold && COHORTS[5] == AppWarm;
  }

  lemma SamplesExactly(cs: seq<Capture>)
    ensures (forall n :: 0 <= n < |cs| ==> SamplesFit(cs, n)) <==> SamplesAgree(cs)
  {
    if SamplesAgree(cs) {
      forall n, k, i: nat, j: nat | 0 <= n < |cs| && 0 <= k < |cs[n].samples| && Past(cs, n, k, i, j)
        ensures Agree(cs[i].epoch, cs[i].samples[j], cs[n].epoch, cs[n].samples[k])
      {
      }
    }
    if forall n :: 0 <= n < |cs| ==> SamplesFit(cs, n) {
      forall i, j, n, k | 0 <= i < |cs| && 0 <= n < |cs| && 0 <= j < |cs[i].samples| && 0 <= k < |cs[n].samples|
        ensures Agree(cs[i].epoch, cs[i].samples[j], cs[n].epoch, cs[n].samples[k])
      {
        assert SamplesFit(cs, i) && SamplesFit(cs, n);
        assert SampleFits(cs, i, j) && SampleFits(cs, n, k);
        assert Past(cs, n, k, i, j) || Past(cs, i, j, n, k) || (i == n && j == k);
      }
    }
  }

  lemma FollowsExactly(b: Capture, c: Capture)
    requires Whole(b) && Whole(c)
    ensures Follows(b, c) <==> b.id != c.id && (b.epoch == c.epoch ==> Continues(b, c))
  {
  }

  lemma CapturesExactly(cs: seq<Capture>)
    ensures CapturesFit(cs, |cs|) <==> Coherent(cs)
  {
    hide SamplesFit, SamplesAgree, Follows, Continues;
    SamplesExactly(cs);
    assert forall c :: Clean(c) <==> Whole(c);
    hide Clean, Whole;
    if CapturesFit(cs, |cs|) {
      forall n | 0 <= n < |cs| ensures Whole(cs[n]) && SamplesFit(cs, n) {
        assert CaptureFits(cs, n);
      }
      forall i, n | 0 <= i < n < |cs| ensures Follows(cs[i], cs[n]) {
        assert CaptureFits(cs, n);
        FollowsExactly(cs[i], cs[n]);
      }
    }
    if Coherent(cs) {
      forall n | 0 <= n < |cs| ensures CaptureFits(cs, n) {
        forall i | 0 <= i < n ensures cs[i].id != cs[n].id && (cs[i].epoch == cs[n].epoch ==> Continues(cs[i], cs[n])) {
          FollowsExactly(cs[i], cs[n]);
        }
      }
    }
  }

  /** Four times in order, or three. */
  lemma InOrderMeans(a: Option<real>, b: Option<real>, c: Option<real>, d: Option<real>)
    ensures InOrder([a, b, c, d]) <==>
      a.Some? && b.Some? && c.Some? && d.Some? && a.value <= b.value <= c.value <= d.value
    ensures InOrder([a, b, c]) <==> a.Some? && b.Some? && c.Some? && a.value <= b.value <= c.value
  {
    var four, three := [a, b, c, d], [a, b, c];
    if InOrder(four) {
      assert four[0].Some? && four[1].Some? && four[2].Some? && four[3].Some?;
      assert four[1 - 1].value <= four[1].value && four[2 - 1].value <= four[2].value && four[3 - 1].value <= four[3].value;
    }
    if InOrder(three) {
      assert three[0].Some? && three[1].Some? && three[2].Some?;
      assert three[1 - 1].value <= three[1].value && three[2 - 1].value <= three[2].value;
    }
  }

  lemma ObservedExactly(a: Attempt, r: Requirements)
    requires a.started.Some? && a.completed.Some? && a.finished.Some?
    ensures Observed(a, r) <==> SeenInTime(a, r)
  {
    hide InOrder;
    InOrderMeans(a.started, a.lastAbsent, a.firstPresent, a.finished);
  }

  /** An attempt is proper between two captures exactly if it is shown by them and counts. */
  lemma ProperExactly(a: Attempt, b: Capture, c: Capture, r: Requirements)
    requires Whole(b) && Whole(c) && a.before == b.id && a.after == c.id
    ensures a.id.Some? && Proper(a, Some(b), Some(c), r) <==> Shown(a, b, c) && Counts(a, r)
  {
    hide InOrder, Observed, SeenInTime;
    InOrderMeans(b.at, a.started, a.finished, c.at);
    InOrderMeans(a.started, a.completed, a.finished, None);
    if a.started.Some? && a.completed.Some? && a.finished.Some? {
      ObservedExactly(a, r);
    }
  }

  lemma NamedWhole(m: Manifest, id: Option<string>)
    requires CapturesFit(m.captures, |m.captures|) && Named(m, id).Some?
    ensures exists k: nat :: k < |m.captures| && m.captures[k] == Named(m, id).value && m.captures[k].id == id
  {
  }

  /** The captures an attempt names are the only ones of their names. */
  lemma NamedOnly(m: Manifest, id: Option<string>, k: nat)
    requires CapturesFit(m.captures, |m.captures|) && k < |m.captures| && m.captures[k].id == id && id.Some?
    ensures Named(m, id) == Some(m.captures[k])
  {
    hide Continues, Clean, SamplesFit;
    assert Named(m, id).Some?;
    var j: nat :| j < |m.captures| && m.captures[j] == Named(m, id).value && m.captures[j].id == id;
    assert CaptureFits(m.captures, if j < k then k else j);
  }

  lemma ValidExactly(m: Manifest, n: nat)
    requires n < |m.attempts| && CapturesFit(m.captures, |m.captures|)
    ensures forall k :: 0 <= k < |m.captures| ==> Whole(m.captures[k])
    ensures var a := m.attempts[n];
      a.id.Some? && Proper(a, Named(m, a.before), Named(m, a.after), m.requirements) <==> Valid(m, n)
  {
    CapturesExactly(m.captures);
    hide Continues, Clean, SamplesFit, Whole, Shown, Counts, CapturesFit, Proper, Find;
    var a := m.attempts[n];
    if a.id.Some? && Proper(a, Named(m, a.before), Named(m, a.after), m.requirements) {
      assert Named(m, a.before).Some? && Named(m, a.after).Some? by { ProperNamed(a, Named(m, a.before), Named(m, a.after), m.requirements); }
      NamedWhole(m, a.before);
      NamedWhole(m, a.after);
      var b: nat :| b < |m.captures| && m.captures[b] == Named(m, a.before).value && m.captures[b].id == a.before;
      var c: nat :| c < |m.captures| && m.captures[c] == Named(m, a.after).value && m.captures[c].id == a.after;
      ProperExactly(a, m.captures[b], m.captures[c], m.requirements);
    }
    if Valid(m, n) {
      var b: nat, c: nat :| b < |m.captures| && c < |m.captures| && Shown(a, m.captures[b], m.captures[c]) && Counts(a, m.requirements);
      ShownNames(a, m.captures[b], m.captures[c]);
      ProperExactly(a, m.captures[b], m.captures[c], m.requirements);
      NamedOnly(m, a.before, b);
      NamedOnly(m, a.after, c);
    }
  }

  lemma ProperNamed(a: Attempt, before: Option<Capture>, after: Option<Capture>, r: Requirements)
    requires Proper(a, before, after, r)
    ensures before.Some? && after.Some?
  {
  }

  lemma ShownNames(a: Attempt, b: Capture, c: Capture)
    requires Whole(b) && Whole(c) && Shown(a, b, c)
    ensures a.before == b.id && a.after == c.id && a.before.Some? && a.after.Some?
    ensures a.started.Some? && a.finished.Some? && a.completed.Some?
  {
  }

  lemma ValidTimes(m: Manifest, n: nat)
    requires n < |m.attempts| && (forall k :: 0 <= k < |m.captures| ==> Whole(m.captures[k])) && Valid(m, n)
    ensures m.attempts[n].started.Some? && m.attempts[n].finished.Some?
  {
  }

  lemma AttemptsExactly(m: Manifest)
    requires CapturesFit(m.captures, |m.captures|)
    ensures forall k :: 0 <= k < |m.captures| ==> Whole(m.captures[k])
    ensures AttemptsFit(m, |m.attempts|) <==> Orderly(m)
  {
    CapturesExactly(m.captures);
    hide CapturesFit, AttemptsFit, Orderly, Whole;
    if AttemptsFit(m, |m.attempts|) {
      FitMeansOrderly(m);
    }
    if Orderly(m) {
      OrderlyMeansFit(m);
    }
  }

  lemma FitMeansOrderly(m: Manifest)
    requires CapturesFit(m.captures, |m.captures|) && AttemptsFit(m, |m.attempts|)
    ensures (forall k :: 0 <= k < |m.captures| ==> Whole(m.captures[k])) && Orderly(m)
  {
    CapturesExactly(m.captures);
    hide CapturesFit, Proper, Named, Valid, Disjoint, Apart, Whole;
    forall n | 0 <= n < |m.attempts| ensures Valid(m, n) {
      assert AttemptFits(m, n);
      PairExactly(m, n, n);
    }
    forall i, n | 0 <= i < n < |m.attempts| ensures Apart(m.attempts[i], m.attempts[n]) {
      assert AttemptFits(m, n);
      PairExactly(m, i, n);
    }
  }

  lemma OrderlyMeansFit(m: Manifest)
    requires CapturesFit(m.captures, |m.captures|) && forall k :: 0 <= k < |m.captures| ==> Whole(m.captures[k])
    requires Orderly(m)
    ensures AttemptsFit(m, |m.attempts|)
  {
    hide CapturesFit, Proper, Named, Valid, Disjoint, Apart, Whole;
    forall n | 0 <= n < |m.attempts| ensures AttemptFits(m, n) {
      PairExactly(m, n, n);
      forall i | 0 <= i < n ensures Disjoint(m.attempts[i], m.attempts[n]) {
        PairExactly(m, i, n);
      }
    }
  }

  lemma PairExactly(m: Manifest, i: nat, n: nat)
    requires i <= n < |m.attempts| && CapturesFit(m.captures, |m.captures|)
    ensures forall k :: 0 <= k < |m.captures| ==> Whole(m.captures[k])
    ensures var a := m.attempts[n];
      a.id.Some? && Proper(a, Named(m, a.before), Named(m, a.after), m.requirements) <==> Valid(m, n)
    ensures Valid(m, i) && Valid(m, n) ==> (Disjoint(m.attempts[i], m.attempts[n]) <==> Apart(m.attempts[i], m.attempts[n]))
  {
    CapturesExactly(m.captures);
    hide CapturesFit, Proper, Named, Valid, Disjoint, Apart;
    ValidExactly(m, n);
    if Valid(m, i) && Valid(m, n) {
      ValidTimes(m, i);
      ValidTimes(m, n);
      DisjointExactly(m.attempts[i], m.attempts[n]);
    }
  }

  lemma DisjointExactly(a: Attempt, b: Attempt)
    requires a.finished.Some? && b.started.Some?
    ensures Disjoint(a, b) <==> Apart(a, b)
  {
  }

  /** The attempts of a cohort, counted one by one. */
  lemma {:induction false} TriedCounts(attempts: seq<Attempt>, c: Cohort, budget: real)
    ensures |Tried(attempts, c)| == Count(attempts, c)
    ensures |Quick(attempts, c, budget)| == Within(Uppers(attempts, c), budget)
  {
    if attempts != [] {
      hide Tried, Quick;
      var k := |attempts| - 1;
      var most, a := attempts[..k], attempts[k];
      TriedCounts(most, c, budget);
      TriedMore(most, a, c, budget);
      assert attempts == most + [a];
      WithinPush(Uppers(most, c), if a.cohort == c && Upper(a).Some? then [Upper(a).value] else [], budget);
    }
  }

  lemma TriedMore(most: seq<Attempt>, a: Attempt, c: Cohort, budget: real)
    ensures |Tried(most + [a], c)| == |Tried(most, c)| + if a.cohort == c then 1 else 0
    ensures |Quick(most + [a], c, budget)| == |Quick(most, c, budget)| + if a.cohort == c && Took(a, budget) then 1 else 0
  {
    var all, k := most + [a], |most|;
    hide Took;
    assert forall n: nat :: n < k ==> all[n] == most[n];
    assert all[k] == a;
    forall n: nat ensures n in Tried(all, c) <==> n in Tried(most, c) || (n == k && a.cohort == c) {
    }
    forall n: nat
      ensures n in Quick(all, c, budget) <==> n in Quick(most, c, budget) || (n == k && a.cohort == c && Took(a, budget))
    {
    }
    OneMember(Tried(most, c), Tried(all, c), k, a.cohort == c);
    OneMember(Quick(most, c, budget), Quick(all, c, budget), k, a.cohort == c && Took(a, budget));
  }

  lemma OneMember(s: set<nat>, t: set<nat>, k: nat, more: bool)
    requires k !in s && forall n: nat :: n in t <==> n in s || (n == k && more)
    ensures |t| == |s| + if more then 1 else 0
  {
    assert t == if more then s + {k} else s;
  }

  lemma WithinPush(values: seq<real>, more: seq<real>, budget: real)
    requires |more| <= 1
    ensures Within(values + more, budget) == Within(values, budget) + if more != [] && more[0] <= budget then 1 else 0
  {
    if more == [] {
      assert values + more == values;
    } else {
      assert (values + more)[..|values|] == values;
    }
  }

  lemma CohortExactly(m: Manifest, c: Cohort)
    requires m.requirements.Declared() && c in COHORTS
    requires forall i :: 0 <= i < |m.attempts| && m.attempts[i].cohort == c ==> Upper(m.attempts[i]).Some?
    ensures CohortFits(m, c) <==>
      && |Tried(m.attempts, c)| >= m.requirements.minimum.value
      && 20 * |Quick(m.attempts, c, m.requirements.budgets[c])| >= 19 * |Tried(m.attempts, c)|
  {
    TriedCounts(m.attempts, c, m.requirements.budgets[c]);
    AllMeasured(m.attempts, c);
  }

  lemma Measured(m: Manifest, n: nat)
    requires n < |m.attempts| && CapturesFit(m.captures, |m.captures|) && AttemptsFit(m, |m.attempts|)
    requires !m.attempts[n].cohort.Diagnostic()
    ensures Upper(m.attempts[n]).Some?
  {
    hide CapturesFit, Named;
    var a := m.attempts[n];
    assert AttemptFits(m, n);
    ProperAround(a, Named(m, a.before), Named(m, a.after), m.requirements);
  }

  /** The validator's own conditions are those on the fields, so any single violation of them fails the manifest. */
  lemma PassExactly(m: Manifest)
    ensures Passes(m) <==> Accepted(m)
  {
    hide CapturesFit, AttemptsFit, Whole, Orderly, CohortFits, Requirements.Declared, Demanding, Tried, Quick;
    DemandingExactly(m.requirements);
    CapturesExactly(m.captures);
    RequiredCohorts();
    if CapturesFit(m.captures, |m.captures|) && m.requirements.Declared() {
      AttemptsExactly(m);
      if AttemptsFit(m, |m.attempts|) {
        forall c | c in COHORTS
          ensures c in m.requirements.budgets && m.requirements.minimum.Some?
          ensures CohortFits(m, c) <==>
            && |Tried(m.attempts, c)| >= m.requirements.minimum.value
            && 20 * |Quick(m.attempts, c, m.requirements.budgets[c])| >= 19 * |Tried(m.attempts, c)|
        {
          forall i | 0 <= i < |m.attempts| && m.attempts[i].cohort == c ensures Upper(m.attempts[i]).Some? {
            Measured(m, i);
          }
          Budgeted(m.requirements, c);
          CohortExactly(m, c);
        }
      }
    }
  }

  lemma Budgeted(r: Requirements, c: Cohort)
    requires r.Declared() && c in COHORTS
    ensures c in r.budgets && r.minimum.Some?
  {
  }
}
