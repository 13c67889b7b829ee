/**
 The reader of the profiler's log: it accepts a log or rejects it as a whole. Lines arrive with their
 JSON already parsed; a stage's name is the key `Stage(i)`, and any other text is an `Unknown` key.
 */
module FrameRecords {
  import opened Options

  datatype Key = Version | Pid | Frame | SeqBegin | SeqEnd | BeginNs | EndNs | IsValid | Stages
               | Calls | WallNs | ThreadNs | Stage(i: nat) | Unknown(text: string)

  /** A parsed value. Booleans, texts, lists and fractions are all `Other`: none is an integer or an object. */
  datatype Json = Int(n: int) | Object(fields: map<Key, Json>) | Other

  /** A line of the log: without the record prefix, with text that is no JSON (or repeats a key), or a value. */
  datatype Line = Plain | Broken | Parsed(json: Json)

  datatype Error = Unreadable | BadSchema | BadInteger | BadHeader | BadOrder | BadClock | BadStages | BadEndpoints | TooLong

  datatype Report = Dropped(frame: nat) | Kept(frame: nat, seqBegin: nat, seqEnd: nat, changed: bool,
                                               beginNs: nat, endNs: nat, stages: map<Key, Json>)

  datatype Result<T> = Ok(value: T) | Err(error: Error)

  const NUMBERS: set<Key> := {Version, Pid, Frame, SeqBegin, SeqEnd, BeginNs, EndNs, IsValid}
  const TIMES: set<Key> := {Calls, WallNs, ThreadNs}
  const STAGES: set<Key> := set i | 0 <= i < 10 :: Stage(i)

  predicate IsCount(j: Json) { j.Int? && j.n >= 0 }

  predicate Schema(j: Json) { j.Object? && j.fields.Keys == NUMBERS + {Stages} }

  predicate Integers(j: Json)
    requires Schema(j)
  {
    forall k <- NUMBERS :: IsCount(j.fields[k])
  }

  function Num(j: Json, k: Key): nat
    requires Schema(j) && Integers(j) && k in NUMBERS
  {
    j.fields[k].n
  }

  predicate Header(j: Json)
    requires Schema(j) && Integers(j)
  {
    Num(j, Version) == 1 && Num(j, Pid) != 0 && Num(j, IsValid) <= 1
  }

  /** A record whose fields make sense on their own. */
  predicate Record(j: Json) { Schema(j) && Integers(j) && Header(j) }

  predicate Forwards(j: Json)
    requires Record(j)
  {
    Num(j, BeginNs) > 0 && Num(j, EndNs) >= Num(j, BeginNs) && Num(j, SeqEnd) >= Num(j, SeqBegin)
  }

  predicate StageFields(s: Json) {
    && s.Object? && s.fields.Keys == TIMES
    && IsCount(s.fields[Calls]) && IsCount(s.fields[WallNs]) && IsCount(s.fields[ThreadNs])
    && (s.fields[Calls].n == 0 ==> s.fields[WallNs].n == 0 && s.fields[ThreadNs].n == 0)
  }

  predicate StagesKnown(j: Json)
    requires Record(j)
  {
    var all := j.fields[Stages];
    all.Object? && all.fields.Keys == STAGES && forall k <- STAGES :: StageFields(all.fields[k])
  }

  function Duration(j: Json): nat
    requires Record(j) && Forwards(j)
  {
    Num(j, EndNs) - Num(j, BeginNs)
  }

  predicate Endpoints(j: Json)
    requires Record(j) && Forwards(j) && StagesKnown(j)
  {
    var frame := j.fields[Stages].fields[Stage(0)];
    frame.fields[Calls].n == 1 && frame.fields[WallNs].n == Duration(j)
  }

  predicate Fits(j: Json)
    requires Record(j) && Forwards(j) && StagesKnown(j)
  {
    forall k <- STAGES :: j.fields[Stages].fields[k].fields[WallNs].n <= Duration(j)
  }

  predicate ClaimsValid(j: Json)
    requires Record(j)
  {
    Num(j, IsValid) == 1
  }

  /** A record the reader can take, apart from its place among the others of its process. */
  predicate Sound(j: Json) {
    Record(j) && (ClaimsValid(j) ==> Forwards(j) && StagesKnown(j) && Endpoints(j) && Fits(j))
  }

  // ---- the log as a whole ----

  predicate OfPid(line: Line, pid: nat) { line.Parsed? && Record(line.json) && Num(line.json, Pid) == pid }

  /** Line `i` is the last record of `pid` before line `n`. */
  ghost predicate Previous(lines: seq<Line>, n: nat, pid: nat, i: nat)
    requires n <= |lines|
  {
    i < n && OfPid(lines[i], pid) && forall k :: i < k < n ==> !OfPid(lines[k], pid)
  }

  ghost predicate Increases(lines: seq<Line>, i: nat, n: nat)
    requires i < n < |lines|
  {
    forall pid :: OfPid(lines[i], pid) && OfPid(lines[n], pid) ==>
      Num(lines[i].json, Frame) < Num(lines[n].json, Frame)
  }

  ghost predicate Separate(lines: seq<Line>, i: nat, n: nat)
    requires i < n < |lines|
  {
    forall pid :: OfPid(lines[n], pid) && Previous(lines, n, pid, i) && ClaimsValid(lines[i].json) && ClaimsValid(lines[n].json) ==>
      Num(lines[i].json, EndNs) <= Num(lines[n].json, BeginNs)
  }

  ghost predicate Admitted(lines: seq<Line>, n: nat)
    requires n < |lines|
  {
    && !lines[n].Broken? && (lines[n].Parsed? ==> Sound(lines[n].json))
    && forall i :: 0 <= i < n ==> Increases(lines, i, n) && Separate(lines, i, n)
  }

  /**
   What the reader accepts: every record is sound, the frames of a process only increase, and a valid
   frame does not begin before the one just before it, if that is valid, has ended.
   */
  ghost predicate Acceptable(lines: seq<Line>, n: nat)
    requires n <= |lines|
  {
    forall k :: 0 <= k < n ==> Admitted(lines, k)
  }

  function ReportOf(j: Json): Report
    requires Sound(j)
  {
    if !ClaimsValid(j) then Dropped(Num(j, Frame))
    else
      var all := j.fields[Stages].fields;
      Kept(Num(j, Frame), Num(j, SeqBegin), Num(j, SeqEnd), Num(j, SeqBegin) != Num(j, SeqEnd),
           Num(j, BeginNs), Num(j, EndNs), map k <- all | all[k].fields[Calls].n > 0 :: all[k])
  }

  /** What is reported of a process after `n` lines: one entry per record, in order. */
  function Reports(lines: seq<Line>, n: nat, pid: nat): seq<Report>
    requires n <= |lines| && Acceptable(lines, n)
  {
    if n == 0 then []
    else
      assert Admitted(lines, n - 1);
      Reports(lines, n - 1, pid) + if OfPid(lines[n - 1], pid) then [ReportOf(lines[n - 1].json)] else []
  }

  /** One record after the previous one of its process. */
  function Judge(j: Json, previous: Option<Json>): Result<Report>
    requires previous.Some? ==> Sound(previous.value)
  {
    if !Schema(j) then Err(BadSchema)
    else if !Integers(j) then Err(BadInteger)
    else if !Header(j) then Err(BadHeader)
    else if previous.Some? && Num(j, Frame) <= Num(previous.value, Frame) then Err(BadOrder)
    else if !ClaimsValid(j) then Ok(Dropped(Num(j, Frame)))
    else if !Forwards(j) || (previous.Some? && ClaimsValid(previous.value) && Num(j, BeginNs) < Num(previous.value, EndNs)) then
      Err(BadClock)
    else if !StagesKnown(j) then Err(BadStages)
    else if !Endpoints(j) then Err(BadEndpoints)
    else if !Fits(j) then Err(TooLong)
    else Ok(ReportOf(j))
  }

  /** The last record of a process, if any. */
  ghost predicate Latest(lines: seq<Line>, n: nat, pid: nat, previous: Option<Json>)
    requires n <= |lines|
  {
    match previous
    case None => forall k :: 0 <= k < n ==> !OfPid(lines[k], pid)
    case Some(j) => exists i: nat :: Previous(lines, n, pid, i) && lines[i].json == j
  }

  /** Looking at the last record of the process only is enough to judge the next one against all before it. */
  lemma JudgeExact(lines: seq<Line>, n: nat, previous: Option<Json>)
    requires n < |lines| && lines[n].Parsed? && Acceptable(lines, n)
    requires previous.Some? ==> Sound(previous.value)
    requires Record(lines[n].json) ==> Latest(lines, n, Num(lines[n].json, Pid), previous)
    ensures Judge(lines[n].json, previous).Ok? <==> Admitted(lines, n)
    ensures Judge(lines[n].json, previous).Ok? ==> Judge(lines[n].json, previous).value == ReportOf(lines[n].json)
  {
    hide Schema, Integers, Header, Forwards, StagesKnown, Endpoints, Fits, Num, ClaimsValid;
    var j := lines[n].json;
    if Record(j) {
      var pid := Num(j, Pid);
      if previous.Some? {
        var p: nat :| Previous(lines, n, pid, p) && lines[p].json == previous.value;
        assert Admitted(lines, p);
        assert OfPid(lines[n], pid);
        forall i | 0 <= i < n && Num(previous.value, Frame) < Num(j, Frame) ensures Increases(lines, i, n) {
          if i < p {
            assert Increases(lines, i, p);
          }
        }
        assert Increases(lines, p, n) ==> Num(previous.value, Frame) < Num(j, Frame);
      }
    }
  }

  /** What the two dictionaries hold after `n` lines. */
  ghost predicate Read(lines: seq<Line>, n: nat, processes: map<nat, seq<Report>>, last: map<nat, Json>)
    requires n <= |lines| && Acceptable(lines, n)
  {
    && processes.Keys == last.Keys
    && forall pid: nat ::
      && Reports(lines, n, pid) == (if pid in processes then processes[pid] else [])
      && Latest(lines, n, pid, if pid in last then Some(last[pid]) else None)
      && (pid in last ==> processes[pid] != [] && Sound(last[pid]))
  }

  // ---- what is accepted, said on the fields alone ----

  ghost predicate Natural(j: Json) { j.Int? && j.n >= 0 }

  /** Exactly the nine fields, eight of them natural numbers, of version 1, from a process, valid or not. */
  ghost predicate Wellformed(j: Json) {
    && j.Object?
    && (forall k :: k in j.fields <==>
          k.Version? || k.Pid? || k.Frame? || k.SeqBegin? || k.SeqEnd? || k.BeginNs? || k.EndNs? || k.IsValid? || k.Stages?)
    && (forall k :: k in j.fields && k != Stages ==> Natural(j.fields[k]))
    && j.fields[Version].n == 1 && j.fields[Pid].n > 0 && (j.fields[IsValid].n == 0 || j.fields[IsValid].n == 1)
  }

  /** One of a frame's stages: three natural numbers, no time without calls, no more time than `limit`. */
  ghost predicate StageWithin(s: Json, limit: int) {
    && s.Object? && (forall k :: k in s.fields <==> k.Calls? || k.WallNs? || k.ThreadNs?)
    && (forall k :: k in s.fields ==> Natural(s.fields[k]))
    && (s.fields[Calls].n == 0 ==> s.fields[WallNs].n == 0 && s.fields[ThreadNs].n == 0)
    && s.fields[WallNs].n <= limit
  }

  /**
   A frame that may claim to be valid: a clock that runs forwards, insertions that do not go back, the ten
   stages, none longer than the frame, and a frame stage entered once for exactly as long as the frame.
   */
  ghost predicate Measured(j: Json)
    requires Wellformed(j)
  {
    var begin, end := j.fields[BeginNs].n, j.fields[EndNs].n;
    && 0 < begin <= end && j.fields[SeqBegin].n <= j.fields[SeqEnd].n
    && j.fields[Stages].Object? && (forall k :: k in j.fields[Stages].fields <==> k.Stage? && k.i < 10)
    && (forall k :: k in j.fields[Stages].fields ==> StageWithin(j.fields[Stages].fields[k], end - begin))
    && j.fields[Stages].fields[Stage(0)].fields[Calls].n == 1
    && j.fields[Stages].fields[Stage(0)].fields[WallNs].n == end - begin
  }

  ghost predicate Plausible(line: Line) {
    !line.Broken? && (line.Parsed? ==> Wellformed(line.json) && (line.json.fields[IsValid].n == 1 ==> Measured(line.json)))
  }

  /** Two records of one process. */
  ghost predicate Siblings(a: Line, b: Line) {
    a.Parsed? && b.Parsed? && Wellformed(a.json) && Wellformed(b.json) && a.json.fields[Pid] == b.json.fields[Pid]
  }

  ghost predicate Ordered(a: Line, b: Line)
    requires Siblings(a, b)
  {
    a.json.fields[Frame].n < b.json.fields[Frame].n
  }

  /** Two valid frames, the first over before the second begins. */
  ghost predicate Disjoint(a: Line, b: Line)
    requires Siblings(a, b)
  {
    a.json.fields[IsValid].n == 1 == b.json.fields[IsValid].n ==> a.json.fields[EndNs].n <= b.json.fields[BeginNs].n
  }

  /**
   A log that makes sense: every line does, the frames of a process increase, and two valid frames that
   follow each other there, with no record of that process between them, do not overlap.
   */
  ghost predicate Coherent(lines: seq<Line>) {
    && (forall n :: 0 <= n < |lines| ==> Plausible(lines[n]))
    && (forall i, n :: 0 <= i < n < |lines| && Siblings(lines[i], lines[n]) ==>
          && Ordered(lines[i], lines[n])
          && ((forall k :: i < k < n ==> !Siblings(lines[k], lines[n])) ==> Disjoint(lines[i], lines[n])))
  }

  lemma RecordExactly(j: Json)
    ensures Record(j) <==> Wellformed(j)
    ensures Record(j) ==> (ClaimsValid(j) <==> j.fields[IsValid].n == 1)
    ensures Record(j) ==> forall k <- NUMBERS :: j.fields[k] == Int(Num(j, k))
  {
    KeysExactly(j);
    if Wellformed(j) {
      forall k | k in NUMBERS ensures IsCount(j.fields[k]) {
        assert Natural(j.fields[k]);
      }
    }
  }

  lemma KeysExactly(j: Json)
    ensures Schema(j) <==>
      j.Object? && forall k :: k in j.fields <==>
        k.Version? || k.Pid? || k.Frame? || k.SeqBegin? || k.SeqEnd? || k.BeginNs? || k.EndNs? || k.IsValid? || k.Stages?
  {
    if j.Object? {
      forall k: Key
        ensures k in NUMBERS + {Stages} <==>
          k.Version? || k.Pid? || k.Frame? || k.SeqBegin? || k.SeqEnd? || k.BeginNs? || k.EndNs? || k.IsValid? || k.Stages?
      {
      }
    }
  }

  lemma StageExactly(s: Json, limit: nat)
    ensures StageFields(s) && s.fields[WallNs].n <= limit <==> StageWithin(s, limit)
  {
    if s.Object? {
      assert s.fields.Keys == TIMES <==> forall k :: k in s.fields <==> k.Calls? || k.WallNs? || k.ThreadNs?;
    }
    if StageWithin(s, limit) {
      assert Natural(s.fields[Calls]) && Natural(s.fields[WallNs]) && Natural(s.fields[ThreadNs]);
    }
  }

  lemma MeasuredExactly(j: Json)
    requires Record(j) && Wellformed(j)
    ensures Forwards(j) && StagesKnown(j) && Endpoints(j) && Fits(j) <==> Measured(j)
  {
    hide Header, StageWithin;
    RecordExactly(j);
    if Forwards(j) && j.fields[Stages].Object? {
      var all := j.fields[Stages].fields;
      assert all.Keys == STAGES <==> forall k :: k in all <==> k.Stage? && k.i < 10;
      forall k | k in all
        ensures StageFields(all[k]) && all[k].fields[WallNs].n <= Duration(j) <==> StageWithin(all[k], Duration(j))
      {
        StageExactly(all[k], Duration(j));
      }
    }
  }

  lemma SoundExactly(line: Line)
    ensures !line.Broken? && (line.Parsed? ==> Sound(line.json)) <==> Plausible(line)
  {
    hide Record, Wellformed, Forwards, StagesKnown, Endpoints, Fits, Measured;
    if line.Parsed? {
      RecordExactly(line.json);
      if Record(line.json) {
        MeasuredExactly(line.json);
      }
    }
  }

  lemma SiblingsExactly(a: Line, b: Line)
    ensures Siblings(a, b) <==> exists pid :: OfPid(a, pid) && OfPid(b, pid)
    ensures forall pid :: OfPid(b, pid) ==> (Siblings(a, b) <==> OfPid(a, pid))
  {
    hide Schema, Integers, Header, Wellformed;
    if a.Parsed? {
      RecordExactly(a.json);
    }
    if b.Parsed? {
      RecordExactly(b.json);
    }
    if Siblings(a, b) {
      assert OfPid(a, Num(a.json, Pid)) && OfPid(b, Num(a.json, Pid));
    }
  }

  /** The reader's own conditions are those on the fields. */
  lemma CoherentExactly(lines: seq<Line>)
    ensures Acceptable(lines, |lines|) <==> Coherent(lines)
  {
    hide Sound, Record, Wellformed, Plausible, Siblings, OfPid, Num, ClaimsValid;
    forall n | 0 <= n < |lines|
      ensures Admitted(lines, n) <==>
        Plausible(lines[n]) && forall i :: 0 <= i < n && Siblings(lines[i], lines[n]) ==>
          && Ordered(lines[i], lines[n])
          && ((forall k :: i < k < n ==> !Siblings(lines[k], lines[n])) ==> Disjoint(lines[i], lines[n]))
    {
      SoundExactly(lines[n]);
      forall i | 0 <= i < n
        ensures Increases(lines, i, n) && Separate(lines, i, n) <==>
          (Siblings(lines[i], lines[n]) ==>
            && Ordered(lines[i], lines[n])
            && ((forall k :: i < k < n ==> !Siblings(lines[k], lines[n])) ==> Disjoint(lines[i], lines[n])))
      {
        PairExactly(lines, i, n);
      }
    }
  }

  lemma PairExactly(lines: seq<Line>, i: nat, n: nat)
    requires i < n < |lines|
    ensures Increases(lines, i, n) && Separate(lines, i, n) <==>
      (Siblings(lines[i], lines[n]) ==>
        && Ordered(lines[i], lines[n])
        && ((forall k :: i < k < n ==> !Siblings(lines[k], lines[n])) ==> Disjoint(lines[i], lines[n])))
  {
    hide Sound, Schema, Integers, Header, Wellformed;
    forall k | i <= k < n
      ensures Siblings(lines[k], lines[n]) <==> exists pid :: OfPid(lines[k], pid) && OfPid(lines[n], pid)
      ensures forall pid :: OfPid(lines[n], pid) ==> (Siblings(lines[k], lines[n]) <==> OfPid(lines[k], pid))
    {
      SiblingsExactly(lines[k], lines[n]);
    }
    if Siblings(lines[i], lines[n]) {
      RecordExactly(lines[i].json);
      RecordExactly(lines[n].json);
      var pid := Num(lines[n].json, Pid);
      assert OfPid(lines[n], pid) && OfPid(lines[i], pid);
    }
  }

  /** What is reported of a record: its own numbers, whether insertions changed, and the stages that were entered. */
  lemma ReportShows(j: Json)
    requires Sound(j)
    ensures Wellformed(j)
    ensures j.fields[IsValid].n == 0 ==> ReportOf(j) == Dropped(j.fields[Frame].n)
    ensures j.fields[IsValid].n == 1 ==> Measured(j)
    ensures j.fields[IsValid].n == 1 ==>
      && var r := ReportOf(j);
        && r.Kept? && r.frame == j.fields[Frame].n && r.seqBegin == j.fields[SeqBegin].n && r.seqEnd == j.fields[SeqEnd].n
        && r.beginNs == j.fields[BeginNs].n && r.endNs == j.fields[EndNs].n
        && (r.changed <==> j.fields[SeqBegin] != j.fields[SeqEnd])
        && (forall k :: k in r.stages <==>
              k.Stage? && k.i < 10 && j.fields[Stages].fields[k].fields[Calls].n != 0)
        && (forall k <- r.stages :: r.stages[k] == j.fields[Stages].fields[k])
  {
    hide Schema, Integers, Header, Forwards, Endpoints, Fits, StageFields;
    RecordExactly(j);
    if j.fields[IsValid].n == 1 {
      MeasuredExactly(j);
    }
  }

  /** Read a log: accept it with the reports of every process, or reject it at the first line that is wrong. */
  method ReadFrames(lines: seq<Line>) returns (r: Result<map<nat, seq<Report>>>)
    ensures r.Ok? <==> Acceptable(lines, |lines|)
    ensures r.Ok? <==> Coherent(lines)
    ensures r.Ok? ==> forall pid :: Reports(lines, |lines|, pid) == if pid in r.value then r.value[pid] else []
    ensures r.Ok? ==> forall pid <- r.value :: r.value[pid] != []
  {
    hide Schema, Integers, Header, Sound, Judge, Acceptable, Latest, ReportOf, Admitted, Num, Coherent;
    NothingRead(lines);
    CoherentExactly(lines);
    var processes: map<nat, seq<Report>>, last: map<nat, Json> := map[], map[];
    for n := 0 to |lines|
      invariant Acceptable(lines, n) && Read(lines, n, processes, last)
    {
      match lines[n]
      case Plain =>
        PlainRead(lines, n, processes, last);
      case Broken =>
        BrokenRejected(lines, n);
        return Err(Unreadable);
      case Parsed(j) =>
        if !Record(j) {
          UnfitRejected(lines, n);
          return Err(if !Schema(j) then BadSchema else if !Integers(j) then BadInteger else BadHeader);
        }
        var pid := Num(j, Pid);
        var previous := if pid in last then Some(last[pid]) else None;
        JudgeExact(lines, n, previous);
        var verdict := Judge(j, previous);
        if verdict.Err? {
          Rejected(lines, n);
          return Err(verdict.error);
        }
        AdmittedSound(lines, n);
        RecordRead(lines, n, pid, processes, last);
        processes := processes[pid := (if pid in processes then processes[pid] else []) + [verdict.value]];
        last := last[pid := j];
    }
    return Ok(processes);
  }

  /** A line without a record changes nothing. */
  lemma PlainRead(lines: seq<Line>, n: nat, processes: map<nat, seq<Report>>, last: map<nat, Json>)
    requires n < |lines| && lines[n].Plain? && Acceptable(lines, n) && Read(lines, n, processes, last)
    ensures Acceptable(lines, n + 1) && Read(lines, n + 1, processes, last)
  {
    hide Sound, Record;
    forall pid: nat ensures Latest(lines, n + 1, pid, if pid in last then Some(last[pid]) else None) {
      LatestStays(lines, n, pid, if pid in last then Some(last[pid]) else None);
    }
  }

  lemma LatestStays(lines: seq<Line>, n: nat, pid: nat, previous: Option<Json>)
    requires n < |lines| && !OfPid(lines[n], pid) && Latest(lines, n, pid, previous)
    ensures Latest(lines, n + 1, pid, previous)
  {
    hide Record;
    if previous.Some? {
      var i: nat :| Previous(lines, n, pid, i) && lines[i].json == previous.value;
      assert Previous(lines, n + 1, pid, i);
    }
  }

  /** A record is added to the reports of its process and becomes its last. */
  lemma RecordRead(lines: seq<Line>, n: nat, pid: nat, processes: map<nat, seq<Report>>, last: map<nat, Json>)
    requires n < |lines| && lines[n].Parsed? && Acceptable(lines, n) && Read(lines, n, processes, last)
    requires Record(lines[n].json) && Num(lines[n].json, Pid) == pid && Admitted(lines, n) && Sound(lines[n].json)
    ensures Acceptable(lines, n + 1)
    ensures Read(lines, n + 1, processes[pid := (if pid in processes then processes[pid] else []) + [ReportOf(lines[n].json)]],
                 last[pid := lines[n].json])
  {
    hide Sound, Admitted, Num, Record, ReportOf, Latest, Reports;
    var j := lines[n].json;
    var next, after := processes[pid := (if pid in processes then processes[pid] else []) + [ReportOf(j)]], last[pid := j];
    assert Acceptable(lines, n + 1);
    forall other: nat
      ensures Reports(lines, n + 1, other) == if other in next then next[other] else []
      ensures Latest(lines, n + 1, other, if other in after then Some(after[other]) else None)
    {
      ReportsNext(lines, n, other);
      if other == pid {
        LatestIs(lines, n, pid);
      } else {
        LatestStays(lines, n, other, if other in last then Some(last[other]) else None);
      }
    }
  }

  lemma ReportsNext(lines: seq<Line>, n: nat, pid: nat)
    requires n < |lines| && Acceptable(lines, n + 1)
    ensures OfPid(lines[n], pid) ==> Sound(lines[n].json)
    ensures Reports(lines, n + 1, pid) ==
      Reports(lines, n, pid) + if OfPid(lines[n], pid) then [ReportOf(lines[n].json)] else []
  {
    assert Admitted(lines, n);
  }

  lemma LatestIs(lines: seq<Line>, n: nat, pid: nat)
    requires n < |lines| && OfPid(lines[n], pid)
    ensures Latest(lines, n + 1, pid, Some(lines[n].json))
  {
    assert Previous(lines, n + 1, pid, n);
  }

  lemma NothingRead(lines: seq<Line>)
    ensures Acceptable(lines, 0) && Read(lines, 0, map[], map[])
  {
  }

  lemma BrokenRejected(lines: seq<Line>, n: nat)
    requires n < |lines| && lines[n].Broken?
    ensures !Acceptable(lines, |lines|)
  {
    assert !Admitted(lines, n);
  }

  lemma Rejected(lines: seq<Line>, n: nat)
    requires n < |lines| && !Admitted(lines, n)
    ensures !Acceptable(lines, |lines|)
  {
  }

  lemma UnfitRejected(lines: seq<Line>, n: nat)
    requires n < |lines| && lines[n].Parsed? && !Record(lines[n].json)
    ensures !Acceptable(lines, |lines|)
  {
    assert !Admitted(lines, n);
  }

  lemma AdmittedSound(lines: seq<Line>, n: nat)
    requires n < |lines| && lines[n].Parsed? && Admitted(lines, n)
    ensures Sound(lines[n].json)
  {
  }
}
