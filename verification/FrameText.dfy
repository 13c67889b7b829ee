/**
 The log as text: a record line is parsed as JSON, and what the profiler printed parses to what the
 reader takes. The parser knows the JSON the profiler writes, objects and whole numbers without white
 space; what a key means depends on how deep its object lies, as a stage and a field are both called
 "frame".
 */
module FrameText {
  import opened Options
  import opened Decimals
  import opened FrameProfile
  import opened FrameCapture
  import opened FramePrint
  import opened FrameContract
  import R = FrameRecords

  const PREFIX := "PINECONE_GTK_FRAME "

  const FIRST_TIME := "{\"calls\":"
  const STAGES_MEMBER := "\"stages\":"
  const RECORD_END := "}\n"

  const FIELD_NAMES: seq<string> := ["version", "pid", "frame", "seqBegin", "seqEnd", "beginNs", "endNs", "valid", "stages"]
  const FIELD_KEYS: seq<R.Key> := [R.Version, R.Pid, R.Frame, R.SeqBegin, R.SeqEnd, R.BeginNs, R.EndNs, R.IsValid, R.Stages]
  const TIME_NAMES: seq<string> := ["calls", "wallNs", "threadNs"]
  const TIME_KEYS: seq<R.Key> := [R.Calls, R.WallNs, R.ThreadNs]

  /** Where a name stands in a list, or its length. */
  function IndexOf(names: seq<string>, name: string, i: nat): (k: nat)
    requires i <= |names|
    ensures i <= k <= |names| && (k < |names| ==> names[k] == name) && forall j :: i <= j < k ==> names[j] != name
    decreases |names| - i
  {
    if i == |names| || names[i] == name then i else IndexOf(names, name, i + 1)
  }

  /** What a key means in an object of that depth: the record, its stages, or one stage. */
  function KeyOf(depth: nat, name: string): R.Key {
    if depth == 0 then
      var k := IndexOf(FIELD_NAMES, name, 0);
      if k < 9 then FIELD_KEYS[k] else R.Unknown(name)
    else if depth == 1 then
      var k := StageFrom(name, 0);
      if k < COUNT then R.Stage(k) else R.Unknown(name)
    else
      var k := IndexOf(TIME_NAMES, name, 0);
      if k < 3 then TIME_KEYS[k] else R.Unknown(name)
  }

  // ---- the parser ----

  function QuoteAt(s: string): (q: nat)
    ensures q <= |s| && (q < |s| ==> s[q] == QUOTE[0]) && forall i :: 0 <= i < q ==> s[i] != QUOTE[0]
  {
    if s == "" || s[0] == QUOTE[0] then 0 else 1 + QuoteAt(s[1..])
  }

  function ParseValue(s: string, depth: nat): (r: Option<(R.Json, string)>)
    ensures r.Some? ==> |r.value.1| < |s|
    decreases |s|, 1
  {
    if s != "" && s[0] == LEFT[0] then
      if |s| > 1 && s[1] == RIGHT[0] then Some((R.Object(map[]), s[2..])) else ParseMembers(s[1..], depth, map[])
    else
      var d := DigitsEnd(s);
      if d == 0 || (d > 1 && s[0] == '0') then None else Some((R.Int(Value(s[..d])), s[d..]))
  }

  /** The members of an object, after what has been read of it; no key may repeat. */
  function ParseMembers(s: string, depth: nat, before: map<R.Key, R.Json>): (r: Option<(R.Json, string)>)
    ensures r.Some? ==> |r.value.1| < |s|
    decreases |s|, 0
  {
    if s == "" || s[0] != QUOTE[0] then None
    else
      var q := QuoteAt(s[1..]);
      var colon := q + 2;
      if colon >= |s| || s[colon] != ':' then None
      else
        var key := KeyOf(depth, s[1..q + 1]);
        match ParseValue(s[colon + 1..], depth + 1)
        case None => None
        case Some((json, rest)) =>
          if key in before || rest == "" then None
          else if rest[0] == ',' then ParseMembers(rest[1..], depth, before[key := json])
          else if rest[0] == RIGHT[0] then Some((R.Object(before[key := json]), rest[1..]))
          else None
  }

  /** A line of the log: records carry the prefix, and end with their value. */
  function ParseLine(line: string): R.Line {
    if !(PREFIX <= line) then R.Plain
    else
      match ParseValue(line[|PREFIX|..], 0)
      case None => R.Broken
      case Some((json, rest)) => if rest == "" || rest == "\n" then R.Parsed(json) else R.Broken
  }

  // ---- what is printed parses ----

  /** What may stand after a member. */
  predicate Separates(c: char) { c == ',' || c == RIGHT[0] }

  /** A text that parses to a value, whatever member separator follows it. */
  ghost predicate Parses(text: string, depth: nat, json: R.Json) {
    forall rest: string :: rest != "" && Separates(rest[0]) ==>
      ParseValue(text + rest, depth) == Some((json, rest))
  }

  function Member(name: string, text: string): string { QUOTE + name + COLON + text }

  /** Members joined by commas, from the `i`-th on. */
  function Members(names: seq<string>, texts: seq<string>, i: nat): string
    requires i < |names| == |texts|
    decreases |names| - i
  {
    Member(names[i], texts[i]) + if i + 1 < |names| then "," + Members(names, texts, i + 1) else ""
  }

  predicate Unquoted(name: string) { forall i :: 0 <= i < |name| ==> name[i] != QUOTE[0] }

  lemma {:induction false} QuoteAfter(name: string, rest: string)
    requires Unquoted(name)
    ensures QuoteAt(name + QUOTE + rest) == |name|
  {
    if name == "" {
      assert (name + QUOTE + rest)[0] == QUOTE[0];
    } else {
      QuoteAfter(name[1..], rest);
      assert (name + QUOTE + rest)[1..] == name[1..] + QUOTE + rest;
    }
  }

  /** One member and what follows it. */
  lemma MemberParses(name: string, text: string, json: R.Json, depth: nat, before: map<R.Key, R.Json>, rest: string)
    requires Unquoted(name) && Parses(text, depth + 1, json) && KeyOf(depth, name) !in before
    requires rest != "" && Separates(rest[0])
    ensures ParseMembers(Member(name, text) + rest, depth, before) ==
      if rest[0] == ',' then ParseMembers(rest[1..], depth, before[KeyOf(depth, name) := json])
      else Some((R.Object(before[KeyOf(depth, name) := json]), rest[1..]))
  {
    hide KeyOf, Parses, QuoteAt, ParseValue, Unquoted, Member;
    var q := |name|;
    QuoteAfter(name, ":" + (text + rest));
    MemberPlaces(name, text, rest);
    ParsesBefore(text, depth + 1, json, rest);
  }

  /** Where the parts of a member stand. */
  lemma MemberPlaces(name: string, text: string, rest: string)
    ensures var s, q := Member(name, text) + rest, |name|;
      && |s| > q + 2 && s[0] == QUOTE[0] && s[1..] == name + QUOTE + (":" + (text + rest))
      && s[1..q + 1] == name && s[q + 2] == ':' && s[q + 3..] == text + rest
  {
  }

  lemma ParsesBefore(text: string, depth: nat, json: R.Json, rest: string)
    requires Parses(text, depth, json) && rest != "" && Separates(rest[0])
    ensures ParseValue(text + rest, depth) == Some((json, rest))
  {
  }

  /** The keys of the first members, with their values. */
  function Mapped(depth: nat, names: seq<string>, jsons: seq<R.Json>, n: nat): map<R.Key, R.Json>
    requires n <= |names| == |jsons|
  {
    if n == 0 then map[] else Mapped(depth, names, jsons, n - 1)[KeyOf(depth, names[n - 1]) := jsons[n - 1]]
  }

  ghost predicate Readable(depth: nat, names: seq<string>, texts: seq<string>, jsons: seq<R.Json>) {
    && |names| == |texts| == |jsons|
    && (forall i :: 0 <= i < |names| ==> Unquoted(names[i]) && Parses(texts[i], depth + 1, jsons[i]))
    && (forall i :: 0 <= i < |names| ==> KeyOf(depth, names[i]) !in Mapped(depth, names, jsons, i))
  }

  /** What stands after member `i`: the others, or the closing brace. */
  function TailAfter(names: seq<string>, texts: seq<string>, i: nat, rest: string): string
    requires i < |names| == |texts|
  {
    if i + 1 < |names| then "," + (Members(names, texts, i + 1) + RIGHT + rest) else RIGHT + rest
  }

  lemma MembersSplit(names: seq<string>, texts: seq<string>, i: nat, rest: string)
    requires i < |names| == |texts|
    ensures Members(names, texts, i) + RIGHT + rest == Member(names[i], texts[i]) + TailAfter(names, texts, i, rest)
    ensures var tail := TailAfter(names, texts, i, rest);
      && tail != "" && tail[0] == (if i + 1 < |names| then ',' else RIGHT[0])
      && tail[1..] == if i + 1 < |names| then Members(names, texts, i + 1) + RIGHT + rest else rest
  {
    hide Member;
  }

  lemma ReadableAt(depth: nat, names: seq<string>, texts: seq<string>, jsons: seq<R.Json>, i: nat)
    requires Readable(depth, names, texts, jsons) && i < |names|
    ensures Unquoted(names[i]) && Parses(texts[i], depth + 1, jsons[i])
    ensures KeyOf(depth, names[i]) !in Mapped(depth, names, jsons, i)
    ensures Mapped(depth, names, jsons, i + 1) == Mapped(depth, names, jsons, i)[KeyOf(depth, names[i]) := jsons[i]]
  {
    hide KeyOf, Parses, Unquoted;
  }

  lemma {:induction false} MembersParse(depth: nat, names: seq<string>, texts: seq<string>, jsons: seq<R.Json>, i: nat, rest: string)
    requires Readable(depth, names, texts, jsons) && i < |names|
    ensures ParseMembers(Members(names, texts, i) + RIGHT + rest, depth, Mapped(depth, names, jsons, i)) ==
      Some((R.Object(Mapped(depth, names, jsons, |names|)), rest))
    decreases |names| - i
  {
    hide KeyOf, Parses, Unquoted, ParseMembers, Member, Members, TailAfter, Mapped;
    MembersSplit(names, texts, i, rest);
    ReadableAt(depth, names, texts, jsons, i);
    MemberParses(names[i], texts[i], jsons[i], depth, Mapped(depth, names, jsons, i), TailAfter(names, texts, i, rest));
    if i + 1 < |names| {
      MembersParse(depth, names, texts, jsons, i + 1, rest);
    }
  }

  /** An object of readable members. */
  lemma ObjectParses(depth: nat, names: seq<string>, texts: seq<string>, jsons: seq<R.Json>, rest: string)
    requires Readable(depth, names, texts, jsons) && names != []
    ensures ParseValue(LEFT + Members(names, texts, 0) + RIGHT + rest, depth) ==
      Some((R.Object(Mapped(depth, names, jsons, |names|)), rest))
  {
    hide KeyOf, Parses, Unquoted, ParseMembers;
    var inner := Members(names, texts, 0) + RIGHT + rest;
    MembersParse(depth, names, texts, jsons, 0, rest);
    MembersBegin(names, texts);
    assert LEFT + Members(names, texts, 0) + RIGHT + rest == LEFT + inner && (LEFT + inner)[1..] == inner;
  }

  lemma MembersBegin(names: seq<string>, texts: seq<string>)
    requires names != [] && |names| == |texts|
    ensures Members(names, texts, 0) != "" && Members(names, texts, 0)[0] == QUOTE[0]
  {
  }

  lemma NumberParses(n: nat, depth: nat)
    ensures Parses(Printed(n), depth, R.Int(n))
  {
    forall rest: string | rest != "" && Separates(rest[0])
      ensures ParseValue(Printed(n) + rest, depth) == Some((R.Int(n), rest))
    {
      NumberBefore(n, depth, rest);
    }
  }

  lemma NumberBefore(n: nat, depth: nat, rest: string)
    requires rest != "" && !Digit(rest[0])
    ensures ParseValue(Printed(n) + rest, depth) == Some((R.Int(n), rest))
  {
    hide Printed, DigitsEnd, Value, ParseMembers;
    var digits := Printed(n);
    var s := digits + rest;
    DigitsThen(digits, rest);
    ReadsBack(n);
    NoLeadingZero(n);
    assert s[..|digits|] == digits && s[|digits|..] == rest && s[0] == digits[0] && Digit(digits[0]);
  }

  lemma {:induction false} NoLeadingZero(n: nat)
    ensures |Printed(n)| > 1 ==> Printed(n)[0] != '0'
    ensures n > 0 ==> Printed(n)[0] != '0'
  {
    if n >= 10 {
      NoLeadingZero(n / 10);
      assert Printed(n)[0] == Printed(n / 10)[0];
    }
  }

  // ---- one stage, all stages, the record ----

  function TimeTexts(t: Totals): seq<string> { [Printed(t.calls), Printed(t.wall), Printed(t.thread)] }

  function StageObject(t: Totals): string { LEFT + Members(TIME_NAMES, TimeTexts(t), 0) + RIGHT }

  function StageTexts(r: Record): (ts: seq<string>)
    requires |r.stages| == COUNT
    ensures |ts| == COUNT
  {
    seq(COUNT, i requires 0 <= i < COUNT => StageObject(r.stages[i]))
  }

  function FieldTexts(r: Record): seq<string>
    requires |r.stages| == COUNT
  {
    [Printed(1), Printed(r.pid), Printed(r.frame), Printed(r.seqBegin), Printed(r.seqEnd), Printed(r.beginNs), Printed(r.endNs),
     Printed(if r.valid then 1 else 0), LEFT + Members(NAMES, StageTexts(r), 0) + RIGHT]
  }

  predicate Distinct(names: seq<string>) { forall i, j :: 0 <= i < j < |names| ==> names[i] != names[j] }

  lemma ListSizes()
    ensures |NAMES| == COUNT && |FIELD_NAMES| == |FIELD_KEYS| == 9 && |TIME_NAMES| == |TIME_KEYS| == 3
  {
  }

  lemma StageNames()
    ensures Distinct(NAMES) && forall i :: 0 <= i < |NAMES| ==> Unquoted(NAMES[i])
  {
    assert forall i, j :: 0 <= i < j < |NAMES| ==> |NAMES[i]| != |NAMES[j]| || NAMES[i][0] != NAMES[j][0];
  }

  lemma FieldNames()
    ensures Distinct(FIELD_NAMES) && forall i :: 0 <= i < |FIELD_NAMES| ==> Unquoted(FIELD_NAMES[i])
    ensures forall i, j :: 0 <= i < j < |FIELD_KEYS| ==> FIELD_KEYS[i] != FIELD_KEYS[j]
  {
    assert forall i, j :: 0 <= i < j < |FIELD_NAMES| ==>
      |FIELD_NAMES[i]| != |FIELD_NAMES[j]| || FIELD_NAMES[i][0] != FIELD_NAMES[j][0] || FIELD_NAMES[i][1] != FIELD_NAMES[j][1];
  }

  lemma TimeNames()
    ensures Distinct(TIME_NAMES) && forall i :: 0 <= i < |TIME_NAMES| ==> Unquoted(TIME_NAMES[i])
    ensures forall i, j :: 0 <= i < j < |TIME_KEYS| ==> TIME_KEYS[i] != TIME_KEYS[j]
  {
    assert forall i, j :: 0 <= i < j < |TIME_NAMES| ==> |TIME_NAMES[i]| != |TIME_NAMES[j]|;
  }

  lemma IndexFound(names: seq<string>, i: nat)
    requires Distinct(names) && i < |names|
    ensures IndexOf(names, names[i], 0) == i
  {
  }

  lemma FieldKey(i: nat)
    requires i < 9
    ensures |FIELD_NAMES| == |FIELD_KEYS| == 9 && KeyOf(0, FIELD_NAMES[i]) == FIELD_KEYS[i]
  {
    hide FIELD_NAMES, FIELD_KEYS;
    ListSizes();
    FieldNames();
    IndexFound(FIELD_NAMES, i);
  }

  lemma StageKey(i: nat)
    requires i < COUNT
    ensures |NAMES| == COUNT && KeyOf(1, NAMES[i]) == R.Stage(i)
  {
    hide NAMES;
    ListSizes();
    StageNames();
    var k := StageFrom(NAMES[i], 0);
  }

  lemma TimeKey(i: nat)
    requires i < 3
    ensures |TIME_NAMES| == |TIME_KEYS| == 3 && KeyOf(2, TIME_NAMES[i]) == TIME_KEYS[i]
  {
    hide TIME_NAMES, TIME_KEYS;
    ListSizes();
    TimeNames();
    IndexFound(TIME_NAMES, i);
  }

  predicate DistinctKeys(keys: seq<R.Key>) { forall i, j :: 0 <= i < j < |keys| ==> keys[i] != keys[j] }

  /** A map that sends the first `n` keys, and nothing else, to their values. */
  ghost predicate Sends(m: map<R.Key, R.Json>, keys: seq<R.Key>, jsons: seq<R.Json>, n: nat)
    requires n <= |keys| == |jsons|
  {
    && (forall i :: 0 <= i < n ==> keys[i] in m && m[keys[i]] == jsons[i])
    && (forall k <- m :: k in keys[..n])
  }

  lemma SendsMore(m: map<R.Key, R.Json>, keys: seq<R.Key>, jsons: seq<R.Json>, n: nat)
    requires n < |keys| == |jsons| && DistinctKeys(keys) && Sends(m, keys, jsons, n)
    ensures keys[n] !in m && Sends(m[keys[n] := jsons[n]], keys, jsons, n + 1)
  {
    assert keys[..n + 1] == keys[..n] + [keys[n]];
    assert keys[n] !in keys[..n];
  }

  /** Members whose keys are known and distinct map those keys, and no others, to their values. */
  lemma {:induction false} MappedKeys(depth: nat, names: seq<string>, keys: seq<R.Key>, jsons: seq<R.Json>, n: nat)
    requires n <= |names| == |keys| == |jsons| && DistinctKeys(keys)
    requires forall i :: 0 <= i < |names| ==> KeyOf(depth, names[i]) == keys[i]
    ensures Sends(Mapped(depth, names, jsons, n), keys, jsons, n)
    ensures n < |names| ==> KeyOf(depth, names[n]) !in Mapped(depth, names, jsons, n)
  {
    hide KeyOf, Sends, DistinctKeys;
    if n == 0 {
      SendsNothing(keys, jsons);
    } else {
      MappedKeys(depth, names, keys, jsons, n - 1);
      SendsMore(Mapped(depth, names, jsons, n - 1), keys, jsons, n - 1);
    }
    if n < |names| {
      SendsMore(Mapped(depth, names, jsons, n), keys, jsons, n);
    }
  }

  lemma SendsNothing(keys: seq<R.Key>, jsons: seq<R.Json>)
    requires |keys| == |jsons|
    ensures Sends(map[], keys, jsons, 0)
  {
  }

  /** Members with distinct known keys, plain names and readable texts are readable together. */
  lemma ReadableTogether(depth: nat, names: seq<string>, keys: seq<R.Key>, texts: seq<string>, jsons: seq<R.Json>)
    requires |names| == |keys| == |texts| == |jsons| && DistinctKeys(keys)
    requires forall i :: 0 <= i < |names| ==> KeyOf(depth, names[i]) == keys[i] && Unquoted(names[i])
    requires forall i :: 0 <= i < |texts| ==> Parses(texts[i], depth + 1, jsons[i])
    ensures Readable(depth, names, texts, jsons)
    ensures Sends(Mapped(depth, names, jsons, |names|), keys, jsons, |names|)
  {
    hide KeyOf, Parses, Unquoted, Mapped, Sends, DistinctKeys;
    forall n | 0 <= n < |names| ensures KeyOf(depth, names[n]) !in Mapped(depth, names, jsons, n) {
      MappedKeys(depth, names, keys, jsons, n);
    }
    MappedKeys(depth, names, keys, jsons, |names|);
  }

  function TimeJsons(t: Totals): seq<R.Json> { [R.Int(t.calls), R.Int(t.wall), R.Int(t.thread)] }

  lemma TimesReadable(t: Totals)
    ensures Readable(2, TIME_NAMES, TimeTexts(t), TimeJsons(t)) && |TIME_NAMES| == 3
    ensures R.Object(Mapped(2, TIME_NAMES, TimeJsons(t), 3)) == EncodedStage(t)
  {
    hide KeyOf, Parses, Unquoted, Printed, Readable, Mapped, TIME_NAMES, Sends, EncodedStage;
    ListSizes();
    TimeNames();
    NumberParses(t.calls, 3);
    NumberParses(t.wall, 3);
    NumberParses(t.thread, 3);
    forall i | 0 <= i < 3 ensures KeyOf(2, TIME_NAMES[i]) == TIME_KEYS[i] {
      TimeKey(i);
    }
    ReadableTogether(2, TIME_NAMES, TIME_KEYS, TimeTexts(t), TimeJsons(t));
    TimesEncoded(t, Mapped(2, TIME_NAMES, TimeJsons(t), 3));
  }

  lemma TimesEncoded(t: Totals, m: map<R.Key, R.Json>)
    requires Sends(m, TIME_KEYS, TimeJsons(t), 3)
    ensures R.Object(m) == EncodedStage(t)
  {
    assert TIME_KEYS[..3] == TIME_KEYS;
    assert m[TIME_KEYS[0]] == R.Int(t.calls) && m[TIME_KEYS[1]] == R.Int(t.wall) && m[TIME_KEYS[2]] == R.Int(t.thread);
    assert m == map[R.Calls := R.Int(t.calls), R.WallNs := R.Int(t.wall), R.ThreadNs := R.Int(t.thread)];
  }

  lemma StageParses(t: Totals)
    ensures Parses(StageObject(t), 2, EncodedStage(t))
  {
    hide KeyOf, Readable, ParseValue, Members, Mapped, TIME_NAMES, TimeTexts, TimeJsons, EncodedStage;
    TimesReadable(t);
    ReadableSizes(2, TIME_NAMES, TimeTexts(t), TimeJsons(t));
    forall rest: string | rest != "" && Separates(rest[0])
      ensures ParseValue(StageObject(t) + rest, 2) == Some((EncodedStage(t), rest))
    {
      ObjectParses(2, TIME_NAMES, TimeTexts(t), TimeJsons(t), rest);
    }
  }

  function StageJsons(r: Record): (js: seq<R.Json>)
    requires |r.stages| == COUNT
    ensures |js| == COUNT
  {
    seq(COUNT, i requires 0 <= i < COUNT => EncodedStage(r.stages[i]))
  }

  function StageKeys(): (ks: seq<R.Key>)
    ensures |ks| == COUNT && DistinctKeys(ks) && forall i :: 0 <= i < COUNT ==> ks[i] == R.Stage(i)
  {
    seq(COUNT, i requires 0 <= i < COUNT => R.Stage(i))
  }

  function EncodedStages(r: Record): R.Json
    requires |r.stages| == COUNT
  {
    R.Object(map i | 0 <= i < COUNT :: R.Stage(i) := EncodedStage(r.stages[i]))
  }

  lemma StagesReadable(r: Record)
    requires |r.stages| == COUNT
    ensures Readable(1, NAMES, StageTexts(r), StageJsons(r)) && |NAMES| == COUNT
    ensures R.Object(Mapped(1, NAMES, StageJsons(r), COUNT)) == EncodedStages(r)
  {
    hide KeyOf, Parses, Unquoted, StageObject, Mapped, NAMES, EncodedStage, Readable, Sends, EncodedStages;
    ListSizes();
    StageNames();
    forall i | 0 <= i < COUNT
      ensures Parses(StageTexts(r)[i], 2, StageJsons(r)[i]) && KeyOf(1, NAMES[i]) == StageKeys()[i]
    {
      StageParses(r.stages[i]);
      StageKey(i);
    }
    ReadableTogether(1, NAMES, StageKeys(), StageTexts(r), StageJsons(r));
    StagesEncoded(r, Mapped(1, NAMES, StageJsons(r), COUNT));
  }

  lemma StagesEncoded(r: Record, m: map<R.Key, R.Json>)
    requires |r.stages| == COUNT && Sends(m, StageKeys(), StageJsons(r), COUNT)
    ensures R.Object(m) == EncodedStages(r)
  {
    hide EncodedStage;
    var e := EncodedStages(r).fields;
    forall i: nat | i < COUNT ensures R.Stage(i) in m && m[R.Stage(i)] == e[R.Stage(i)] {
      assert StageKeys()[i] == R.Stage(i);
    }
    forall k <- m ensures k in e {
      var i :| 0 <= i < COUNT && StageKeys()[..COUNT][i] == k;
    }
    assert m.Keys == e.Keys;
    assert m == e;
  }

  lemma StagesParse(r: Record)
    requires |r.stages| == COUNT
    ensures |NAMES| == COUNT && Parses(LEFT + Members(NAMES, StageTexts(r), 0) + RIGHT, 1, EncodedStages(r))
  {
    hide KeyOf, Readable, ParseValue, Members, Mapped, StageTexts, StageJsons, NAMES, EncodedStages;
    ListSizes();
    StagesReadable(r);
    forall rest: string | rest != "" && Separates(rest[0])
      ensures ParseValue(LEFT + Members(NAMES, StageTexts(r), 0) + RIGHT + rest, 1) == Some((EncodedStages(r), rest))
    {
      ObjectParses(1, NAMES, StageTexts(r), StageJsons(r), rest);
    }
  }

  function FieldJsons(r: Record): (js: seq<R.Json>)
    requires |r.stages| == COUNT
    ensures |js| == 9
  {
    [R.Int(1), R.Int(r.pid), R.Int(r.frame), R.Int(r.seqBegin), R.Int(r.seqEnd), R.Int(r.beginNs), R.Int(r.endNs),
     R.Int(if r.valid then 1 else 0), EncodedStages(r)]
  }

  lemma NumbersParse(r: Record)
    requires |r.stages| == COUNT
    ensures forall i :: 0 <= i < 8 ==> Parses(FieldTexts(r)[i], 1, FieldJsons(r)[i])
  {
    hide Parses, Members, StageTexts, EncodedStages, Printed;
    NumberParses(1, 1);
    NumberParses(r.pid, 1);
    NumberParses(r.frame, 1);
    NumberParses(r.seqBegin, 1);
    NumberParses(r.seqEnd, 1);
    NumberParses(r.beginNs, 1);
    NumberParses(r.endNs, 1);
    NumberParses(if r.valid then 1 else 0, 1);
  }

  lemma FieldsReadable(r: Record)
    requires |r.stages| == COUNT
    ensures Readable(0, FIELD_NAMES, FieldTexts(r), FieldJsons(r)) && |FIELD_NAMES| == 9
    ensures R.Object(Mapped(0, FIELD_NAMES, FieldJsons(r), 9)) == Encoded(r)
  {
    hide KeyOf, Parses, Unquoted, Mapped, Members, StageTexts, Printed, FIELD_NAMES, Readable, Sends;
    ListSizes();
    FieldNames();
    NumbersParse(r);
    StagesParse(r);
    forall i | 0 <= i < 9 ensures KeyOf(0, FIELD_NAMES[i]) == FIELD_KEYS[i] {
      FieldKey(i);
    }
    ReadableTogether(0, FIELD_NAMES, FIELD_KEYS, FieldTexts(r), FieldJsons(r));
    FieldsEncoded(r, Mapped(0, FIELD_NAMES, FieldJsons(r), 9));
  }

  lemma FieldsEncoded(r: Record, m: map<R.Key, R.Json>)
    requires |r.stages| == COUNT && Sends(m, FIELD_KEYS, FieldJsons(r), 9)
    ensures R.Object(m) == Encoded(r)
  {
    hide EncodedStage, Sends, Encoded, FieldJsons, FIELD_KEYS;
    ListSizes();
    FieldsSent(r, m);
    FieldsAre(r, m);
  }

  lemma FieldsAre(r: Record, m: map<R.Key, R.Json>)
    requires |r.stages| == COUNT
    requires (forall k :: k in m <==> k in FIELD_KEYS) && forall i :: 0 <= i < 9 ==> m[FIELD_KEYS[i]] == FieldJsons(r)[i]
    ensures R.Object(m) == Encoded(r)
  {
    hide EncodedStage;
    var e := Encoded(r).fields;
    assert forall i :: 0 <= i < 9 ==> FIELD_KEYS[i] in e && e[FIELD_KEYS[i]] == FieldJsons(r)[i];
    assert m == e;
  }

  lemma FieldsSent(r: Record, m: map<R.Key, R.Json>)
    requires |r.stages| == COUNT && Sends(m, FIELD_KEYS, FieldJsons(r), 9)
    ensures (forall k :: k in m <==> k in FIELD_KEYS) && forall i :: 0 <= i < 9 ==> m[FIELD_KEYS[i]] == FieldJsons(r)[i]
  {
    hide FieldJsons, FIELD_KEYS;
    ListSizes();
    assert FIELD_KEYS[..9] == FIELD_KEYS;
    forall k <- FIELD_KEYS ensures k in m {
      var i :| 0 <= i < 9 && FIELD_KEYS[i] == k;
    }
  }

  lemma ReadableSizes(depth: nat, names: seq<string>, texts: seq<string>, jsons: seq<R.Json>)
    requires Readable(depth, names, texts, jsons)
    ensures |names| == |texts| == |jsons|
  {
  }

  lemma RecordParses(r: Record, rest: string)
    requires |r.stages| == COUNT
    ensures |FIELD_NAMES| == 9 && |FieldTexts(r)| == 9
    ensures ParseValue(LEFT + Members(FIELD_NAMES, FieldTexts(r), 0) + RIGHT + rest, 0) == Some((Encoded(r), rest))
  {
    hide KeyOf, Readable, ParseValue, Members, Mapped, FIELD_NAMES, Encoded, FieldJsons;
    ListSizes();
    FieldsReadable(r);
    ObjectParses(0, FIELD_NAMES, FieldTexts(r), FieldJsons(r), rest);
  }

  // ---- the printed text is such an object ----

  /** The members after the `i`-th, with the comma before them. */
  function Others(names: seq<string>, texts: seq<string>, i: nat): string
    requires i < |names| == |texts|
  {
    if i + 1 < |names| then "," + Members(names, texts, i + 1) else ""
  }

  lemma OneMember(names: seq<string>, texts: seq<string>, i: nat)
    requires i < |names| == |texts|
    ensures Members(names, texts, i) == Member(names[i], texts[i]) + Others(names, texts, i)
  {
  }

  lemma TimesText(t: Totals)
    ensures StageObject(t) == (FIRST_TIME + Printed(t.calls)) + (WALL + Printed(t.wall)) + (THREAD + Printed(t.thread)) + RIGHT
  {
    hide Members, Printed;
    var ts := TimeTexts(t);
    ListSizes();
    OneMember(TIME_NAMES, ts, 0);
    OneMember(TIME_NAMES, ts, 1);
    OneMember(TIME_NAMES, ts, 2);
    TimeMembers(Printed(t.calls), Printed(t.wall), Printed(t.thread));
    ThreeParts(Member("calls", ts[0]), Member("wallNs", ts[1]), Member("threadNs", ts[2]));
  }

  lemma TimeMembers(a: string, b: string, c: string)
    ensures LEFT + Member("calls", a) == FIRST_TIME + a
    ensures "," + Member("wallNs", b) == WALL + b && "," + Member("threadNs", c) == THREAD + c
  {
    assert LEFT + (QUOTE + "calls" + COLON) == FIRST_TIME;
    assert "," + (QUOTE + "wallNs" + COLON) == WALL;
    assert "," + (QUOTE + "threadNs" + COLON) == THREAD;
  }

  lemma ThreeParts(a: string, b: string, c: string)
    ensures LEFT + (a + ("," + (b + ("," + (c + ""))))) + RIGHT == (LEFT + a) + ("," + b) + ("," + c) + RIGHT
  {
  }

  /** From stage `i` on the text is what closes the one before, and the members that are left. */
  lemma {:induction false} StagesText(r: Record, i: nat)
    requires |r.stages| == COUNT && i < COUNT
    ensures |NAMES| == COUNT
    ensures TextFrom(r, 7 + 3 * i) ==
      Lead(i) + ((if i == 0 then "" else ",") + (Members(NAMES, StageTexts(r), i) + END))
    decreases COUNT - i
  {
    hide Label, Number, Printed, Members, StageObject, StageTexts, NAMES, TextFrom, Member, Head, Lead;
    ListSizes();
    var t, k := r.stages[i], 7 + 3 * i;
    StageLabels(r, i);
    NextText(r, k);
    NextText(r, k + 1);
    NextText(r, k + 2);
    OneMember(NAMES, StageTexts(r), i);
    TimesText(t);
    StageTextAt(r, i);
    HeadParts(i);
    var others := Others(NAMES, StageTexts(r), i);
    if i + 1 < COUNT {
      StagesText(r, i + 1);
      StageFollows(Members(NAMES, StageTexts(r), i + 1));
      LeadAfter(i + 1);
    } else {
      LastText(r);
    }
    MemberParts(NAMES[i], StageObject(t));
    StageRegroup(Lead(i), if i == 0 then "" else ",", QUOTE + NAMES[i] + COLON, FIRST_TIME, Printed(t.calls),
                 WALL + Printed(t.wall), THREAD + Printed(t.thread), others, END);
  }

  lemma LeadAfter(i: nat)
    requires i > 0
    ensures Lead(i) == RIGHT
  {
  }

  lemma StageFollows(members: string)
    ensures RIGHT + ("," + (members + END)) == RIGHT + (("," + members) + END)
  {
  }

  lemma StageTextAt(r: Record, i: nat)
    requires |r.stages| == COUNT && i < COUNT
    ensures StageTexts(r)[i] == StageObject(r.stages[i])
  {
  }

  lemma NextText(r: Record, k: nat)
    requires |r.stages| == COUNT && k < FIELDS
    ensures TextFrom(r, k) == (Label(k) + Printed(Number(r, k))) + TextFrom(r, k + 1)
  {
  }

  lemma LastText(r: Record)
    requires |r.stages| == COUNT
    ensures TextFrom(r, 37) == RIGHT + ("" + END)
  {
    assert TAIL == RIGHT + END;
  }

  lemma HeadParts(i: nat)
    requires i < COUNT
    ensures |NAMES| == COUNT && Head(i) == (if i == 0 then "" else ",") + ((QUOTE + NAMES[i] + COLON) + FIRST_TIME)
  {
    hide NAMES;
    ListSizes();
    assert CALLS == COLON + FIRST_TIME;
  }

  lemma MemberParts(name: string, text: string)
    ensures Member(name, text) == (QUOTE + name + COLON) + text
  {
  }

  lemma StageRegroup(lead: string, sep: string, open: string, calls: string, a: string, b: string, c: string, others: string, end: string)
    ensures ((lead + (sep + (open + calls))) + a) + (b + (c + (RIGHT + (others + end)))) ==
      lead + (sep + (((open + ((calls + a) + b + c + RIGHT)) + others) + end))
  {
  }

  /** From each field on the text is the members that are left. */
  lemma {:induction false} FieldsText(r: Record, k: nat)
    requires |r.stages| == COUNT && 0 < k <= 7
    ensures |FIELD_NAMES| == |FieldTexts(r)| == 9
    ensures TextFrom(r, k) == "," + (Members(FIELD_NAMES, FieldTexts(r), k + 1) + RECORD_END)
    decreases 7 - k
  {
    hide Label, Number, Printed, Members, NAMES, FIELD_NAMES, TextFrom, Member;
    ListSizes();
    OneMember(FIELD_NAMES, FieldTexts(r), k + 1);
    var text := FieldTexts(r)[k + 1];
    FieldLabel(r, k);
    MemberParts(FIELD_NAMES[k + 1], text);
    if k == 7 {
      StagesText(r, 0);
      FieldRegroup(QUOTE + FIELD_NAMES[8] + COLON, LEFT + Members(NAMES, StageTexts(r), 0) + RIGHT, "", RECORD_END);
      StagesOpen(Members(NAMES, StageTexts(r), 0));
    } else {
      NextText(r, k);
      FieldsText(r, k + 1);
      FieldRegroup(QUOTE + FIELD_NAMES[k + 1] + COLON, text, "," + Members(FIELD_NAMES, FieldTexts(r), k + 2), RECORD_END);
    }
  }

  lemma FieldLabel(r: Record, k: nat)
    requires |r.stages| == COUNT && 0 < k <= 7
    ensures |FIELD_NAMES| == 9
    ensures k < 7 ==> Label(k) == "," + (QUOTE + FIELD_NAMES[k + 1] + COLON) && FieldTexts(r)[k + 1] == Printed(Number(r, k))
    ensures k == 7 ==> QUOTE + FIELD_NAMES[8] + COLON == STAGES_MEMBER
  {
    hide Printed, Members, StageTexts;
  }

  lemma FieldRegroup(open: string, text: string, others: string, end: string)
    ensures "," + (((open + text) + others) + end) == (("," + open) + text) + (others + end)
  {
  }

  lemma StagesOpen(members: string)
    ensures OPEN + ("" + (members + END)) == (("," + STAGES_MEMBER) + (LEFT + members + RIGHT)) + ("" + RECORD_END)
  {
    assert OPEN == "," + STAGES_MEMBER + LEFT;
    assert END == RIGHT + RECORD_END;
  }

  lemma RecordText(r: Record)
    requires |r.stages| == COUNT
    ensures |FIELD_NAMES| == |FieldTexts(r)| == 9
    ensures Text(r) == PREFIX + (LEFT + Members(FIELD_NAMES, FieldTexts(r), 0) + RIGHT + "\n")
  {
    hide Number, Printed, Members, NAMES, FIELD_NAMES, TextFrom, Member, Label, StageTexts;
    ListSizes();
    OneMember(FIELD_NAMES, FieldTexts(r), 0);
    OneMember(FIELD_NAMES, FieldTexts(r), 1);
    NextText(r, 0);
    FieldsText(r, 1);
    FirstLabel(r);
    MemberParts("version", Printed(1));
    MemberParts("pid", Printed(r.pid));
    RecordRegroup(Printed(r.pid), Members(FIELD_NAMES, FieldTexts(r), 2));
  }

  lemma FirstLabel(r: Record)
    requires |r.stages| == COUNT
    ensures |FIELD_NAMES| == 9 && FIELD_NAMES[0] == "version" && FIELD_NAMES[1] == "pid" && Printed(1) == "1"
    ensures Number(r, 0) == r.pid && FieldTexts(r)[0] == Printed(1) && FieldTexts(r)[1] == Printed(r.pid)
    ensures Label(0) == PREFIX + (LEFT + (((QUOTE + "version" + COLON) + "1") + ("," + (QUOTE + "pid" + COLON))))
  {
    hide Members, StageTexts, Printed;
    FirstHeader();
    PrintedOne();
  }

  lemma PrintedOne()
    ensures Printed(1) == "1"
  {
    assert Printed(1) == "" + [DigitOf(1)];
  }

  lemma FirstHeader()
    ensures HEADER[0] == PREFIX + (LEFT + (((QUOTE + "version" + COLON) + "1") + ("," + (QUOTE + "pid" + COLON))))
  {
  }

  lemma RecordRegroup(pid: string, others: string)
    ensures var v, p := (QUOTE + "version" + COLON) + "1", QUOTE + "pid" + COLON;
      (PREFIX + (LEFT + (v + ("," + p))) + pid) + ("," + (others + RECORD_END)) ==
        PREFIX + (LEFT + (v + ("," + ((p + pid) + ("," + others)))) + RIGHT + "\n")
  {
    hide PREFIX;
    assert RECORD_END == RIGHT + "\n";
  }

  /** What the profiler prints parses to what the reader takes. */
  lemma LineParses(r: Record)
    requires |r.stages| == COUNT
    ensures ParseLine(Text(r)) == R.Parsed(Encoded(r))
  {
    hide ParseValue, Members, FIELD_NAMES, FieldTexts, Encoded, Text;
    RecordText(r);
    var value := LEFT + Members(FIELD_NAMES, FieldTexts(r), 0) + RIGHT + "\n";
    RecordParses(r, "\n");
    assert PREFIX <= Text(r) && Text(r)[|PREFIX|..] == value;
  }

  function Texts(log: seq<Record>): seq<string>
    requires forall n :: 0 <= n < |log| ==> |log[n].stages| == COUNT
  {
    seq(|log|, n requires 0 <= n < |log| => Text(log[n]))
  }

  function ParseLog(texts: seq<string>): seq<R.Line> {
    seq(|texts|, n requires 0 <= n < |texts| => ParseLine(texts[n]))
  }

  /** Read a log from its text. */
  method ReadLog(texts: seq<string>) returns (r: R.Result<map<nat, seq<R.Report>>>)
    ensures r.Ok? <==> R.Acceptable(ParseLog(texts), |texts|)
  {
    hide R.Acceptable, ParseLine;
    r := R.ReadFrames(ParseLog(texts));
  }

  /** From the profilers' marks to the reader's verdict: every log that disciplined profilers print is accepted. */
  lemma TextAccepted(log: seq<Record>, runs: map<nat, seq<Event>>)
    requires Mixed(log, runs)
    ensures forall n :: 0 <= n < |log| ==> |log[n].stages| == COUNT
    ensures R.Acceptable(ParseLog(Texts(log)), |log|)
  {
    hide Mixed, R.Acceptable, ParseLine, Encoded, Text;
    ReaderAccepts(log, runs);
    forall n | 0 <= n < |log| ensures ParseLine(Text(log[n])) == R.Parsed(Encoded(log[n])) {
      LineParses(log[n]);
    }
    assert ParseLog(Texts(log)) == Lines(log);
  }
}
