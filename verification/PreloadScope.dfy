/**
 The scope of the diagnostic preload probe. The launcher prepares it before exec, the probe's own
 constructor activates it after exec in the same process; from then on children inherit a preload list
 without the probe and the other diagnostics.
 */
module PreloadScope {
  import opened Options
  import opened PreloadTokens
  import Decimals

  const PIXMAN := "/usr/lib/libpinecone-pixman.so"
  const DEFAULT_PROBE := "/usr/local/lib/libpinecone-gtk-latency.so"
  const DIRECTORY := "/usr/local/lib/" + "pinecone-text-insertion/"
  const TEXT_COMMIT := DIRECTORY + "libpinecone-text-commit.so"
  const TEXT_WAIT := DIRECTORY + "libpinecone-text-wait.so"
  const WORDEXP_TRACE := DIRECTORY + "libpinecone-wordexp-trace.so"
  const DIAGNOSTICS := [TEXT_COMMIT, TEXT_WAIT, WORDEXP_TRACE]

  /** Memory that may run out; `exhausted` says that an allocation has failed. */
  class Heap {
    var left: nat
    var exhausted: bool

    method Allocate() returns (ok: bool)
      modifies this
      ensures ok <==> old(left) > 0
      ensures left == (if ok then old(left) - 1 else 0) && exhausted == (old(exhausted) || !ok)
    {
      ok := left > 0;
      if ok {
        left := left - 1;
      } else {
        exhausted := true;
      }
    }

    method Release()
      modifies this`left
      ensures left == old(left) + 1
    {
      left := left + 1;
    }
  }

  /** Scan one token, or the separators at the end. */
  method NextToken(s: string, p: nat) returns (start: nat, end: nat)
    requires p <= |s|
    ensures start == SkipSeparators(s, p) && end == SkipToken(s, start)
  {
    start := p;
    while start < |s| && Separator(s[start])
      invariant start <= |s| && SkipSeparators(s, start) == SkipSeparators(s, p)
    {
      start := start + 1;
    }
    end := start;
    while end < |s| && !Separator(s[end])
      invariant end <= |s| && SkipToken(s, end) == SkipToken(s, start)
    {
      end := end + 1;
    }
  }

  /** Whether `probe` is one of the tokens, compared by length and content. */
  method HasToken(s: string, probe: string) returns (found: bool)
    requires Token(probe)
    ensures found <==> probe in Tokens(s)
  {
    found := false;
    var p := 0;
    while p < |s|
      invariant p <= |s|
      invariant probe in Tokens(s) <==> found || probe in TokensFrom(s, p)
      decreases |s| - p
    {
      var start, end := NextToken(s, p);
      if s[start..end] == probe {
        found := true;
      }
      p := end;
    }
  }

  /** Write one more token into the buffer, with a colon between two. */
  method Append(buffer: array<char>, used: nat, token: string) returns (after: nat)
    requires used + 1 + |token| <= buffer.Length || (used == 0 && |token| <= buffer.Length)
    modifies buffer
    ensures after == used + |token| + if used > 0 then 1 else 0
    ensures after <= buffer.Length && buffer[..after] == Add(old(buffer[..used]), token)
  {
    after := used;
    ghost var before := buffer[..used];
    if used > 0 {
      buffer[after] := ':';
      after := after + 1;
    }
    ghost var joined := buffer[..after];
    forall i | 0 <= i < |token| {
      buffer[after + i] := token[i];
    }
    after := after + |token|;
    assert buffer[..after] == joined + token;
  }

  /** One more token, kept or left out. */
  lemma OthersStep(done: seq<string>, probe: string, token: string)
    ensures var ts := Excluding(done, {probe});
      Join(Excluding(done + [token], {probe})) == if token == probe then Join(ts) else Add(Join(ts), token)
  {
    var ts := Excluding(done, {probe});
    var more := done + [token];
    assert more[..|more| - 1] == done && more[|more| - 1] == token;
    if token != probe {
      assert Excluding(more, {probe}) == ts + [token];
      assert (ts + [token])[..|ts|] == ts;
    } else {
      assert Excluding(more, {probe}) == ts;
    }
  }

  /** The tokens from one place on are the token there and those after it. */
  lemma FirstToken(s: string, p: nat)
    requires p <= |s|
    ensures var start := SkipSeparators(s, p); var end := SkipToken(s, start);
      TokensFrom(s, p) == (if s[start..end] == "" then [] else [s[start..end]]) + TokensFrom(s, end)
    ensures var start := SkipSeparators(s, p); var end := SkipToken(s, start);
      (s[start..end] == "" <==> start == |s|) && (start == |s| ==> end == |s|)
  {
  }

  /** Copy the next token, unless it is the probe; the write index stays behind what has been read. */
  method CopyToken(s: string, p: nat, probe: string, buffer: array<char>, used: nat, ghost done: seq<string>)
      returns (end: nat, after: nat, ghost more: seq<string>)
    requires Token(probe) && buffer.Length == |s| + 1 && used <= p < |s| && (p > 0 ==> Separator(s[p]))
    requires buffer[..used] == Join(Excluding(done, {probe})) && done + TokensFrom(s, p) == Tokens(s)
    modifies buffer
    ensures p < end <= |s| && after <= end && (end < |s| ==> Separator(s[end]))
    ensures buffer[..after] == Join(Excluding(more, {probe})) && more + TokensFrom(s, end) == Tokens(s)
  {
    hide Join, Excluding, TokensFrom, Token, Add;
    FirstToken(s, p);
    var start: nat;
    start, end := NextToken(s, p);
    var token := s[start..end];
    after, more := used, done;
    if token != "" && token != probe {
      after := Append(buffer, used, token);
    }
    if token != "" {
      OthersStep(done, probe, token);
      more := done + [token];
    }
  }

  /** Copy every other token. */
  method CopyOthers(s: string, probe: string, buffer: array<char>) returns (used: nat)
    requires Token(probe) && buffer.Length == |s| + 1
    modifies buffer
    ensures used <= |s| && buffer[..used] == Join(Excluding(Tokens(s), {probe}))
  {
    hide Join, Excluding, TokensFrom, Token, Add;
    used := 0;
    var p := 0;
    ghost var done: seq<string> := [];
    Nothing(probe);
    while p < |s|
      invariant used <= p <= |s| && (0 < p < |s| ==> Separator(s[p]))
      invariant buffer[..used] == Join(Excluding(done, {probe})) && done + TokensFrom(s, p) == Tokens(s)
      decreases |s| - p
    {
      p, used, done := CopyToken(s, p, probe, buffer, used, done);
    }
    NothingLeft(s);
    assert done == Tokens(s);
  }

  lemma NothingLeft(s: string)
    ensures TokensFrom(s, |s|) == []
  {
  }

  lemma Nothing(probe: string)
    ensures Join(Excluding([], {probe})) == ""
  {
  }

  /** The list with `probe` taken out, normalized, or unchanged if it is not there. */
  function Removed(s: string, probe: string): string {
    if probe in Tokens(s) then Join(Excluding(Tokens(s), {probe})) else s
  }

  /**
   Take one token out of a preload list: 1 and the new list, 0 if it is not there, or -1 if it is no
   token or memory has run out. Memory is asked for only when there is something to take out.
   */
  method WithoutProbe(preload: Option<string>, probe: Option<string>, heap: Heap) returns (result: int, filtered: Option<string>)
    modifies heap
    ensures probe.None? || !Token(probe.value) ==> result == -1
    ensures probe.Some? && Token(probe.value) ==>
      if preload.None? || probe.value !in Tokens(preload.value) then result == 0
      else if old(heap.left) == 0 then result == -1
      else result == 1 && filtered == Some(Removed(preload.value, probe.value))
    ensures result != 1 ==> filtered == None
    ensures heap.left == old(heap.left) - (if result == 1 then 1 else 0)
    ensures heap.exhausted == (old(heap.exhausted) || (result == -1 && probe.Some? && Token(probe.value)))
  {
    result, filtered := -1, None;
    if probe.None? || probe.value == "" {
      return;
    }
    var i := 0;
    while i < |probe.value|
      invariant i <= |probe.value| && forall k :: 0 <= k < i ==> !Separator(probe.value[k])
    {
      if Separator(probe.value[i]) {
        return;
      }
      i := i + 1;
    }
    if preload.None? {
      return 0, None;
    }
    var found := HasToken(preload.value, probe.value);
    if !found {
      return 0, None;
    }
    var ok := heap.Allocate();
    if !ok {
      return;
    }
    var buffer := new char[|preload.value| + 1];
    var used := CopyOthers(preload.value, probe.value, buffer);
    return 1, Some(buffer[..used]);
  }

  /** Taking out every token of a list, one after another. */
  function RemovedAll(s: string, ts: seq<string>): string {
    if ts == [] then s else Removed(RemovedAll(s, ts[..|ts| - 1]), ts[|ts| - 1])
  }

  /** Take a list of tokens out; production code is never taken out. Memory holds each token for a moment. */
  method RemoveList(preload: string, tokens: Option<string>, heap: Heap) returns (ok: bool, filtered: string)
    modifies heap
    ensures heap.left == old(heap.left) && (old(heap.exhausted) ==> heap.exhausted)
    ensures ok || old(heap.left) >= 2 ==> heap.exhausted == old(heap.exhausted)
    ensures ok ==> filtered == RemovedAll(preload, Tokens(tokens.GetOr("")))
    ensures ok ==> PIXMAN !in Tokens(tokens.GetOr(""))
    ensures !ok && !heap.exhausted ==> PIXMAN in Tokens(tokens.GetOr(""))
  {
    hide Removed, RemovedAll, TokensFrom, Token;
    ok, filtered := true, preload;
    NothingRemoved(preload);
    if tokens.None? {
      return;
    }
    var s, p := tokens.value, 0;
    ghost var done: seq<string> := [];
    while p < |s|
      invariant p <= |s| && ok && heap.exhausted == old(heap.exhausted) && heap.left == old(heap.left)
      invariant done + TokensFrom(s, p) == Tokens(s) && PIXMAN !in done
      invariant filtered == RemovedAll(preload, done)
        decreases |s| - p
    {
      FirstToken(s, p);
      TokenAt(s, p);
      var start, end := NextToken(s, p);
      var token := s[start..end];
      p := end;
      if token == "" {
        continue;
      }
      var copied := heap.Allocate();
      if !copied {
        return false, filtered;
      }
      if token == PIXMAN {
        heap.Release();
        return false, filtered;
      }
      var result, next := WithoutProbe(Some(filtered), Some(token), heap);
      heap.Release();
      if result < 0 {
        return false, filtered;
      }
      RemovedStep(preload, done, token);
      done := done + [token];
      if result == 1 {
        heap.Release();
        filtered := next.value;
      }
    }
    NothingLeft(s);
    assert done == Tokens(s);
  }

  lemma NothingRemoved(s: string)
    ensures RemovedAll(s, []) == s && Tokens("") == []
  {
  }

  lemma TokenAt(s: string, p: nat)
    requires p <= |s|
    ensures var start := SkipSeparators(s, p); start < |s| ==> Token(s[start..SkipToken(s, start)])
  {
  }

  lemma RemovedStep(s: string, done: seq<string>, token: string)
    ensures RemovedAll(s, done + [token]) == Removed(RemovedAll(s, done), token)
    ensures token !in Tokens(RemovedAll(s, done)) ==> RemovedAll(s, done + [token]) == RemovedAll(s, done)
  {
    assert (done + [token])[..|done|] == done;
  }

  /** Taking tokens out of a joined list, one after another, takes out all of them, in whatever order they are given. */
  lemma {:induction false} RemovedFromJoin(ts: seq<string>, gone: seq<string>)
    requires AllToken(ts)
    ensures RemovedAll(Join(ts), gone) == Join(Excluding(ts, set t <- gone))
  {
    hide Token, Tokens, Join;
    if gone == [] {
      ExcludingNone(ts, set t <- gone);
    } else {
      var before, t := gone[..|gone| - 1], gone[|gone| - 1];
      RemovedFromJoin(ts, before);
      var kept := Excluding(ts, set u <- before);
      ExcludingTokens(ts, set u <- before);
      TokensOfJoin(kept);
      ExcludingTwice(ts, set u <- before, {t});
      assert (set u <- before) + {t} == set u <- gone;
      if t !in kept {
        ExcludingNone(kept, {t});
      }
      RemovedStep(Join(ts), before, t);
      assert before + [t] == gone;
    }
  }

  // ---- the environment ----

  datatype Name = Latency | ScopePid | ProbeToken | ScopedPreloads | LdPreload | Launch | OtherName(text: string)

  type Variables = map<Name, string>

  /** The environment of a process; a change may be refused, and then changes nothing. */
  class Environment {
    var vars: Variables
    var refuses: bool

    function Get(n: Name): Option<string>
      reads this
    {
      Lookup(vars, n)
    }

    method Set(n: Name, value: string) returns (ok: bool)
      modifies this`vars
      ensures ok == !refuses && vars == if ok then old(vars)[n := value] else old(vars)
    {
      ok := !refuses;
      if ok {
        vars := vars[n := value];
      }
    }

    method Unset(n: Name) returns (ok: bool)
      modifies this`vars
      ensures ok == !refuses && vars == if ok then old(vars) - {n} else old(vars)
    {
      ok := !refuses;
      if ok {
        vars := vars - {n};
      }
    }
  }

  function Lookup(vars: Variables, n: Name): Option<string> { if n in vars then Some(vars[n]) else None }

  predicate Requested(vars: Variables) { Lookup(vars, Latency) == Some("1") }

  function Probe(vars: Variables): string { Lookup(vars, ProbeToken).GetOr(DEFAULT_PROBE) }

  function Extras(vars: Variables): seq<string> { Tokens(Lookup(vars, ScopedPreloads).GetOr("")) }

  /** Everything a child must not inherit. */
  function Gone(vars: Variables): set<string> {
    {Probe(vars)} + (set t <- DIAGNOSTICS) + (set t <- Extras(vars))
  }

  /** A manifest that can be scoped: it loads the probe, which is a proper token, and nothing asks to take production code out. */
  predicate Manifest(preload: Option<string>, vars: Variables) {
    && Token(Probe(vars)) && Probe(vars) != PIXMAN && PIXMAN !in Extras(vars)
    && preload.Some? && Probe(vars) in Tokens(preload.value)
  }

  /** The three diagnostic libraries, by name. */
  ghost predicate DiagnosticName(t: string) {
    var directory := "/usr/local/lib/pinecone-text-insertion/";
    || t == directory + "libpinecone-text-commit.so"
    || t == directory + "libpinecone-text-wait.so"
    || t == directory + "libpinecone-wordexp-trace.so"
  }

  lemma DirectoryName()
    ensures DIRECTORY == "/usr/local/lib/pinecone-text-insertion/"
  {
  }

  lemma DiagnosticNames(t: string)
    ensures t in DIAGNOSTICS <==> DiagnosticName(t)
  {
    hide DIRECTORY;
    DirectoryName();
    assert t in DIAGNOSTICS <==> t == TEXT_COMMIT || t == TEXT_WAIT || t == WORDEXP_TRACE;
  }

  /** What children of a scoped process inherit. */
  function Inherited(preload: string, vars: Variables): string {
    Join(Excluding(Tokens(preload), Gone(vars)))
  }

  lemma DiagnosticsAreTokens()
    ensures AllToken(DIAGNOSTICS) && PIXMAN !in DIAGNOSTICS && Tokens(Join(DIAGNOSTICS)) == DIAGNOSTICS
  {
    hide Token, Tokens, Join;
    NamesAreTokens();
    NoProduction();
    TokensOfJoin(DIAGNOSTICS);
  }

  lemma NoProduction()
    ensures PIXMAN !in DIAGNOSTICS
  {
    assert |PIXMAN| < |DIRECTORY|;
  }

  lemma NamesAreTokens()
    ensures Token(TEXT_COMMIT) && Token(TEXT_WAIT) && Token(WORDEXP_TRACE)
  {
    assert Token("libpinecone-text-commit.so");
    assert Token("libpinecone-text-wait.so");
    assert Token("libpinecone-wordexp-trace.so");
    DirectoryToken("libpinecone-text-commit.so");
    DirectoryToken("libpinecone-text-wait.so");
    DirectoryToken("libpinecone-wordexp-trace.so");
  }

  lemma DirectoryToken(name: string)
    requires Token(name)
    ensures Token(DIRECTORY + name)
  {
    assert Token("/usr/local/lib/");
    assert Token("pinecone-text-insertion/");
    TokenOfParts("/usr/local/lib/", "pinecone-text-insertion/");
    TokenOfParts(DIRECTORY, name);
  }

  lemma TokenOfParts(a: string, b: string)
    requires Token(a) && Token(b)
    ensures Token(a + b)
  {
  }

  /** The preload list for children: 1 and the list, or -1. */
  method ChildPreload(preload: Option<string>, env: Environment, heap: Heap) returns (result: int, filtered: Option<string>)
    modifies heap
    ensures result == 1 || result == -1
    ensures result == 1 ==> Manifest(preload, env.vars) && filtered == Some(Inherited(preload.value, env.vars))
    ensures result == -1 ==> filtered == None && (heap.exhausted || !Manifest(preload, env.vars))
    ensures old(heap.exhausted) ==> heap.exhausted
    ensures old(heap.left) >= 3 ==> heap.exhausted == old(heap.exhausted)
    ensures heap.left == old(heap.left) - if result == 1 then 1 else 0
  {
    hide Token, Tokens, Join, Excluding, RemovedAll, AllToken;
    var probe := env.Get(ProbeToken).GetOr(DEFAULT_PROBE);
    if probe == PIXMAN {
      return -1, None;
    }
    result, filtered := WithoutProbe(preload, Some(probe), heap);
    if result != 1 {
      return -1, None;
    }
    DiagnosticsAreTokens();
    ChildList(preload.value, probe, Tokens(env.Get(ScopedPreloads).GetOr("")));
    var ok, list := RemoveList(filtered.value, Some(Join(DIAGNOSTICS)), heap);
    if ok {
      ok, list := RemoveList(list, env.Get(ScopedPreloads), heap);
    }
    if !ok {
      heap.Release();
      return -1, None;
    }
    filtered := Some(list);
  }

  /** The three removals together. */
  lemma ChildList(preload: string, probe: string, extra: seq<string>)
    requires probe in Tokens(preload)
    ensures RemovedAll(RemovedAll(Removed(preload, probe), DIAGNOSTICS), extra) ==
      Join(Excluding(Tokens(preload), {probe} + (set t <- DIAGNOSTICS) + (set t <- extra)))
  {
    hide Token, Join;
    var ts := Tokens(preload);
    AllTokens(preload, 0);
    var kept := Excluding(ts, {probe});
    ExcludingTokens(ts, {probe});
    RemovedFromJoin(kept, DIAGNOSTICS);
    var less := Excluding(kept, set t <- DIAGNOSTICS);
    ExcludingTokens(kept, set t <- DIAGNOSTICS);
    RemovedFromJoin(less, extra);
    ExcludingTwice(kept, set t <- DIAGNOSTICS, set t <- extra);
    ExcludingTwice(ts, {probe}, (set t <- DIAGNOSTICS) + (set t <- extra));
    assert {probe} + ((set t <- DIAGNOSTICS) + (set t <- extra)) == {probe} + (set t <- DIAGNOSTICS) + (set t <- extra);
  }

  /** What children inherit: the tokens that are not to go, in order, with duplicates, and always the production code. */
  lemma InheritedTokens(preload: string, vars: Variables)
    requires Manifest(Some(preload), vars)
    ensures Tokens(Inherited(preload, vars)) == Excluding(Tokens(preload), Gone(vars))
    ensures Probe(vars) !in Tokens(Inherited(preload, vars))
    ensures multiset(Tokens(Inherited(preload, vars)))[PIXMAN] == multiset(Tokens(preload))[PIXMAN]
    ensures forall t :: t in Tokens(Inherited(preload, vars)) <==>
      t in Tokens(preload) && t != Probe(vars) && !DiagnosticName(t) && t !in Extras(vars)
  {
    hide Token, Tokens, Join, DiagnosticName;
    forall t ensures t in Excluding(Tokens(preload), Gone(vars)) <==>
      t in Tokens(preload) && t != Probe(vars) && !DiagnosticName(t) && t !in Extras(vars)
    {
      ExcludingMembers(Tokens(preload), Gone(vars), t);
      DiagnosticNames(t);
      assert t in Excluding(Tokens(preload), Gone(vars)) <==> multiset(Excluding(Tokens(preload), Gone(vars)))[t] > 0;
    }
    AllPreload(preload);
    ExcludingTokens(Tokens(preload), Gone(vars));
    TokensOfJoin(Excluding(Tokens(preload), Gone(vars)));
    ExcludingMembers(Tokens(preload), Gone(vars), Probe(vars));
    ExcludingMembers(Tokens(preload), Gone(vars), PIXMAN);
    DiagnosticsAreTokens();
  }

  lemma AllPreload(s: string)
    ensures AllToken(Tokens(s))
  {
    AllTokens(s, 0);
  }

  // ---- before and after exec ----

  /** Before exec: check the manifest and leave this process's identifier for the probe to find. */
  method PrepareScope(preload: Option<string>, env: Environment, pid: nat, heap: Heap) returns (result: int)
    modifies env`vars, heap
    ensures result == 0 <==> !Requested(old(env.vars))
    ensures result == 1 ==> Requested(old(env.vars)) && Manifest(preload, old(env.vars))
    ensures result == -1 ==> heap.exhausted || env.refuses || !Manifest(preload, old(env.vars))
    ensures result == 0 || result == 1 || result == -1
    ensures env.vars == if result == 1 then old(env.vars)[ScopePid := Decimals.Printed(pid)] else old(env.vars)
    ensures (old(heap.exhausted) ==> heap.exhausted) && (old(heap.left) >= 3 ==> heap.exhausted == old(heap.exhausted))
    ensures heap.left == old(heap.left)
  {
    if env.Get(Latency) != Some("1") {
      return 0;
    }
    var child, filtered := ChildPreload(preload, env, heap);
    if child != 1 {
      return -1;
    }
    heap.Release();
    var ok := env.Set(ScopePid, Decimals.Printed(pid));
    return if ok then 1 else -1;
  }

  /** After exec, in the probe's constructor: only in the designated process, replace the list children inherit. */
  method ActivateScope(env: Environment, pid: nat, heap: Heap) returns (result: int)
    modifies env`vars, heap
    ensures !Requested(old(env.vars)) || Lookup(old(env.vars), ScopePid) != Some(Decimals.Printed(pid)) ==> result == 0
    ensures result == 0 || result == -1 ==> env.vars == old(env.vars)
    ensures result == -1 ==>
      heap.exhausted || env.refuses || !Manifest(Lookup(old(env.vars), LdPreload), old(env.vars))
    ensures result == 0 || result == 1 || result == -1
    ensures result == 0 ==> !Requested(old(env.vars)) || Lookup(old(env.vars), ScopePid) != Some(Decimals.Printed(pid))
    ensures result == 1 ==>
      var vars := old(env.vars);
      && Manifest(Lookup(vars, LdPreload), vars)
      && env.vars == var left := Inherited(vars[LdPreload], vars);
                     if left == "" then vars - {LdPreload} else vars[LdPreload := left]
    ensures (old(heap.exhausted) ==> heap.exhausted) && (old(heap.left) >= 3 ==> heap.exhausted == old(heap.exhausted))
  {
    if env.Get(Latency) != Some("1") {
      return 0;
    }
    var designated := env.Get(ScopePid);
    if designated.None? || designated.value != Decimals.Printed(pid) {
      return 0;
    }
    var child, filtered := ChildPreload(env.Get(LdPreload), env, heap);
    if child != 1 {
      return -1;
    }
    var ok;
    if filtered.value != "" {
      ok := env.Set(LdPreload, filtered.value);
    } else {
      ok := env.Unset(LdPreload);
    }
    heap.Release();
    return if ok then 1 else -1;
  }

  /** The launcher up to its exec: prepare, then hand the preload list over under its real name. */
  method LaunchScoped(env: Environment, pid: nat, heap: Heap) returns (ok: bool)
    modifies env`vars, heap
    ensures ok ==> var vars := old(env.vars);
      && Launch in vars
      && (Requested(vars) ==> Manifest(Some(vars[Launch]), vars))
      && env.vars == (if Requested(vars) then vars[ScopePid := Decimals.Printed(pid)] else vars)[LdPreload := vars[Launch]] - {Launch}
    ensures ok ==> !env.refuses
    ensures !ok ==> var vars := old(env.vars);
      heap.exhausted || env.refuses || Launch !in vars || (Requested(vars) && !Manifest(Some(vars[Launch]), vars))
    ensures (old(heap.exhausted) ==> heap.exhausted) && (old(heap.left) >= 4 ==> heap.exhausted == old(heap.exhausted))
    ensures heap.left == old(heap.left)
  {
    hide Token, Tokens, Manifest;
    if env.Get(Launch).None? {
      return false;
    }
    var copied := heap.Allocate();
    if !copied {
      return false;
    }
    var preload := env.vars[Launch];
    var result := PrepareScope(Some(preload), env, pid, heap);
    heap.Release();
    if result < 0 {
      return false;
    }
    ok := env.Set(LdPreload, preload);
    if ok {
      ok := env.Unset(Launch);
    }
  }

  /**
   Launcher and probe together, in one process that exec preserves, with memory to spare: once the
   launcher has agreed, the probe's constructor succeeds, children inherit a list without the probe and
   the diagnostics but with all production code, and a child of another process identifier that runs
   the constructor again changes nothing.
   */
  method TwoPhases(env: Environment, pid: nat, child: nat, heap: Heap)
      returns (launched: bool, activated: int, inChild: int)
    requires Requested(env.vars) && heap.left >= 4 && !heap.exhausted && child != pid
    modifies env`vars, heap
    ensures launched ==> activated == 1 && inChild == 0
    ensures launched ==> var vars := old(env.vars);
      && Launch in vars && Probe(vars) in Tokens(vars[Launch])
      && var left := Tokens(Lookup(env.vars, LdPreload).GetOr(""));
         && left == Excluding(Tokens(vars[Launch]), Gone(vars)) && Probe(vars) !in left
         && multiset(left)[PIXMAN] == multiset(Tokens(vars[Launch]))[PIXMAN]
         && forall t :: t in left <==>
              t in Tokens(vars[Launch]) && t != Probe(vars) && !DiagnosticName(t) && t !in Extras(vars)
    ensures launched ==> env.vars - {LdPreload} == old(env.vars)[ScopePid := Decimals.Printed(pid)] - {Launch, LdPreload}
  {
    hide Tokens, Join, Excluding, Token, DiagnosticName;
    activated, inChild := 0, 0;
    launched := LaunchScoped(env, pid, heap);
    if !launched {
      return;
    }
    ghost var vars, handed := old(env.vars), env.vars;
    SameScope(vars, handed, pid);
    InheritedTokens(vars[Launch], vars);
    activated := ActivateScope(env, pid, heap);
    if child != pid && Decimals.Printed(child) == Decimals.Printed(pid) {
      Decimals.PrintedApart(child, pid);
    }
    inChild := ActivateScope(env, child, heap);
  }

  /** Handing the list over changes nothing the scope depends on. */
  lemma SameScope(vars: Variables, handed: Variables, pid: nat)
    requires Launch in vars && Manifest(Some(vars[Launch]), vars)
    requires handed == vars[ScopePid := Decimals.Printed(pid)][LdPreload := vars[Launch]] - {Launch}
    ensures Probe(handed) == Probe(vars) && Gone(handed) == Gone(vars) && Manifest(Lookup(handed, LdPreload), handed)
    ensures Inherited(vars[Launch], handed) == Inherited(vars[Launch], vars)
    ensures Lookup(handed, ScopePid) == Some(Decimals.Printed(pid)) && Requested(handed) == Requested(vars)
  {
    hide Tokens, Join, Excluding, Token;
  }
}
