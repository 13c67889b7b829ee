/**
 Preload lists: the tokens of a text between separators, and the text that joins tokens with colons.
 */
module PreloadTokens {

  /** What the loader treats as a separator: a colon or white space. Nothing is quoted or escaped. */
  predicate Separator(c: char) { c == ':' || c == ' ' || '\t' <= c <= '\r' }

  /** The first place at or after `p` that is no separator, or the end. */
  function SkipSeparators(s: string, p: nat): (q: nat)
    requires p <= |s|
    ensures p <= q <= |s| && (q < |s| ==> !Separator(s[q]))
    ensures forall i :: p <= i < q ==> Separator(s[i])
    decreases |s| - p
  {
    if p < |s| && Separator(s[p]) then SkipSeparators(s, p + 1) else p
  }

  /** The first place at or after `p` that is a separator, or the end. */
  function SkipToken(s: string, p: nat): (q: nat)
    requires p <= |s|
    ensures p <= q <= |s| && (q < |s| ==> Separator(s[q]))
    ensures forall i :: p <= i < q ==> !Separator(s[i])
    decreases |s| - p
  {
    if p < |s| && !Separator(s[p]) then SkipToken(s, p + 1) else p
  }

  /** The tokens from `p` on, in order, with duplicates. */
  function TokensFrom(s: string, p: nat): (ts: seq<string>)
    requires p <= |s|
    decreases |s| - p
  {
    var start := SkipSeparators(s, p);
    if start == |s| then []
    else
      var end := SkipToken(s, start);
      [s[start..end]] + TokensFrom(s, end)
  }

  function Tokens(s: string): seq<string> { TokensFrom(s, 0) }

  /** A text that can be a token. */
  predicate Token(t: string) { t != "" && forall i :: 0 <= i < |t| ==> !Separator(t[i]) }

  /** Place `i` to `j` of a text is a maximal run without separators. */
  ghost predicate MaximalRun(s: string, i: nat, j: nat) {
    && i < j <= |s| && (forall k :: i <= k < j ==> !Separator(s[k]))
    && (i == 0 || Separator(s[i - 1])) && (j == |s| || Separator(s[j]))
  }

  /** Token `t` stands at places `i` to `j`. */
  ghost predicate StandsAt(s: string, t: string, i: nat, j: nat) {
    MaximalRun(s, i, j) && s[i..j] == t
  }

  /** The tokens are the maximal runs without separators. */
  lemma {:induction false} TokensAreRuns(s: string, p: nat, t: string)
    requires p <= |s| && (p == 0 || p == |s| || Separator(s[p]))
    ensures t in TokensFrom(s, p) <==> exists i: nat, j: nat :: p <= i && StandsAt(s, t, i, j)
    decreases |s| - p
  {
    hide Separator;
    var start := SkipSeparators(s, p);
    if start == |s| {
      forall i: nat, j: nat | p <= i < j <= |s| ensures !MaximalRun(s, i, j) {
        assert Separator(s[i]);
      }
    } else {
      var end := SkipToken(s, start);
      FirstRun(s, p);
      TokensAreRuns(s, end, t);
      forall i: nat, j: nat | p <= i && MaximalRun(s, i, j) ensures (i == start && j == end) || end <= i {
        RunsApart(s, p, i, j);
      }
      if t == s[start..end] {
        assert StandsAt(s, t, start, end);
      }
    }
  }

  lemma FirstRun(s: string, p: nat)
    requires p <= |s| && (p == 0 || p == |s| || Separator(s[p])) && SkipSeparators(s, p) < |s|
    ensures MaximalRun(s, SkipSeparators(s, p), SkipToken(s, SkipSeparators(s, p)))
  {
  }

  lemma RunsApart(s: string, p: nat, i: nat, j: nat)
    requires p <= i && MaximalRun(s, i, j) && SkipSeparators(s, p) < |s|
    ensures var start := SkipSeparators(s, p);
      (i == start && j == SkipToken(s, start)) || SkipToken(s, start) <= i
  {
    hide Separator;
    var start := SkipSeparators(s, p);
    var end := SkipToken(s, start);
    var at := s[i];
    var before := if i > 0 then s[i - 1] else at;
  }

  /** Where the tokens from `p` on stand. */
  function Places(s: string, p: nat): (ps: seq<(nat, nat)>)
    requires p <= |s|
    decreases |s| - p
  {
    var start := SkipSeparators(s, p);
    if start == |s| then []
    else
      var end := SkipToken(s, start);
      [(start, end)] + Places(s, end)
  }

  /** Every maximal run from `p` on is one of the places. */
  lemma {:induction false} AllPlaces(s: string, p: nat, i: nat, j: nat)
    requires p <= |s| && p <= i && MaximalRun(s, i, j) && (p == 0 || p == |s| || Separator(s[p]))
    ensures (i, j) in Places(s, p)
    decreases |s| - p
  {
    hide Separator, MaximalRun;
    var start := SkipSeparators(s, p);
    SomeRun(s, p, i, j);
    RunsApart(s, p, i, j);
    var end := SkipToken(s, start);
    if end <= i {
      AllPlaces(s, end, i, j);
    }
  }

  lemma SomeRun(s: string, p: nat, i: nat, j: nat)
    requires p <= i && MaximalRun(s, i, j)
    ensures SkipSeparators(s, p) < |s| && i < |s|
  {
    var at := s[i];
  }

  /** Token for token, the places are where the tokens stand. */
  lemma {:induction false} TokensStand(s: string, p: nat)
    requires p <= |s| && (p == 0 || p == |s| || Separator(s[p]))
    ensures |TokensFrom(s, p)| == |Places(s, p)|
    ensures forall k :: 0 <= k < |Places(s, p)| ==> StandsAt(s, TokensFrom(s, p)[k], Places(s, p)[k].0, Places(s, p)[k].1)
    decreases |s| - p
  {
    hide Separator, MaximalRun;
    var start := SkipSeparators(s, p);
    if start < |s| {
      FirstRun(s, p);
      TokensStand(s, SkipToken(s, start));
    }
  }

  /** The places only advance, with a separator between two. */
  lemma {:induction false} PlacesAdvance(s: string, p: nat)
    requires p <= |s| && (p == 0 || p == |s| || Separator(s[p]))
    ensures forall k :: 0 <= k < |Places(s, p)| ==> p <= Places(s, p)[k].0
    ensures forall k :: 0 < k < |Places(s, p)| ==> Places(s, p)[k - 1].1 < Places(s, p)[k].0
    decreases |s| - p
  {
    hide Separator, StandsAt;
    var start := SkipSeparators(s, p);
    if start < |s| {
      var end := SkipToken(s, start);
      PlacesAdvance(s, end);
      TokensStand(s, end);
      if Places(s, end) != [] {
        FirstPlace(s, end);
      }
    }
  }

  lemma FirstPlace(s: string, p: nat)
    requires p <= |s| && (p == |s| || Separator(s[p])) && Places(s, p) != []
    ensures p < Places(s, p)[0].0
  {
  }

  /**
   The tokens are the maximal runs without separators, each once, in the order they stand: one for one
   with their places, which only advance and leave no run out.
   */
  lemma TokensInOrder(s: string)
    ensures var ts, ps := Tokens(s), Places(s, 0);
      && |ts| == |ps|
      && (forall k :: 0 <= k < |ps| ==> StandsAt(s, ts[k], ps[k].0, ps[k].1))
      && (forall k :: 0 < k < |ps| ==> ps[k - 1].1 < ps[k].0)
      && (forall i: nat, j: nat :: MaximalRun(s, i, j) ==> (i, j) in ps)
  {
    hide Separator, MaximalRun, StandsAt, TokensFrom, Places;
    TokensStand(s, 0);
    PlacesAdvance(s, 0);
    forall i: nat, j: nat | MaximalRun(s, i, j) ensures (i, j) in Places(s, 0) {
      AllPlaces(s, 0, i, j);
    }
  }

  lemma {:induction false} AllTokens(s: string, p: nat)
    requires p <= |s|
    ensures forall i :: 0 <= i < |TokensFrom(s, p)| ==> Token(TokensFrom(s, p)[i])
    decreases |s| - p
  {
    var start := SkipSeparators(s, p);
    if start < |s| {
      AllTokens(s, SkipToken(s, start));
    }
  }

  // ---- joining ----

  function Join(ts: seq<string>): string {
    if ts == [] then "" else Add(Join(ts[..|ts| - 1]), ts[|ts| - 1])
  }

  /** One more token: a colon goes before it unless it is the first. */
  function Add(s: string, t: string): string { if s == "" then t else s + ":" + t }

  predicate AllToken(ts: seq<string>) { forall i :: 0 <= i < |ts| ==> Token(ts[i]) }

  /** Joining loses nothing: the tokens of a joined list are the list. */
  lemma {:induction false} TokensOfJoin(ts: seq<string>)
    requires AllToken(ts)
    ensures Tokens(Join(ts)) == ts
  {
    if ts != [] {
      var before, t := ts[..|ts| - 1], ts[|ts| - 1];
      TokensOfJoin(before);
      if Join(before) == "" {
        OneToken(t);
      } else {
        TokensOfAdd(Join(before), t, 0);
      }
    }
  }

  lemma OneToken(t: string)
    requires Token(t)
    ensures Tokens(t) == [t]
  {
    assert !Separator(t[0]);
    assert SkipSeparators(t, 0) == 0 && SkipToken(t, 0) == |t|;
    assert t[0..|t|] == t;
    assert TokensFrom(t, |t|) == [];
  }

  lemma {:induction false} SkipsAlike(s: string, more: string, p: nat)
    requires p <= |s| && more != "" && Separator(more[0])
    ensures SkipSeparators(s, p) < |s| ==> SkipSeparators(s + more, p) == SkipSeparators(s, p)
    ensures SkipToken(s + more, p) == SkipToken(s, p)
    decreases |s| - p
  {
    if p < |s| {
      SkipsAlike(s, more, p + 1);
    }
  }

  lemma {:induction false} SkipsAll(s: string, t: string, p: nat)
    requires p <= |s| && SkipSeparators(s, p) == |s| && Token(t)
    ensures SkipSeparators(s + ":" + t, p) == |s| + 1
    decreases |s| - p
  {
    if p < |s| {
      SkipsAll(s, t, p + 1);
    } else {
      assert (s + ":" + t)[|s|] == ':' && (s + ":" + t)[|s| + 1] == t[0];
    }
  }

  lemma LastToken(s: string, t: string, p: nat)
    requires p <= |s| && Token(t) && SkipSeparators(s, p) == |s|
    ensures TokensFrom(s + ":" + t, p) == [t]
  {
    hide Separator;
    var all := s + ":" + t;
    SkipsAll(s, t, p);
    forall i | |s| + 1 <= i < |all| ensures !Separator(all[i]) {
      assert all[i] == t[i - |s| - 1];
    }
    assert SkipToken(all, |s| + 1) == |all|;
    assert all[|s| + 1..|all|] == t;
    assert TokensFrom(all, |all|) == [];
  }

  lemma {:induction false} TokensOfAdd(s: string, t: string, p: nat)
    requires p <= |s| && Token(t)
    ensures TokensFrom(s + ":" + t, p) == TokensFrom(s, p) + [t]
    decreases |s| - p
  {
    hide Separator, SkipSeparators, SkipToken, Token;
    var all := s + ":" + t;
    var start := SkipSeparators(s, p);
    if start == |s| {
      LastToken(s, t, p);
    } else {
      ColonSkips(s, t, p);
      ColonSkips(s, t, start);
      var end := SkipToken(s, start);
      TokensOfAdd(s, t, end);
      assert all[start..end] == s[start..end];
    }
  }

  lemma ColonSkips(s: string, t: string, p: nat)
    requires p <= |s|
    ensures SkipSeparators(s, p) < |s| ==> SkipSeparators(s + ":" + t, p) == SkipSeparators(s, p)
    ensures SkipToken(s + ":" + t, p) == SkipToken(s, p)
  {
    assert s + ":" + t == s + (":" + t);
    SkipsAlike(s, ":" + t, p);
  }

  // ---- removing ----

  /** The tokens that are not in `gone`, in order, with duplicates. */
  function Excluding(ts: seq<string>, gone: set<string>): seq<string> {
    if ts == [] then [] else Excluding(ts[..|ts| - 1], gone) + if ts[|ts| - 1] in gone then [] else [ts[|ts| - 1]]
  }

  lemma {:induction false} ExcludingParts(a: seq<string>, b: seq<string>, gone: set<string>)
    ensures Excluding(a + b, gone) == Excluding(a, gone) + Excluding(b, gone)
  {
    if b == [] {
      assert a + b == a;
    } else {
      ExcludingParts(a, b[..|b| - 1], gone);
      assert (a + b)[..|a + b| - 1] == a + b[..|b| - 1];
    }
  }

  /** What stays is what was there and is not gone, each as often as it was. */
  lemma {:induction false} ExcludingMembers(ts: seq<string>, gone: set<string>, t: string)
    ensures t in Excluding(ts, gone) <==> t in ts && t !in gone
    ensures multiset(Excluding(ts, gone))[t] == if t in gone then 0 else multiset(ts)[t]
  {
    if ts != [] {
      var before, last := ts[..|ts| - 1], ts[|ts| - 1];
      ExcludingMembers(before, gone, t);
      assert ts == before + [last];
    }
  }

  lemma {:induction false} ExcludingTokens(ts: seq<string>, gone: set<string>)
    requires AllToken(ts)
    ensures AllToken(Excluding(ts, gone))
  {
    hide Token;
    if ts != [] {
      ExcludingTokens(ts[..|ts| - 1], gone);
    }
  }

  /** Removing one set after another removes both, in either order. */
  lemma {:induction false} ExcludingTwice(ts: seq<string>, a: set<string>, b: set<string>)
    ensures Excluding(Excluding(ts, a), b) == Excluding(ts, a + b)
  {
    if ts != [] {
      ExcludingTwice(ts[..|ts| - 1], a, b);
      var last := ts[|ts| - 1];
      ExcludingParts(Excluding(ts[..|ts| - 1], a), if last in a then [] else [last], b);
      assert Excluding([last], b) == if last in b then [] else [last];
    }
  }

  lemma {:induction false} ExcludingNone(ts: seq<string>, gone: set<string>)
    requires forall t :: t in ts ==> t !in gone
    ensures Excluding(ts, gone) == ts
  {
    if ts != [] {
      ExcludingNone(ts[..|ts| - 1], gone);
    }
  }
}
