/** Asterisk matching for access policies: the greedy loop against its meaning. */
module Wildcard {
  import opened Text

  function Stars(pattern: string): nat {
    if pattern == "" then 0 else (if pattern[0] == '*' then 1 else 0) + Stars(pattern[1..])
  }

  /** `pattern` with its asterisks replaced, left to right, by `fills`. */
  function Fill(pattern: string, fills: seq<string>): string
    requires |fills| == Stars(pattern)
  {
    if pattern == "" then ""
    else if pattern[0] == '*' then fills[0] + Fill(pattern[1..], fills[1..])
    else [pattern[0]] + Fill(pattern[1..], fills)
  }

  /** What a pattern means: some choice of replacements produces the value. */
  ghost predicate Matches(pattern: string, value: string) {
    exists fills: seq<string> | |fills| == Stars(pattern) :: Fill(pattern, fills) == value
  }

  // ---- the same meaning on the pieces between the asterisks ----

  /** The pieces `ps` in order, each after its gap. */
  function Spread(ps: seq<string>, gaps: seq<string>): string
    requires |ps| == |gaps|
  {
    if ps == [] then "" else gaps[0] + (ps[0] + Spread(ps[1..], gaps[1..]))
  }

  ghost predicate Gapped(ps: seq<string>, rest: string) {
    exists gaps: seq<string> | |gaps| == |ps| :: Spread(ps, gaps) == rest
  }

  lemma {:induction false} FillSpreads(pattern: string, fills: seq<string>)
    requires |fills| == Stars(pattern)
    ensures var parts := Split(pattern, '*');
            |parts| == |fills| + 1 && Fill(pattern, fills) == parts[0] + Spread(parts[1..], fills)
  {
    if pattern != "" {
      var r := Split(pattern[1..], '*');
      if pattern[0] == '*' {
        FillSpreads(pattern[1..], fills[1..]);
        assert Split(pattern, '*')[1..] == r;
      } else {
        FillSpreads(pattern[1..], fills);
        assert Split(pattern, '*')[1..] == r[1..];
      }
    }
  }

  /** A longer gap in front never hurts. */
  lemma GapAbsorbs(ps: seq<string>, more: string, rest: string)
    requires ps != [] && Gapped(ps, rest)
    ensures Gapped(ps, more + rest)
  {
    var gaps: seq<string> :| |gaps| == |ps| && Spread(ps, gaps) == rest;
    var wider := [more + gaps[0]] + gaps[1..];
    assert Spread(ps, wider) == more + rest;
  }

  lemma SpreadHead(p: string, ps: seq<string>, gap: string, gaps: seq<string>)
    requires |ps| == |gaps|
    ensures Spread([p] + ps, [gap] + gaps) == gap + (p + Spread(ps, gaps))
  {
    assert ([p] + ps)[1..] == ps && ([gap] + gaps)[1..] == gaps;
  }

  lemma SplitFirst(p: string, ps: seq<string>, rest: string) returns (gap: string, tail: string)
    requires Gapped([p] + ps, rest)
    ensures rest == gap + (p + tail) && Gapped(ps, tail)
  {
    var gaps: seq<string> :| |gaps| == |[p] + ps| && Spread([p] + ps, gaps) == rest;
    assert gaps == [gaps[0]] + gaps[1..];
    SpreadHead(p, ps, gaps[0], gaps[1..]);
    gap, tail := gaps[0], Spread(ps, gaps[1..]);
  }

  /** Taking the leftmost occurrence of a middle piece loses no match. */
  lemma LeftmostSuffices(p: string, ps: seq<string>, rest: string)
    requires ps != [] && Gapped([p] + ps, rest)
    ensures Index(rest, p) >= 0 && Gapped(ps, rest[Index(rest, p) + |p|..])
  {
    var gap, tail := SplitFirst(p, ps, rest);
    var i, n := Index(rest, p), |gap| + |p|;
    assert OccursAt(rest, p, |gap|) && rest[n..] == tail;
    assert rest[i + |p|..] == rest[i + |p|..n] + tail;
    GapAbsorbs(ps, rest[i + |p|..n], tail);
  }

  /** And any occurrence will do in the other direction. */
  lemma OccurrenceExtends(p: string, ps: seq<string>, rest: string, i: nat)
    requires OccursAt(rest, p, i) && Gapped(ps, rest[i + |p|..])
    ensures Gapped([p] + ps, rest)
  {
    var gaps: seq<string> :| |gaps| == |ps| && Spread(ps, gaps) == rest[i + |p|..];
    SpreadHead(p, ps, rest[..i], gaps);
    assert rest == rest[..i] + (p + rest[i + |p|..]);
    assert |[rest[..i]] + gaps| == |[p] + ps|;
  }

  lemma LastPiece(p: string, rest: string)
    ensures Gapped([p], rest) <==> HasSuffix(rest, p)
  {
    if Gapped([p], rest) {
      var gaps: seq<string> :| |gaps| == |[p]| && Spread([p], gaps) == rest;
      assert rest == gaps[0] + (p + Spread([p][1..], gaps[1..])) == gaps[0] + p;
    }
    if HasSuffix(rest, p) {
      assert Spread([p], [rest[..|rest| - |p|]]) == rest;
    }
  }

  /** The meaning of a pattern, on its pieces. */
  lemma MatchesOnParts(pattern: string, value: string)
    ensures var parts := Split(pattern, '*');
            |parts| == Stars(pattern) + 1 &&
            (Matches(pattern, value) <==> parts[0] <= value && Gapped(parts[1..], value[|parts[0]|..]))
  {
    var parts := Split(pattern, '*');
    FillSpreads(pattern, seq(Stars(pattern), _ => ""));
    if Matches(pattern, value) {
      var fills: seq<string> :| |fills| == Stars(pattern) && Fill(pattern, fills) == value;
      FillSpreads(pattern, fills);
      assert value[|parts[0]|..] == Spread(parts[1..], fills);
    }
    if parts[0] <= value && Gapped(parts[1..], value[|parts[0]|..]) {
      var gaps: seq<string> :| |gaps| == |parts[1..]| && Spread(parts[1..], gaps) == value[|parts[0]|..];
      FillSpreads(pattern, gaps);
      assert Fill(pattern, gaps) == value;
    }
  }

  lemma {:induction false} NoStars(pattern: string)
    ensures Stars(pattern) == 0 <==> '*' !in pattern
    ensures Stars(pattern) == 0 ==> Fill(pattern, []) == pattern
  {
    if pattern != "" {
      NoStars(pattern[1..]);
      assert pattern == [pattern[0]] + pattern[1..];
    }
  }

  /** Every pattern matches itself read literally: each asterisk stands for "*". */
  lemma {:induction false} LiteralMatches(pattern: string)
    ensures Fill(pattern, seq(Stars(pattern), _ => "*")) == pattern
  {
    if pattern != "" {
      LiteralMatches(pattern[1..]);
      var fills := seq(Stars(pattern), _ => "*");
      if pattern[0] == '*' { assert fills[1..] == seq(Stars(pattern[1..]), _ => "*"); }
    }
  }

  lemma LoneStar(value: string)
    ensures Matches("*", value)
  {
    assert Stars("*") == 1;
    assert Fill("*", [value]) == value;
  }

  lemma GreedyStep(parts: seq<string>, i: nat, rest: string)
    requires i + 1 < |parts|
    ensures Gapped(parts[i..], rest) <==>
              Index(rest, parts[i]) >= 0 &&
              Gapped(parts[i + 1..], rest[Index(rest, parts[i]) + |parts[i]|..])
    ensures parts[i] == "" ==> Index(rest, parts[i]) == 0
  {
    var p, ps, k := parts[i], parts[i + 1..], Index(rest, parts[i]);
    assert parts[i..] == [p] + ps;
    if Gapped([p] + ps, rest) { LeftmostSuffices(p, ps, rest); }
    if k >= 0 && Gapped(ps, rest[k + |p|..]) { OccurrenceExtends(p, ps, rest, k); }
    assert p == "" ==> OccursAt(rest, p, 0);
  }

  /** What the loop over the middle pieces computes from piece `i` on. */
  predicate Greedy(parts: seq<string>, i: nat, rest: string)
    requires i < |parts|
    decreases |parts| - i
  {
    if i == |parts| - 1 then HasSuffix(rest, parts[i])
    else
      var k := Index(rest, parts[i]);
      k >= 0 && Greedy(parts, i + 1, rest[k + |parts[i]|..])
  }

  lemma {:induction false} GreedyIsGapped(parts: seq<string>, i: nat, rest: string)
    requires i < |parts|
    ensures Greedy(parts, i, rest) <==> Gapped(parts[i..], rest)
    decreases |parts| - i
  {
    if i == |parts| - 1 {
      assert parts[i..] == [parts[i]];
      LastPiece(parts[i], rest);
    } else {
      var k := Index(rest, parts[i]);
      if k < 0 {
        assert !Greedy(parts, i, rest);
        assert !Gapped(parts[i..], rest) by { GreedyStep(parts, i, rest); }
      } else {
        var next := rest[k + |parts[i]|..];
        assert Greedy(parts, i, rest) == Greedy(parts, i + 1, next);
        GreedyIsGapped(parts, i + 1, next);
        assert Gapped(parts[i..], rest) <==> Gapped(parts[i + 1..], next) by { GreedyStep(parts, i, rest); }
      }
    }
  }

  method Match(pattern: string, value: string) returns (ok: bool)
    ensures ok <==> Matches(pattern, value)
  {
    NoStars(pattern);
    if pattern == value || pattern == "*" {
      LiteralMatches(pattern);
      LoneStar(value);
      return true;
    }
    if '*' !in pattern {
      return false;
    }
    MatchesOnParts(pattern, value);
    var parts := Split(pattern, '*');
    var rest := value;
    if parts[0] != "" {
      if !(parts[0] <= rest) { return false; }
      rest := rest[|parts[0]|..];
    }
    GreedyIsGapped(parts, 1, rest);
    ok := MatchRest(parts, rest);
  }

  /** The second half of `Match`: the middle pieces leftmost first, then the last. */
  method MatchRest(parts: seq<string>, value: string) returns (ok: bool)
    requires |parts| >= 2
    ensures ok <==> Greedy(parts, 1, value)
  {
    var rest := value;
    for i := 1 to |parts| - 1
      invariant Greedy(parts, i, rest) == Greedy(parts, 1, value)
    {
      if parts[i] == "" {
        assert OccursAt(rest, parts[i], 0);
        continue;
      }
      var idx := Index(rest, parts[i]);
      if idx < 0 { return false; }
      rest := rest[idx + |parts[i]|..];
    }
    var last := parts[|parts| - 1];
    ok := last == "" || HasSuffix(rest, last);
  }

  method MatchAny(patterns: seq<string>, value: string) returns (ok: bool)
    ensures ok <==> exists p :: p in patterns && Matches(p, value)
  {
    for i := 0 to |patterns|
      invariant forall p :: p in patterns[..i] ==> !Matches(p, value)
    {
      var m := Match(patterns[i], value);
      if m { return true; }
    }
    return false;
  }
}
