/**
 normalize_slug as its chain of rewrites, and as what it amounts to: the maximal runs of slug
 characters in the lowercased input, joined by single hyphens.
 */
module Slugs {
  import opened Common

  predicate IsSlugChar(c: char) {
    'a' <= c <= 'z' || '0' <= c <= '9'
  }

  predicate IsHyphen(c: char) {
    c == '-'
  }

  /** Python's per-character lowercasing and whitespace test. */
  datatype Text = Text(lower: char -> string, isSpace: char -> bool)

  /** The facts about them the result rests on. */
  ghost predicate Sane(t: Text) {
    && (forall c :: IsSlugChar(c) || IsHyphen(c) ==> t.lower(c) == [c] && !t.isSpace(c))
    && (forall c, i :: t.isSpace(c) && 0 <= i < |t.lower(c)| ==> !IsSlugChar(t.lower(c)[i]))
  }

  // ----- the rewrites -----

  function StripLeft(s: string, p: char -> bool): string {
    if s != "" && p(s[0]) then StripLeft(s[1..], p) else s
  }

  function StripRight(s: string, p: char -> bool): string {
    if s != "" && p(s[|s| - 1]) then StripRight(s[..|s| - 1], p) else s
  }

  function Strip(s: string, p: char -> bool): string {
    StripRight(StripLeft(s, p), p)
  }

  function Lower(t: Text, s: string): string {
    if s == "" then "" else t.lower(s[0]) + Lower(t, s[1..])
  }

  function ReplaceSpaces(s: string): (r: string)
    ensures |r| == |s|
  {
    seq(|s|, i requires 0 <= i < |s| => if s[i] == ' ' then '-' else s[i])
  }

  /** [^a-z0-9-] becomes a hyphen. */
  function ReplaceInvalid(s: string): (r: string)
    ensures |r| == |s|
  {
    seq(|s|, i requires 0 <= i < |s| => if IsSlugChar(s[i]) || IsHyphen(s[i]) then s[i] else '-')
  }

  /** -+ becomes one hyphen. */
  function Collapse(s: string): string {
    if |s| < 2 then s
    else if IsHyphen(s[0]) && IsHyphen(s[1]) then Collapse(s[1..])
    else [s[0]] + Collapse(s[1..])
  }

  /** None stands for the validation error. */
  function NormalizeSlug(t: Text, raw: string): Option<string> {
    var slug := ReplaceSpaces(Lower(t, Strip(raw, t.isSpace)));
    var clean := Strip(Collapse(ReplaceInvalid(slug)), IsHyphen);
    if clean == "" || exists i :: 0 <= i < |clean| && !IsSlugChar(clean[i]) && !IsHyphen(clean[i])
    then None else Some(clean)
  }

  // ----- what it amounts to -----

  /** The length of the longest prefix of slug characters. */
  function RunLength(s: string): (n: nat)
    ensures n <= |s|
    ensures forall i :: 0 <= i < n ==> IsSlugChar(s[i])
    ensures n < |s| ==> !IsSlugChar(s[n])
  {
    if s != "" && IsSlugChar(s[0]) then 1 + RunLength(s[1..]) else 0
  }

  /** The maximal runs of slug characters, in order. */
  function Runs(s: string): seq<string>
    decreases |s|
  {
    if s == "" then []
    else if RunLength(s) == 0 then Runs(s[1..])
    else [s[..RunLength(s)]] + Runs(s[RunLength(s)..])
  }

  function Join(parts: seq<string>): string {
    if parts == [] then "" else if |parts| == 1 then parts[0] else parts[0] + "-" + Join(parts[1..])
  }

  ghost predicate NoSlugChar(s: string) {
    forall i :: 0 <= i < |s| ==> !IsSlugChar(s[i])
  }

  ghost predicate AllSlugChars(s: string) {
    forall i :: 0 <= i < |s| ==> IsSlugChar(s[i])
  }

  // ----- runs ignore everything between them -----

  lemma RunLengthIs(s: string, n: nat)
    requires n <= |s| && (forall i :: 0 <= i < n ==> IsSlugChar(s[i])) && (n < |s| ==> !IsSlugChar(s[n]))
    ensures RunLength(s) == n
  {
  }

  lemma {:induction false} NoRuns(s: string)
    requires NoSlugChar(s)
    ensures Runs(s) == []
  {
    if s != "" {
      NoRuns(s[1..]);
    }
  }

  lemma {:induction false} RunsSkipLeft(x: string, y: string)
    requires NoSlugChar(x)
    ensures Runs(x + y) == Runs(y)
  {
    if x == "" {
      assert x + y == y;
    } else {
      assert (x + y)[0] == x[0] && (x + y)[1..] == x[1..] + y;
      RunsSkipLeft(x[1..], y);
    }
  }

  lemma {:induction false} RunsSkipRight(y: string, x: string)
    requires NoSlugChar(x)
    ensures Runs(y + x) == Runs(y)
    decreases |y|
  {
    if y == "" {
      assert y + x == x;
      NoRuns(x);
    } else {
      var n := RunLength(y);
      assert (y + x)[..n] == y[..n];
      assert n < |y| ==> (y + x)[n] == y[n];
      RunLengthIs(y + x, n);
      if n == 0 {
        assert (y + x)[1..] == y[1..] + x;
        RunsSkipRight(y[1..], x);
      } else {
        assert (y + x)[n..] == y[n..] + x;
        RunsSkipRight(y[n..], x);
      }
    }
  }

  lemma {:induction false} RunsOfReplaced(s: string, r: string)
    requires |s| == |r|
    requires forall i :: 0 <= i < |s| ==> if IsSlugChar(s[i]) then r[i] == s[i] else !IsSlugChar(r[i])
    ensures Runs(r) == Runs(s)
    decreases |s|
  {
    if s != "" {
      var n := RunLength(s);
      RunLengthIs(r, n);
      if n == 0 {
        RunsOfReplaced(s[1..], r[1..]);
      } else {
        assert r[..n] == s[..n];
        RunsOfReplaced(s[n..], r[n..]);
      }
    }
  }

  lemma {:induction false} LowerConcat(t: Text, x: string, y: string)
    ensures Lower(t, x + y) == Lower(t, x) + Lower(t, y)
  {
    if x == "" {
      assert x + y == y;
    } else {
      assert (x + y)[1..] == x[1..] + y;
      LowerConcat(t, x[1..], y);
    }
  }

  lemma {:induction false} LowerOfSpaces(t: Text, s: string)
    requires Sane(t) && forall i :: 0 <= i < |s| ==> t.isSpace(s[i])
    ensures NoSlugChar(Lower(t, s))
  {
    if s != "" {
      LowerOfSpaces(t, s[1..]);
    }
  }

  lemma {:induction false} LeftPart(s: string, p: char -> bool) returns (cut: string)
    ensures s == cut + StripLeft(s, p)
    ensures forall i :: 0 <= i < |cut| ==> p(cut[i])
  {
    cut := "";
    if s != "" && p(s[0]) {
      var rest := LeftPart(s[1..], p);
      cut := [s[0]] + rest;
    }
  }

  lemma {:induction false} RightPart(s: string, p: char -> bool) returns (cut: string)
    ensures s == StripRight(s, p) + cut
    ensures forall i :: 0 <= i < |cut| ==> p(cut[i])
  {
    cut := "";
    if s != "" && p(s[|s| - 1]) {
      var rest := RightPart(s[..|s| - 1], p);
      cut := rest + [s[|s| - 1]];
    }
  }

  lemma RunsOfStripped(t: Text, raw: string)
    requires Sane(t)
    ensures Runs(Lower(t, Strip(raw, t.isSpace))) == Runs(Lower(t, raw))
  {
    var left := LeftPart(raw, t.isSpace);
    var rest := StripLeft(raw, t.isSpace);
    LowerConcat(t, left, rest);
    LowerOfSpaces(t, left);
    RunsSkipLeft(Lower(t, left), Lower(t, rest));
    var right := RightPart(rest, t.isSpace);
    LowerConcat(t, StripRight(rest, t.isSpace), right);
    LowerOfSpaces(t, right);
    RunsSkipRight(Lower(t, StripRight(rest, t.isSpace)), Lower(t, right));
  }

  // ----- collapsing and trimming hyphens is joining runs -----

  ghost predicate Clean(s: string) {
    forall i :: 0 <= i < |s| ==> IsSlugChar(s[i]) || IsHyphen(s[i])
  }

  lemma {:induction false} CollapseSkipsHyphens(s: string)
    ensures s != "" && IsHyphen(s[0]) ==> Collapse(s) == "-" + Collapse(StripLeft(s, IsHyphen))
    ensures StripLeft(Collapse(s), IsHyphen) == Collapse(StripLeft(s, IsHyphen))
  {
    if s != "" && IsHyphen(s[0]) {
      CollapseSkipsHyphens(s[1..]);
      assert ("-" + Collapse(StripLeft(s, IsHyphen)))[1..] == Collapse(StripLeft(s, IsHyphen));
      NotStripped(s);
      FirstOfCollapse(StripLeft(s, IsHyphen));
    } else {
      FirstOfCollapse(s);
    }
  }

  lemma FirstOfCollapse(s: string)
    requires s != "" ==> !IsHyphen(s[0])
    ensures s != "" ==> Collapse(s) != "" && Collapse(s)[0] == s[0]
  {
  }

  lemma {:induction false} NotStripped(s: string)
    ensures StripLeft(s, IsHyphen) != "" ==> !IsHyphen(StripLeft(s, IsHyphen)[0])
  {
    if s != "" && IsHyphen(s[0]) {
      NotStripped(s[1..]);
    }
  }

  lemma {:induction false} CollapseKeepsRun(run: string, rest: string)
    requires AllSlugChars(run)
    ensures Collapse(run + rest) == run + Collapse(rest)
  {
    if run == "" {
      assert run + rest == rest;
    } else {
      assert (run + rest)[1..] == run[1..] + rest;
      CollapseKeepsRun(run[1..], rest);
      assert [run[0]] + (run[1..] + Collapse(rest)) == run + Collapse(rest);
      if |run + rest| < 2 {
        assert run[1..] == "" && rest == "";
      }
    }
  }

  lemma {:induction false} StripRightConcat(x: string, y: string)
    requires y != "" && StripRight(y, IsHyphen) != ""
    ensures StripRight(x + y, IsHyphen) == x + StripRight(y, IsHyphen)
    decreases |y|
  {
    assert (x + y)[|x + y| - 1] == y[|y| - 1];
    if IsHyphen(y[|y| - 1]) {
      assert (x + y)[..|x + y| - 1] == x + y[..|y| - 1];
      StripRightConcat(x, y[..|y| - 1]);
    }
  }

  /** The last two rewrites, on a string that begins with a slug character. */
  lemma {:induction false} TrimmedCollapseIsJoin(s: string)
    requires Clean(s) && (s != "" ==> IsSlugChar(s[0]))
    ensures StripRight(Collapse(s), IsHyphen) == Join(Runs(s))
    ensures s != "" ==> Join(Runs(s)) != ""
    decreases |s|
  {
    if s != "" {
      var n := RunLength(s);
      var run, rest := s[..n], s[n..];
      assert s == run + rest;
      CollapseKeepsRun(run, rest);
      if rest == "" {
        assert run + "" == run;
        assert Runs(s) == [run];
      } else {
        CollapseSkipsHyphens(rest);
        NotStripped(rest);
        var cut := LeftPart(rest, IsHyphen);
        var next := StripLeft(rest, IsHyphen);
        assert |next| < |s|;
        RunsSkipLeft(cut, next);
        SuffixClean(rest, cut, next);
        TrimmedCollapseIsJoin(next);
        FirstOfCollapse(next);
        JoinStep(run, next, Collapse(next), Runs(next));
      }
    }
  }

  lemma SuffixClean(s: string, cut: string, next: string)
    requires Clean(s) && s == cut + next
    ensures Clean(next)
  {
    forall i | 0 <= i < |next|
      ensures IsSlugChar(next[i]) || IsHyphen(next[i])
    {
      assert next[i] == s[|cut| + i];
    }
  }

  lemma LoneRun(run: string)
    requires run != "" && AllSlugChars(run)
    ensures StripRight(run + "-", IsHyphen) == run
  {
    assert (run + "-")[..|run|] == run;
    assert IsSlugChar(run[|run| - 1]);
  }

  lemma JoinCons(run: string, runs: seq<string>)
    requires runs != []
    ensures Join([run] + runs) == run + "-" + Join(runs)
  {
    assert ([run] + runs)[1..] == runs;
  }

  lemma StripBehindHyphen(run: string, x: string)
    requires x != "" && StripRight(x, IsHyphen) != ""
    ensures StripRight(run + ("-" + x), IsHyphen) == run + "-" + StripRight(x, IsHyphen)
  {
    assert run + ("-" + x) == (run + "-") + x;
    StripRightConcat(run + "-", x);
  }

  lemma JoinStep(run: string, next: string, collapsed: string, runs: seq<string>)
    requires run != "" && AllSlugChars(run)
    requires if next == "" then collapsed == "" && runs == [] else collapsed != "" && runs != [] && Join(runs) != ""
    requires StripRight(collapsed, IsHyphen) == Join(runs)
    ensures StripRight(run + ("-" + collapsed), IsHyphen) == Join([run] + runs)
  {
    if next == "" {
      assert "-" + collapsed == "-";
      LoneRun(run);
    } else {
      StripBehindHyphen(run, collapsed);
      JoinCons(run, runs);
    }
  }

  lemma {:induction false} StripLeftKeepsRuns(s: string)
    ensures Runs(StripLeft(s, IsHyphen)) == Runs(s)
  {
    if s != "" && IsHyphen(s[0]) {
      StripLeftKeepsRuns(s[1..]);
    }
  }

  lemma {:induction false} JoinIsClean(parts: seq<string>)
    requires forall k :: 0 <= k < |parts| ==> AllSlugChars(parts[k])
    ensures Clean(Join(parts))
  {
    if |parts| > 1 {
      JoinIsClean(parts[1..]);
    }
  }

  lemma {:induction false} RunsAreRuns(s: string)
    ensures forall k :: 0 <= k < |Runs(s)| ==> Runs(s)[k] != "" && AllSlugChars(Runs(s)[k])
    decreases |s|
  {
    if s != "" {
      RunsAreRuns(if RunLength(s) == 0 then s[1..] else s[RunLength(s)..]);
    }
  }

  lemma CollapsedAndStripped(s: string)
    requires Clean(s)
    ensures Strip(Collapse(s), IsHyphen) == Join(Runs(s))
  {
    var start := StripLeft(s, IsHyphen);
    var cut := LeftPart(s, IsHyphen);
    SuffixClean(s, cut, start);
    NotStripped(s);
    StripLeftKeepsRuns(s);
    CollapseSkipsHyphens(s);
    TrimmedCollapseIsJoin(start);
  }

  lemma RewrittenRuns(t: Text, raw: string)
    requires Sane(t)
    ensures Runs(ReplaceInvalid(ReplaceSpaces(Lower(t, Strip(raw, t.isSpace))))) == Runs(Lower(t, raw))
  {
    var lowered := Lower(t, Strip(raw, t.isSpace));
    RunsOfStripped(t, raw);
    RunsOfReplaced(lowered, ReplaceSpaces(lowered));
    RunsOfReplaced(ReplaceSpaces(lowered), ReplaceInvalid(ReplaceSpaces(lowered)));
  }

  lemma JoinOfRuns(s: string)
    ensures Clean(Join(Runs(s)))
    ensures Join(Runs(s)) == "" <==> Runs(s) == []
  {
    RunsAreRuns(s);
    JoinIsClean(Runs(s));
  }

  /** normalize_slug is the maximal runs joined by hyphens, and fails exactly when there are none. */
  lemma SlugIsJoinedRuns(t: Text, raw: string)
    requires Sane(t)
    ensures var runs := Runs(Lower(t, raw));
            NormalizeSlug(t, raw) == if runs == [] then None else Some(Join(runs))
  {
    var replaced := ReplaceInvalid(ReplaceSpaces(Lower(t, Strip(raw, t.isSpace))));
    assert Clean(replaced);
    CollapsedAndStripped(replaced);
    RewrittenRuns(t, raw);
    JoinOfRuns(Lower(t, raw));
  }

  lemma {:induction false} RunsOfJoin(parts: seq<string>)
    requires forall k :: 0 <= k < |parts| ==> parts[k] != "" && AllSlugChars(parts[k])
    ensures Runs(Join(parts)) == parts
  {
    if parts != [] {
      var s, n := Join(parts), |parts[0]|;
      assert s[..n] == parts[0];
      RunLengthIs(s, n);
      if |parts| == 1 {
        assert s[n..] == "";
      } else {
        RunsOfJoin(parts[1..]);
        assert s[n..] == "-" + Join(parts[1..]);
        RunsSkipLeft("-", Join(parts[1..]));
      }
    }
  }

  lemma {:induction false} LowerOfClean(t: Text, s: string)
    requires Sane(t) && Clean(s)
    ensures Lower(t, s) == s
  {
    if s != "" {
      LowerOfClean(t, s[1..]);
    }
  }

  /** A slug is its own slug. */
  lemma SlugIsIdempotent(t: Text, raw: string)
    requires Sane(t) && NormalizeSlug(t, raw).Some?
    ensures NormalizeSlug(t, NormalizeSlug(t, raw).value) == NormalizeSlug(t, raw)
  {
    var runs := Runs(Lower(t, raw));
    SlugIsJoinedRuns(t, raw);
    SlugIsJoinedRuns(t, Join(runs));
    RunsAreRuns(Lower(t, raw));
    JoinIsClean(runs);
    LowerOfClean(t, Join(runs));
    RunsOfJoin(runs);
  }
}
