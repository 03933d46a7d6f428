/** Host patterns of the SSH configuration (src/remote.rs): a matcher that
    remembers only the last star, against the recursive meaning of patterns. */
module Glob {
  import opened Primitives

  const STAR: byte := 42
  const QUESTION: byte := 63

  /** What a pattern means: a star stands for any bytes, a question mark for one. */
  predicate Matches(p: Bytes, t: Bytes)
    decreases |p| + |t|
  {
    if p == [] then t == []
    else if p[0] == STAR then Matches(p[1..], t) || (t != [] && Matches(p, t[1..]))
    else t != [] && (p[0] == QUESTION || p[0] == t[0]) && Matches(p[1..], t[1..])
  }

  predicate NoStar(t: Bytes) {
    forall k :: 0 <= k < |t| ==> t[k] != STAR
  }

  /** The cursors of the loop. */
  datatype Cursor = Cursor(pi: nat, ti: nat, star: Option<nat>, starMatch: nat)

  ghost predicate WellFormed(p: Bytes, t: Bytes, c: Cursor) {
    && c.pi <= |p| && c.ti <= |t| && c.starMatch <= c.ti
    && (c.star.Some? ==> c.star.value < c.pi && p[c.star.value] == STAR)
    && (c.star.None? ==> c.starMatch == 0)
  }

  /** One iteration: a new cursor, or None when the match is given up. */
  function Step(p: Bytes, t: Bytes, c: Cursor): (next: Option<Cursor>)
    requires WellFormed(p, t, c) && c.ti < |t|
    ensures next.Some? ==> WellFormed(p, t, next.value) && Before(p, t, next.value, c)
  {
    if c.pi < |p| && (p[c.pi] == QUESTION || p[c.pi] == t[c.ti]) then
      Some(c.(pi := c.pi + 1, ti := c.ti + 1))
    else if c.pi < |p| && p[c.pi] == STAR then
      Some(Cursor(c.pi + 1, c.ti, Some(c.pi), c.ti))
    else if c.star.Some? then
      Some(Cursor(c.star.value + 1, c.starMatch + 1, c.star, c.starMatch + 1))
    else None
  }

  function StarRank(c: Cursor): nat {
    if c.star.Some? then c.star.value + 1 else 0
  }

  /** The termination measure: later star, then later star match, then cursors. */
  predicate Before(p: Bytes, t: Bytes, d: Cursor, c: Cursor) {
    || StarRank(d) > StarRank(c)
    || (StarRank(d) == StarRank(c)
        && (d.starMatch > c.starMatch || (d.starMatch == c.starMatch && d.ti > c.ti)))
  }

  /** The whole loop as a function: its verdict from a cursor on. */
  function Run(p: Bytes, t: Bytes, c: Cursor): bool
    requires WellFormed(p, t, c)
    decreases |p| + 1 - StarRank(c), |t| - c.starMatch, |t| - c.ti
  {
    if c.ti == |t| then AllStars(p[c.pi..])
    else
      var next := Step(p, t, c);
      next.Some? && Run(p, t, next.value)
  }

  predicate AllStars(p: Bytes) {
    p == [] || (p[0] == STAR && AllStars(p[1..]))
  }

  function GlobMatch(p: Bytes, t: Bytes): bool {
    Run(p, t, Cursor(0, 0, None, 0))
  }

  // ----- what the cursors mean

  predicate One(pb: byte, tb: byte) {
    pb == QUESTION || pb == tb
  }

  /** Byte by byte, p from a on agrees with t from b on, for n bytes. */
  predicate Aligned(p: Bytes, t: Bytes, a: nat, b: nat, n: nat) {
    && a + n <= |p| && b + n <= |t|
    && forall k :: a <= k < a + n ==> One(p[k], t[b + (k - a)])
  }

  /** Since the last star (or the start) the cursors moved in step. */
  ghost predicate InStep(p: Bytes, t: Bytes, c: Cursor) {
    && WellFormed(p, t, c)
    && c.pi - StarRank(c) == c.ti - c.starMatch
    && c.pi >= StarRank(c)
    && Aligned(p, t, StarRank(c), c.starMatch, c.ti - c.starMatch)
  }

  lemma StepInStep(p: Bytes, t: Bytes, c: Cursor)
    requires InStep(p, t, c) && c.ti < |t| && Step(p, t, c).Some?
    ensures InStep(p, t, Step(p, t, c).value)
  {
  }

  /** What remains to be decided: the whole problem before the first star, the
      problem from the last star on after it. */
  predicate Goal(p: Bytes, t: Bytes, c: Cursor)
    requires WellFormed(p, t, c)
  {
    if c.star.Some? then Matches(p[c.star.value..], t[c.starMatch..]) else Matches(p, t)
  }

  // ----- laws of the meaning

  lemma {:induction false} StarAbsorbs(p: Bytes, t: Bytes, k: nat)
    requires p != [] && p[0] == STAR && k <= |t| && Matches(p, t[k..])
    ensures Matches(p, t)
    decreases k
  {
    if k == 0 {
      assert t[0..] == t;
    } else {
      assert t[1..][k - 1..] == t[k..];
      StarAbsorbs(p, t[1..], k - 1);
    }
  }

  lemma {:induction false} StarSplits(p: Bytes, t: Bytes) returns (k: nat)
    requires p != [] && p[0] == STAR && Matches(p, t)
    ensures k <= |t| && Matches(p[1..], t[k..])
    decreases |t|
  {
    if Matches(p[1..], t) {
      k := 0;
      assert t[0..] == t;
    } else {
      var k' := StarSplits(p, t[1..]);
      k := k' + 1;
      assert t[1..][k'..] == t[k..];
    }
  }

  /** Agreeing bytes in front keep a match, stars in the text included. */
  lemma {:induction false} Prepend(p: Bytes, t: Bytes, a: nat, b: nat, n: nat)
    requires Aligned(p, t, a, b, n) && Matches(p[a + n..], t[b + n..])
    ensures Matches(p[a..], t[b..])
    decreases n
  {
    if n > 0 {
      assert One(p[a], t[b]);
      Prepend(p, t, a + 1, b + 1, n - 1);
      assert p[a..][1..] == p[a + 1..] && t[b..][1..] == t[b + 1..];
    }
  }

  predicate Plain(p: Bytes, a: nat, n: nat) {
    a + n <= |p| && forall j :: a <= j < a + n ==> p[j] != STAR
  }

  /** Pattern bytes other than stars consume one text byte each. */
  lemma {:induction false} Peel(p: Bytes, t: Bytes, a: nat, b: nat, n: nat)
    requires b <= |t| && Plain(p, a, n) && Matches(p[a..], t[b..])
    ensures b + n <= |t| && Aligned(p, t, a, b, n) && Matches(p[a + n..], t[b + n..])
    decreases n
  {
    if n > 0 {
      assert p[a..][0] == p[a] && p[a..][1..] == p[a + 1..];
      assert t[b..] != [] && t[b..][0] == t[b] && t[b..][1..] == t[b + 1..];
      Peel(p, t, a + 1, b + 1, n - 1);
    }
  }

  lemma {:induction false} MatchesEmpty(p: Bytes)
    ensures Matches(p, []) <==> AllStars(p)
  {
    if p != [] {
      MatchesEmpty(p[1..]);
    }
  }

  // ----- soundness, for every text

  lemma {:induction false} SoundFrom(p: Bytes, t: Bytes, c: Cursor)
    requires InStep(p, t, c) && Run(p, t, c)
    ensures Goal(p, t, c)
    decreases |p| + 1 - StarRank(c), |t| - c.starMatch, |t| - c.ti
  {
    if c.ti == |t| {
      MatchesEmpty(p[c.pi..]);
      SoundHere(p, t, c);
    } else {
      var d := Step(p, t, c).value;
      StepInStep(p, t, c);
      SoundFrom(p, t, d);
      if d.star != c.star {
        SoundHere(p, t, c);
      } else if d.starMatch != c.starMatch {
        assert t[c.starMatch..][1..] == t[d.starMatch..];
        StarAbsorbs(p[c.star.value..], t[c.starMatch..], 1);
      }
    }
  }

  /** A match of what is left under the cursors is a match of the goal. */
  lemma SoundHere(p: Bytes, t: Bytes, c: Cursor)
    requires InStep(p, t, c) && Matches(p[c.pi..], t[c.ti..])
    ensures Goal(p, t, c)
  {
    Prepend(p, t, StarRank(c), c.starMatch, c.ti - c.starMatch);
    if c.star.Some? {
      assert p[c.star.value..][1..] == p[c.star.value + 1..];
    } else {
      assert p[0..] == p && t[0..] == t;
    }
  }

  // ----- completeness, for texts without a star byte

  lemma InStepIsPlain(p: Bytes, t: Bytes, c: Cursor)
    requires NoStar(t) && InStep(p, t, c)
    ensures Plain(p, StarRank(c), c.ti - c.starMatch)
  {
    forall j | StarRank(c) <= j < StarRank(c) + (c.ti - c.starMatch)
      ensures p[j] != STAR
    {
      assert One(p[j], t[c.starMatch + (j - StarRank(c))]);
    }
  }

  /** The goal is met with the last star standing for k more bytes than before. */
  lemma GoalHere(p: Bytes, t: Bytes, c: Cursor) returns (k: nat)
    requires NoStar(t) && InStep(p, t, c) && Goal(p, t, c)
    ensures c.ti + k <= |t| && Matches(p[c.pi..], t[c.ti + k..])
    ensures c.star.None? ==> k == 0
    ensures k > 0 ==> Matches(p[c.star.value..], t[c.starMatch + 1..])
  {
    InStepIsPlain(p, t, c);
    var n := c.ti - c.starMatch;
    if c.star.None? {
      k := 0;
      assert p[0..] == p && t[0..] == t;
      Peel(p, t, 0, 0, n);
    } else {
      var s := c.star.value;
      k := StarSplits(p[s..], t[c.starMatch..]);
      assert p[s..][1..] == p[s + 1..] && t[c.starMatch..][k..] == t[c.starMatch + k..];
      if k > 0 {
        assert t[c.starMatch + 1..][k - 1..] == t[c.starMatch + k..];
        StarZero(p[s..], t[c.starMatch + k..]);
        StarAbsorbs(p[s..], t[c.starMatch + 1..], k - 1);
      }
      Peel(p, t, s + 1, c.starMatch + k, n);
    }
  }

  lemma StarZero(p: Bytes, t: Bytes)
    requires p != [] && p[0] == STAR && Matches(p[1..], t)
    ensures Matches(p, t)
  {
  }

  lemma {:induction false} CompleteFrom(p: Bytes, t: Bytes, c: Cursor)
    requires NoStar(t) && InStep(p, t, c)
    ensures Goal(p, t, c) ==> Run(p, t, c)
    decreases |p| + 1 - StarRank(c), |t| - c.starMatch, |t| - c.ti
  {
    if Goal(p, t, c) {
      var k := GoalHere(p, t, c);
      if c.ti == |t| {
        assert t[c.ti + k..] == [];
        MatchesEmpty(p[c.pi..]);
      } else {
        StepKeepsGoal(p, t, c, k);
        StepInStep(p, t, c);
        CompleteFrom(p, t, Step(p, t, c).value);
      }
    }
  }

  /** One iteration never gives up a goal that can be met. */
  lemma StepKeepsGoal(p: Bytes, t: Bytes, c: Cursor, k: nat)
    requires NoStar(t) && InStep(p, t, c) && c.ti < |t| && Goal(p, t, c)
    requires c.ti + k <= |t| && Matches(p[c.pi..], t[c.ti + k..])
    requires c.star.None? ==> k == 0
    requires k > 0 ==> Matches(p[c.star.value..], t[c.starMatch + 1..])
    ensures Step(p, t, c).Some? && Goal(p, t, Step(p, t, c).value)
  {
    if c.pi < |p| && One(p[c.pi], t[c.ti]) {
    } else if c.pi < |p| && p[c.pi] == STAR {
      assert t[c.ti..][k..] == t[c.ti + k..];
      StarAbsorbs(p[c.pi..], t[c.ti..], k);
    } else {
      assert !Matches(p[c.pi..], t[c.ti..]);
      assert k > 0;
    }
  }

  lemma Complete(p: Bytes, t: Bytes)
    requires NoStar(t)
    ensures Matches(p, t) ==> GlobMatch(p, t)
  {
    CompleteFrom(p, t, Cursor(0, 0, None, 0));
  }

  // ----- exactly which texts are matched correctly

  /** While pattern and text agree byte by byte the loop never sets its star. */
  lemma {:induction false} RunsThrough(p: Bytes, t: Bytes, n: nat)
    requires |t| <= |p| && n <= |t| && forall j :: 0 <= j < |t| ==> One(p[j], t[j])
    ensures Run(p, t, Cursor(n, n, None, 0)) == AllStars(p[|t|..])
    decreases |t| - n
  {
    if n < |t| {
      assert One(p[n], t[n]);
      assert Step(p, t, Cursor(n, n, None, 0)) == Some(Cursor(n + 1, n + 1, None, 0));
      RunsThrough(p, t, n + 1);
    }
  }

  /** u question marks, a star, n question marks. */
  function StarPattern(u: nat, n: nat): (p: Bytes)
    ensures |p| == u + 1 + n && p[u] == STAR
    ensures forall k :: 0 <= k < |p| && k != u ==> p[k] == QUESTION
  {
    seq(u + 1 + n, k => if k == u then STAR else QUESTION)
  }

  /** A pattern that means a given text with a star byte but is not matched. */
  lemma StarInTextFails(t: Bytes, u: nat)
    requires u < |t| && t[u] == STAR
    ensures Matches(StarPattern(u, |t| - u), t) && !GlobMatch(StarPattern(u, |t| - u), t)
  {
    AgreeingFails(StarPattern(u, |t| - u), t);
    AgreeingMatches(StarPattern(u, |t| - u), t, u);
  }

  lemma AgreeingFails(p: Bytes, t: Bytes)
    requires |p| == |t| + 1 && p[|t|] == QUESTION
    requires forall j :: 0 <= j < |t| ==> One(p[j], t[j])
    ensures !GlobMatch(p, t)
  {
    RunsThrough(p, t, 0);
    assert p[|t|..][0] == QUESTION;
  }

  lemma AgreeingMatches(p: Bytes, t: Bytes, u: nat)
    requires u < |t| && |p| == |t| + 1 && p[u] == STAR
    requires forall k :: 0 <= k < |p| && k != u ==> p[k] == QUESTION
    ensures Matches(p, t)
  {
    TailMatches(p, t, u, |t| - u);
    Prepend(p, t, 0, 0, u);
    assert p[0..] == p && t[0..] == t;
  }

  lemma TailMatches(p: Bytes, t: Bytes, u: nat, n: nat)
    requires |t| == u + n && |p| == u + 1 + n && p[u] == STAR
    requires forall k :: u < k < |p| ==> p[k] == QUESTION
    ensures Matches(p[u..], t[u..])
  {
    assert p[u + 1 + n..] == [] && t[u + n..] == [];
    Prepend(p, t, u + 1, u, n);
    assert p[u..][1..] == p[u + 1..];
    StarZero(p[u..], t[u..]);
  }

  /** A text is matched as its patterns mean, by every pattern, exactly when it
      holds no star byte. */
  lemma CorrectIffNoStar(t: Bytes)
    ensures (forall p: Bytes :: GlobMatch(p, t) <==> Matches(p, t)) <==> NoStar(t)
  {
    if NoStar(t) {
      forall p: Bytes
        ensures GlobMatch(p, t) <==> Matches(p, t)
      {
        Complete(p, t);
        if GlobMatch(p, t) {
          SoundFrom(p, t, Cursor(0, 0, None, 0));
        }
      }
    } else {
      var u :| 0 <= u < |t| && t[u] == STAR;
      StarInTextFails(t, u);
    }
  }

  /** The verdict of the loop against the meaning of the pattern. */
  lemma GlobMatchMeaning(p: Bytes, t: Bytes)
    ensures GlobMatch(p, t) ==> Matches(p, t)
    ensures NoStar(t) ==> (GlobMatch(p, t) <==> Matches(p, t))
  {
    if GlobMatch(p, t) {
      SoundFrom(p, t, Cursor(0, 0, None, 0));
    }
    if NoStar(t) {
      Complete(p, t);
    }
  }

  /** Iterations that can have been spent on reaching a cursor. */
  function Budget(p: Bytes, c: Cursor): nat {
    c.starMatch * (|p| + 1) + c.pi
  }

  lemma StepBudget(p: Bytes, t: Bytes, c: Cursor)
    requires WellFormed(p, t, c) && c.ti < |t| && Step(p, t, c).Some?
    ensures Budget(p, c) + 1 <= Budget(p, Step(p, t, c).value)
  {
    var d := Step(p, t, c).value;
    var gain := d.starMatch - c.starMatch;
    assert d.starMatch * (|p| + 1) == c.starMatch * (|p| + 1) + gain * (|p| + 1);
    if gain > 0 {
      assert gain * (|p| + 1) >= |p| + 1;
    }
  }

  lemma BudgetBounded(p: Bytes, t: Bytes, c: Cursor)
    requires WellFormed(p, t, c)
    ensures Budget(p, c) + 1 <= (|p| + 1) * (|t| + 1)
  {
    assert c.starMatch * (|p| + 1) <= |t| * (|p| + 1);
  }

  /** The first loop of the source: it ends with an early verdict or with the
      text consumed at pattern position pi. */
  method ConsumeText(p: Bytes, t: Bytes) returns (pi: nat, gaveUp: bool, ghost steps: nat)
    ensures pi <= |p|
    ensures GlobMatch(p, t) == (!gaveUp && AllStars(p[pi..]))
    ensures steps <= (|p| + 1) * (|t| + 1)
  {
    steps, pi := 0, 0;
    var ti: nat, starMatch: nat, star: Option<nat> := 0, 0, None;
    while ti < |t|
      invariant WellFormed(p, t, Cursor(pi, ti, star, starMatch))
      invariant Run(p, t, Cursor(pi, ti, star, starMatch)) == GlobMatch(p, t)
      invariant steps <= Budget(p, Cursor(pi, ti, star, starMatch))
      decreases |p| + 1 - StarRank(Cursor(pi, ti, star, starMatch)), |t| - starMatch, |t| - ti
    {
      ghost var c := Cursor(pi, ti, star, starMatch);
      steps := steps + 1;
      if pi < |p| && (p[pi] == QUESTION || p[pi] == t[ti]) {
        pi := pi + 1;
        ti := ti + 1;
      } else if pi < |p| && p[pi] == STAR {
        star := Some(pi);
        pi := pi + 1;
        starMatch := ti;
      } else if star.Some? {
        pi := star.value + 1;
        starMatch := starMatch + 1;
        ti := starMatch;
      } else {
        BudgetBounded(p, t, c);
        return pi, true, steps;
      }
      assert Step(p, t, c) == Some(Cursor(pi, ti, star, starMatch));
      StepBudget(p, t, c);
    }
    BudgetBounded(p, t, Cursor(pi, ti, star, starMatch));
    gaveUp := false;
  }

  /** The matcher: it is right about every match it reports, and about every
      text without a star byte; its main loop takes at most
      (|p| + 1) * (|t| + 1) iterations. */
  method GlobMatchLoop(p: Bytes, t: Bytes) returns (matched: bool, ghost steps: nat)
    ensures matched == GlobMatch(p, t)
    ensures matched ==> Matches(p, t)
    ensures NoStar(t) ==> (matched <==> Matches(p, t))
    ensures steps <= (|p| + 1) * (|t| + 1)
  {
    GlobMatchMeaning(p, t);
    var pi, gaveUp, spent := ConsumeText(p, t);
    steps := spent;
    if gaveUp {
      return false, steps;
    }
    while pi < |p| && p[pi] == STAR
      invariant pi <= |p| && AllStars(p[pi..]) == GlobMatch(p, t)
    {
      assert p[pi..][1..] == p[pi + 1..];
      pi := pi + 1;
    }
    matched := pi == |p|;
  }

  /** A host matches a pattern list when a positive pattern matches and no
      negated one (with its leading exclamation mark removed) does. */
  method MatchesHostPatterns(host: Bytes, patterns: seq<Bytes>) returns (matched: bool)
    ensures NoStar(host) ==>
              (matched <==>
                && (exists k :: 0 <= k < |patterns| && !Negated(patterns[k]) && Matches(patterns[k], host))
                && (forall k :: 0 <= k < |patterns| && Negated(patterns[k]) ==> !Matches(patterns[k][1..], host)))
  {
    matched := false;
    for k := 0 to |patterns|
      invariant NoStar(host) ==>
                  (matched <==> exists j :: 0 <= j < k && !Negated(patterns[j]) && Matches(patterns[j], host))
      invariant NoStar(host) ==>
                  forall j :: 0 <= j < k && Negated(patterns[j]) ==> !Matches(patterns[j][1..], host)
    {
      if Negated(patterns[k]) {
        var hit, _ := GlobMatchLoop(patterns[k][1..], host);
        if hit {
          return false;
        }
      } else {
        var hit, _ := GlobMatchLoop(patterns[k], host);
        if hit {
          matched := true;
        }
      }
    }
  }

  predicate Negated(pattern: Bytes) {
    pattern != [] && pattern[0] == 33  // '!'
  }
}
