/** The glob matcher for runner labels and job names, and what it decides compared
    with the meaning of a glob. Strings are sequences of bytes in the source. */
module Glob {

  // ---- The meaning of a glob: '*' stands for any text, everything else for itself ----

  predicate Matches(pat: string, s: string)
    decreases |pat| + |s|
  {
    if pat == "" then s == ""
    else if pat[0] == '*' then Matches(pat[1..], s) || (s != "" && Matches(pat, s[1..]))
    else s != "" && s[0] == pat[0] && Matches(pat[1..], s[1..])
  }

  /** `s` matches and nothing shorter that it starts with does. */
  ghost predicate MatchesMinimally(pat: string, s: string) {
    Matches(pat, s) && forall m :: 0 <= m < |s| ==> !Matches(pat, s[..m])
  }

  ghost predicate SomePrefixMatches(pat: string, s: string) {
    exists m :: 0 <= m <= |s| && Matches(pat, s[..m])
  }

  // ---- The library calls the matcher relies on ----

  predicate StarFree(s: string) { '*' !in s }

  /** The literal text before the first '*'. */
  function Literal(pat: string): (r: string)
    ensures StarFree(r) && |r| <= |pat| && pat[..|r|] == r
    ensures |r| < |pat| ==> pat[|r|] == '*'
  {
    if pat == "" || pat[0] == '*' then "" else [pat[0]] + Literal(pat[1..])
  }

  /** strings.SplitAfter(pat, "*") */
  function SplitAfter(pat: string): (tokens: seq<string>)
    ensures |tokens| > 0
    decreases |pat|
  {
    var n := |Literal(pat)|;
    if n == |pat| then [pat] else [pat[..n + 1]] + SplitAfter(pat[n + 1..])
  }

  predicate OccursAt(s: string, p: string, i: int) {
    0 <= i && i + |p| <= |s| && s[i..i + |p|] == p
  }

  /** Leftmost position of `p` in `s`, or -1. */
  function Find(s: string, p: string): (k: int)
    ensures -1 <= k && (k >= 0 ==> k + |p| <= |s|)
  {
    if |p| > |s| then -1
    else if s[..|p|] == p then 0
    else
      var k := Find(s[1..], p);
      if k < 0 then -1 else k + 1
  }

  lemma {:induction false} FoundThere(s: string, p: string)
    requires Find(s, p) >= 0
    ensures OccursAt(s, p, Find(s, p))
  {
    if s[..|p|] != p {
      var k := Find(s[1..], p);
      FoundThere(s[1..], p);
      assert s[1..][k..k + |p|] == s[k + 1..k + 1 + |p|];
    }
  }

  lemma {:induction false} FoundLeftmost(s: string, p: string, i: int)
    requires OccursAt(s, p, i)
    ensures 0 <= Find(s, p) <= i
  {
    if s[..|p|] != p {
      assert i > 0;
      assert s[1..][i - 1..i - 1 + |p|] == s[i..i + |p|];
      FoundLeftmost(s[1..], p, i - 1);
    }
  }

  // ---- The matcher ----

  /** `Faults` is an index out of range or the panic on an empty pattern. */
  datatype Verdict = Accepts | Rejects | Faults

  /** What one literal token does to the text: `Stop` is a `break` with text left. */
  datatype Token = Continue(rest: string, tail: bool) | Stop | OutOfRange

  function Consume(p: string, s: string, head: bool): Token
    requires p != ""
  {
    var tail := p[|p| - 1] == '*';
    var q := if tail then p[..|p| - 1] else p;
    var k := Find(s, q);
    if k < 0 then (if s != "" && !head then Stop else OutOfRange)
    else if (k > 0 && !head) || (k + |q| < |s| && !tail) then Stop
    else Continue(s[k + |q|..], tail)
  }

  /** The pass over the tokens; `head` says whether text may be skipped first. */
  function Scan(tokens: seq<string>, s: string, head: bool): Verdict {
    if tokens == [] then (if s == "" then Accepts else Rejects)
    else if tokens[0] == "" then Accepts
    else if tokens[0] == "*" then (if |tokens| == 1 then Accepts else Scan(tokens[1..], s, true))
    else
      match Consume(tokens[0], s, head)
      case Stop => Rejects
      case OutOfRange => Faults
      case Continue(rest, tail) => Scan(tokens[1..], rest, tail)
  }

  function Negated(v: Verdict): Verdict {
    match v
    case Accepts => Rejects
    case Rejects => Accepts
    case Faults => Faults
  }

  function Body(pat: string): string { if pat != "" && pat[0] == '!' then pat[1..] else pat }

  function MatchOf(pat: string, s: string): Verdict {
    if pat == "" then Faults
    else if pat[0] == '!' then Negated(Scan(SplitAfter(pat[1..]), s, false))
    else Scan(SplitAfter(pat), s, false)
  }

  method ConsumeToken(token: string, s: string, wildcardInHead: bool) returns (r: Token)
    requires token != ""
    ensures r == Consume(token, s, wildcardInHead) && (r.Stop? ==> s != "")
  {
    var p := token;
    var wildcardInTail := p[|p| - 1] == '*';
    if wildcardInTail {
      p := p[..|p| - 1];
    }
    var k := Find(s, p);
    // strings.SplitN(s, p, 2) has one element when `p` does not occur, two otherwise.
    var before := if k < 0 then s else s[..k];
    if before != "" && !wildcardInHead {
      return Stop;
    }
    if k < 0 {
      return OutOfRange;
    }
    var after := s[k + |p|..];
    if after != "" && !wildcardInTail {
      return Stop;
    }
    return Continue(after, wildcardInTail);
  }

  method Match(pat: string, s: string) returns (v: Verdict)
    ensures v == MatchOf(pat, s)
  {
    if |pat| == 0 {
      return Faults;
    }
    var inverse := pat[0] == '!';
    var tokens := SplitAfter(if inverse then pat[1..] else pat);
    var rest := s;
    var wildcardInHead := false;
    var i := 0;
    while i < |tokens|
      invariant 0 <= i <= |tokens|
      invariant Scan(tokens[i..], rest, wildcardInHead) == Scan(tokens, s, false)
    {
      assert tokens[i..][1..] == tokens[i + 1..];
      var p := tokens[i];
      if p == "" {
        rest := "";
        break;
      }
      if p == "*" {
        if i == |tokens| - 1 {
          rest := "";
          break;
        }
        wildcardInHead := true;
        i := i + 1;
        continue;
      }
      var token := ConsumeToken(p, rest, wildcardInHead);
      match token {
        case Stop => break;
        case OutOfRange => return Faults;
        case Continue(after, wildcardInTail) =>
          rest, wildcardInHead := after, wildcardInTail;
          i := i + 1;
      }
    }
    v := if rest == "" then Accepts else Rejects;
    assert v == Scan(tokens, s, false);
    if inverse {
      v := Negated(v);
    }
  }

  // ---- How the meaning of a glob decomposes ----

  /** The pattern with an optional leading star. */
  function Headed(head: bool, pat: string): string { if head then ['*'] + pat else pat }

  /** A star takes some prefix; what follows matches the rest. */
  lemma {:induction false} StarSkips(pat: string, s: string, n: nat)
    requires n <= |s| && Matches(pat, s[n..])
    ensures Matches(['*'] + pat, s)
    decreases n
  {
    assert (['*'] + pat)[1..] == pat;
    if n == 0 {
      assert s[0..] == s;
    } else {
      assert s[1..][n - 1..] == s[n..];
      StarSkips(pat, s[1..], n - 1);
    }
  }

  lemma {:induction false} StarSkipped(pat: string, s: string) returns (n: nat)
    requires Matches(['*'] + pat, s)
    ensures n <= |s| && Matches(pat, s[n..])
    decreases |s|
  {
    assert (['*'] + pat)[1..] == pat;
    if Matches(pat, s) {
      n := 0;
      assert s[0..] == s;
    } else {
      var m := StarSkipped(pat, s[1..]);
      n := m + 1;
      assert s[1..][m..] == s[n..];
    }
  }

  /** A star match survives any longer beginning. */
  lemma {:induction false} StarAbsorbs(pat: string, s: string, n: nat)
    requires n <= |s| && Matches(['*'] + pat, s[n..])
    ensures Matches(['*'] + pat, s)
  {
    var m := StarSkipped(pat, s[n..]);
    assert s[n..][m..] == s[n + m..];
    StarSkips(pat, s, n + m);
  }

  lemma {:induction false} DoubleStar(pat: string, s: string)
    ensures Matches(['*'] + (['*'] + pat), s) <==> Matches(['*'] + pat, s)
  {
    if Matches(['*'] + (['*'] + pat), s) {
      var n := StarSkipped(['*'] + pat, s);
      StarAbsorbs(pat, s, n);
    }
    if Matches(['*'] + pat, s) {
      assert s[0..] == s;
      StarSkips(['*'] + pat, s, 0);
    }
  }

  /** Literal text matches itself. */
  lemma {:induction false} LiteralStep(q: string, pat: string, s: string)
    requires StarFree(q)
    ensures Matches(q + pat, s) <==> OccursAt(s, q, 0) && Matches(pat, s[|q|..])
    decreases |q|
  {
    if q == "" {
      assert q + pat == pat && s[0..] == s && s[..0] == "";
    } else {
      assert (q + pat)[0] == q[0] && q[0] in q && (q + pat)[1..] == q[1..] + pat;
      if s != "" {
        LiteralStep(q[1..], pat, s[1..]);
        if |q| <= |s| {
          assert s[1..][|q| - 1..] == s[|q|..];
          assert s[..|q|] == [s[0]] + s[1..][..|q| - 1];
          assert q == [q[0]] + q[1..];
        }
      }
    }
  }

  /** An occurrence of `q` at `n`, seen from the suffix. */
  lemma {:induction false} OccursShift(s: string, q: string, n: nat)
    requires n <= |s|
    ensures OccursAt(s, q, n) <==> OccursAt(s[n..], q, 0)
  {
    if n + |q| <= |s| {
      assert s[n..][0..|q|] == s[n..n + |q|];
    }
  }

  lemma {:induction false} LeftmostReached(q: string, pat: string, s: string, n: nat)
    requires StarFree(q) && n <= |s| && Matches(q + (['*'] + pat), s[n..])
    ensures 0 <= Find(s, q) <= n && Matches(['*'] + pat, s[Find(s, q) + |q|..])
  {
    LiteralStep(q, ['*'] + pat, s[n..]);
    OccursShift(s, q, n);
    FoundLeftmost(s, q, n);
    var t := s[Find(s, q) + |q|..];
    assert s[n..][|q|..] == t[n - Find(s, q)..];
    StarAbsorbs(pat, t, n - Find(s, q));
  }

  lemma {:induction false} LeftmostMatches(q: string, rest: string, s: string)
    requires StarFree(q) && Find(s, q) >= 0 && Matches(rest, s[Find(s, q) + |q|..])
    ensures Matches(['*'] + (q + rest), s)
  {
    var k := Find(s, q);
    FoundThere(s, q);
    OccursShift(s, q, k);
    assert s[k..][|q|..] == s[k + |q|..];
    LiteralStep(q, rest, s[k..]);
    StarSkips(q + rest, s, k);
  }

  /** The leftmost occurrence is as good as any: between two stars, matching the first
      occurrence of a literal loses nothing. */
  lemma {:induction false} LeftmostSuffices(q: string, pat: string, s: string)
    requires StarFree(q)
    ensures Matches(['*'] + (q + (['*'] + pat)), s) <==>
            Find(s, q) >= 0 && Matches(['*'] + pat, s[Find(s, q) + |q|..])
  {
    var rest := ['*'] + pat;
    if Matches(['*'] + (q + rest), s) {
      var n := StarSkipped(q + rest, s);
      LeftmostReached(q, pat, s, n);
    }
    if Find(s, q) >= 0 && Matches(rest, s[Find(s, q) + |q|..]) {
      LeftmostMatches(q, rest, s);
    }
  }

  lemma {:induction false} OccursInPrefix(s: string, q: string, m: nat, i: int)
    requires m <= |s| && 0 <= i && i + |q| <= m
    ensures OccursAt(s[..m], q, i) <==> OccursAt(s, q, i)
  {
    assert s[..m][i..i + |q|] == s[i..i + |q|];
  }

  /** In a prefix of `s` the leftmost occurrence is the same, if it fits. */
  lemma {:induction false} FindInPrefix(s: string, q: string, m: nat)
    requires m <= |s|
    ensures Find(s[..m], q) == if 0 <= Find(s, q) && Find(s, q) + |q| <= m then Find(s, q) else -1
  {
    var k, k' := Find(s, q), Find(s[..m], q);
    if k' >= 0 {
      FoundThere(s[..m], q);
      OccursInPrefix(s, q, m, k');
      FoundLeftmost(s, q, k');
    }
    if 0 <= k && k + |q| <= m {
      FoundThere(s, q);
      OccursInPrefix(s, q, m, k);
      FoundLeftmost(s[..m], q, k);
    }
  }

  /** Matching `pat` against a prefix of `s` is matching `pat'` beyond position `j`. */
  ghost predicate Shifts(pat: string, pat': string, s: string, j: nat) {
    j <= |s| && forall m :: 0 <= m <= |s| ==> (Matches(pat, s[..m]) <==> j <= m && Matches(pat', s[j..][..m - j]))
  }

  lemma {:induction false} ShiftKeepsMeaning(pat: string, pat': string, s: string, j: nat)
    requires Shifts(pat, pat', s, j)
    ensures Matches(pat, s) <==> Matches(pat', s[j..])
    ensures MatchesMinimally(pat, s) <==> MatchesMinimally(pat', s[j..])
    ensures SomePrefixMatches(pat, s) <==> SomePrefixMatches(pat', s[j..])
  {
    assert s[..|s|] == s && s[j..][..|s| - j] == s[j..];
    forall n | 0 <= n <= |s[j..]| ensures Matches(pat', s[j..][..n]) <==> Matches(pat, s[..n + j]) {
      assert n + j - j == n;
    }
  }

  lemma {:induction false} HeadedTokenShifts(q: string, pat: string, s: string, m: nat)
    requires StarFree(q) && Find(s, q) >= 0 && m <= |s|
    ensures var j := Find(s, q) + |q|;
            Matches(['*'] + (q + (['*'] + pat)), s[..m]) <==> j <= m && Matches(['*'] + pat, s[j..][..m - j])
  {
    var j := Find(s, q) + |q|;
    FindInPrefix(s, q, m);
    LeftmostSuffices(q, pat, s[..m]);
    if j <= m {
      assert s[..m][j..] == s[j..][..m - j];
    }
  }

  lemma {:induction false} LeadingTokenShifts(q: string, pat: string, s: string, m: nat)
    requires StarFree(q) && Find(s, q) == 0 && m <= |s|
    ensures var j := |q|;
            Matches(q + (['*'] + pat), s[..m]) <==> j <= m && Matches(['*'] + pat, s[j..][..m - j])
  {
    LiteralStep(q, ['*'] + pat, s[..m]);
    FoundThere(s, q);
    if |q| <= m {
      OccursInPrefix(s, q, m, 0);
      assert s[..m][|q|..] == s[|q|..][..m - |q|];
    }
  }

  /** A literal followed by a star, once its leftmost occurrence is consumed. */
  lemma {:induction false} TokenShifts(head: bool, q: string, pat: string, s: string)
    requires StarFree(q) && Find(s, q) >= 0 && (head || Find(s, q) == 0)
    ensures Shifts(Headed(head, q + (['*'] + pat)), ['*'] + pat, s, Find(s, q) + |q|)
  {
    var j := Find(s, q) + |q|;
    forall m | 0 <= m <= |s|
      ensures Matches(Headed(head, q + (['*'] + pat)), s[..m]) <==> j <= m && Matches(['*'] + pat, s[j..][..m - j])
    {
      if head {
        HeadedTokenShifts(q, pat, s, m);
      } else {
        LeadingTokenShifts(q, pat, s, m);
      }
    }
  }

  /** Without the literal where it must be, no prefix matches. */
  lemma {:induction false} MissingLiteral(head: bool, q: string, pat: string, s: string)
    requires StarFree(q) && (Find(s, q) < 0 || (!head && Find(s, q) > 0))
    ensures !SomePrefixMatches(Headed(head, q + pat), s)
  {
    forall m | 0 <= m <= |s| ensures !Matches(Headed(head, q + pat), s[..m]) {
      if Matches(Headed(head, q + pat), s[..m]) {
        var n := 0;
        if head {
          n := StarSkipped(q + pat, s[..m]);
        } else {
          assert s[..m][0..] == s[..m];
        }
        LiteralStep(q, pat, s[..m][n..]);
        OccursShift(s[..m], q, n);
        OccursInPrefix(s, q, m, n);
        FoundLeftmost(s, q, n);
      }
    }
  }

  lemma {:induction false} FinalLiteralEnds(q: string, s: string, m: nat, n: nat)
    requires StarFree(q) && n <= m <= |s|
    ensures Matches(q, s[..m][n..]) <==> n + |q| == m && OccursAt(s, q, n)
  {
    assert q + "" == q;
    LiteralStep(q, "", s[..m][n..]);
    OccursShift(s[..m], q, n);
    if n + |q| <= m {
      OccursInPrefix(s, q, m, n);
    }
  }

  /** A final literal matches exactly where an occurrence ends. */
  lemma {:induction false} FinalLiteral(head: bool, q: string, s: string, m: nat)
    requires StarFree(q) && m <= |s|
    ensures Matches(Headed(head, q), s[..m]) <==> |q| <= m && OccursAt(s, q, m - |q|) && (head || m == |q|)
  {
    if !head {
      assert s[..m][0..] == s[..m];
      FinalLiteralEnds(q, s, m, 0);
    } else {
      if Matches(['*'] + q, s[..m]) {
        var n := StarSkipped(q, s[..m]);
        FinalLiteralEnds(q, s, m, n);
      }
      if |q| <= m {
        FinalLiteralEnds(q, s, m, m - |q|);
        if OccursAt(s, q, m - |q|) {
          StarSkips(q, s[..m], m - |q|);
        }
      }
    }
  }

  lemma {:induction false} FinalLiteralBound(head: bool, q: string, s: string, m: nat)
    requires StarFree(q) && m <= |s| && Matches(Headed(head, q), s[..m])
    ensures Find(s, q) >= 0 && (head || Find(s, q) == 0) && Find(s, q) + |q| <= m
  {
    FinalLiteral(head, q, s, m);
    FoundLeftmost(s, q, m - |q|);
  }

  lemma {:induction false} FinalLiteralFound(head: bool, q: string, s: string)
    requires StarFree(q) && Find(s, q) >= 0 && (head || Find(s, q) == 0)
    ensures Matches(Headed(head, q), s[..Find(s, q) + |q|])
  {
    FoundThere(s, q);
    var m := Find(s, q) + |q|;
    assert OccursAt(s, q, m - |q|);
    FinalLiteral(head, q, s, m);
  }

  lemma {:induction false} FinalLiteralMeaning(head: bool, q: string, s: string)
    requires StarFree(q)
    ensures SomePrefixMatches(Headed(head, q), s) <==> Find(s, q) >= 0 && (head || Find(s, q) == 0)
    ensures MatchesMinimally(Headed(head, q), s) <==>
            Find(s, q) >= 0 && (head || Find(s, q) == 0) && Find(s, q) + |q| == |s|
  {
    var pat, k := Headed(head, q), Find(s, q);
    assert s[..|s|] == s;
    forall m | 0 <= m <= |s| && Matches(pat, s[..m]) ensures k >= 0 && (head || k == 0) && k + |q| <= m {
      FinalLiteralBound(head, q, s, m);
    }
    if k >= 0 && (head || k == 0) {
      FinalLiteralFound(head, q, s);
    }
  }

  /** Two stars in a row, for every prefix. */
  lemma {:induction false} DoubleStarMeaning(pat: string, s: string)
    ensures Matches(['*'] + (['*'] + pat), s) <==> Matches(['*'] + pat, s)
    ensures MatchesMinimally(['*'] + (['*'] + pat), s) <==> MatchesMinimally(['*'] + pat, s)
    ensures SomePrefixMatches(['*'] + (['*'] + pat), s) <==> SomePrefixMatches(['*'] + pat, s)
  {
    DoubleStar(pat, s);
    forall m | 0 <= m <= |s| ensures Matches(['*'] + (['*'] + pat), s[..m]) <==> Matches(['*'] + pat, s[..m]) {
      DoubleStar(pat, s[..m]);
    }
  }

  // ---- What the matcher decides ----

  predicate OpenEnded(pat: string) { pat == "" || pat[|pat| - 1] == '*' }

  /** What the pass over the tokens of `pat` decides. */
  ghost predicate Means(v: Verdict, head: bool, pat: string, s: string) {
    var full := Headed(head, pat);
    && (v.Accepts? <==> if OpenEnded(pat) then Matches(full, s) else MatchesMinimally(full, s))
    && (v.Faults? <==> !SomePrefixMatches(full, s) && (head || s == "" || Literal(pat) <= s))
  }

  lemma {:induction false} ScanFinal(pat: string, s: string, head: bool)
    requires StarFree(pat) && pat != ""
    ensures var k := Find(s, pat);
            Scan([pat], s, head) ==
              if k < 0 then (if s != "" && !head then Rejects else Faults)
              else if (k == 0 || head) && k + |pat| == |s| then Accepts
              else Rejects
  {
    assert pat[|pat| - 1] in pat;
    assert [pat][1..] == [];
  }

  lemma {:induction false} LiteralOfLiteral(pat: string)
    requires StarFree(pat)
    ensures Literal(pat) == pat
  {
    if pat != "" {
      assert pat[0] in pat;
      LiteralOfLiteral(pat[1..]);
    }
  }

  lemma {:induction false} PrefixFound(pat: string, s: string)
    ensures pat <= s <==> Find(s, pat) == 0
  {
    if Find(s, pat) == 0 {
      FoundThere(s, pat);
    }
    if pat <= s {
      FoundLeftmost(s, pat, 0);
    }
  }

  lemma {:induction false} FinalTokenMeans(pat: string, s: string, head: bool)
    requires StarFree(pat) && pat != ""
    ensures Means(Scan([pat], s, head), head, pat, s)
  {
    ScanFinal(pat, s, head);
    FinalLiteralMeaning(head, pat, s);
    LiteralOfLiteral(pat);
    PrefixFound(pat, s);
    assert pat[|pat| - 1] in pat;
    assert s == "" ==> Find(s, pat) != 0;
  }

  lemma {:induction false} CutAtStar(pat: string, n: nat)
    requires n < |pat| && pat[n] == '*'
    ensures pat == pat[..n] + (['*'] + pat[n + 1..]) && pat[..n + 1] == pat[..n] + ['*']
  {
  }

  lemma {:induction false} SplitFirst(pat: string)
    requires |Literal(pat)| < |pat|
    ensures var q := Literal(pat);
            var rest := pat[|q| + 1..];
            pat == q + (['*'] + rest) && SplitAfter(pat) == [q + ['*']] + SplitAfter(rest)
  {
    CutAtStar(pat, |Literal(pat)|);
  }

  /** The pass over the tokens decides the pattern, for every text. */
  lemma {:induction false} ScanMeans(pat: string, s: string, head: bool)
    requires pat != "" || head
    ensures Means(Scan(SplitAfter(pat), s, head), head, pat, s)
    decreases |pat|, 1
  {
    var q := Literal(pat);
    if pat == "" {
      assert SplitAfter(pat) == [""];
      EverythingMatchesStar(s);
    } else if |q| == |pat| {
      assert pat == q && SplitAfter(pat) == [pat];
      FinalTokenMeans(pat, s, head);
    } else {
      var rest := pat[|q| + 1..];
      SplitFirst(pat);
      if q == "" {
        ScanMeans(rest, s, true);
        StarTokenMeans(rest, s, head);
        assert pat == ['*'] + rest;
      } else {
        LiteralTokenMeans(q, rest, s, head);
      }
    }
  }

  lemma {:induction false} LiteralTokenMeans(q: string, rest: string, s: string, head: bool)
    requires StarFree(q) && q != ""
    ensures Means(Scan([q + ['*']] + SplitAfter(rest), s, head), head, q + (['*'] + rest), s)
    decreases |q| + 1 + |rest|, 0
  {
    var k := Find(s, q);
    if k >= 0 && (head || k == 0) {
      var t := s[k + |q|..];
      ScanMeans(rest, t, true);
      TokenFound(q, rest, s, head, t);
    } else {
      TokenMissing(q, rest, s, head);
    }
  }

  lemma {:induction false} TokenFound(q: string, rest: string, s: string, head: bool, t: string)
    requires StarFree(q) && q != "" && Find(s, q) >= 0 && (head || Find(s, q) == 0)
    requires t == s[Find(s, q) + |q|..] && Means(Scan(SplitAfter(rest), t, true), true, rest, t)
    ensures Means(Scan([q + ['*']] + SplitAfter(rest), s, head), head, q + (['*'] + rest), s)
  {
    var v := Scan([q + ['*']] + SplitAfter(rest), s, head);
    ScanToken(q, SplitAfter(rest), s, head);
    assert v == Scan(SplitAfter(rest), t, true);
    FoundTokenMeans(v, q, rest, s, head);
  }

  lemma {:induction false} TokenMissing(q: string, rest: string, s: string, head: bool)
    requires StarFree(q) && q != "" && (Find(s, q) < 0 || (!head && Find(s, q) > 0))
    ensures Means(Scan([q + ['*']] + SplitAfter(rest), s, head), head, q + (['*'] + rest), s)
  {
    var v := Scan([q + ['*']] + SplitAfter(rest), s, head);
    ScanToken(q, SplitAfter(rest), s, head);
    assert v == if Find(s, q) < 0 && (s == "" || head) then Faults else Rejects;
    MissingTokenMeans(q, rest, s, head);
  }

  lemma {:induction false} EverythingMatchesStar(s: string)
    ensures Matches(['*'] + "", s) && SomePrefixMatches(['*'] + "", s)
  {
    assert s[|s|..] == "";
    StarSkips("", s, |s|);
    assert s[..|s|] == s;
  }

  lemma {:induction false} StarTokenMeans(rest: string, s: string, head: bool)
    requires Means(Scan(SplitAfter(rest), s, true), true, rest, s)
    ensures Means(Scan(SplitAfter(['*'] + rest), s, head), head, ['*'] + rest, s)
  {
    DoubleStarMeaning(rest, s);
  }

  lemma {:induction false} LiteralOf(q: string, pat: string)
    requires StarFree(q)
    ensures Literal(q + (['*'] + pat)) == q
  {
    if q != "" {
      assert q[0] in q && (q + (['*'] + pat))[1..] == q[1..] + (['*'] + pat);
      LiteralOf(q[1..], pat);
    }
  }

  lemma {:induction false} ConsumeStarred(q: string, s: string, head: bool)
    requires q != ""
    ensures var k := Find(s, q);
            Consume(q + ['*'], s, head) ==
              if k < 0 then (if s != "" && !head then Stop else OutOfRange)
              else if k > 0 && !head then Stop
              else Continue(s[k + |q|..], true)
  {
    var p := q + ['*'];
    assert p[|p| - 1] == '*' && p[..|p| - 1] == q;
  }

  lemma {:induction false} ScanToken(q: string, tokens: seq<string>, s: string, head: bool)
    requires q != ""
    ensures var k := Find(s, q);
            Scan([q + ['*']] + tokens, s, head) ==
              if k < 0 then (if s != "" && !head then Rejects else Faults)
              else if k > 0 && !head then Rejects
              else Scan(tokens, s[k + |q|..], true)
  {
    var p := q + ['*'];
    var all := [p] + tokens;
    assert all[0] == p && all[1..] == tokens && |p| > 1 && |"*"| == 1;
    ConsumeStarred(q, s, head);
  }

  lemma {:induction false} FoundTokenMeans(v: Verdict, q: string, rest: string, s: string, head: bool)
    requires StarFree(q) && q != "" && Find(s, q) >= 0 && (head || Find(s, q) == 0)
    requires Means(v, true, rest, s[Find(s, q) + |q|..])
    ensures Means(v, head, q + (['*'] + rest), s)
  {
    var pat, j := q + (['*'] + rest), Find(s, q) + |q|;
    TokenShifts(head, q, rest, s);
    ShiftKeepsMeaning(Headed(head, pat), ['*'] + rest, s, j);
    LiteralOf(q, rest);
    FoundThere(s, q);
    assert Headed(true, rest) == ['*'] + rest;
    assert OpenEnded(pat) == OpenEnded(rest);
  }

  lemma {:induction false} MissingTokenMeans(q: string, rest: string, s: string, head: bool)
    requires StarFree(q) && q != "" && (Find(s, q) < 0 || (!head && Find(s, q) > 0))
    ensures Means(if Find(s, q) < 0 && (s == "" || head) then Faults else Rejects, head, q + (['*'] + rest), s)
  {
    var full := Headed(head, q + (['*'] + rest));
    MissingLiteral(head, q, ['*'] + rest, s);
    LiteralOf(q, rest);
    assert s[..|s|] == s;
    assert !Matches(full, s[..|s|]);
    if q <= s {
      FoundLeftmost(s, q, 0);
    }
  }

  predicate IsNegated(pat: string) { pat != "" && pat[0] == '!' }

  /** The matcher's decision for every pattern with a body and every text. It finds
      the body when the text matches it, with one reservation: a body that does not
      end in a star is found only if no shorter beginning of the text matches. It
      faults exactly when nothing the text starts with matches although the text is
      empty or starts with the body's leading literal. */
  lemma {:induction false} MatchDecides(pat: string, s: string)
    requires Body(pat) != ""
    ensures (if IsNegated(pat) then MatchOf(pat, s).Rejects? else MatchOf(pat, s).Accepts?) <==>
            Matches(Body(pat), s) && (OpenEnded(Body(pat)) || forall m :: 0 <= m < |s| ==> !Matches(Body(pat), s[..m]))
    ensures MatchOf(pat, s).Faults? <==>
            !SomePrefixMatches(Body(pat), s) && (s == "" || Literal(Body(pat)) <= s)
  {
    ScanMeans(Body(pat), s, false);
  }

  /** Without a body: the empty pattern panics, and a lone '!' rejects everything. */
  lemma NoBody(s: string)
    ensures MatchOf("", s).Faults? && MatchOf("!", s).Rejects?
  {
    assert "!"[1..] == "" && SplitAfter("") == [""];
  }

  /** Every plain accept is a real match. */
  lemma AcceptIsMatch(pat: string, s: string)
    requires Body(pat) != "" && !IsNegated(pat) && MatchOf(pat, s).Accepts?
    ensures Matches(pat, s)
  {
    MatchDecides(pat, s);
  }

  /** Patterns without a star, and patterns ending in one, find every match. */
  lemma MatchIsAccepted(pat: string, s: string)
    requires pat != "" && !IsNegated(pat) && (StarFree(pat) || OpenEnded(pat)) && Matches(pat, s)
    ensures MatchOf(pat, s).Accepts?
  {
    MatchDecides(pat, s);
    if StarFree(pat) {
      assert pat + "" == pat && s[..|s|] == s;
      forall m | 0 <= m < |s| ensures !Matches(pat, s[..m]) {
        LiteralStep(pat, "", s[..m]);
        LiteralStep(pat, "", s);
      }
    }
  }

  /** The reservation is real: a repeated ending is missed, and a missing literal
      after a star is an index out of range. */
  lemma MissedMatchAndFault()
    ensures Matches("*a", "aa") && MatchOf("*a", "aa").Rejects?
    ensures MatchOf("*a", "b").Faults?
  {
    assert "aa"[1..] == "a" && "a"[1..] == "" && "*a"[1..] == "a";
    assert Matches("a", "a") && Matches("*a", "a") && Matches("*a", "aa");
    assert "aa"[..1] == "a";
    MatchDecides("*a", "aa");
    assert SplitAfter("*a") == ["*", "a"];
    assert ["*", "a"][1..] == ["a"] && ["a"][1..] == [];
    assert "b"[1..] == "" && Find("", "a") == -1 && Find("b", "a") == -1;
    assert Find("aa", "a") == 0 by { assert "aa"[..1] == "a"; }
  }
}
