/** The wildcard matcher: '*' stands for any text and '?' for any character. */
module Wildcard {

  /** The texts a pattern denotes. */
  ghost predicate Denotes(pattern: string, text: string)
    decreases |pattern|
  {
    if pattern == [] then text == []
    else if pattern[0] == '*' then exists k :: 0 <= k <= |text| && Denotes(pattern[1..], text[k..])
    else text != [] && Fits(pattern[0], text[0]) && Denotes(pattern[1..], text[1..])
  }

  predicate Fits(p: char, c: char) {
    p == '?' || p == c
  }

  predicate StarFree(s: string) {
    '*' !in s
  }

  /** What the matcher is for, and the one liberty it takes: a pattern without '*' may stop short of the text's end. */
  ghost predicate Accepts(pattern: string, text: string) {
    Denotes(pattern, text) || (StarFree(pattern) && exists k :: 0 <= k <= |text| && Denotes(pattern, text[..k]))
  }

  /** The scan from text position `i` and pattern position `j`; `star` is the last '*' passed, or -1, and
      `from` the text position where what follows that '*' is being tried. */
  function Scan(text: string, pattern: string, i: nat, j: nat, star: int, from: nat): bool
    requires i <= |text| && -1 <= star < j <= |pattern| && from <= i
    decreases |pattern| - star, |text| - from, |text| - i
  {
    if i == |text| then OnlyStars(pattern, j)
    else if j < |pattern| && Fits(pattern[j], text[i]) then Scan(text, pattern, i + 1, j + 1, star, from)
    else if j < |pattern| && pattern[j] == '*' then Scan(text, pattern, i, j + 1, j, i)
    else if star != -1 then Scan(text, pattern, from + 1, star + 1, star, from + 1)
    else OnlyStars(pattern, j)
  }

  /** The pattern has nothing but '*' from `j` on. */
  function OnlyStars(pattern: string, j: nat): bool
    requires j <= |pattern|
    decreases |pattern| - j
  {
    j == |pattern| || (pattern[j] == '*' && OnlyStars(pattern, j + 1))
  }

  method WildcardMatch(str: string, pattern: string) returns (matches: bool)
    requires |str| < 0x1_0000 && |pattern| < 0x1_0000
    ensures matches == Scan(str, pattern, 0, 0, -1, 0)
  {
    var starIdx := -1;
    var matchIdx, i, j := 0, 0, 0;
    while i < |str|
      invariant 0 <= matchIdx <= i <= |str| && -1 <= starIdx < j <= |pattern|
      invariant Scan(str, pattern, i, j, starIdx, matchIdx) == Scan(str, pattern, 0, 0, -1, 0)
      decreases |pattern| - starIdx, |str| - matchIdx, |str| - i
    {
      if j < |pattern| && (pattern[j] == '?' || str[i] == pattern[j]) {
        i, j := i + 1, j + 1;
      } else if j < |pattern| && pattern[j] == '*' {
        starIdx, j := j, j + 1;
        matchIdx := i;
      } else if starIdx != -1 {
        j := starIdx + 1;
        matchIdx := matchIdx + 1;
        i := matchIdx;
      } else {
        break;
      }
    }
    assert Scan(str, pattern, 0, 0, -1, 0) == OnlyStars(pattern, j);
    while j < |pattern| && pattern[j] == '*'
      invariant 0 <= j <= |pattern| && OnlyStars(pattern, j) == Scan(str, pattern, 0, 0, -1, 0)
    {
      j := j + 1;
    }
    matches := j == |pattern|;
  }

  // ----- parts of patterns -----

  /** A star-free pattern denotes texts of its own length, character by character. */
  ghost predicate Literal(q: string, u: string) {
    |q| == |u| && forall k :: 0 <= k < |q| ==> q[k] != '*' && Fits(q[k], u[k])
  }

  lemma {:induction false} LiteralFirst(q: string, r: string, text: string)
    requires StarFree(q)
    ensures Denotes(q + r, text) <==>
            |q| <= |text| && Literal(q, text[..|q|]) && Denotes(r, text[|q|..])
    decreases |q|
  {
    if q == [] {
      assert q + r == r && text[0..] == text;
    } else {
      assert (q + r)[1..] == q[1..] + r && q[0] != '*' && (q + r)[0] == q[0];
      if text != [] {
        LiteralFirst(q[1..], r, text[1..]);
        if |q| <= |text| {
          assert text[1..][..|q| - 1] == text[..|q|][1..] && text[1..][|q| - 1..] == text[|q|..];
          LiteralStep(q, text[..|q|]);
        }
      }
    }
  }

  lemma {:induction false} LiteralStep(q: string, u: string)
    requires q != [] && |q| == |u|
    ensures Literal(q, u) <==> q[0] != '*' && Fits(q[0], u[0]) && Literal(q[1..], u[1..])
  {
    if q[0] != '*' && Fits(q[0], u[0]) && Literal(q[1..], u[1..]) {
      forall k | 0 <= k < |q|
        ensures q[k] != '*' && Fits(q[k], u[k])
      {
        if k > 0 {
          assert q[k] == q[1..][k - 1] && u[k] == u[1..][k - 1];
        }
      }
    }
  }

  lemma {:induction false} LiteralIsStarFree(q: string, u: string)
    requires Literal(q, u)
    ensures StarFree(q)
  {
  }

  /** The rest of the pattern denotes some end of the text, at `from` or later. */
  ghost predicate Later(q: string, text: string, from: nat)
    requires from <= |text|
  {
    exists k :: from <= k <= |text| && Denotes(q, text[k..])
  }

  lemma {:induction false} StarIsLater(q: string, text: string, from: nat)
    requires from <= |text| && q != [] && q[0] == '*'
    ensures Denotes(q, text[from..]) <==> Later(q[1..], text, from)
  {
    var rest := text[from..];
    if k :| 0 <= k <= |rest| && Denotes(q[1..], rest[k..]) {
      assert rest[k..] == text[from + k..];
    }
    if k :| from <= k <= |text| && Denotes(q[1..], text[k..]) {
      assert rest[k - from..] == text[k..];
    }
  }

  lemma {:induction false} OnlyStarsDenoteNothing(pattern: string, j: nat)
    requires j <= |pattern|
    ensures OnlyStars(pattern, j) <==> Denotes(pattern[j..], [])
    decreases |pattern| - j
  {
    if j < |pattern| {
      OnlyStarsDenoteNothing(pattern, j + 1);
      assert pattern[j..][1..] == pattern[j + 1..];
      var nothing: string := [];
      assert nothing[0..] == nothing;
      if pattern[j] == '*' && Denotes(pattern[j + 1..], nothing) {
        assert Denotes(pattern[j..][1..], nothing[0..]);
      }
    }
  }

  // ----- the invariant of the scan, and its end -----

  ghost predicate Scanning(text: string, pattern: string, i: nat, j: nat, star: int, from: nat) {
    && i <= |text| && -1 <= star < j <= |pattern| && from <= i
    && i - from == j - star - 1
    && Literal(pattern[star + 1..j], text[from..i])
    && (if star == -1 then from == 0 else pattern[star] == '*')
  }

  /** What is still to be decided: without a '*' so far the whole question, and after one what follows it. */
  ghost predicate Goal(text: string, pattern: string, star: int, from: nat)
    requires -1 <= star < |pattern| || star == -1
    requires from <= |text|
  {
    if star == -1 then Accepts(pattern, text) else Later(pattern[star + 1..], text, from)
  }

  /** Whether `pattern[a..]` denotes the text from `k` on, cut at pattern position `j`. */
  lemma {:induction false} CutAt(text: string, pattern: string, a: nat, j: nat, k: nat)
    requires a <= j <= |pattern| && k <= |text| && StarFree(pattern[a..j])
    ensures Denotes(pattern[a..], text[k..]) <==>
            && k + (j - a) <= |text| && Literal(pattern[a..j], text[k..k + (j - a)])
            && Denotes(pattern[j..], text[k + (j - a)..])
  {
    assert pattern[a..j] + pattern[j..] == pattern[a..];
    LiteralFirst(pattern[a..j], pattern[j..], text[k..]);
    if k + (j - a) <= |text| {
      assert text[k..][..j - a] == text[k..k + (j - a)] && text[k..][j - a..] == text[k + (j - a)..];
    }
  }

  /** A pattern without '*' denotes texts of its own length only. */
  lemma {:induction false} StarFreeLength(pattern: string, text: string)
    requires StarFree(pattern)
    ensures Denotes(pattern, text) <==> Literal(pattern, text)
  {
    assert pattern + [] == pattern;
    LiteralFirst(pattern, [], text);
    if |pattern| == |text| {
      assert text[..|pattern|] == text;
    }
  }

  lemma {:induction false} EndWithoutStar(text: string, pattern: string, j: nat)
    requires Scanning(text, pattern, |text|, j, -1, 0)
    ensures Accepts(pattern, text) <==> Denotes(pattern[j..], [])
  {
    assert pattern[0..] == pattern && text[0..] == text && text[|text|..] == [];
    LiteralIsStarFree(pattern[0..j], text[0..]);
    CutAt(text, pattern, 0, j, 0);
    if StarFree(pattern) {
      forall k | 0 <= k <= |text| && Denotes(pattern, text[..k])
        ensures Denotes(pattern, text)
      {
        StarFreeLength(pattern, text[..k]);
        assert text[..k] == text;
      }
    }
  }

  lemma {:induction false} StopWithoutStar(text: string, pattern: string, i: nat, j: nat)
    requires Scanning(text, pattern, i, j, -1, 0) && i < |text|
    requires j < |pattern| ==> pattern[j] != '*' && !Fits(pattern[j], text[i])
    ensures Accepts(pattern, text) <==> j == |pattern|
  {
    assert pattern[0..j] == pattern[..j] && text[0..i] == text[..i];
    LiteralIsStarFree(pattern[..j], text[..i]);
    if j == |pattern| {
      assert pattern[..j] == pattern;
      StarFreeLength(pattern, text[..i]);
    } else {
      RejectsAll(text, pattern, j);
    }
  }

  lemma {:induction false} RejectsAll(text: string, pattern: string, j: nat)
    requires j < |pattern| && j < |text| && StarFree(pattern[..j])
    requires pattern[j] != '*' && !Fits(pattern[j], text[j])
    ensures !Accepts(pattern, text)
  {
    assert pattern[0..] == pattern && pattern[0..j] == pattern[..j] && text[0..] == text;
    CutAt(text, pattern, 0, j, 0);
    forall k | 0 <= k <= |text|
      ensures !Denotes(pattern, text[..k])
    {
      assert text[..k][0..] == text[..k];
      CutAt(text[..k], pattern, 0, j, 0);
    }
  }

  lemma {:induction false} FirstStar(text: string, pattern: string, i: nat, j: nat)
    requires Scanning(text, pattern, i, j, -1, 0) && j < |pattern| && pattern[j] == '*'
    ensures Accepts(pattern, text) <==> Later(pattern[j + 1..], text, i)
  {
    assert pattern[0..] == pattern && pattern[0..j] == pattern[..j] && text[0..] == text && text[0..i] == text[..i];
    LiteralIsStarFree(pattern[..j], text[..i]);
    CutAt(text, pattern, 0, j, 0);
    StarIsLater(pattern[j..], text, i);
    assert pattern[j..][1..] == pattern[j + 1..];
  }

  lemma {:induction false} EndAfterStar(text: string, pattern: string, j: nat, star: nat, from: nat)
    requires Scanning(text, pattern, |text|, j, star, from)
    ensures Later(pattern[star + 1..], text, from) <==> Denotes(pattern[j..], [])
  {
    LiteralIsStarFree(pattern[star + 1..j], text[from..|text|]);
    CutAt(text, pattern, star + 1, j, from);
    assert text[|text|..] == [];
    forall k | from <= k <= |text| && Denotes(pattern[star + 1..], text[k..])
      ensures k == from
    {
      CutAt(text, pattern, star + 1, j, k);
    }
  }

  lemma {:induction false} NextStar(text: string, pattern: string, i: nat, j: nat, star: nat, from: nat)
    requires Scanning(text, pattern, i, j, star, from) && j < |pattern| && pattern[j] == '*'
    ensures Later(pattern[star + 1..], text, from) <==> Later(pattern[j + 1..], text, i)
  {
    LiteralIsStarFree(pattern[star + 1..j], text[from..i]);
    assert pattern[j..][1..] == pattern[j + 1..];
    CutAt(text, pattern, star + 1, j, from);
    StarIsLater(pattern[j..], text, i);
    forall k | from <= k <= |text| && Denotes(pattern[star + 1..], text[k..])
      ensures Later(pattern[j + 1..], text, i)
    {
      StarAfter(text, pattern, j, star, k);
    }
  }

  /** What a text denoted from `k` on leaves after the '*' at `j` starts no earlier than `k` allows. */
  lemma {:induction false} StarAfter(text: string, pattern: string, j: nat, star: nat, k: nat)
    requires star < j < |pattern| && k <= |text| && StarFree(pattern[star + 1..j]) && pattern[j] == '*'
    requires Denotes(pattern[star + 1..], text[k..])
    ensures k + (j - star - 1) <= |text| && Later(pattern[j + 1..], text, k + (j - star - 1))
  {
    CutAt(text, pattern, star + 1, j, k);
    StarIsLater(pattern[j..], text, k + (j - star - 1));
    assert pattern[j..][1..] == pattern[j + 1..];
  }

  lemma {:induction false} TryNext(text: string, pattern: string, i: nat, j: nat, star: nat, from: nat)
    requires Scanning(text, pattern, i, j, star, from) && i < |text|
    requires j < |pattern| ==> pattern[j] != '*' && !Fits(pattern[j], text[i])
    ensures Later(pattern[star + 1..], text, from) <==> Later(pattern[star + 1..], text, from + 1)
  {
    LiteralIsStarFree(pattern[star + 1..j], text[from..i]);
    CutAt(text, pattern, star + 1, j, from);
  }

  // ----- the matcher is right for texts without '*', and only for those -----

  lemma {:induction false} LiteralGrows(text: string, pattern: string, i: nat, j: nat, star: int, from: nat)
    requires Scanning(text, pattern, i, j, star, from) && i < |text| && j < |pattern|
    requires Fits(pattern[j], text[i]) && text[i] != '*'
    ensures Scanning(text, pattern, i + 1, j + 1, star, from)
  {
    assert pattern[star + 1..j + 1] == pattern[star + 1..j] + [pattern[j]];
    assert text[from..i + 1] == text[from..i] + [text[i]];
  }

  lemma {:induction false} ScanDecides(text: string, pattern: string, i: nat, j: nat, star: int, from: nat)
    requires StarFree(text) && Scanning(text, pattern, i, j, star, from)
    ensures Scan(text, pattern, i, j, star, from) <==> Goal(text, pattern, star, from)
    decreases |pattern| - star, |text| - from, |text| - i
  {
    OnlyStarsDenoteNothing(pattern, j);
    if i == |text| {
      if star == -1 {
        EndWithoutStar(text, pattern, j);
      } else {
        EndAfterStar(text, pattern, j, star, from);
      }
    } else if j < |pattern| && Fits(pattern[j], text[i]) {
      LiteralGrows(text, pattern, i, j, star, from);
      ScanDecides(text, pattern, i + 1, j + 1, star, from);
    } else if j < |pattern| && pattern[j] == '*' {
      if star == -1 {
        FirstStar(text, pattern, i, j);
      } else {
        NextStar(text, pattern, i, j, star, from);
      }
      ScanDecides(text, pattern, i, j + 1, j, i);
    } else if star != -1 {
      TryNext(text, pattern, i, j, star, from);
      ScanDecides(text, pattern, from + 1, star + 1, star, from + 1);
    } else {
      StopWithoutStar(text, pattern, i, j);
    }
  }

  /** For a text without '*' the matcher accepts exactly what the pattern accepts. */
  lemma {:induction false} MatcherIsRight(text: string, pattern: string)
    requires StarFree(text)
    ensures Scan(text, pattern, 0, 0, -1, 0) <==> Accepts(pattern, text)
  {
    ScanDecides(text, pattern, 0, 0, -1, 0);
  }

  function Questions(n: nat): (q: string)
    ensures |q| == n && forall k :: 0 <= k < n ==> q[k] == '?'
  {
    seq(n, i => '?')
  }

  /** `u`, a '*', and one '?' more than there are characters after the '*' of the text. */
  function Trap(u: string, v: string): string {
    u + "*" + Questions(|v| + 1)
  }

  lemma {:induction false} TrapDenotes(u: string, v: string)
    requires StarFree(u)
    ensures Denotes(Trap(u, v), u + "*" + v)
  {
    var text, rest, q := u + "*" + v, "*" + v, Questions(|v| + 1);
    assert u + ("*" + q) == Trap(u, v) && text[..|u|] == u && text[|u|..] == rest;
    LiteralFirst(u, "*" + q, text);
    StarFreeLength(q, rest);
    assert ("*" + q)[1..] == q && rest[0..] == rest;
    assert Denotes("*" + q, rest);
  }

  /** The scan takes the '*' of the text for the '*' of the pattern, and then runs out of text. */
  lemma {:induction false} TrapScans(u: string, v: string, i: nat)
    requires StarFree(u) && i <= |u| + 1 + |v|
    ensures !Scan(u + "*" + v, Trap(u, v), i, i, -1, 0)
    decreases |u| + 1 + |v| - i
  {
    var text, trap := u + "*" + v, Trap(u, v);
    if i < |text| {
      assert Fits(trap[i], text[i]);
      TrapScans(u, v, i + 1);
    } else {
      assert trap[i] == '?';
    }
  }

  lemma {:induction false} FirstStarOf(text: string) returns (u: string, v: string)
    requires !StarFree(text)
    ensures StarFree(u) && text == u + "*" + v
    decreases |text|
  {
    if text[0] == '*' {
      u, v := [], text[1..];
    } else {
      u, v := FirstStarOf(text[1..]);
      u := [text[0]] + u;
    }
  }

  /** The matcher is right about a text for every pattern if and only if the text has no '*'. */
  lemma {:induction false} MatcherIsRightWithoutStars(text: string)
    ensures StarFree(text) <==> forall pattern :: Scan(text, pattern, 0, 0, -1, 0) <==> Accepts(pattern, text)
  {
    if StarFree(text) {
      forall pattern
        ensures Scan(text, pattern, 0, 0, -1, 0) <==> Accepts(pattern, text)
      {
        MatcherIsRight(text, pattern);
      }
    } else {
      var u, v := FirstStarOf(text);
      TrapDenotes(u, v);
      TrapScans(u, v, 0);
      assert Accepts(Trap(u, v), text) && !Scan(text, Trap(u, v), 0, 0, -1, 0);
    }
  }
}
