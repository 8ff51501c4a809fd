/** The text form of IPv6 addresses (RFC 5952 section 4). */
module Ipv6Text {
  import opened Bytes

  const WORDS := 8

  // ----- numbers -----

  function DigitChar(n: nat): char
    requires n < 16
  {
    if n < 10 then ('0' as int + n) as char else ('a' as int + n - 10) as char
  }

  /** Hexadecimal, in lower case and without leading zeros. */
  function Hex(n: nat): (s: string)
    ensures s != []
    decreases n
  {
    if n < 16 then [DigitChar(n)] else Hex(n / 16) + [DigitChar(n % 16)]
  }

  function Digit(c: char): Option<nat> {
    if '0' <= c <= '9' then Some(c as int - '0' as int)
    else if 'a' <= c <= 'f' then Some(c as int - 'a' as int + 10)
    else None
  }

  lemma {:induction false} DigitReadsBack(n: nat)
    requires n < 16
    ensures Digit(DigitChar(n)) == Some(n) && Digit(':') == None
  {
  }

  /** Reads digits as long as there are any. */
  function ReadHex(s: string, value: nat): (nat, string)
    decreases |s|
  {
    if s == [] || Digit(s[0]) == None then (value, s) else ReadHex(s[1..], value * 16 + Digit(s[0]).value)
  }

  predicate EndsNumber(tail: string) {
    tail == [] || tail[0] == ':'
  }

  function Shift(n: nat, value: nat): nat
    decreases n
  {
    if n < 16 then value * 16 + n else Shift(n / 16, value) * 16 + n % 16
  }

  lemma {:induction false} ShiftZero(n: nat)
    ensures Shift(n, 0) == n
    decreases n
  {
    if n >= 16 {
      ShiftZero(n / 16);
    }
  }

  lemma {:induction false} ReadsNumber(n: nat, tail: string, value: nat)
    ensures ReadHex(Hex(n) + tail, value) == ReadHex(tail, Shift(n, value))
    decreases n
  {
    if n < 16 {
      DigitReadsBack(n);
      assert (Hex(n) + tail)[1..] == tail;
    } else {
      var last := [DigitChar(n % 16)] + tail;
      assert Hex(n) + tail == Hex(n / 16) + last;
      ReadsNumber(n / 16, last, value);
      DigitReadsBack(n % 16);
      assert last[1..] == tail;
    }
  }

  // ----- groups -----

  /** Numbers with colons between them. */
  function Join(ws: seq<uint16>): string
    decreases |ws|
  {
    if ws == [] then [] else Hex(ws[0]) + (if |ws| > 1 then ":" + Join(ws[1..]) else [])
  }

  /** Reads groups until there is no further one. */
  function ParseGroups(s: string): (seq<nat>, string)
    decreases |s|
  {
    if s == [] || Digit(s[0]) == None then ([], s)
    else
      var (value, rest) := ReadHex(s, 0);
      if |rest| >= |s| then ([value], rest)
      else if |rest| >= 2 && rest[0] == ':' && rest[1] != ':' then
        var (values, end) := ParseGroups(rest[1..]);
        ([value] + values, end)
      else ([value], rest)
  }

  function Zeros(n: nat): (z: seq<nat>)
    ensures |z| == n && forall i :: 0 <= i < n ==> z[i] == 0
  {
    seq(n, i => 0)
  }

  /** A reader of the text form: the gap stands for as many zero words as are missing. */
  function Parse(s: string): Option<seq<nat>> {
    var (first, rest) := ParseGroups(s);
    if rest == [] then (if |first| == WORDS then Some(first) else None)
    else if |rest| >= 2 && rest[..2] == "::" then
      var (last, end) := ParseGroups(rest[2..]);
      if end == [] && |first| + |last| < WORDS then Some(first + Zeros(WORDS - |first| - |last|) + last) else None
    else None
  }

  lemma {:induction false} FirstDigit(n: nat)
    ensures Digit(Hex(n)[0]) != None
    decreases n
  {
    if n < 16 {
      DigitReadsBack(n);
    } else {
      FirstDigit(n / 16);
    }
  }

  lemma {:induction false} ReadsGroup(w: uint16, tail: string)
    requires EndsNumber(tail)
    ensures ReadHex(Hex(w) + tail, 0) == (w, tail)
  {
    ReadsNumber(w, tail, 0);
    ShiftZero(w);
    DigitReadsBack(0);
  }

  /** After the groups the text ends, or the gap comes. */
  predicate EndsGroups(tail: string) {
    tail == [] || (|tail| >= 2 && tail[0] == ':' && tail[1] == ':')
  }

  lemma {:induction false} ReadsGroups(ws: seq<uint16>, tail: string)
    requires EndsGroups(tail)
    ensures ParseGroups(Join(ws) + tail) == (ws, tail)
    decreases |ws|
  {
    if ws == [] {
      DigitReadsBack(0);
      assert Join(ws) + tail == tail;
    } else {
      var after := (if |ws| > 1 then ":" + Join(ws[1..]) else []) + tail;
      assert Join(ws) + tail == Hex(ws[0]) + after;
      FirstDigit(ws[0]);
      ReadsGroup(ws[0], after);
      if |ws| > 1 {
        ReadsGroups(ws[1..], tail);
        MoreGroups(ws, tail, after);
      } else {
        assert after == tail && ws == [ws[0]];
      }
    }
  }

  lemma {:induction false} MoreGroups(ws: seq<uint16>, tail: string, after: string)
    requires |ws| > 1 && after == ":" + Join(ws[1..]) + tail
    ensures after[1..] == Join(ws[1..]) + tail && after[0] == ':' && after[1] != ':'
    ensures ws == [ws[0]] + ws[1..]
  {
    FirstDigit(ws[1]);
    DigitReadsBack(0);
    assert after[1] == Hex(ws[1])[0];
  }

  // ----- the longest run of zero words -----

  predicate IsRun(w: seq<uint16>, start: int, length: int) {
    0 <= start && 0 <= length && start + length <= |w| && forall k :: start <= k < start + length ==> w[k] == 0
  }

  /** The leftmost of the longest runs. */
  ghost predicate IsBestRun(w: seq<uint16>, start: int, length: int) {
    && IsRun(w, start, length)
    && forall s, l :: IsRun(w, s, l) ==> l < length || (l == length && (start <= s || length == 0))
  }

  method LongestRun(w: seq<uint16>) returns (start: int, length: int)
    ensures length > 0 ==> IsBestRun(w, start, length)
    ensures length <= 0 ==> start == -1 && length == 0 && forall k :: 0 <= k < |w| ==> w[k] != 0
  {
    var current, run := -1, 0;
    start, length := -1, 0;
    for i := 0 to |w|
      invariant current < 0 ==> current == -1 && run == 0 && (i > 0 ==> w[i - 1] != 0)
      invariant current >= 0 ==> run > 0 && IsRun(w, current, run) && current + run == i && (current > 0 ==> w[current - 1] != 0)
      invariant run <= length && (length == 0 ==> start == -1)
      invariant length > 0 ==> IsRun(w, start, length) && start + length <= i
      invariant length == 0 ==> forall k :: 0 <= k < i ==> w[k] != 0
      invariant forall s, l :: IsRun(w, s, l) && l > 0 && s + l <= i ==> l < length || (l == length && start <= s)
    {
      if w[i] == 0 {
        if current < 0 {
          current := i;
          run := 0;
        }
        run := run + 1;
        if run > length {
          start := current;
          length := run;
        }
      } else {
        current := -1;
        run := 0;
      }
    }
  }

  // ----- formatting -----

  /** A run of one zero word is written out. */
  function Format(w: seq<uint16>, start: int, length: int): string
    requires length >= 2 ==> IsRun(w, start, length)
  {
    if length >= 2 then Join(w[..start]) + "::" + Join(w[start + length..]) else Join(w)
  }

  function Words(addr: seq<uint8>): (w: seq<uint16>)
    requires |addr| == 2 * WORDS
    ensures |w| == WORDS
  {
    seq(WORDS, i requires 0 <= i < WORDS => addr[2 * i] as int * 0x100 + addr[2 * i + 1] as int)
  }

  /** What is still to be written from word `i` on; `start` is -1 when no run is left out. */
  function Rest(w: seq<uint16>, start: int, length: int, i: nat, needColon: bool): string
    requires start >= 0 ==> length > 0
    decreases |w| - i
  {
    if i >= |w| then []
    else if i == start then "::" + Rest(w, start, length, i + length, false)
    else (if needColon then ":" else []) + (Hex(w[i]) + Rest(w, start, length, i + 1, true))
  }

  lemma {:induction false} RestIsJoin(w: seq<uint16>, start: int, length: int, i: nat, needColon: bool)
    requires (start >= 0 ==> length > 0) && start < i <= |w|
    ensures Rest(w, start, length, i, needColon) == (if needColon && i < |w| then ":" else []) + Join(w[i..])
    decreases |w| - i
  {
    if i < |w| {
      RestIsJoin(w, start, length, i + 1, true);
      assert w[i..][1..] == w[i + 1..];
    }
  }

  lemma {:induction false} RestBeforeGap(w: seq<uint16>, start: int, length: int, i: nat, needColon: bool, tail: string)
    requires length > 0 && i <= start < |w| && tail == Rest(w, start, length, start, false)
    ensures Rest(w, start, length, i, needColon) ==
            (if needColon && i < start then ":" else []) + (Join(w[i..start]) + tail)
    decreases start - i
  {
    if i < start {
      RestBeforeGap(w, start, length, i + 1, true, tail);
      var group, later := Hex(w[i]), Join(w[i + 1..start]);
      assert w[i..start][1..] == w[i + 1..start];
      assert Join(w[i..start]) == group + (if i + 1 < start then ":" + later else []);
      assert i + 1 == start ==> later == [];
    }
  }

  lemma {:induction false} RestIsFormat(w: seq<uint16>, start: int, length: int)
    requires if start < 0 then length < 2 else length >= 2 && IsRun(w, start, length)
    ensures Rest(w, start, length, 0, false) == Format(w, start, length)
  {
    if start < 0 {
      RestIsJoin(w, start, length, 0, false);
      assert w[0..] == w;
    } else {
      RestIsJoin(w, start, length, start + length, false);
      RestBeforeGap(w, start, length, 0, false, "::" + Join(w[start + length..]));
      assert w[0..start] == w[..start];
    }
  }

  lemma {:induction false} RestGap(out: string, w: seq<uint16>, start: int, length: int, needColon: bool)
    requires 0 <= start < |w| && length > 0
    ensures out + Rest(w, start, length, start, needColon) == (out + "::") + Rest(w, start, length, start + length, false)
  {
  }

  lemma {:induction false} RestGroup(out: string, w: seq<uint16>, start: int, length: int, i: nat, needColon: bool)
    requires (start >= 0 ==> length > 0) && i < |w| && i != start
    ensures var colon := if needColon then ":" else [];
      out + Rest(w, start, length, i, needColon) == (out + colon + Hex(w[i])) + Rest(w, start, length, i + 1, true)
  {
    Regroup(out, if needColon then ":" else [], Hex(w[i]), Rest(w, start, length, i + 1, true));
  }

  lemma {:induction false} Regroup(a: string, b: string, c: string, d: string)
    ensures a + (b + (c + d)) == (a + b + c) + d
  {
  }

  method FormatWords(w: seq<uint16>, start: int, length: int) returns (out: string)
    requires if start < 0 then length < 2 else length >= 2 && IsRun(w, start, length)
    ensures out == Format(w, start, length)
  {
    out := [];
    var needColon := false;
    var i := 0;
    while i < |w|
      invariant 0 <= i && out + Rest(w, start, length, i, needColon) == Rest(w, start, length, 0, false)
      decreases |w| - i
    {
      if i == start {
        RestGap(out, w, start, length, needColon);
        out := out + "::";
        i := i + length;
        needColon := false;
      } else {
        RestGroup(out, w, start, length, i, needColon);
        if needColon {
          out := out + ":";
        }
        out := out + Hex(w[i]);
        needColon := true;
        i := i + 1;
      }
    }
    RestIsFormat(w, start, length);
  }

  method FormatIpv6(addr: seq<uint8>) returns (out: string, ghost start: int, ghost length: int)
    requires |addr| == 2 * WORDS
    ensures length >= 2 ==> IsBestRun(Words(addr), start, length)
    ensures length < 2 ==> forall s, l :: IsRun(Words(addr), s, l) ==> l < 2
    ensures out == Format(Words(addr), start, length)
    ensures Parse(out) == Some(Words(addr))
  {
    var w := Words(addr);
    var zs, zl := LongestRun(w);
    if zl < 2 {
      zs := -1;
    }
    forall s, l | zl < 2 && IsRun(w, s, l)
      ensures l < 2
    {
      assert l > 0 ==> w[s] == 0;
    }
    out := FormatWords(w, zs, zl);
    start, length := zs, zl;
    ParseFormat(w, zs, zl);
  }

  lemma {:induction false} ParseGap(first: seq<uint16>, last: seq<uint16>)
    requires |first| + |last| < WORDS
    ensures Parse(Join(first) + ("::" + Join(last))) == Some(first + Zeros(WORDS - |first| - |last|) + last)
  {
    var tail := "::" + Join(last);
    ReadsGroups(first, tail);
    assert tail[2..] == Join(last) + [] && tail[..2] == "::";
    ReadsGroups(last, []);
  }

  lemma {:induction false} GapIsZeros(w: seq<uint16>, start: int, length: int)
    requires |w| == WORDS && IsRun(w, start, length)
    ensures w[..start] + Zeros(WORDS - start - (WORDS - start - length)) + w[start + length..] == w
  {
  }

  /** Whatever run is left out, the text determines the address. */
  lemma {:induction false} ParseFormat(w: seq<uint16>, start: int, length: int)
    requires |w| == WORDS && (length >= 2 ==> IsRun(w, start, length))
    ensures Parse(Format(w, start, length)) == Some(w)
  {
    if length >= 2 {
      var first, last := w[..start], w[start + length..];
      assert Format(w, start, length) == Join(first) + ("::" + Join(last));
      ParseGap(first, last);
      GapIsZeros(w, start, length);
    } else {
      assert Join(w) + [] == Join(w);
      ReadsGroups(w, []);
    }
  }

  lemma {:induction false} WordsDetermine(a: seq<uint8>, b: seq<uint8>)
    requires |a| == |b| == 2 * WORDS && Words(a) == Words(b)
    ensures a == b
  {
    forall k | 0 <= k < 2 * WORDS
      ensures a[k] == b[k]
    {
      assert Words(a)[k / 2] == Words(b)[k / 2];
    }
  }

  /** Addresses with the same text are the same. */
  lemma {:induction false} TextDetermines(a: seq<uint8>, sa: int, la: int, b: seq<uint8>, sb: int, lb: int)
    requires |a| == |b| == 2 * WORDS
    requires (la >= 2 ==> IsRun(Words(a), sa, la)) && (lb >= 2 ==> IsRun(Words(b), sb, lb))
    requires Format(Words(a), sa, la) == Format(Words(b), sb, lb)
    ensures a == b
  {
    ParseFormat(Words(a), sa, la);
    ParseFormat(Words(b), sb, lb);
    WordsDetermine(a, b);
  }
}
