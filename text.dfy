/** The few Python `str` operations the orchestrator relies on: `strip()`, `in`,
    `startswith`, `split(sep, 1)`, `split('.')[-1]` and `lower()`. */
module Text {
  import opened Wrappers

  /** Python's `str.isspace()` for one character: the characters `str.strip()`
      removes when called without arguments. */
  predicate IsSpace(c: char) {
    var n := c as int;
    (9 <= n <= 13) || (0x1C <= n <= 0x20) || n == 0x85 || n == 0xA0 || n == 0x1680
    || (0x2000 <= n <= 0x200A) || n == 0x2028 || n == 0x2029 || n == 0x202F
    || n == 0x205F || n == 0x3000
  }

  /** A string that Python treats as false after `strip()`. */
  predicate IsBlank(s: string) {
    forall i :: 0 <= i < |s| ==> IsSpace(s[i])
  }

  function TrimStart(s: string): (r: string)
    ensures |r| <= |s| && r == s[|s| - |r|..]
    ensures forall i :: 0 <= i < |s| - |r| ==> IsSpace(s[i])
    ensures r != [] ==> !IsSpace(r[0])
  {
    if s != [] && IsSpace(s[0]) then TrimStart(s[1..]) else s
  }

  function TrimEnd(s: string): (r: string)
    ensures |r| <= |s| && r == s[..|r|]
    ensures forall i :: |r| <= i < |s| ==> IsSpace(s[i])
    ensures r != [] ==> !IsSpace(r[|r| - 1])
  {
    if s != [] && IsSpace(s[|s| - 1]) then TrimEnd(s[..|s| - 1]) else s
  }

  /** Python's `s.strip()`. */
  function Strip(s: string): (r: string)
    ensures |r| <= |s|
    ensures r == [] <==> IsBlank(s)
    ensures r != [] ==> !IsSpace(r[0]) && !IsSpace(r[|r| - 1])
  {
    TrimEnd(TrimStart(s))
  }

  lemma {:induction false} TrimStartOfBlankPrefix(a: string, m: string)
    requires IsBlank(a)
    requires m != [] && !IsSpace(m[0])
    ensures TrimStart(a + m) == m
    decreases |a|
  {
    var s := a + m;
    if a != [] {
      assert s[0] == a[0] && IsSpace(s[0]);
      assert s[1..] == a[1..] + m;
      assert IsBlank(a[1..]) by {
        forall i | 0 <= i < |a[1..]| ensures IsSpace(a[1..][i]) {
          assert a[1..][i] == a[i + 1];
        }
      }
      TrimStartOfBlankPrefix(a[1..], m);
      assert TrimStart(s) == TrimStart(s[1..]);
    } else {
      assert s == m;
      assert TrimStart(m) == m;
    }
  }

  lemma {:induction false} TrimEndOfBlankSuffix(m: string, b: string)
    requires IsBlank(b)
    requires m != [] && !IsSpace(m[|m| - 1])
    ensures TrimEnd(m + b) == m
    decreases |b|
  {
    var s := m + b;
    if b != [] {
      assert s[|s| - 1] == b[|b| - 1] && IsSpace(s[|s| - 1]);
      var init := b[..|b| - 1];
      assert IsBlank(init) by {
        forall i | 0 <= i < |init| ensures IsSpace(init[i]) {
          assert init[i] == b[i];
        }
      }
      assert s[..|s| - 1] == m + init;
      TrimEndOfBlankSuffix(m, init);
      assert TrimEnd(s) == TrimEnd(s[..|s| - 1]);
    } else {
      assert s == m;
      assert TrimEnd(m) == m;
    }
  }

  /** `strip()` removes exactly the blank margins around a text whose ends are not
      blank: this pins down Strip independently of how it is computed. */
  lemma StripOfPadded(a: string, m: string, b: string)
    requires IsBlank(a) && IsBlank(b)
    requires m != [] && !IsSpace(m[0]) && !IsSpace(m[|m| - 1])
    ensures Strip(a + m + b) == m
  {
    assert a + m + b == a + (m + b);
    TrimStartOfBlankPrefix(a, m + b);
    TrimEndOfBlankSuffix(m, b);
  }

  lemma StripOfLeading(a: string, m: string)
    requires IsBlank(a)
    requires m != [] && !IsSpace(m[0]) && !IsSpace(m[|m| - 1])
    ensures Strip(a + m) == m
  {
    assert a + m + [] == a + m;
    StripOfPadded(a, m, []);
  }

  /** Stripping twice is stripping once. */
  lemma StripIdempotent(s: string)
    ensures Strip(Strip(s)) == Strip(s)
  {
    var r := Strip(s);
    if r != [] {
      assert [] + r + [] == r;
      StripOfPadded([], r, []);
    }
  }

  /** `pat` occurs in `s` at position `i`. */
  predicate OccursAt(s: string, pat: string, i: int) {
    0 <= i && i + |pat| <= |s| && s[i..i + |pat|] == pat
  }

  /** Python's `pat in s`. */
  predicate Contains(s: string, pat: string) {
    exists i :: 0 <= i <= |s| && OccursAt(s, pat, i)
  }

  /** Python's `s.startswith(pat)`. */
  predicate StartsWith(s: string, pat: string) {
    |pat| <= |s| && s[..|pat|] == pat
  }

  /** Python's `s.endswith(pat)`. */
  predicate EndsWith(s: string, pat: string) {
    |pat| <= |s| && s[|s| - |pat|..] == pat
  }

  /** The first position at or after `from` where `pat` occurs. */
  function FindFrom(s: string, pat: string, from: nat): (r: Option<nat>)
    ensures r.Some? ==> from <= r.value && OccursAt(s, pat, r.value)
    ensures r.Some? ==> forall j :: from <= j < r.value ==> !OccursAt(s, pat, j)
    ensures r.None? ==> forall j :: from <= j ==> !OccursAt(s, pat, j)
    decreases |s| - from
  {
    if from + |pat| > |s| then None
    else if s[from..from + |pat|] == pat then Some(from)
    else FindFrom(s, pat, from + 1)
  }

  /** Python's `s.find(pat)`, with None for -1. */
  function Find(s: string, pat: string): (r: Option<nat>)
    ensures r.Some? <==> Contains(s, pat)
    ensures r.Some? ==> OccursAt(s, pat, r.value)
    ensures r.Some? ==> forall j :: 0 <= j < r.value ==> !OccursAt(s, pat, j)
  {
    FindFrom(s, pat, 0)
  }

  /** A pattern holding a character the text lacks cannot occur in it. */
  lemma MissingCharNotContained(s: string, pat: string, c: char)
    requires c in pat && c !in s
    ensures !Contains(s, pat)
  {
    var k :| 0 <= k < |pat| && pat[k] == c;
    forall i | 0 <= i <= |s| ensures !OccursAt(s, pat, i) {
      if i + |pat| <= |s| {
        assert s[i..i + |pat|][k] == s[i + k] != c;
      }
    }
  }

  /** Occurrences survive appending text on the right. */
  lemma ContainsExtend(s: string, t: string, pat: string)
    requires Contains(s, pat)
    ensures Contains(s + t, pat)
  {
    var i :| 0 <= i <= |s| && OccursAt(s, pat, i);
    assert (s + t)[i..i + |pat|] == s[i..i + |pat|];
    assert OccursAt(s + t, pat, i);
  }

  /** Occurrences survive prepending text on the left. */
  lemma ContainsPrepend(t: string, s: string, pat: string)
    requires Contains(s, pat)
    ensures Contains(t + s, pat)
  {
    var i :| 0 <= i <= |s| && OccursAt(s, pat, i);
    assert (t + s)[|t| + i..|t| + i + |pat|] == s[i..i + |pat|];
    assert OccursAt(t + s, pat, |t| + i);
  }

  /** Occurrences survive placing the text inside a longer one. */
  lemma ContainsInfix(a: string, m: string, b: string)
    ensures Contains(a + m + b, m)
  {
    assert (a + m + b)[|a|..|a| + |m|] == m;
    assert OccursAt(a + m + b, m, |a|);
  }

  /** Python's `s.split(c, 1)[0]` for a one-character separator: the text before
      the first `c`, or all of `s` when there is none. */
  function TakeUntil(s: string, c: char): (r: string)
    ensures r <= s
    ensures c !in r
    ensures |r| < |s| ==> s[|r|] == c
  {
    if s == [] || s[0] == c then [] else [s[0]] + TakeUntil(s[1..], c)
  }

  /** The text before the first `c` of `body + rest` is `body` when `body` has no
      `c` and `rest` is empty or starts with one. */
  lemma {:induction false} TakeUntilOfParts(body: string, rest: string, c: char)
    requires c !in body
    requires rest == [] || rest[0] == c
    ensures TakeUntil(body + rest, c) == body
    decreases |body|
  {
    if body != [] {
      assert (body + rest)[0] == body[0] != c;
      assert (body + rest)[1..] == body[1..] + rest;
      TakeUntilOfParts(body[1..], rest, c);
      assert [body[0]] + body[1..] == body;
    } else {
      assert body + rest == rest;
    }
  }

  /** Python's `s.split(c)[-1]`: the text after the last `c`, or all of `s`. */
  function AfterLast(s: string, c: char): (r: string)
    ensures |r| <= |s| && r == s[|s| - |r|..]
    ensures c !in r
    ensures |r| < |s| ==> s[|s| - |r| - 1] == c
  {
    if s == [] || s[|s| - 1] == c then [] else AfterLast(s[..|s| - 1], c) + [s[|s| - 1]]
  }

  /** The part after the last separator is the last component, whatever precedes it. */
  lemma {:induction false} AfterLastOfJoin(stem: string, c: char, last: string)
    requires c !in last
    ensures AfterLast(stem + [c] + last, c) == last
    decreases |last|
  {
    var s := stem + [c] + last;
    if last != [] {
      var init := last[..|last| - 1];
      assert s[..|s| - 1] == stem + [c] + init;
      AfterLastOfJoin(stem, c, init);
      assert init + [last[|last| - 1]] == last;
    }
  }

  /** Python's `str.lower()` on ASCII letters. */
  function Lower(s: string): (r: string)
    ensures |r| == |s|
    ensures forall i :: 0 <= i < |s| ==> r[i] == LowerChar(s[i])
  {
    seq(|s|, i requires 0 <= i < |s| => LowerChar(s[i]))
  }

  function LowerChar(c: char): char {
    if 'A' <= c <= 'Z' then (c as int - 'A' as int + 'a' as int) as char else c
  }

  /** Python's `str(n)` for a natural number. */
  function NatToString(n: nat): (r: string)
    ensures r != []
    ensures forall i :: 0 <= i < |r| ==> '0' <= r[i] <= '9'
    decreases n
  {
    var d := ['0' + (n % 10) as char];
    if n < 10 then d else NatToString(n / 10) + d
  }
}
