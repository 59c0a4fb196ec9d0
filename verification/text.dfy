/** The string operations the workflow code relies on, written with the
    semantics of the language each caller is written in:
    - JavaScript `String.prototype.replace` with a string pattern (first
      occurrence only, with `$`-pattern expansion of the replacement),
    - Python `str.replace` (every non-overlapping occurrence),
    - Python `str.split(sep)[-1]` and `str.strip()`,
    - decimal rendering of numbers inside template literals and f-strings. */
module Text {
  import opened Base

  /** `p` occurs in `s` starting at index `i`. */
  predicate MatchesAt(s: string, p: string, i: int) {
    0 <= i && i + |p| <= |s| && s[i..i + |p|] == p
  }

  /** Index of the first occurrence of `p` in `s` at or after `from`. */
  function Find(s: string, p: string, from: nat): (r: Option<nat>)
    ensures r.Some? ==> from <= r.value && MatchesAt(s, p, r.value)
    decreases |s| - from
  {
    if from + |p| > |s| then None
    else if MatchesAt(s, p, from) then Some(from)
    else Find(s, p, from + 1)
  }

  /** `Find` misses no occurrence: none lies between `from` and the index it
      returns. */
  lemma {:induction false} FindIsFirst(s: string, p: string, from: nat)
    requires Find(s, p, from).Some?
    ensures forall j :: from <= j < Find(s, p, from).value ==> !MatchesAt(s, p, j)
    decreases |s| - from
  {
    if !MatchesAt(s, p, from) {
      FindIsFirst(s, p, from + 1);
    }
  }

  /** When `Find` returns nothing, `p` occurs nowhere at or after `from`. */
  lemma {:induction false} FindNoneIsAbsent(s: string, p: string, from: nat)
    requires Find(s, p, from).None?
    ensures forall j :: from <= j ==> !MatchesAt(s, p, j)
    decreases |s| - from
  {
    if from + |p| <= |s| {
      FindNoneIsAbsent(s, p, from + 1);
    }
  }

  /** Conversely, with no occurrence at or after `from`, `Find` returns
      nothing. */
  lemma {:induction false} FindNoneWhenAbsent(s: string, p: string, from: nat)
    requires forall j :: from <= j ==> !MatchesAt(s, p, j)
    ensures Find(s, p, from).None?
    decreases |s| - from
  {
    if from + |p| <= |s| {
      FindNoneWhenAbsent(s, p, from + 1);
    }
  }

  /** JavaScript `s.includes(p)` and Python `p in s`. */
  predicate Contains(s: string, p: string) {
    Find(s, p, 0).Some?
  }

  lemma ContainsIff(s: string, p: string)
    ensures Contains(s, p) <==> exists i :: MatchesAt(s, p, i)
  {
    if !Contains(s, p) {
      FindNoneIsAbsent(s, p, 0);
    }
  }

  /** GetSubstitution of the ECMAScript standard for a string pattern (no
      capture groups): `$$` is a dollar sign, `$&` the matched text, `$``
      the text before the match, `$'` the text after it; every other `$`
      (including `$1` and `$<`) is kept literally. */
  function Substitution(template: string, matched: string, before: string, after: string): (r: string)
    ensures '$' !in template ==> r == template
    decreases |template|
  {
    if |template| == 0 then ""
    else if template[0] == '$' && |template| >= 2 then
      var c := template[1];
      if c == '$' then "$" + Substitution(template[2..], matched, before, after)
      else if c == '&' then matched + Substitution(template[2..], matched, before, after)
      else if c == '`' then before + Substitution(template[2..], matched, before, after)
      else if c == '\'' then after + Substitution(template[2..], matched, before, after)
      else "$" + Substitution(template[1..], matched, before, after)
    else
      assert '$' !in template ==> '$' !in template[1..] by {
        if '$' in template[1..] {
          var k :| 0 <= k < |template[1..]| && template[1..][k] == '$';
          assert template[k + 1] == '$';
        }
      }
      [template[0]] + Substitution(template[1..], matched, before, after)
  }

  /** JavaScript `s.replace(p, r)` with string arguments: only the first
      occurrence of `p` is replaced, and `r` goes through `Substitution`. */
  function JsReplaceFirst(s: string, p: string, r: string): (out: string)
    ensures !Contains(s, p) ==> out == s
  {
    match Find(s, p, 0)
    case None => s
    case Some(i) =>
      var tail := s[i + |p|..];
      s[..i] + Substitution(r, p, s[..i], tail) + tail
  }

  /** With a replacement free of `$`, the first occurrence is replaced by
      the replacement text itself and nothing else changes. */
  lemma JsReplaceFirstLiteral(s: string, p: string, r: string)
    requires '$' !in r
    requires Contains(s, p)
    ensures var i := Find(s, p, 0).value;
      && (forall j :: 0 <= j < i ==> !MatchesAt(s, p, j))
      && JsReplaceFirst(s, p, r) == s[..i] + r + s[i + |p|..]
  {
    FindIsFirst(s, p, 0);
  }

  /** Python `s.replace(p, r)`: every non-overlapping occurrence of `p`,
      scanning left to right, is replaced by `r` literally. */
  function PyReplaceAll(s: string, p: string, r: string): (out: string)
    requires |p| > 0
    ensures !Contains(s, p) ==> out == s
    ensures r == p ==> out == s
    decreases |s|
  {
    match Find(s, p, 0)
    case None => s
    case Some(i) =>
      var rest := PyReplaceAll(s[i + |p|..], p, r);
      assert r == p ==> s[..i] + r + s[i + |p|..] == s by {
        if r == p {
          assert s == s[..i] + s[i..i + |p|] + s[i + |p|..];
        }
      }
      s[..i] + r + rest
  }

  /** Replacing a pattern that does not occur, or replacing a pattern by
      itself, changes nothing. */
  lemma PyReplaceAllIdentity(s: string, p: string, r: string)
    requires |p| > 0
    requires !Contains(s, p) || r == p
    ensures PyReplaceAll(s, p, r) == s
  {
  }

  /** Python's replace works left to right: when the first occurrence of `p`
      in `a + p + b` is the one after `a`, that occurrence becomes `r`, `a`
      is kept, and the rest is `b` with every occurrence replaced. */
  lemma PyReplaceAllSplit(a: string, p: string, b: string, r: string)
    requires |p| > 0
    requires Find(a + p + b, p, 0) == Some(|a|)
    ensures PyReplaceAll(a + p + b, p, r) == a + r + PyReplaceAll(b, p, r)
  {
    var s := a + p + b;
    assert s[..|a|] == a;
    assert s[|a| + |p|..] == b;
  }

  /** Searching a suffix is searching the whole string from the suffix's
      start, with the index shifted. */
  lemma {:induction false} FindShift(s: string, p: string, d: nat, j: nat)
    requires d + j <= |s|
    ensures Find(s, p, d + j) == (if Find(s[d..], p, j).Some? then Some(Find(s[d..], p, j).value + d) else None)
    decreases |s| - d - j
  {
    var t := s[d..];
    if d + j + |p| <= |s| {
      assert MatchesAt(s, p, d + j) <==> MatchesAt(t, p, j) by {
        assert s[d + j..d + j + |p|] == t[j..j + |p|];
      }
      if !MatchesAt(s, p, d + j) {
        FindShift(s, p, d, j + 1);
      }
    }
  }

  /** When no occurrence of `p` starts at or after the end of an earlier one
      and the replacement holds no `$`, the JavaScript first-occurrence
      replacement and the Python all-occurrence replacement agree. */
  lemma ReplaceFirstAgreesWithReplaceAllOnSingleOccurrence(s: string, p: string, r: string)
    requires |p| > 0
    requires '$' !in r
    requires forall i, j :: i + |p| <= j && MatchesAt(s, p, i) ==> !MatchesAt(s, p, j)
    ensures JsReplaceFirst(s, p, r) == PyReplaceAll(s, p, r)
  {
    var f := Find(s, p, 0);
    if f.Some? {
      var i := f.value;
      var t := s[i + |p|..];
      NothingAfter(s, p, i);
      assert PyReplaceAll(t, p, r) == t;
      assert PyReplaceAll(s, p, r) == s[..i] + r + t;
      JsReplaceFirstLiteral(s, p, r);
      assert JsReplaceFirst(s, p, r) == s[..i] + r + t;
    } else {
      PyReplaceAllIdentity(s, p, r);
    }
  }

  lemma NothingAfter(s: string, p: string, i: nat)
    requires forall i, j :: i + |p| <= j && MatchesAt(s, p, i) ==> !MatchesAt(s, p, j)
    requires MatchesAt(s, p, i)
    ensures !Contains(s[i + |p|..], p)
  {
    forall j | i + |p| <= j ensures !MatchesAt(s, p, j) {
    }
    FindNoneWhenAbsent(s, p, i + |p|);
    FindShift(s, p, i + |p|, 0);
  }

  /** Two occurrences of a placeholder make the two replacements differ. */
  lemma ReplaceFirstDiffersOnTwoOccurrences()
    ensures JsReplaceFirst("{{input}}{{input}}", "{{input}}", "x") == "x{{input}}"
    ensures PyReplaceAll("{{input}}{{input}}", "{{input}}", "x") == "xx"
  {
    var s := "{{input}}{{input}}";
    var p := "{{input}}";
    assert s[0..9] == p;
    assert Find(s, p, 0) == Some(0);
    var t := s[9..];
    assert t == p;
    assert t[0..9] == p;
    assert Find(t, p, 0) == Some(0);
    assert t[9..] == "";
    assert Find("", p, 0) == None;
  }

  /** End of the last occurrence of `p` that the left-to-right scan from
      `from` meets, or `from` when it meets none. */
  function LastEnd(s: string, p: string, from: nat): (e: nat)
    requires |p| > 0 && from <= |s|
    ensures from <= e <= |s|
    decreases |s| - from
  {
    match Find(s, p, from)
    case None => from
    case Some(i) => LastEnd(s, p, i + |p|)
  }

  /** No occurrence starts at or after `LastEnd`. */
  lemma {:induction false} LastEndIsLast(s: string, p: string, from: nat)
    requires |p| > 0 && from <= |s|
    ensures forall j :: LastEnd(s, p, from) <= j ==> !MatchesAt(s, p, j)
    decreases |s| - from
  {
    var f := Find(s, p, from);
    if f.Some? {
      LastEndIsLast(s, p, f.value + |p|);
    } else {
      FindNoneIsAbsent(s, p, from);
    }
  }

  /** When the scan meets an occurrence, one ends exactly at `LastEnd`. */
  lemma {:induction false} LastEndFollowsMatch(s: string, p: string, from: nat)
    requires |p| > 0 && from <= |s|
    requires Find(s, p, from).Some?
    ensures |p| <= LastEnd(s, p, from) && MatchesAt(s, p, LastEnd(s, p, from) - |p|)
    decreases |s| - from
  {
    var i := Find(s, p, from).value;
    var k := i + |p|;
    assert LastEnd(s, p, from) == LastEnd(s, p, k);
    if Find(s, p, k).Some? {
      LastEndFollowsMatch(s, p, k);
    } else {
      assert LastEnd(s, p, k) == k;
      assert MatchesAt(s, p, i);
    }
  }

  /** Python `s.split(p)[-1]`: the text after the last occurrence of `p`,
      or `s` itself when `p` does not occur. */
  function AfterLast(s: string, p: string): (out: string)
    requires |p| > 0
    ensures |out| <= |s| && out == s[|s| - |out|..]
  {
    s[LastEnd(s, p, 0)..]
  }

  /** What `AfterLast` returns holds no occurrence of `p`; it is all of `s`
      when `p` does not occur, and otherwise directly follows an
      occurrence. */
  lemma AfterLastSpec(s: string, p: string)
    requires |p| > 0
    ensures !Contains(AfterLast(s, p), p)
    ensures !Contains(s, p) ==> AfterLast(s, p) == s
    ensures Contains(s, p) ==>
      |AfterLast(s, p)| + |p| <= |s| && MatchesAt(s, p, |s| - |AfterLast(s, p)| - |p|)
  {
    var e := LastEnd(s, p, 0);
    LastEndIsLast(s, p, 0);
    if Contains(s, p) {
      LastEndFollowsMatch(s, p, 0);
    }
    var out := s[e..];
    if Contains(out, p) {
      var j := Find(out, p, 0).value;
      MatchesInSuffix(s, e, p, j);
      assert false;
    }
    if !Contains(s, p) {
      assert out == s[0..] == s;
    }
  }

  lemma MatchesInSuffix(s: string, k: nat, p: string, j: nat)
    requires k <= |s|
    requires MatchesAt(s[k..], p, j)
    ensures MatchesAt(s, p, k + j)
  {
    assert s[k + j..k + j + |p|] == s[k..][j..j + |p|];
  }

  /** A pattern whose first character does not occur in `a` cannot start
      inside `a`, so `a + b` holds it only if `b` does. */
  lemma NoMatchAcross(a: string, b: string, p: string)
    requires |p| > 0 && p[0] !in a
    requires !Contains(b, p)
    ensures !Contains(a + b, p)
  {
    var s := a + b;
    ContainsIff(s, p);
    ContainsIff(b, p);
    if Contains(s, p) {
      var i :| MatchesAt(s, p, i);
      MatchAcrossShifts(a, b, p, i);
    }
  }

  lemma MatchAcrossShifts(a: string, b: string, p: string, i: int)
    requires |p| > 0 && p[0] !in a
    requires MatchesAt(a + b, p, i)
    ensures i >= |a| && MatchesAt(b, p, i - |a|)
  {
    var s := a + b;
    assert s[i] == p[0];
    assert b[i - |a|..i - |a| + |p|] == s[i..i + |p|];
  }

  /** Characters Python's `str.isspace` accepts, which `str.strip()`
      removes. */
  predicate IsPySpace(c: char) {
    var n := c as int;
    || (9 <= n <= 13) || (28 <= n <= 32) || n == 0x85 || n == 0xA0
    || n == 0x1680 || (0x2000 <= n <= 0x200A) || n == 0x2028 || n == 0x2029
    || n == 0x202F || n == 0x205F || n == 0x3000
  }

  function StripLeft(s: string): (out: string)
    ensures |out| <= |s| && out == s[|s| - |out|..]
    ensures forall k :: 0 <= k < |s| - |out| ==> IsPySpace(s[k])
    ensures |out| > 0 ==> !IsPySpace(out[0])
    decreases |s|
  {
    if |s| > 0 && IsPySpace(s[0]) then StripLeft(s[1..]) else s
  }

  function StripRight(s: string): (out: string)
    ensures |out| <= |s| && out == s[..|out|]
    ensures forall k :: |out| <= k < |s| ==> IsPySpace(s[k])
    ensures |out| > 0 ==> !IsPySpace(out[|out| - 1])
    decreases |s|
  {
    if |s| > 0 && IsPySpace(s[|s| - 1]) then StripRight(s[..|s| - 1]) else s
  }

  /** Python `s.strip()`: leading and trailing space removed. */
  function PyStrip(s: string): (out: string)
    ensures |out| <= |s|
    ensures |out| > 0 ==> !IsPySpace(out[0]) && !IsPySpace(out[|out| - 1])
  {
    StripRight(StripLeft(s))
  }

  /** The stripped text is a slice of `s` and everything cut away on either
      side is space. */
  lemma PyStripSlice(s: string) returns (i: nat, j: nat)
    ensures i <= j <= |s| && PyStrip(s) == s[i..j]
    ensures forall k :: 0 <= k < i ==> IsPySpace(s[k])
    ensures forall k :: j <= k < |s| ==> IsPySpace(s[k])
  {
    var l := StripLeft(s);
    var out := StripRight(l);
    i := |s| - |l|;
    j := i + |out|;
    assert l == s[i..];
    assert out == l[..|out|];
    assert out == s[i..j];
    forall k | j <= k < |s| ensures IsPySpace(s[k]) {
      assert s[k] == l[k - i];
    }
  }

  /** Text that neither starts nor ends with space is left alone, so
      stripping twice is stripping once. */
  lemma PyStripKeepsTrimmed(s: string)
    requires |s| > 0 ==> !IsPySpace(s[0]) && !IsPySpace(s[|s| - 1])
    ensures PyStrip(s) == s
  {
  }

  lemma PyStripIdempotent(s: string)
    ensures PyStrip(PyStrip(s)) == PyStrip(s)
  {
    PyStripKeepsTrimmed(PyStrip(s));
  }

  /** Stripping leaves nothing exactly when the text is all space. */
  lemma PyStripEmptyIff(s: string)
    ensures PyStrip(s) == "" <==> forall k :: 0 <= k < |s| ==> IsPySpace(s[k])
  {
    var i, j := PyStripSlice(s);
    if PyStrip(s) == "" {
      forall k | 0 <= k < |s| ensures IsPySpace(s[k]) {
        if k >= i { assert k >= j; }
      }
    } else {
      assert s[i] == PyStrip(s)[0];
    }
  }

  /** ASCII upper-case letters mapped to lower case; every other character
      is kept. */
  function AsciiLower(s: string): (out: string)
    ensures |out| == |s|
    ensures forall k :: 0 <= k < |s| ==> !('A' <= out[k] <= 'Z')
    ensures forall k :: 0 <= k < |s| && !('A' <= s[k] <= 'Z') ==> out[k] == s[k]
    ensures forall k :: 0 <= k < |s| && 'A' <= s[k] <= 'Z' ==> 'a' <= out[k] <= 'z' && out[k] as int - s[k] as int == 32
  {
    seq(|s|, k requires 0 <= k < |s| => if 'A' <= s[k] <= 'Z' then (s[k] as int + 32) as char else s[k])
  }

  /** Lower-casing twice is lower-casing once: it follows from the
      per-character contract of `AsciiLower`, since its output holds no
      upper-case letter. */
  lemma AsciiLowerIdempotent(s: string)
    ensures AsciiLower(AsciiLower(s)) == AsciiLower(s)
  {
  }

  function Digit(d: nat): (c: char)
    requires d < 10
  {
    ((48 + d) as char)
  }

  /** Decimal rendering of a natural number, as `str(n)` in Python and
      `${n}` in JavaScript print it. */
  function NatToString(n: nat): (r: string)
    ensures |r| >= 1
    ensures forall k :: 0 <= k < |r| ==> '0' <= r[k] <= '9'
    ensures r[0] == '0' ==> n == 0
    decreases n
  {
    if n < 10 then [Digit(n)] else NatToString(n / 10) + [Digit(n % 10)]
  }

  /** Decimal rendering of an integer, with a leading minus sign when
      negative. */
  function IntToString(i: int): (r: string)
    ensures |r| >= 1
    ensures (r[0] == '-') <==> i < 0
  {
    if i < 0 then "-" + NatToString(-i) else NatToString(i)
  }

  /** Reads back a string of decimal digits. */
  function ParseNat(s: string): nat
    decreases |s|
  {
    if |s| == 0 then 0
    else
      var c := s[|s| - 1];
      var d := if '0' <= c <= '9' then c as int - 48 else 0;
      ParseNat(s[..|s| - 1]) * 10 + d
  }

  lemma {:induction false} NatToStringRoundTrip(n: nat)
    ensures ParseNat(NatToString(n)) == n
    decreases n
  {
    if n >= 10 {
      NatToStringRoundTrip(n / 10);
      var r := NatToString(n);
      assert r[..|r| - 1] == NatToString(n / 10);
    }
  }

  /** Decimal rendering is injective, so "Agent 3" and "Agent 4" never
      coincide. */
  lemma NatToStringInjective(a: nat, b: nat)
    requires NatToString(a) == NatToString(b)
    ensures a == b
  {
    NatToStringRoundTrip(a);
    NatToStringRoundTrip(b);
  }
}
