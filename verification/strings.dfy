/** The string primitives the importer relies on: `str.startswith`,
    literal substring search, `str.strip()` and the character-set forms
    `str.lstrip(chars)` / `str.rstrip(chars)`.
 */
module Strings {
  import opened Wrappers

  /** `s.startswith(prefix)` */
  predicate StartsWith(s: string, prefix: string) {
    |prefix| <= |s| && s[..|prefix|] == prefix
  }

  /** `pat` occurs in `s` starting at index `i`. */
  predicate OccursAt(s: string, pat: string, i: int) {
    0 <= i && i + |pat| <= |s| && s[i..i + |pat|] == pat
  }

  /** `pat in s` */
  predicate Contains(s: string, pat: string) {
    exists i :: 0 <= i <= |s| && OccursAt(s, pat, i)
  }

  /** The first occurrence of `pat` in `s` at or after `from`. */
  function FindFrom(s: string, pat: string, from: nat): (r: Option<nat>)
    ensures r.Some? ==> from <= r.value && OccursAt(s, pat, r.value)
    ensures r.Some? ==> forall j :: from <= j < r.value ==> !OccursAt(s, pat, j)
    ensures r.None? ==> forall j :: from <= j ==> !OccursAt(s, pat, j)
    decreases |s| - from
  {
    if from + |pat| > |s| then None
    else if s[from..from + |pat|] == pat then Some(from)
    else FindFrom(s, pat, from + 1)
  }

  /** Python's `str.isspace()` for one character. */
  predicate IsSpace(c: char) {
    var n := c as int;
    || 0x09 <= n <= 0x0D || 0x1C <= n <= 0x20 || n == 0x85 || n == 0xA0 || n == 0x1680
    || 0x2000 <= n <= 0x200A || n == 0x2028 || n == 0x2029 || n == 0x202F || n == 0x205F || n == 0x3000
  }

  /** `s.lstrip(chars)`: drops the longest prefix made of characters in `chars`
      (a character set, not a prefix string). */
  function LStripChars(s: string, chars: set<char>): (r: string)
    ensures |r| <= |s| && r == s[|s| - |r|..]
    ensures forall i :: 0 <= i < |s| - |r| ==> s[i] in chars
    ensures |r| > 0 ==> r[0] !in chars
    decreases |s|
  {
    if |s| > 0 && s[0] in chars then LStripChars(s[1..], chars) else s
  }

  /** `s.rstrip(chars)`: drops the longest suffix made of characters in `chars`. */
  function RStripChars(s: string, chars: set<char>): (r: string)
    ensures |r| <= |s| && r == s[..|r|]
    ensures forall i :: |r| <= i < |s| ==> s[i] in chars
    ensures |r| > 0 ==> r[|r| - 1] !in chars
    decreases |s|
  {
    if |s| > 0 && s[|s| - 1] in chars then RStripChars(s[..|s| - 1], chars) else s
  }

  /** Leading whitespace dropped. */
  function StripStart(s: string): (r: string)
    ensures |r| <= |s|
    decreases |s|
  {
    if |s| > 0 && IsSpace(s[0]) then StripStart(s[1..]) else s
  }

  /** `StripStart(s)` is a suffix of `s` that does not start with whitespace. */
  lemma {:induction false} StripStartSpec(s: string)
    ensures StripStart(s) == s[|s| - |StripStart(s)|..]
    ensures |StripStart(s)| > 0 ==> !IsSpace(StripStart(s)[0])
    decreases |s|
  {
    if |s| > 0 && IsSpace(s[0]) {
      StripStartSpec(s[1..]);
    }
  }

  /** Trailing whitespace dropped. */
  function StripEnd(s: string): (r: string)
    ensures |r| <= |s|
    decreases |s|
  {
    if |s| > 0 && IsSpace(s[|s| - 1]) then StripEnd(s[..|s| - 1]) else s
  }

  /** `StripEnd(s)` is a prefix of `s` that does not end with whitespace. */
  lemma {:induction false} StripEndSpec(s: string)
    ensures StripEnd(s) == s[..|StripEnd(s)|]
    ensures |StripEnd(s)| > 0 ==> !IsSpace(StripEnd(s)[|StripEnd(s)| - 1])
    decreases |s|
  {
    if |s| > 0 && IsSpace(s[|s| - 1]) {
      StripEndSpec(s[..|s| - 1]);
    }
  }

  /** `s.strip()`: drops leading and trailing whitespace. */
  function Strip(s: string): string {
    StripEnd(StripStart(s))
  }

  /** Where `Strip(s)` begins inside `s`. */
  function StripOffset(s: string): nat {
    |s| - |StripStart(s)|
  }

  /** `Strip(s)` is the contiguous slice of `s` from `StripOffset(s)`. */
  lemma {:induction false} StripIsSlice(s: string)
    ensures StripOffset(s) + |Strip(s)| <= |s|
    ensures Strip(s) == s[StripOffset(s)..StripOffset(s) + |Strip(s)|]
  {
    var l := StripStart(s);
    var r := Strip(s);
    StripStartSpec(s);
    StripEndSpec(l);
    assert r == l[..|r|];
  }

  /** `Strip(s)` neither starts nor ends with whitespace. */
  lemma {:induction false} StripEnds(s: string)
    ensures |Strip(s)| > 0 ==> !IsSpace(Strip(s)[0]) && !IsSpace(Strip(s)[|Strip(s)| - 1])
  {
    var l := StripStart(s);
    var r := Strip(s);
    StripStartSpec(s);
    StripEndSpec(l);
    if |r| > 0 {
      assert r[0] == l[0];
    }
  }

  lemma {:induction false} StripStartDropsSpace(s: string)
    ensures forall i :: 0 <= i < |s| - |StripStart(s)| ==> IsSpace(s[i])
    decreases |s|
  {
    if |s| > 0 && IsSpace(s[0]) {
      StripStartDropsSpace(s[1..]);
      forall i | 1 <= i < |s| - |StripStart(s)| ensures IsSpace(s[i]) {
        assert s[i] == s[1..][i - 1];
      }
    }
  }

  lemma {:induction false} StripEndDropsSpace(s: string)
    ensures forall i :: |StripEnd(s)| <= i < |s| ==> IsSpace(s[i])
    decreases |s|
  {
    if |s| > 0 && IsSpace(s[|s| - 1]) {
      StripEndDropsSpace(s[..|s| - 1]);
      forall i | |StripEnd(s)| <= i < |s| - 1 ensures IsSpace(s[i]) {
        assert s[i] == s[..|s| - 1][i];
      }
    }
  }

  /** `s[a..b]` is a slice of `s` with only whitespace around it. */
  predicate SpaceOutside(s: string, a: int, b: int) {
    && 0 <= a <= b <= |s|
    && (forall k :: 0 <= k < a ==> IsSpace(s[k]))
    && (forall k :: b <= k < |s| ==> IsSpace(s[k]))
  }

  /** `Strip(s)` is that slice, and only whitespace lies outside it. */
  lemma {:induction false} StripDropsOnlyWhitespace(s: string)
    ensures SpaceOutside(s, StripOffset(s), StripOffset(s) + |Strip(s)|)
    ensures Strip(s) == s[StripOffset(s)..StripOffset(s) + |Strip(s)|]
  {
    var l := StripStart(s);
    var a := StripOffset(s);
    StripIsSlice(s);
    StripStartSpec(s);
    StripEndSpec(l);
    StripStartDropsSpace(s);
    StripEndDropsSpace(l);
    forall k | a + |Strip(s)| <= k < |s| ensures IsSpace(s[k]) {
      assert s[k] == l[k - a];
    }
  }

  /** Stripping twice changes nothing more. */
  lemma {:induction false} StripIdempotent(s: string)
    ensures Strip(Strip(s)) == Strip(s)
  {
    var r := Strip(s);
    StripEnds(s);
    if |r| > 0 {
      assert StripStart(r) == r;
      assert StripEnd(r) == r;
    }
  }

  /** An occurrence inside a slice is an occurrence in the whole string. */
  lemma {:induction false} OccursInSlice(s: string, a: int, b: int, pat: string, k: int)
    requires 0 <= a <= b <= |s|
    requires OccursAt(s[a..b], pat, k)
    ensures OccursAt(s, pat, a + k) && a + k + |pat| <= b
  {
    forall t | 0 <= t < |pat| ensures s[a + k + t] == pat[t] {
      assert s[a..b][k + t] == pat[t];
    }
    assert s[a + k..a + k + |pat|] == pat;
  }

  /** An occurrence in `Strip(s)` is an occurrence in `s`, shifted by the
      stripped prefix. */
  lemma {:induction false} OccursInStrip(s: string, pat: string, k: int)
    requires OccursAt(Strip(s), pat, k)
    ensures OccursAt(s, pat, StripOffset(s) + k)
    ensures StripOffset(s) + k + |pat| <= StripOffset(s) + |Strip(s)|
  {
    var x := Strip(s);
    var p := StripOffset(s);
    StripIsSlice(s);
    forall t | 0 <= t < |pat| ensures s[p + k + t] == pat[t] {
      assert x[k + t] == s[p + k + t];
      assert x[k..k + |pat|][t] == pat[t];
    }
    assert s[p + k..p + k + |pat|] == pat;
  }

  /** An occurrence inside the bounds of a slice is an occurrence in the slice. */
  lemma {:induction false} OccursInsideSlice(s: string, a: int, b: int, pat: string, i: int)
    requires 0 <= a <= i && i + |pat| <= b <= |s|
    requires OccursAt(s, pat, i)
    ensures OccursAt(s[a..b], pat, i - a)
  {
    forall t | 0 <= t < |pat| ensures s[a..b][i - a + t] == pat[t] {
      assert s[i + t] == s[i..i + |pat|][t];
    }
    assert s[a..b][i - a..i - a + |pat|] == pat;
  }

  /** The slice `s[i..j]` read through the enclosing slice `s[a..b]`. */
  lemma {:induction false} SliceAt(s: string, a: int, b: int, i: int, j: int)
    requires 0 <= a <= i <= j <= b <= |s|
    ensures s[a..b][i - a..j - a] == s[i..j]
  {
    forall k | 0 <= k < j - i ensures s[a..b][i - a..j - a][k] == s[i..j][k] {
      assert s[a..b][i - a..j - a][k] == s[a..b][i - a + k] == s[i + k];
    }
  }

  /** The first two parts of a three-part concatenation, read back. */
  lemma {:induction false} ConcatSlices(x: string, y: string, z: string)
    ensures (x + y + z)[0..|x|] == x
    ensures (x + y + z)[|x|..|x| + |y|] == y
  {
    assert forall k :: 0 <= k < |x| ==> (x + y + z)[k] == x[k];
    assert forall k :: 0 <= k < |y| ==> (x + y + z)[|x| + k] == y[k];
  }

  /** `pat` occurs right after `x` in `x + pat`. */
  lemma {:induction false} OccursAfter(x: string, pat: string)
    ensures OccursAt(x + pat, pat, |x|)
  {
    assert (x + pat)[|x|..|x| + |pat|] == pat;
  }

  /** Stripping removes exactly one padding space on either side of a text
      that neither starts nor ends with whitespace. */
  lemma {:induction false} StripPadded(x: string)
    requires |x| > 0 && !IsSpace(x[0]) && !IsSpace(x[|x| - 1])
    ensures Strip(x) == x && Strip(" " + x) == x && Strip(" " + x + " ") == x
  {
    assert (" " + x)[1..] == x;
    assert StripStart(" " + x) == StripStart(x) == x;
    assert StripEnd(x) == x;
    var y := x + " ";
    assert (" " + x + " ")[1..] == y;
    assert y[0] == x[0] && y[..|x|] == x;
    assert StripStart(" " + x + " ") == StripStart(y) == y;
    assert StripEnd(y) == StripEnd(x);
  }

  /** `s` does not start with `p` when their first characters differ. */
  lemma {:induction false} FirstCharDiffers(s: string, p: string)
    requires |s| > 0 && |p| > 0 && s[0] != p[0]
    ensures !StartsWith(s, p)
  {
    if |p| <= |s| {
      assert s[..|p|][0] != p[0];
    }
  }

  /** `lstrip(chars)` on a prefix of set characters followed by a text that
      does not start with one drops exactly that prefix. */
  lemma {:induction false} LStripCharsPrefix(p: string, t: string, chars: set<char>)
    requires forall i :: 0 <= i < |p| ==> p[i] in chars
    requires |t| > 0 && t[0] !in chars
    ensures LStripChars(p + t, chars) == t
  {
    var s := p + t;
    var r := LStripChars(s, chars);
    var n := |s| - |r|;
    assert s[|p|] == t[0];
    assert n <= |p|;
    assert forall i :: 0 <= i < |p| ==> s[i] == p[i];
    assert n == |p|;
    assert s[|p|..] == t;
  }

  /** `rstrip(chars)` on a text that does not end with a set character,
      followed by set characters, drops exactly those. */
  lemma {:induction false} RStripCharsSuffix(t: string, q: string, chars: set<char>)
    requires |t| > 0 && t[|t| - 1] !in chars
    requires forall i :: 0 <= i < |q| ==> q[i] in chars
    ensures RStripChars(t + q, chars) == t
  {
    var s := t + q;
    var r := RStripChars(s, chars);
    assert s[|t| - 1] == t[|t| - 1];
    assert |r| >= |t|;
    assert forall i :: |t| <= i < |s| ==> s[i] == q[i - |t|];
    assert |r| == |t|;
    assert s[..|t|] == t;
  }
}
