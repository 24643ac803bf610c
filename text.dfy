/** The handful of Python `str` operations the core relies on, written out
    over `seq<char>`: whitespace classification, `strip`, `split`, `join`,
    `lower`, substring search, `count` and `replace`. */
module Text {

  /** Python's `str.isspace()`, which is also what `\s` matches in a `str`
      regular expression: the ASCII controls TAB..CR and FS..US, the space,
      NEL, NBSP and the Unicode space separators. */
  predicate IsSpace(c: char) {
    c == ' ' || ('\t' <= c <= '\r') || ('\U{1c}' <= c <= '\U{1f}')
    || c == '\U{85}' || c == '\U{a0}' || c == '\U{1680}'
    || ('\U{2000}' <= c <= '\U{200a}') || c == '\U{2028}' || c == '\U{2029}'
    || c == '\U{202f}' || c == '\U{205f}' || c == '\U{3000}'
  }

  predicate IsDigit(c: char) { '0' <= c <= '9' }

  predicate IsLower(c: char) { 'a' <= c <= 'z' }

  /** End of the run of ASCII digits that starts at `i`. */
  function DigitEnd(t: string, i: nat): (e: nat)
    requires i <= |t|
    ensures i <= e <= |t|
    ensures forall k :: i <= k < e ==> IsDigit(t[k])
    ensures e < |t| ==> !IsDigit(t[e])
    decreases |t| - i
  {
    if i < |t| && IsDigit(t[i]) then DigitEnd(t, i + 1) else i
  }

  /** Python `int(digits)` for a run of ASCII digits. */
  function DecimalValue(ds: string): (v: nat)
    decreases |ds|
  {
    if ds == [] then 0
    else 10 * DecimalValue(ds[..|ds| - 1]) + (ds[|ds| - 1] as int - '0' as int) % 10
  }

  /** True iff every character is whitespace (Python: `not s.strip()`). */
  predicate IsBlank(s: string) {
    forall i :: 0 <= i < |s| ==> IsSpace(s[i])
  }

  /** Neither end of `s` is whitespace. */
  predicate IsStripped(s: string) {
    s == [] || (!IsSpace(s[0]) && !IsSpace(s[|s| - 1]))
  }

  /** Python `s.strip()`: drop leading and trailing whitespace. */
  function Strip(s: string): (r: string)
    ensures |r| <= |s|
    ensures IsStripped(r)
  {
    var a := SkipSpace(s, 0);
    s[a..TrimEnd(s, a, |s|)]
  }

  /** A text without whitespace at either end is left as it is; so
      stripping twice is stripping once. */
  lemma StripStripped(s: string)
    requires IsStripped(s)
    ensures Strip(s) == s
  {
    if s != [] {
      assert SkipSpace(s, 0) == 0;
      assert TrimEnd(s, 0, |s|) == |s|;
    }
  }

  /** Stripping leaves nothing exactly when the text is blank. */
  lemma StripEmptyIffBlank(s: string)
    ensures Strip(s) == [] <==> IsBlank(s)
  {
    var a := SkipSpace(s, 0);
    var e := TrimEnd(s, a, |s|);
    if e == a {
      assert forall k :: 0 <= k < |s| ==> (k < a || a <= k) && IsSpace(s[k]);
    } else {
      assert !IsSpace(s[a]);
    }
  }

  /** End of `t[lo..hi]` once its trailing whitespace is dropped. */
  function TrimEnd(t: string, lo: nat, hi: nat): (e: nat)
    requires lo <= hi <= |t|
    ensures lo <= e <= hi
    ensures e == lo || !IsSpace(t[e - 1])
    ensures forall k :: e <= k < hi ==> IsSpace(t[k])
    decreases hi
  {
    if hi > lo && IsSpace(t[hi - 1]) then TrimEnd(t, lo, hi - 1) else hi
  }

  /** End of the run of whitespace that starts at `i` (the regex `\s*`). */
  function SkipSpace(t: string, i: nat): (e: nat)
    requires i <= |t|
    ensures i <= e <= |t|
    ensures forall k :: i <= k < e ==> IsSpace(t[k])
    ensures e < |t| ==> !IsSpace(t[e])
    decreases |t| - i
  {
    if i < |t| && IsSpace(t[i]) then SkipSpace(t, i + 1) else i
  }

  /** Index of the first whitespace character of `s`, or `|s|`. */
  function WordLength(s: string): (n: nat)
    ensures n <= |s|
    ensures forall i :: 0 <= i < n ==> !IsSpace(s[i])
    ensures n < |s| ==> IsSpace(s[n])
  {
    if s == [] || IsSpace(s[0]) then 0 else 1 + WordLength(s[1..])
  }

  /** Python `s.split()` without arguments: the maximal runs of
      non-whitespace characters, in order. */
  function Words(s: string): seq<string>
    decreases |s|
  {
    if s == [] then []
    else if IsSpace(s[0]) then Words(s[1..])
    else
      var n := WordLength(s);
      [s[..n]] + Words(s[n..])
  }

  /** Does a word of `s` start at `i`? */
  predicate WordStart(s: string, i: nat)
    requires i < |s|
  {
    !IsSpace(s[i]) && (i == 0 || IsSpace(s[i - 1]))
  }

  /** The number of words of `s` that start before position `i`. */
  function WordStarts(s: string, i: nat): nat
    requires i <= |s|
  {
    if i == 0 then 0 else WordStarts(s, i - 1) + (if WordStart(s, i - 1) then 1 else 0)
  }

  /** The number of words of `s`, `len(s.split())`, counted as word starts
      (see `WordCountIsSplit`). */
  function WordCount(s: string): nat {
    WordStarts(s, |s|)
  }

  /** Counting word starts splits at any position that follows whitespace. */
  lemma {:induction false} WordStartsSplit(s: string, m: nat, i: nat)
    requires m + i <= |s|
    requires m == 0 || IsSpace(s[m - 1])
    ensures WordStarts(s, m + i) == WordStarts(s, m) + WordStarts(s[m..], i)
    decreases i
  {
    if i > 0 {
      WordStartsSplit(s, m, i - 1);
      assert s[m..][i - 1] == s[m + i - 1];
      if i > 1 {
        assert s[m..][i - 2] == s[m + i - 2];
      }
      assert WordStart(s, m + i - 1) == WordStart(s[m..], i - 1);
    }
  }

  /** Inside the first word only one word has started. */
  lemma {:induction false} WordStartsInWord(s: string, k: nat)
    requires 1 <= k <= |s|
    requires forall j :: 0 <= j < k ==> !IsSpace(s[j])
    ensures WordStarts(s, k) == 1
    decreases k
  {
    if k > 1 {
      WordStartsInWord(s, k - 1);
    }
  }

  /** Counting word starts gives the length of `split()`. */
  lemma {:induction false} WordCountIsSplit(s: string)
    ensures WordCount(s) == |Words(s)|
    decreases |s|
  {
    if s == [] {
    } else if IsSpace(s[0]) {
      WordCountIsSplit(s[1..]);
      WordCountSpace(s);
    } else if WordLength(s) == |s| {
      WordCountOneWord(s);
    } else {
      var n := WordLength(s);
      WordCountIsSplit(s[n + 1..]);
      WordCountWord(s);
    }
  }

  lemma WordCountSpace(s: string)
    requires s != [] && IsSpace(s[0])
    ensures WordCount(s) == WordCount(s[1..])
    ensures Words(s) == Words(s[1..])
  {
    WordStartsSplit(s, 1, |s| - 1);
  }

  lemma WordCountOneWord(s: string)
    requires s != [] && !IsSpace(s[0]) && WordLength(s) == |s|
    ensures WordCount(s) == 1 == |Words(s)|
  {
    WordStartsInWord(s, |s|);
    assert s[|s|..] == [];
    assert Words(s) == [s[..|s|]] + Words([]);
  }

  lemma WordCountWord(s: string)
    requires s != [] && !IsSpace(s[0]) && WordLength(s) < |s|
    ensures WordCount(s) == 1 + WordCount(s[WordLength(s) + 1..])
    ensures |Words(s)| == 1 + |Words(s[WordLength(s) + 1..])|
  {
    var n := WordLength(s);
    WordStartsSplit(s, n + 1, |s| - n - 1);
    WordStartsInWord(s, n);
    assert !WordStart(s, n);
    assert s[n..][1..] == s[n + 1..];
    assert Words(s[n..]) == Words(s[n + 1..]);
  }

  predicate HasSpace(s: string) {
    exists i :: 0 <= i < |s| && IsSpace(s[i])
  }

  /** Python `s.split(c)` for a one-character separator: always at least one
      piece, and no piece contains `c`. */
  function SplitOn(s: string, c: char): (r: seq<string>)
    ensures |r| >= 1
    ensures forall k :: 0 <= k < |r| ==> c !in r[k]
    decreases |s|
  {
    if s == [] then [""]
    else if s[0] == c then [""] + SplitOn(s[1..], c)
    else
      var rest := SplitOn(s[1..], c);
      [[s[0]] + rest[0]] + rest[1..]
  }

  /** Python `sep.join(parts)`. */
  function Join(sep: string, parts: seq<string>): string
    decreases |parts|
  {
    if |parts| == 0 then ""
    else if |parts| == 1 then parts[0]
    else parts[0] + sep + Join(sep, parts[1..])
  }

  /** Splitting and joining again with the same separator gives the
      string back. */
  lemma {:induction false} JoinSplitOn(s: string, c: char)
    ensures Join([c], SplitOn(s, c)) == s
    decreases |s|
  {
    if s != [] {
      JoinSplitOn(s[1..], c);
      var rest := SplitOn(s[1..], c);
      if s[0] == c {
        assert ([""] + rest)[1..] == rest;
      } else if |rest| > 1 {
        var r := [[s[0]] + rest[0]] + rest[1..];
        assert r[1..] == rest[1..];
        assert Join([c], rest) == rest[0] + [c] + Join([c], rest[1..]);
        assert s == [s[0]] + s[1..];
      } else {
        assert s == [s[0]] + s[1..];
      }
    }
  }

  /** Text without the separator only extends the first piece. */
  lemma {:induction false} SplitOnPrefix(a: string, rest: string, c: char)
    requires c !in a
    ensures SplitOn(a + rest, c) == [a + SplitOn(rest, c)[0]] + SplitOn(rest, c)[1..]
    decreases |a|
  {
    var r := SplitOn(rest, c);
    if a == [] {
      assert a + rest == rest;
      assert a + r[0] == r[0];
      assert [r[0]] + r[1..] == r;
    } else {
      assert (a + rest)[1..] == a[1..] + rest;
      assert (a + rest)[0] == a[0];
      SplitOnPrefix(a[1..], rest, c);
      assert [a[0]] + (a[1..] + r[0]) == a + r[0];
    }
  }

  /** Two pieces separated by one separator split back into them. */
  lemma SplitOnTwo(a: string, b: string, c: char)
    requires c !in a && c !in b
    ensures SplitOn(a + [c] + b, c) == [a, b]
  {
    SplitOnPrefix(b, [], c);
    assert b + [] == b;
    assert ([c] + b)[1..] == b;
    assert SplitOn([c] + b, c) == ["", b];
    SplitOnPrefix(a, [c] + b, c);
    assert a + [c] + b == a + ([c] + b);
    assert a + "" == a;
  }

  function LowerChar(c: char): char {
    if 'A' <= c <= 'Z' then (c as int + 32) as char else c
  }

  /** Python `s.lower()` restricted to ASCII letters. */
  function Lower(s: string): (r: string)
    ensures |r| == |s|
    ensures forall i :: 0 <= i < |s| ==> r[i] == LowerChar(s[i])
  {
    seq(|s|, i requires 0 <= i < |s| => LowerChar(s[i]))
  }

  predicate StartsWith(s: string, prefix: string) {
    |prefix| <= |s| && s[..|prefix|] == prefix
  }

  /** Python `t in s` for strings: `t` occurs in `s` as a substring. */
  predicate Contains(s: string, t: string) {
    exists i :: 0 <= i <= |s| - |t| && OccursAt(s, t, i)
  }

  predicate OccursAt(s: string, t: string, i: int) {
    0 <= i <= |s| - |t| && s[i..i + |t|] == t
  }

  /** Python `any(t in s for t in terms)`. */
  predicate ContainsAny(s: string, terms: seq<string>) {
    exists k :: 0 <= k < |terms| && Contains(s, terms[k])
  }

  /** Python `s.count(c)` for one character. */
  function CountChar(s: string, c: char): (n: nat)
    ensures n <= |s|
    ensures n == 0 <==> c !in s
  {
    if s == [] then 0 else (if s[0] == c then 1 else 0) + CountChar(s[1..], c)
  }

  /** Python `s.replace(pat, rep)` for a non-empty pattern: every
      non-overlapping occurrence, scanning left to right, is replaced. */
  function ReplaceAll(s: string, pat: string, rep: string): string
    requires pat != []
    decreases |s|
  {
    if |s| < |pat| then s
    else if s[..|pat|] == pat then rep + ReplaceAll(s[|pat|..], pat, rep)
    else [s[0]] + ReplaceAll(s[1..], pat, rep)
  }
}
