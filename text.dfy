/**
 * The parts of Python's string semantics the verification core relies on:
 * `str.isspace`, `strip`, `upper`, the `in` operator,
 * `<` on strings, slicing `s[:n]` and `sep.join(parts)`.
 */
module Text {

  /** Python's `str.isspace()` for one character (also what `\s` matches in a `str` regex). */
  predicate IsSpace(c: char) {
    var n := c as int;
    (9 <= n <= 13) || (28 <= n <= 32) || n == 0x85 || n == 0xA0 || n == 0x1680
    || (0x2000 <= n <= 0x200A) || n == 0x2028 || n == 0x2029 || n == 0x202F
    || n == 0x205F || n == 0x3000
  }

  /** A string with no leading or trailing whitespace. */
  predicate IsStripped(s: string) {
    s == [] || (!IsSpace(s[0]) && !IsSpace(s[|s| - 1]))
  }

  /** Drops leading whitespace. */
  function TrimLeft(s: string): (r: string)
    ensures |r| <= |s| && r == s[|s| - |r|..]
    ensures r == [] || !IsSpace(r[0])
    ensures forall k :: 0 <= k < |s| - |r| ==> IsSpace(s[k])
  {
    if |s| > 0 && IsSpace(s[0]) then TrimLeft(s[1..]) else s
  }

  /** Drops trailing whitespace. */
  function TrimRight(s: string): (r: string)
    ensures |r| <= |s| && r == s[..|r|]
    ensures r == [] || !IsSpace(r[|r| - 1])
    ensures forall k :: |r| <= k < |s| ==> IsSpace(s[k])
  {
    if |s| > 0 && IsSpace(s[|s| - 1]) then TrimRight(s[..|s| - 1]) else s
  }

  /** Python's `s.strip()`. */
  function Strip(s: string): (r: string)
    ensures IsStripped(r)
    ensures |r| <= |s|
    ensures IsStripped(s) ==> r == s
  {
    TrimRight(TrimLeft(s))
  }

  /** A text strips to "" exactly when it is all whitespace. */
  lemma StripBlank(s: string)
    ensures Strip(s) == [] <==> forall k :: 0 <= k < |s| ==> IsSpace(s[k])
  {
    var l := TrimLeft(s);
    assert l != [] ==> IsSpace(s[|s| - |l|]) == IsSpace(l[0]);
  }

  /**
   * `strip` keeps one contiguous part of the text and removes only
   * whitespace around it.
   */
  lemma StripIsCore(s: string)
    ensures exists lo ::
      && 0 <= lo <= |s| - |Strip(s)|
      && StartsWith(s[lo..], Strip(s))
      && (forall k :: 0 <= k < lo ==> IsSpace(s[k]))
      && (forall k :: lo + |Strip(s)| <= k < |s| ==> IsSpace(s[k]))
  {
    var l := TrimLeft(s);
    var lo := |s| - |l|;
    var r := Strip(s);
    assert r == l[..|r|];
    assert r == s[lo..][..|r|];
    forall k | lo + |r| <= k < |s| ensures IsSpace(s[k]) {
      assert s[k] == l[k - lo];
    }
  }

  /** Leading whitespace in front of a part that starts with a non-space is dropped exactly. */
  lemma {:induction false} TrimLeftPadded(pre: string, rest: string)
    requires forall k :: 0 <= k < |pre| ==> IsSpace(pre[k])
    requires rest == [] || !IsSpace(rest[0])
    ensures TrimLeft(pre + rest) == rest
  {
    if pre == [] {
      assert pre + rest == rest;
    } else {
      assert (pre + rest)[1..] == pre[1..] + rest;
      TrimLeftPadded(pre[1..], rest);
    }
  }

  /** Trailing whitespace behind a part that ends with a non-space is dropped exactly. */
  lemma {:induction false} TrimRightPadded(rest: string, post: string)
    requires forall k :: 0 <= k < |post| ==> IsSpace(post[k])
    requires rest == [] || !IsSpace(rest[|rest| - 1])
    ensures TrimRight(rest + post) == rest
    decreases |post|
  {
    if post == [] {
      assert rest + post == rest;
    } else {
      assert (rest + post)[..|rest + post| - 1] == rest + post[..|post| - 1];
      TrimRightPadded(rest, post[..|post| - 1]);
    }
  }

  /** `strip` removes exactly the whitespace padding around a stripped, non-empty text. */
  lemma StripPadded(pre: string, core: string, post: string)
    requires forall k :: 0 <= k < |pre| ==> IsSpace(pre[k])
    requires forall k :: 0 <= k < |post| ==> IsSpace(post[k])
    requires core != [] && IsStripped(core)
    ensures Strip(pre + core + post) == core
  {
    assert pre + core + post == pre + (core + post);
    TrimLeftPadded(pre, core + post);
    TrimRightPadded(core, post);
  }

  predicate IsLower(c: char) { 'a' <= c <= 'z' }

  /** No ASCII lower-case letter anywhere in `s`. */
  predicate NoLower(s: string) {
    forall i :: 0 <= i < |s| ==> !IsLower(s[i])
  }

  function UpperChar(c: char): (u: char)
    ensures !IsLower(u)
    ensures IsSpace(u) <==> IsSpace(c)
    ensures !IsLower(c) ==> u == c
  {
    if IsLower(c) then (c as int - 32) as char else c
  }

  /** Python's `s.upper()`, restricted to ASCII letters. */
  function Upper(s: string): (r: string)
    ensures |r| == |s|
    ensures NoLower(r)
    ensures NoLower(s) ==> r == s
    ensures forall i :: 0 <= i < |s| ==> (IsSpace(r[i]) <==> IsSpace(s[i]))
    ensures forall i :: 0 <= i < |s| ==> r[i] == UpperChar(s[i])
  {
    seq(|s|, i requires 0 <= i < |s| => UpperChar(s[i]))
  }

  /** Upper-casing a stripped string leaves it stripped. */
  lemma UpperKeepsStripped(s: string)
    requires IsStripped(s)
    ensures IsStripped(Upper(s))
  {
  }

  predicate StartsWith(s: string, p: string) {
    |p| <= |s| && s[..|p|] == p
  }

  /** Python's `p in s`: the empty pattern is in every text, and no pattern is longer than its text. */
  predicate Contains(s: string, p: string)
    ensures p == [] ==> Contains(s, p)
    ensures Contains(s, p) ==> |p| <= |s|
  {
    StartsWith(s, p) || (|s| > 0 && Contains(s[1..], p))
  }

  /** An occurrence of `p` at offset `i` of `s` is found by `Contains`. */
  lemma {:induction false} ContainsAt(s: string, p: string, i: nat)
    requires i <= |s| && StartsWith(s[i..], p)
    ensures Contains(s, p)
    decreases i
  {
    if i > 0 {
      assert s[1..][i - 1..] == s[i..];
      ContainsAt(s[1..], p, i - 1);
    }
  }

  /** `Contains` finds only real occurrences: every character of `p` occurs in `s`. */
  lemma {:induction false} ContainsChar(s: string, p: string, j: nat)
    requires Contains(s, p) && j < |p|
    ensures exists k :: 0 <= k < |s| && s[k] == p[j]
  {
    if StartsWith(s, p) {
      assert s[j] == s[..|p|][j];
    } else {
      ContainsChar(s[1..], p, j);
      var k :| 0 <= k < |s[1..]| && s[1..][k] == p[j];
      assert s[k + 1] == p[j];
    }
  }

  /** `p in s` holds exactly when `p` occurs at some offset of `s`. */
  lemma {:induction false} ContainsIffOccurs(s: string, p: string)
    ensures Contains(s, p) <==> exists i :: 0 <= i <= |s| && StartsWith(s[i..], p)
  {
    if exists i :: 0 <= i <= |s| && StartsWith(s[i..], p) {
      var i :| 0 <= i <= |s| && StartsWith(s[i..], p);
      ContainsAt(s, p, i);
    }
    if Contains(s, p) {
      if StartsWith(s, p) {
        assert s[0..] == s;
      } else {
        ContainsIffOccurs(s[1..], p);
        var i :| 0 <= i <= |s[1..]| && StartsWith(s[1..][i..], p);
        assert s[1..][i..] == s[i + 1..];
      }
    }
  }

  /** A pattern with a lower-case letter never occurs in an upper-cased string. */
  lemma NoLowerExcludes(s: string, p: string, j: nat)
    requires NoLower(s) && j < |p| && IsLower(p[j])
    ensures !Contains(s, p)
  {
    if Contains(s, p) {
      ContainsChar(s, p, j);
    }
  }

  /**
   * Python's `a < b` on strings: code-point-wise lexicographic order, in
   * which a proper prefix comes first.
   */
  predicate LexLess(a: string, b: string)
    ensures LexLess(a, b) ==> a != b
    ensures |a| < |b| && a == b[..|a|] ==> LexLess(a, b)
  {
    if |a| == 0 then |b| > 0
    else if |b| == 0 then false
    else if a[0] != b[0] then a[0] < b[0]
    else
      assert |a| < |b| && a == b[..|a|] ==> a[1..] == b[1..][..|a| - 1];
      LexLess(a[1..], b[1..])
  }

  /** `LexLess` is a strict order: irreflexive and asymmetric. */
  lemma {:induction false} LexLessAsymmetric(a: string, b: string)
    ensures !(LexLess(a, b) && LexLess(b, a))
    ensures !LexLess(a, a)
  {
    if |a| > 0 && |b| > 0 && a[0] == b[0] {
      LexLessAsymmetric(a[1..], b[1..]);
    }
    if |a| > 0 {
      LexLessAsymmetric(a[1..], a[1..]);
    }
  }

  /** Python's `s[:stop]`, including the meaning of a negative `stop`. */
  function SliceTo<T>(s: seq<T>, stop: int): (r: seq<T>)
    ensures |r| <= |s| && r == s[..|r|]
    ensures stop >= 0 ==> |r| == if stop <= |s| then stop else |s|
    ensures stop < 0 ==> |r| == if |s| + stop >= 0 then |s| + stop else 0
  {
    if stop >= 0 then
      if stop <= |s| then s[..stop] else s
    else if |s| + stop >= 0 then s[..|s| + stop]
    else []
  }

  function TotalLength(parts: seq<string>): nat {
    if parts == [] then 0 else |parts[0]| + TotalLength(parts[1..])
  }

  /** Python's `sep.join(parts)`. */
  function Join(parts: seq<string>, sep: string): (r: string)
    ensures parts == [] ==> r == ""
    ensures parts != [] ==> StartsWith(r, parts[0])
    ensures parts != [] ==> |r| + |sep| == TotalLength(parts) + |sep| * |parts|
    ensures |parts| == 1 ==> r == parts[0]
  {
    if parts == [] then ""
    else if |parts| == 1 then parts[0]
    else parts[0] + sep + Join(parts[1..], sep)
  }

  /** Joining one more part appends the separator and that part. */
  lemma {:induction false} JoinAppend(parts: seq<string>, p: string, sep: string)
    requires parts != []
    ensures Join(parts + [p], sep) == Join(parts, sep) + sep + p
  {
    if |parts| > 1 {
      assert (parts + [p])[1..] == parts[1..] + [p];
      JoinAppend(parts[1..], p, sep);
    }
  }
}
