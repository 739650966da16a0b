/**
 * The Python string operations the cleaning rules rely on: `str.lower`
 * (on ASCII letters), substring containment (`sub in s`, and the literal
 * patterns given to `Series.str.contains`), `str.endswith`, `str.replace`
 * and `str.split()` with no separator.  Scanners walk an index through the
 * string, as the Python implementations do.
 */
module PyStr {

  predicate IsUpper(c: char) { 'A' <= c <= 'Z' }
  predicate IsLower(c: char) { 'a' <= c <= 'z' }
  predicate IsDigit(c: char) { '0' <= c <= '9' }

  /** True when no character of `s` is an ASCII upper-case letter. */
  predicate NoUpper(s: string) {
    forall i :: 0 <= i < |s| ==> !IsUpper(s[i])
  }

  function LowerChar(c: char): (d: char)
    ensures !IsUpper(d)
    ensures IsUpper(c) ==> d as int == c as int + 32
    ensures !IsUpper(c) ==> d == c
  {
    if IsUpper(c) then (c as int + 32) as char else c
  }

  /** `str.lower`, folding the ASCII letters only. */
  function Lower(s: string): (r: string)
    ensures |r| == |s| && NoUpper(r)
    ensures forall i :: 0 <= i < |s| ==> r[i] == LowerChar(s[i])
  {
    seq(|s|, i requires 0 <= i < |s| => LowerChar(s[i]))
  }

  lemma LowerConcat(a: string, b: string)
    ensures Lower(a + b) == Lower(a) + Lower(b)
  {
    assert forall i :: 0 <= i < |a + b| ==> Lower(a + b)[i] == (Lower(a) + Lower(b))[i];
  }

  lemma LowerOfNoUpper(s: string)
    requires NoUpper(s)
    ensures Lower(s) == s
  {
    assert forall i :: 0 <= i < |s| ==> Lower(s)[i] == s[i];
  }

  /** Characters `k..` of `sub` match `s` from index `i + k` on. */
  predicate MatchFrom(s: string, sub: string, i: nat, k: nat)
    requires i + |sub| <= |s|
    decreases |sub| - k
  {
    k >= |sub| || (s[i + k] == sub[k] && MatchFrom(s, sub, i, k + 1))
  }

  /** `sub` occurs in `s` starting at index `i`. */
  predicate OccursAt(s: string, sub: string, i: int) {
    0 <= i && i + |sub| <= |s| && MatchFrom(s, sub, i, 0)
  }

  lemma {:induction false} MatchFromIsSlice(s: string, sub: string, i: nat, k: nat)
    requires i + |sub| <= |s| && k <= |sub|
    ensures MatchFrom(s, sub, i, k) <==> s[i + k..i + |sub|] == sub[k..]
    decreases |sub| - k
  {
    if k < |sub| {
      MatchFromIsSlice(s, sub, i, k + 1);
      assert s[i + k..i + |sub|] == [s[i + k]] + s[i + k + 1..i + |sub|];
      assert sub[k..] == [sub[k]] + sub[k + 1..];
    }
  }

  /** The occurrence test is the slice comparison `s[i:i+len(sub)] == sub`. */
  lemma OccursAtIsSlice(s: string, sub: string, i: int)
    ensures OccursAt(s, sub, i) <==> 0 <= i && i + |sub| <= |s| && s[i..i + |sub|] == sub
  {
    if 0 <= i && i + |sub| <= |s| {
      MatchFromIsSlice(s, sub, i, 0);
    }
  }

  /** Some occurrence of `sub` starts at index `i` or later. */
  predicate ContainsFrom(s: string, sub: string, i: nat)
    decreases |s| - i
  {
    i + |sub| <= |s| && (OccursAt(s, sub, i) || ContainsFrom(s, sub, i + 1))
  }

  /** Substring containment, Python's `sub in s`. */
  predicate Contains(s: string, sub: string) {
    ContainsFrom(s, sub, 0)
  }

  lemma {:induction false} ContainsFromIff(s: string, sub: string, i: nat)
    ensures ContainsFrom(s, sub, i) <==> exists j :: i <= j && OccursAt(s, sub, j)
    decreases |s| - i
  {
    if i + |sub| <= |s| {
      ContainsFromIff(s, sub, i + 1);
      if exists j :: i <= j && OccursAt(s, sub, j) {
        var j :| i <= j && OccursAt(s, sub, j);
        assert j == i || (i + 1 <= j && OccursAt(s, sub, j));
      }
    }
  }

  /** The scan finds `sub` exactly when it occurs somewhere in `s`. */
  lemma ContainsIff(s: string, sub: string)
    ensures Contains(s, sub) <==> exists j :: OccursAt(s, sub, j)
  {
    ContainsFromIff(s, sub, 0);
  }

  /** An occurrence at a known position is enough for containment. */
  lemma ContainsAt(s: string, sub: string, i: nat)
    requires OccursAt(s, sub, i)
    ensures Contains(s, sub)
  {
    ContainsIff(s, sub);
  }

  lemma ContainsSelf(s: string)
    ensures Contains(s, s)
  {
    assert OccursAt(s, s, 0) by { OccursAtIsSlice(s, s, 0); }
    ContainsIff(s, s);
  }

  /** `str.endswith`. */
  predicate EndsWith(s: string, suffix: string) {
    |suffix| <= |s| && OccursAt(s, suffix, |s| - |suffix|)
  }

  /**
   * `s.replace(pat, rep)` from index `i` on: the leftmost occurrence is
   * replaced and the scan resumes just after it.
   */
  function ReplaceFrom(s: string, pat: string, rep: string, i: nat): string
    requires |pat| > 0 && i <= |s|
    decreases |s| - i
  {
    if i == |s| then []
    else if OccursAt(s, pat, i) then rep + ReplaceFrom(s, pat, rep, i + |pat|)
    else [s[i]] + ReplaceFrom(s, pat, rep, i + 1)
  }

  function Replace(s: string, pat: string, rep: string): string
    requires |pat| > 0
  {
    ReplaceFrom(s, pat, rep, 0)
  }

  /**
   * Characters `i..j` hold no first character of the pattern: the scan
   * copies them unchanged.
   */
  lemma {:induction false} ReplaceFromSkip(s: string, pat: string, rep: string, i: nat, j: nat)
    requires |pat| > 0 && i <= j <= |s|
    requires pat[0] !in s[i..j]
    ensures ReplaceFrom(s, pat, rep, i) == s[i..j] + ReplaceFrom(s, pat, rep, j)
    decreases j - i
  {
    if i < j {
      assert s[i..j] == [s[i]] + s[i + 1..j];
      assert s[i] != pat[0] && !OccursAt(s, pat, i);
      ReplaceFromSkip(s, pat, rep, i + 1, j);
    }
  }

  /** Where the first character of the pattern never appears, nothing is replaced. */
  lemma ReplaceAbsent(s: string, pat: string, rep: string)
    requires |pat| > 0 && pat[0] !in s
    ensures Replace(s, pat, rep) == s
  {
    assert s[0..|s|] == s;
    ReplaceFromSkip(s, pat, rep, 0, |s|);
  }

  /**
   * A replacement that only changes letter case keeps the length and the
   * lower-cased text.
   */
  lemma {:induction false} ReplaceFromKeepsLower(s: string, pat: string, rep: string, i: nat)
    requires |pat| > 0 && i <= |s| && |rep| == |pat| && Lower(rep) == Lower(pat)
    ensures |ReplaceFrom(s, pat, rep, i)| == |s| - i
    ensures Lower(ReplaceFrom(s, pat, rep, i)) == Lower(s[i..])
    decreases |s| - i
  {
    if i < |s| {
      if OccursAt(s, pat, i) {
        ReplaceFromKeepsLower(s, pat, rep, i + |pat|);
        OccursAtIsSlice(s, pat, i);
        assert s[i..] == pat + s[i + |pat|..];
        LowerConcat(rep, ReplaceFrom(s, pat, rep, i + |pat|));
        LowerConcat(pat, s[i + |pat|..]);
      } else {
        ReplaceFromKeepsLower(s, pat, rep, i + 1);
        assert s[i..] == [s[i]] + s[i + 1..];
        LowerConcat([s[i]], ReplaceFrom(s, pat, rep, i + 1));
        LowerConcat([s[i]], s[i + 1..]);
      }
    }
  }

  /** The characters that Python's `str.isspace` accepts: the separators of `str.split()`. */
  predicate IsSpace(c: char) {
    var n := c as int;
    (9 <= n <= 13) || (28 <= n <= 32) || n == 0x85 || n == 0xA0 || n == 0x1680
    || (0x2000 <= n <= 0x200A) || n == 0x2028 || n == 0x2029 || n == 0x202F
    || n == 0x205F || n == 0x3000
  }

  predicate NoSpace(s: string) {
    forall i :: 0 <= i < |s| ==> !IsSpace(s[i])
  }

  /**
   * `str.split()` from index `i` on, `token` holding the characters of the
   * token being read: white space ends a token, and runs of it yield no
   * empty tokens.
   */
  function SplitFrom(s: string, i: nat, token: string): (tokens: seq<string>)
    requires i <= |s|
    decreases |s| - i
  {
    if i == |s| then (if token == [] then [] else [token])
    else if IsSpace(s[i]) then (if token == [] then [] else [token]) + SplitFrom(s, i + 1, [])
    else SplitFrom(s, i + 1, token + [s[i]])
  }

  function Split(s: string): seq<string> {
    SplitFrom(s, 0, [])
  }

  function Concat(ss: seq<string>): string {
    if ss == [] then [] else ss[0] + Concat(ss[1..])
  }

  /** The characters of `s` that are not white space, in order. */
  function NonSpace(s: string): string {
    if s == [] then [] else (if IsSpace(s[0]) then [] else [s[0]]) + NonSpace(s[1..])
  }

  lemma {:induction false} ConcatAppend(a: seq<string>, b: seq<string>)
    ensures Concat(a + b) == Concat(a) + Concat(b)
  {
    if a != [] {
      assert (a + b)[1..] == a[1..] + b;
      ConcatAppend(a[1..], b);
      calc {
        Concat(a + b);
        (a + b)[0] + Concat(a[1..] + b);
        a[0] + (Concat(a[1..]) + Concat(b));
        (a[0] + Concat(a[1..])) + Concat(b);
      }
    } else {
      assert a + b == b;
    }
  }

  /**
   * Splitting keeps every non-space character, in order, and only those:
   * each token is non-empty and free of white space, and the tokens put
   * together are the non-space characters.
   */
  lemma {:induction false} SplitFromSpec(s: string, i: nat, token: string)
    requires i <= |s| && NoSpace(token)
    ensures forall k :: 0 <= k < |SplitFrom(s, i, token)| ==>
      SplitFrom(s, i, token)[k] != [] && NoSpace(SplitFrom(s, i, token)[k])
    ensures Concat(SplitFrom(s, i, token)) == token + NonSpace(s[i..])
    decreases |s| - i
  {
    assert s[i..] != [] ==> s[i..][1..] == s[i + 1..];
    if i < |s| {
      if IsSpace(s[i]) {
        SplitFromSpec(s, i + 1, []);
        var first := if token == [] then [] else [token];
        ConcatAppend(first, SplitFrom(s, i + 1, []));
      } else {
        SplitFromSpec(s, i + 1, token + [s[i]]);
      }
    }
  }

  lemma SplitSpec(s: string)
    ensures forall k :: 0 <= k < |Split(s)| ==> Split(s)[k] != [] && NoSpace(Split(s)[k])
    ensures Concat(Split(s)) == NonSpace(s)
  {
    SplitFromSpec(s, 0, []);
    assert s[0..] == s;
  }
  /** The split from index `i` on depends only on the characters from `d` on. */
  lemma {:induction false} SplitFromSuffix(s: string, d: nat, i: nat, token: string)
    requires d <= i <= |s|
    ensures SplitFrom(s, i, token) == SplitFrom(s[d..], i - d, token)
    decreases |s| - i
  {
    if i < |s| {
      assert s[d..][i - d] == s[i];
      if IsSpace(s[i]) {
        SplitFromSuffix(s, d, i + 1, []);
      } else {
        SplitFromSuffix(s, d, i + 1, token + [s[i]]);
      }
    }
  }

  /** A white-space character `c` after `a` ends the token being read, whatever `b` holds. */
  lemma {:induction false} SplitFromAtSpace(a: string, c: char, b: string, i: nat, token: string)
    requires i <= |a| && IsSpace(c)
    ensures SplitFrom(a + [c] + b, i, token) == SplitFrom(a, i, token) + Split(b)
    decreases |a| - i
  {
    var s := a + [c] + b;
    if i == |a| {
      assert s[|a|] == c;
      SplitFromSuffix(s, |a| + 1, |a| + 1, []);
      assert s[|a| + 1..] == b;
    } else {
      assert s[i] == a[i];
      if IsSpace(a[i]) {
        SplitFromAtSpace(a, c, b, i + 1, []);
        var first := if token == [] then [] else [token];
        assert first + (SplitFrom(a, i + 1, []) + Split(b)) == (first + SplitFrom(a, i + 1, [])) + Split(b);
      } else {
        SplitFromAtSpace(a, c, b, i + 1, token + [a[i]]);
      }
    }
  }

  /**
   * `str.split()` breaks at white space: a white-space character splits a
   * value into the tokens before it and the tokens after it.
   */
  lemma SplitAtSpace(a: string, c: char, b: string)
    requires IsSpace(c)
    ensures Split(a + [c] + b) == Split(a) + Split(b)
  {
    SplitFromAtSpace(a, c, b, 0, []);
  }
}
