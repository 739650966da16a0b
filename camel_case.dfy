/**
 * `convert_camel_case`: two regular-expression substitutions, each a
 * left-to-right scan that inserts `_` where its pattern matches and resumes
 * after the match, followed by lower-casing.
 */
module CamelCase {
  import opened PyStr

  /**
   * `t` is `s` with zero or more `_` characters inserted: the only edit
   * either substitution makes.
   */
  predicate Inserted(s: string, t: string)
    decreases |t|
  {
    if t == [] then s == []
    else
      || (s != [] && s[0] == t[0] && Inserted(s[1..], t[1..]))
      || (t[0] == '_' && Inserted(s, t[1..]))
  }

  lemma {:induction false} InsertedRefl(s: string)
    ensures Inserted(s, s)
  {
    if s != [] {
      InsertedRefl(s[1..]);
    }
  }

  lemma {:induction false} InsertedConcat(a: string, b: string, c: string, d: string)
    requires Inserted(a, b) && Inserted(c, d)
    ensures Inserted(a + c, b + d)
    decreases |b|
  {
    if b == [] {
      assert a + c == c && b + d == d;
    } else {
      assert (b + d)[1..] == b[1..] + d;
      if a != [] && a[0] == b[0] && Inserted(a[1..], b[1..]) {
        InsertedConcat(a[1..], b[1..], c, d);
        assert (a + c)[1..] == a[1..] + c;
      } else {
        InsertedConcat(a, b[1..], c, d);
      }
    }
  }

  lemma {:induction false} InsertedTrans(a: string, b: string, c: string)
    requires Inserted(a, b) && Inserted(b, c)
    ensures Inserted(a, c)
    decreases |c|
  {
    if c != [] {
      if b != [] && b[0] == c[0] && Inserted(b[1..], c[1..]) {
        if a != [] && a[0] == b[0] && Inserted(a[1..], b[1..]) {
          InsertedTrans(a[1..], b[1..], c[1..]);
        } else {
          InsertedTrans(a, b[1..], c[1..]);
        }
      } else {
        InsertedTrans(a, b, c[1..]);
      }
    }
  }

  /** Lower-casing leaves inserted underscores where they are. */
  lemma {:induction false} InsertedLower(s: string, t: string)
    requires Inserted(s, t)
    ensures Inserted(Lower(s), Lower(t))
    decreases |t|
  {
    if t != [] {
      assert Lower(t)[1..] == Lower(t[1..]);
      if s != [] && s[0] == t[0] && Inserted(s[1..], t[1..]) {
        InsertedLower(s[1..], t[1..]);
        assert Lower(s)[1..] == Lower(s[1..]);
      } else {
        InsertedLower(s, t[1..]);
      }
    }
  }

  /**
   * `re.sub('(.)([A-Z][a-z]+)', r'\1_\2', name)` scanning from index `i`:
   * the pattern matches where any character but a newline is followed by an
   * upper-case and a lower-case letter; `_` goes between the first two
   * characters and the greedy `[a-z]+` run is copied before the scan resumes.
   */
  function WordPassFrom(s: string, i: nat): string
    requires i <= |s|
    decreases |s| - i, 0
  {
    if i == |s| then []
    else if i + 2 < |s| && s[i] != '\n' && IsUpper(s[i + 1]) && IsLower(s[i + 2]) then
      [s[i], '_', s[i + 1]] + CopyLowerRun(s, i + 2)
    else [s[i]] + WordPassFrom(s, i + 1)
  }

  /** Copies the rest of a matched `[a-z]+` run, then resumes the scan. */
  function CopyLowerRun(s: string, j: nat): string
    requires j <= |s|
    decreases |s| - j, 1
  {
    if j < |s| && IsLower(s[j]) then [s[j]] + CopyLowerRun(s, j + 1)
    else WordPassFrom(s, j)
  }

  function WordPass(s: string): string {
    WordPassFrom(s, 0)
  }

  /**
   * `re.sub('([a-z0-9])([A-Z])', r'\1_\2', s1)` scanning from index `i`: the
   * pattern matches where a lower-case letter or digit is followed by an
   * upper-case letter.
   */
  function CasePassFrom(s: string, i: nat): string
    requires i <= |s|
    decreases |s| - i
  {
    if i == |s| then []
    else if i + 1 < |s| && (IsLower(s[i]) || IsDigit(s[i])) && IsUpper(s[i + 1]) then
      [s[i], '_', s[i + 1]] + CasePassFrom(s, i + 2)
    else [s[i]] + CasePassFrom(s, i + 1)
  }

  function CasePass(s: string): string {
    CasePassFrom(s, 0)
  }

  lemma InsertedAfterFirst(x: char, y: char)
    ensures Inserted([x, y], [x, '_', y])
  {
    assert [x, '_', y][1..] == ['_', y];
    assert ['_', y][1..] == [y];
    assert [x, y][1..] == [y];
    InsertedRefl([y]);
  }

  lemma {:induction false} WordPassInserts(s: string, i: nat)
    requires i <= |s|
    ensures Inserted(s[i..], WordPassFrom(s, i))
    decreases |s| - i, 0
  {
    if i < |s| {
      if i + 2 < |s| && s[i] != '\n' && IsUpper(s[i + 1]) && IsLower(s[i + 2]) {
        CopyLowerRunInserts(s, i + 2);
        InsertedAfterFirst(s[i], s[i + 1]);
        InsertedConcat([s[i], s[i + 1]], [s[i], '_', s[i + 1]], s[i + 2..], CopyLowerRun(s, i + 2));
        assert s[i..] == [s[i], s[i + 1]] + s[i + 2..];
      } else {
        WordPassInserts(s, i + 1);
        InsertedRefl([s[i]]);
        InsertedConcat([s[i]], [s[i]], s[i + 1..], WordPassFrom(s, i + 1));
        assert s[i..] == [s[i]] + s[i + 1..];
      }
    }
  }

  lemma {:induction false} CopyLowerRunInserts(s: string, j: nat)
    requires j <= |s|
    ensures Inserted(s[j..], CopyLowerRun(s, j))
    decreases |s| - j, 1
  {
    if j < |s| && IsLower(s[j]) {
      CopyLowerRunInserts(s, j + 1);
      InsertedRefl([s[j]]);
      InsertedConcat([s[j]], [s[j]], s[j + 1..], CopyLowerRun(s, j + 1));
      assert s[j..] == [s[j]] + s[j + 1..];
    } else {
      WordPassInserts(s, j);
    }
  }

  lemma {:induction false} CasePassInserts(s: string, i: nat)
    requires i <= |s|
    ensures Inserted(s[i..], CasePassFrom(s, i))
    decreases |s| - i
  {
    if i < |s| {
      if i + 1 < |s| && (IsLower(s[i]) || IsDigit(s[i])) && IsUpper(s[i + 1]) {
        CasePassInserts(s, i + 2);
        InsertedAfterFirst(s[i], s[i + 1]);
        InsertedConcat([s[i], s[i + 1]], [s[i], '_', s[i + 1]], s[i + 2..], CasePassFrom(s, i + 2));
        assert s[i..] == [s[i], s[i + 1]] + s[i + 2..];
      } else {
        CasePassInserts(s, i + 1);
        InsertedRefl([s[i]]);
        InsertedConcat([s[i]], [s[i]], s[i + 1..], CasePassFrom(s, i + 1));
        assert s[i..] == [s[i]] + s[i + 1..];
      }
    }
  }

  predicate LowerOrDigit(c: char) { IsLower(c) || IsDigit(c) }

  /**
   * The two substitutions described by position rather than by scanning:
   * characters `i..j` of `s`, with `_` put before each upper-case letter
   * that follows a lower-case letter or a digit, or that follows any
   * character but a newline and is itself followed by a lower-case letter.
   */
  function SnakeSpan(s: string, i: nat, j: nat): string
    requires i <= j <= |s|
    decreases j - i
  {
    if i == j then []
    else if 0 < i && IsUpper(s[i]) && (IsLower(s[i - 1]) || IsDigit(s[i - 1])
            || (s[i - 1] != '\n' && i + 1 < |s| && IsLower(s[i + 1]))) then
      ['_', s[i]] + SnakeSpan(s, i + 1, j)
    else [s[i]] + SnakeSpan(s, i + 1, j)
  }

  /**
   * Pass 2 by position: `_` before each upper-case letter that follows a
   * lower-case letter or digit (`afterLowerOrDigit` tells what preceded `t`).
   */
  function CaseRef(afterLowerOrDigit: bool, t: string): string
    decreases |t|
  {
    if t == [] then []
    else
      var head := if afterLowerOrDigit && IsUpper(t[0]) then ['_', t[0]] else [t[0]];
      head + CaseRef(LowerOrDigit(t[0]), t[1..])
  }

  /** A span is the concatenation of its two halves. */
  lemma {:induction false} SnakeSpanSplit(s: string, i: nat, k: nat, j: nat)
    requires i <= k <= j <= |s|
    ensures SnakeSpan(s, i, j) == SnakeSpan(s, i, k) + SnakeSpan(s, k, j)
    decreases k - i
  {
    if i < k {
      SnakeSpanSplit(s, i + 1, k, j);
    }
  }

  /** The characters `SnakeSpan` emits for index `i`. */
  function Piece(s: string, i: nat): string
    requires i < |s|
  {
    if 0 < i && IsUpper(s[i]) && (IsLower(s[i - 1]) || IsDigit(s[i - 1])
            || (s[i - 1] != '\n' && i + 1 < |s| && IsLower(s[i + 1]))) then ['_', s[i]] else [s[i]]
  }

  lemma SnakeStep(s: string, i: nat)
    requires i < |s|
    ensures SnakeSpan(s, i, |s|) == Piece(s, i) + SnakeSpan(s, i + 1, |s|)
  {
  }

  lemma CaseRefCons(f: bool, c: char, t: string)
    ensures CaseRef(f, [c] + t) == (if f && IsUpper(c) then ['_', c] else [c]) + CaseRef(LowerOrDigit(c), t)
  {
    assert ([c] + t)[0] == c && ([c] + t)[1..] == t;
  }

  /** Pass 2 matching at `i`, for any continuation `rest`. */
  lemma CaseMatchStep(t: string, i: nat, rest: string)
    requires i + 1 < |t| && LowerOrDigit(t[i]) && IsUpper(t[i + 1])
    requires !(0 < i && LowerOrDigit(t[i - 1]) && IsUpper(t[i]))
    requires rest == CaseRef(false, t[i + 2..])
    ensures [t[i], '_', t[i + 1]] + rest == CaseRef(0 < i && LowerOrDigit(t[i - 1]), t[i..])
  {
    var f := 0 < i && LowerOrDigit(t[i - 1]);
    assert t[i..] == [t[i]] + t[i + 1..];
    assert t[i + 1..] == [t[i + 1]] + t[i + 2..];
    CaseRefCons(true, t[i + 1], t[i + 2..]);
    CaseRefCons(f, t[i], t[i + 1..]);
  }

  lemma {:induction false} CasePassIsRef(t: string, i: nat)
    requires i <= |t|
    requires !(0 < i < |t| && LowerOrDigit(t[i - 1]) && IsUpper(t[i]))
    ensures CasePassFrom(t, i) == CaseRef(0 < i && LowerOrDigit(t[i - 1]), t[i..])
    decreases |t| - i
  {
    if i < |t| {
      if i + 1 < |t| && LowerOrDigit(t[i]) && IsUpper(t[i + 1]) {
        CasePassIsRef(t, i + 2);
        CaseMatchStep(t, i, CasePassFrom(t, i + 2));
      } else {
        CasePassIsRef(t, i + 1);
        assert t[i..] == [t[i]] + t[i + 1..];
        CaseRefCons(0 < i && LowerOrDigit(t[i - 1]), t[i], t[i + 1..]);
      }
    }
  }

  /**
   * Where the pass-1 scan can stand: no match that starts just before `i` was
   * skipped, unless the character before `i` is lower-case (pass 2 then
   * inserts the same underscore).
   */
  predicate Resumable(s: string, i: nat)
    requires i <= |s|
  {
    i == 0 || LowerOrDigit(s[i - 1])
    || !(s[i - 1] != '\n' && i + 1 < |s| && IsUpper(s[i]) && IsLower(s[i + 1]))
  }

  /** One step of the scan where pass 1 matches at `i`, for any continuation `rest`. */
  lemma WordMatchStep(s: string, i: nat, rest: string)
    requires i + 2 < |s| && s[i] != '\n' && IsUpper(s[i + 1]) && IsLower(s[i + 2])
    requires Resumable(s, i)
    requires CaseRef(false, rest) == SnakeSpan(s, i + 2, |s|)
    ensures CaseRef(0 < i && LowerOrDigit(s[i - 1]), [s[i], '_', s[i + 1]] + rest) == SnakeSpan(s, i, |s|)
  {
    var f := 0 < i && LowerOrDigit(s[i - 1]);
    var t2 := [s[i + 1]] + rest;
    var t1 := ['_'] + t2;
    CaseRefCons(false, s[i + 1], rest);
    CaseRefCons(LowerOrDigit(s[i]), '_', t2);
    CaseRefCons(f, s[i], t1);
    assert [s[i], '_', s[i + 1]] + rest == [s[i]] + t1;
    assert CaseRef(LowerOrDigit(s[i]), t1) == ['_', s[i + 1]] + SnakeSpan(s, i + 2, |s|);
    SnakeStep(s, i + 1);
    SnakeStep(s, i);
    assert Piece(s, i) == if f && IsUpper(s[i]) then ['_', s[i]] else [s[i]];
  }

  /** One step of the scan where pass 1 does not match at `i`. */
  lemma WordCopyStep(s: string, i: nat, rest: string)
    requires i < |s| && Resumable(s, i)
    requires !(i + 2 < |s| && s[i] != '\n' && IsUpper(s[i + 1]) && IsLower(s[i + 2]))
    requires CaseRef(LowerOrDigit(s[i]), rest) == SnakeSpan(s, i + 1, |s|)
    ensures CaseRef(0 < i && LowerOrDigit(s[i - 1]), [s[i]] + rest) == SnakeSpan(s, i, |s|)
  {
    CaseRefCons(0 < i && LowerOrDigit(s[i - 1]), s[i], rest);
    SnakeStep(s, i);
  }

  lemma {:induction false} WordPassIsSnake(s: string, i: nat)
    requires i <= |s| && Resumable(s, i)
    ensures CaseRef(0 < i && LowerOrDigit(s[i - 1]), WordPassFrom(s, i)) == SnakeSpan(s, i, |s|)
    decreases |s| - i, 0
  {
    if i < |s| {
      if i + 2 < |s| && s[i] != '\n' && IsUpper(s[i + 1]) && IsLower(s[i + 2]) {
        CopyLowerRunIsSnake(s, i + 2);
        WordMatchStep(s, i, CopyLowerRun(s, i + 2));
      } else {
        WordPassIsSnake(s, i + 1);
        WordCopyStep(s, i, WordPassFrom(s, i + 1));
      }
    }
  }

  lemma {:induction false} CopyLowerRunIsSnake(s: string, j: nat)
    requires 0 < j <= |s|
    requires IsLower(s[j - 1]) || (j < |s| && IsLower(s[j]))
    ensures CaseRef(LowerOrDigit(s[j - 1]), CopyLowerRun(s, j)) == SnakeSpan(s, j, |s|)
    decreases |s| - j, 1
  {
    if j < |s| && IsLower(s[j]) {
      CopyLowerRunIsSnake(s, j + 1);
      CaseRefCons(LowerOrDigit(s[j - 1]), s[j], CopyLowerRun(s, j + 1));
      SnakeStep(s, j);
    } else {
      WordPassIsSnake(s, j);
    }
  }

  /**
   * CamelCase to snake_case: the result has no upper-case letter, is the
   * lower-cased name with underscores inserted and nothing else changed, and
   * the underscores stand exactly where `SnakeSpan` puts them: skipping the
   * matches that overlap an earlier one loses nothing.
   */
  function ConvertCamelCase(name: string): (r: string)
    ensures NoUpper(r)
    ensures Inserted(Lower(name), r)
    ensures r == Lower(SnakeSpan(name, 0, |name|))
  {
    var s1 := WordPass(name);
    var s2 := CasePass(s1);
    WordPassInserts(name, 0);
    CasePassInserts(s1, 0);
    WordPassIsSnake(name, 0);
    CasePassIsRef(s1, 0);
    assert name[0..] == name && s1[0..] == s1;
    InsertedTrans(name, s1, s2);
    InsertedLower(name, s2);
    Lower(s2)
  }

  /** Neither pattern can match without an upper-case letter. */
  lemma {:induction false} WordPassKeepsLowercase(s: string, i: nat)
    requires i <= |s| && NoUpper(s)
    ensures WordPassFrom(s, i) == s[i..]
    decreases |s| - i
  {
    if i < |s| {
      WordPassKeepsLowercase(s, i + 1);
      assert s[i..] == [s[i]] + s[i + 1..];
    }
  }

  lemma {:induction false} CasePassKeepsLowercase(s: string, i: nat)
    requires i <= |s| && NoUpper(s)
    ensures CasePassFrom(s, i) == s[i..]
    decreases |s| - i
  {
    if i < |s| {
      CasePassKeepsLowercase(s, i + 1);
      assert s[i..] == [s[i]] + s[i + 1..];
    }
  }

  /** A name without upper-case letters is returned unchanged. */
  lemma ConvertKeepsLowercase(name: string)
    requires NoUpper(name)
    ensures ConvertCamelCase(name) == name
  {
    WordPassKeepsLowercase(name, 0);
    CasePassKeepsLowercase(name, 0);
    LowerOfNoUpper(name);
  }

  /** Converting a converted name changes nothing. */
  lemma ConvertIdempotent(name: string)
    ensures ConvertCamelCase(ConvertCamelCase(name)) == ConvertCamelCase(name)
  {
    ConvertKeepsLowercase(ConvertCamelCase(name));
  }
}
