/**
 * The few JavaScript string operations the collector relies on: `toLowerCase`,
 * `includes`, `trim` and `split(/[,;]+/)`.
 */
module Text {

  /** `toLowerCase` on one character, for the ASCII letters A-Z. */
  function LowerChar(c: char): char {
    if 'A' <= c <= 'Z' then (c as int + 32) as char else c
  }

  /** `s.toLowerCase()`, restricted to the ASCII letters. */
  function Lower(s: string): (r: string)
    ensures |r| == |s|
    ensures forall i :: 0 <= i < |s| ==> r[i] == LowerChar(s[i])
    ensures forall c :: c in r ==> !('A' <= c <= 'Z')
  {
    seq(|s|, i requires 0 <= i < |s| => LowerChar(s[i]))
  }

  /** `pattern` occurs in `text` starting at index `i`. */
  predicate OccursAt(text: string, pattern: string, i: int) {
    0 <= i && i + |pattern| <= |text| && text[i..i + |pattern|] == pattern
  }

  /** `text.includes(pattern)`. */
  function Includes(text: string, pattern: string): bool {
    pattern <= text || (text != [] && Includes(text[1..], pattern))
  }

  /** `Includes` holds exactly when the pattern occurs at some index of the text. */
  lemma {:induction false} IncludesIffOccurs(text: string, pattern: string)
    ensures Includes(text, pattern) <==> exists i :: OccursAt(text, pattern, i)
  {
    if pattern <= text {
      assert OccursAt(text, pattern, 0);
    } else if text != [] {
      IncludesIffOccurs(text[1..], pattern);
      if Includes(text, pattern) {
        var i :| OccursAt(text[1..], pattern, i);
        assert text[1..][i..i + |pattern|] == text[i + 1..i + 1 + |pattern|];
        assert OccursAt(text, pattern, i + 1);
      }
      forall i | OccursAt(text, pattern, i) ensures OccursAt(text[1..], pattern, i - 1) {
        assert i != 0 by {
          assert text[0..|pattern|] != pattern;
        }
        assert text[1..][i - 1..i - 1 + |pattern|] == text[i..i + |pattern|];
      }
    }
  }

  /** A pattern longer than the text is never included. */
  lemma {:induction false} IncludesTooShort(text: string, pattern: string)
    requires |text| < |pattern|
    ensures !Includes(text, pattern)
  {
    if text != [] {
      IncludesTooShort(text[1..], pattern);
    }
  }

  /** A pattern whose first character is absent from the text is never included. */
  lemma {:induction false} IncludesNeedsFirstChar(text: string, pattern: string)
    requires pattern != [] && pattern[0] !in text
    ensures !Includes(text, pattern)
  {
    if text != [] {
      assert text[0] != pattern[0];
      assert forall c :: c in text[1..] ==> c in text;
      IncludesNeedsFirstChar(text[1..], pattern);
    }
  }

  /** Adding text before or after never makes an occurring pattern disappear. */
  lemma IncludesExtend(a: string, b: string, pattern: string)
    requires Includes(a, pattern)
    ensures Includes(a + b, pattern) && Includes(b + a, pattern)
  {
    IncludesIffOccurs(a, pattern);
    var i :| OccursAt(a, pattern, i);
    assert (a + b)[i..i + |pattern|] == a[i..i + |pattern|];
    assert OccursAt(a + b, pattern, i);
    assert (b + a)[|b| + i..|b| + i + |pattern|] == a[i..i + |pattern|];
    assert OccursAt(b + a, pattern, |b| + i);
    IncludesIffOccurs(a + b, pattern);
    IncludesIffOccurs(b + a, pattern);
  }

  /** The characters `String.prototype.trim` removes (white space and line terminators). */
  predicate IsSpace(c: char) {
    var n := c as int;
    (9 <= n <= 13) || n == 32 || n == 0xA0 || n == 0x1680 || (0x2000 <= n <= 0x200A)
    || n == 0x2028 || n == 0x2029 || n == 0x202F || n == 0x205F || n == 0x3000 || n == 0xFEFF
  }

  /** Neither end of `s` is white space. */
  predicate Trimmed(s: string) {
    s == [] || (!IsSpace(s[0]) && !IsSpace(s[|s| - 1]))
  }

  /** Leading white space removed: the result is the longest suffix that does not start with white space. */
  function TrimStart(s: string): (r: string)
    ensures |r| <= |s| && r == s[|s| - |r|..]
    ensures r == [] || !IsSpace(r[0])
    ensures forall i :: 0 <= i < |s| - |r| ==> IsSpace(s[i])
  {
    if s != [] && IsSpace(s[0]) then TrimStart(s[1..]) else s
  }

  /** Trailing white space removed: the result is the longest prefix that does not end in white space. */
  function TrimEnd(s: string): (r: string)
    ensures |r| <= |s| && r == s[..|r|]
    ensures r == [] || !IsSpace(r[|r| - 1])
    ensures forall i :: |r| <= i < |s| ==> IsSpace(s[i])
  {
    if s != [] && IsSpace(s[|s| - 1]) then TrimEnd(s[..|s| - 1]) else s
  }

  /** `s[..i]` and `s[j..]` are all white space. */
  predicate SpaceMargins(s: string, i: int, j: int) {
    0 <= i <= j <= |s|
    && (forall k :: 0 <= k < i ==> IsSpace(s[k]))
    && (forall k :: j <= k < |s| ==> IsSpace(s[k]))
  }

  /**
   * `s.trim()`: `s` with exactly its leading and trailing white space removed, that is the
   * slice between a white-space prefix and a white-space suffix that is itself trimmed.
   */
  function Trim(s: string): (r: string)
    ensures Trimmed(r)
    ensures exists i, j :: SpaceMargins(s, i, j) && r == s[i..j]
    ensures forall c :: c in r ==> c in s
  {
    TrimIsSlice(s);
    TrimIsTrimmed(s);
    TrimEnd(TrimStart(s))
  }

  lemma TrimIsSlice(s: string)
    ensures var t := TrimStart(s);
      var i, j := |s| - |t|, |s| - |t| + |TrimEnd(t)|;
      SpaceMargins(s, i, j) && TrimEnd(t) == s[i..j]
  {
    var t := TrimStart(s);
    var r := TrimEnd(t);
    var i, j := |s| - |t|, |s| - |t| + |r|;
    assert r == t[..|r|] && t == s[i..];
    TrimMargins(s, t, r);
  }

  lemma TrimIsTrimmed(s: string)
    ensures Trimmed(TrimEnd(TrimStart(s)))
  {
    var t := TrimStart(s);
    var r := TrimEnd(t);
    if r != [] {
      assert r[0] == t[0];
    }
  }

  lemma TrimMargins(s: string, t: string, r: string)
    requires t == TrimStart(s) && r == TrimEnd(t)
    ensures SpaceMargins(s, |s| - |t|, |s| - |t| + |r|)
  {
    var i, j := |s| - |t|, |s| - |t| + |r|;
    assert t == s[i..];
    forall k | j <= k < |s| ensures IsSpace(s[k]) {
      assert s[k] == t[k - i];
    }
  }

  /** The separators of the chronic-conditions field. */
  predicate IsSeparator(c: char) {
    c == ',' || c == ';'
  }

  /**
   * `s.split(/[,;]+/)`: the pieces between maximal runs of separators. A separator at
   * either end yields an empty first or last piece, as in JavaScript.
   */
  function SplitOnSeparatorRuns(s: string): (r: seq<string>)
    ensures |r| >= 1
    ensures forall k, c :: 0 <= k < |r| && c in r[k] ==> !IsSeparator(c) && c in s
  {
    if s == [] then [""]
    else
      var rest := SplitOnSeparatorRuns(s[1..]);
      assert forall c :: c in s[1..] ==> c in s;
      if IsSeparator(s[0]) then
        if |s| > 1 && IsSeparator(s[1]) then rest else [""] + rest
      else
        [[s[0]] + rest[0]] + rest[1..]
  }

  /** Text without separators is a single piece. */
  lemma {:induction false} SplitWithoutSeparators(s: string)
    requires forall i :: 0 <= i < |s| ==> !IsSeparator(s[i])
    ensures SplitOnSeparatorRuns(s) == [s]
  {
    if s != [] {
      SplitWithoutSeparators(s[1..]);
      assert [s[0]] + s[1..] == s;
    }
  }

  /** A separator-free word in front of the text joins the first piece. */
  lemma {:induction false} SplitAfterWord(w: string, rest: string)
    requires forall i :: 0 <= i < |w| ==> !IsSeparator(w[i])
    ensures var r := SplitOnSeparatorRuns(rest);
      SplitOnSeparatorRuns(w + rest) == [w + r[0]] + r[1..]
  {
    if w != [] {
      var r := SplitOnSeparatorRuns(rest);
      var tail := SplitOnSeparatorRuns(w[1..] + rest);
      assert tail[0] == w[1..] + r[0] && tail[1..] == r[1..] by {
        SplitAfterWord(w[1..], rest);
      }
      assert SplitOnSeparatorRuns(w + rest) == [[w[0]] + tail[0]] + tail[1..] by {
        assert (w + rest)[0] == w[0] && (w + rest)[1..] == w[1..] + rest;
        SplitWordStart(w + rest);
      }
      assert [w[0]] + tail[0] == w + r[0];
    } else {
      SplitEmptyWord(w, rest);
    }
  }

  lemma SplitEmptyWord(w: string, rest: string)
    requires w == []
    ensures var r := SplitOnSeparatorRuns(rest);
      SplitOnSeparatorRuns(w + rest) == [w + r[0]] + r[1..]
  {
    var r := SplitOnSeparatorRuns(rest);
    assert w + rest == rest && w + r[0] == r[0];
    assert r == [r[0]] + r[1..];
  }

  /** A piece starting with a character that is not a separator keeps it at its front. */
  lemma SplitWordStart(s: string)
    requires s != [] && !IsSeparator(s[0])
    ensures var tail := SplitOnSeparatorRuns(s[1..]);
      SplitOnSeparatorRuns(s) == [[s[0]] + tail[0]] + tail[1..]
  {
  }

  /** A run of separators between two pieces is one split point, however long it is. */
  lemma {:induction false} SplitSkipsRun(sep: string, rest: string)
    requires sep != [] && forall i :: 0 <= i < |sep| ==> IsSeparator(sep[i])
    requires rest == [] || !IsSeparator(rest[0])
    ensures SplitOnSeparatorRuns(sep + rest) == [""] + SplitOnSeparatorRuns(rest)
  {
    assert (sep + rest)[1..] == sep[1..] + rest;
    if |sep| > 1 {
      SplitSkipsRun(sep[1..], rest);
    }
  }

  /** The pieces laid end to end. */
  function Concat(pieces: seq<string>): string {
    if pieces == [] then [] else pieces[0] + Concat(pieces[1..])
  }

  /** `s` with every separator removed. */
  function WithoutSeparators(s: string): (r: string) {
    if s == [] then []
    else (if IsSeparator(s[0]) then [] else [s[0]]) + WithoutSeparators(s[1..])
  }

  /** Splitting loses exactly the separators: the pieces put back together are `s` without them. */
  lemma {:induction false} SplitLosesOnlySeparators(s: string)
    ensures Concat(SplitOnSeparatorRuns(s)) == WithoutSeparators(s)
  {
    if s != [] {
      SplitLosesOnlySeparators(s[1..]);
      var rest := SplitOnSeparatorRuns(s[1..]);
      if IsSeparator(s[0]) {
        if !(|s| > 1 && IsSeparator(s[1])) {
          assert ([""] + rest)[1..] == rest;
        }
      } else {
        var head := [s[0]] + rest[0];
        assert Concat(rest) == rest[0] + Concat(rest[1..]);
        assert ([head] + rest[1..])[1..] == rest[1..];
        assert Concat([head] + rest[1..]) == head + Concat(rest[1..]);
      }
    }
  }
}
