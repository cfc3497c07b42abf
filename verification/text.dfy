/**
  String predicates the report parser applies to physical lines: Python's
  `str.strip()`, the `in` substring test, the record-header test
  `is_hex_line`, and the `\{.*\}` search that detects a verbose dump.
 */
module Text {
  import opened Numerals

  /** Python's `str.isspace()` for one character. */
  predicate IsSpace(c: char) {
    || c == ' '
    || '\t' <= c <= '\r'
    || '\U{1C}' <= c <= '\U{1F}'
    || c == '\U{85}' || c == '\U{A0}' || c == '\U{1680}'
    || '\U{2000}' <= c <= '\U{200A}'
    || c == '\U{2028}' || c == '\U{2029}' || c == '\U{202F}'
    || c == '\U{205F}' || c == '\U{3000}'
  }

  function StripStart(s: string): (r: string)
    ensures |r| <= |s| && r == s[|s| - |r|..]
    ensures forall i :: 0 <= i < |s| - |r| ==> IsSpace(s[i])
    ensures |r| > 0 ==> !IsSpace(r[0])
  {
    if |s| > 0 && IsSpace(s[0]) then StripStart(s[1..]) else s
  }

  function StripEnd(s: string): (r: string)
    ensures |r| <= |s| && r == s[..|r|]
    ensures forall i :: |r| <= i < |s| ==> IsSpace(s[i])
    ensures |r| > 0 ==> !IsSpace(r[|r| - 1])
  {
    if |s| > 0 && IsSpace(s[|s| - 1]) then StripEnd(s[..|s| - 1]) else s
  }

  /** Python's `s.strip()`: `s` without its leading and trailing whitespace. */
  function Strip(s: string): (r: string)
    ensures |r| <= |s|
    ensures |r| == |s| ==> r == s
  {
    StripEnd(StripStart(s))
  }

  /**
    What `Strip` keeps: a contiguous piece of `s` that neither starts nor
    ends with whitespace, with only whitespace cut off on either side.
   */
  lemma StripTrims(s: string)
    ensures exists a, b :: Trimmed(s, a, b) && Strip(s) == s[a..b]
    ensures |Strip(s)| > 0 ==> !IsSpace(Strip(s)[0]) && !IsSpace(Strip(s)[|Strip(s)| - 1])
  {
    var t := StripStart(s);
    var a := |s| - |t|;
    var r := StripEnd(t);
    var b := a + |r|;
    assert r == s[a..b];
    forall i | b <= i < |s| ensures IsSpace(s[i]) {
      assert s[i] == t[i - a];
    }
    assert Trimmed(s, a, b);
  }

  /** A line strips to nothing exactly when it is all whitespace. */
  lemma StripBlank(s: string)
    ensures (forall i :: 0 <= i < |s| ==> IsSpace(s[i])) <==> Strip(s) == ""
  {
    StripTrims(s);
    var a, b :| Trimmed(s, a, b) && Strip(s) == s[a..b];
    if Strip(s) == "" {
      assert a == b;
    } else {
      assert !IsSpace(s[a]);
    }
  }

  /** A line without surrounding whitespace is left alone. */
  lemma StripKeeps(s: string)
    requires |s| > 0 && !IsSpace(s[0]) && !IsSpace(s[|s| - 1])
    ensures Strip(s) == s
  {
    StripTrims(s);
    var a, b :| Trimmed(s, a, b) && Strip(s) == s[a..b];
    assert a == 0 && b == |s|;
  }

  /** Only whitespace lies outside `s[a..b]`. */
  ghost predicate Trimmed(s: string, a: int, b: int) {
    && 0 <= a <= b <= |s|
    && (forall i :: 0 <= i < a ==> IsSpace(s[i]))
    && (forall i :: b <= i < |s| ==> IsSpace(s[i]))
  }

  /** Stripping twice is stripping once. */
  lemma StripIdempotent(s: string)
    ensures Strip(Strip(s)) == Strip(s)
  {
    StripTrims(s);
    StripTrims(Strip(s));
  }

  /** Python's `sub in s`. */
  predicate Contains(s: string, sub: string) {
    exists i :: 0 <= i <= |s| && OccursAt(s, sub, i)
  }

  predicate OccursAt(s: string, sub: string, i: int) {
    0 <= i <= |s| - |sub| && sub <= s[i..]
  }

  /**
    `re.match(r"^0x[0-9a-fA-F]+:", s)`, read as the regex engine reads it:
    the literal `0x`, then a greedy run of hex digits that must be followed
    by a colon.
   */
  predicate IsHexLine(s: string)
    ensures IsHexLine(s) ==> |s| >= 4 && s[0] == '0' && s[1] == 'x' && IsHexDigit(s[2])
  {
    |s| >= 2 && s[0] == '0' && s[1] == 'x' && HexRunThenColon(s[2..])
  }

  /** `[0-9a-fA-F]+:` anchored at the start of `t`. */
  predicate HexRunThenColon(t: string)
    decreases |t|
  {
    && |t| >= 2
    && IsHexDigit(t[0])
    && (t[1] == ':' || HexRunThenColon(t[1..]))
  }

  /** The header shape stated declaratively: `0x`, one or more hex digits, `:`. */
  ghost predicate HeaderShape(s: string) {
    exists k :: 3 <= k < |s| && HeaderAt(s, k)
  }

  ghost predicate HeaderAt(s: string, k: int)
    requires 3 <= k < |s|
  {
    s[0] == '0' && s[1] == 'x' && s[k] == ':' && forall i :: 2 <= i < k ==> IsHexDigit(s[i])
  }

  /** The header test holds exactly for lines of the declared shape. */
  lemma IsHexLineIff(s: string)
    ensures IsHexLine(s) <==> HeaderShape(s)
  {
    if |s| >= 2 && s[0] == '0' && s[1] == 'x' {
      var t := s[2..];
      RunIff(t);
      if IsHexLine(s) {
        var k :| ColonAfterRun(t, k);
        assert HeaderAt(s, k + 2);
      }
      if HeaderShape(s) {
        var k :| 3 <= k < |s| && HeaderAt(s, k);
        assert 1 <= k - 2 < |t| && t[k - 2] == ':';
        forall i | 0 <= i < k - 2 ensures IsHexDigit(t[i]) {
          assert t[i] == s[i + 2];
        }
        assert ColonAfterRun(t, k - 2);
      }
    }
  }

  /** A colon at `k >= 1` with only hex digits before it. */
  ghost predicate ColonAfterRun(t: string, k: int) {
    1 <= k < |t| && t[k] == ':' && forall i :: 0 <= i < k ==> IsHexDigit(t[i])
  }

  lemma {:induction false} RunIff(t: string)
    ensures HexRunThenColon(t) <==> exists k :: ColonAfterRun(t, k)
    decreases |t|
  {
    if |t| >= 2 && IsHexDigit(t[0]) {
      RunIff(t[1..]);
      forall k | ColonAfterRun(t, k) && k >= 2 ensures ColonAfterRun(t[1..], k - 1) {
        forall i | 0 <= i < k - 1 ensures IsHexDigit(t[1..][i]) {
          assert t[1..][i] == t[i + 1];
        }
      }
      if t[1] == ':' {
        assert ColonAfterRun(t, 1);
      } else if HexRunThenColon(t[1..]) {
        var k :| ColonAfterRun(t[1..], k);
        assert t[k + 1] == ':';
        forall i | 0 <= i < k + 1 ensures IsHexDigit(t[i]) {
          if i > 0 { assert t[i] == t[1..][i - 1]; }
        }
        assert ColonAfterRun(t, k + 1);
      }
    }
  }

  /**
    `re.search(r"\{.*\}", s)`: some `{` is followed, later on the same line,
    by a `}` (the regex `.` does not cross a newline).
   */
  predicate HasBraceToken(s: string) {
    exists i, j :: 0 <= i < j < |s| && BracePair(s, i, j)
  }

  /** A `{` at `i` closed by a `}` at `j` with no newline in between. */
  predicate BracePair(s: string, i: int, j: int) {
    0 <= i < j < |s| && s[i] == '{' && s[j] == '}' && NoNewline(s, i, j)
  }

  predicate NoNewline(s: string, i: int, j: int)
    requires 0 <= i <= j <= |s|
  {
    forall k :: i < k < j ==> s[k] != '\n'
  }
}
