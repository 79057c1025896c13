/** The clean-up applied to freshly generated review text before it is
    stored: trim, collapse every run of two or more line feeds into exactly
    one blank line (`replace(/\n\n+/g, '\n\n')`), trim again. */
module ReviewText {

  /** The characters `String.prototype.trim` removes: ECMAScript's WhiteSpace
      (tab, vertical tab, form feed, space, no-break space, byte order mark
      and the other space separators) and LineTerminator (line feed, carriage
      return, line and paragraph separators). Among ASCII characters these
      are exactly tab, line feed, vertical tab, form feed, carriage return
      and space. */
  predicate IsWhitespace(c: char)
    ensures c < '\U{0080}' ==> (IsWhitespace(c) <==> c in "\t\n\U{000B}\U{000C}\r ")
  {
    || c == '\t' || c == '\n' || c == '\U{000B}' || c == '\U{000C}' || c == '\r'
    || c == ' ' || c == '\U{00A0}' || c == '\U{1680}'
    || ('\U{2000}' <= c <= '\U{200A}')
    || c == '\U{2028}' || c == '\U{2029}' || c == '\U{202F}' || c == '\U{205F}'
    || c == '\U{3000}' || c == '\U{FEFF}'
  }

  // ---------------------------------------------------------------- trim

  /** How many whitespace characters open `s`. */
  function LeadingWhitespace(s: string): (n: nat)
    ensures n <= |s|
    ensures forall k :: 0 <= k < n ==> IsWhitespace(s[k])
    ensures n < |s| ==> !IsWhitespace(s[n])
  {
    if |s| > 0 && IsWhitespace(s[0]) then 1 + LeadingWhitespace(s[1..]) else 0
  }

  /** How many whitespace characters close `s`. */
  function TrailingWhitespace(s: string): (n: nat)
    ensures n <= |s|
    ensures forall k :: |s| - n <= k < |s| ==> IsWhitespace(s[k])
    ensures n < |s| ==> !IsWhitespace(s[|s| - n - 1])
  {
    if |s| > 0 && IsWhitespace(s[|s| - 1]) then 1 + TrailingWhitespace(s[..|s| - 1]) else 0
  }

  /** Neither end of `s` is whitespace. */
  predicate Trimmed(s: string) {
    s == [] || (!IsWhitespace(s[0]) && !IsWhitespace(s[|s| - 1]))
  }

  /** `s.trim()`: what is left of `s` once the whitespace at both ends is
      removed. The result is the slice of `s` that starts at its first
      non-whitespace character and ends at its last one. */
  function Trim(s: string): (r: string)
    ensures Trimmed(r)
    ensures var i := LeadingWhitespace(s);
            i + |r| <= |s| && r == s[i..i + |r|]
            && forall k :: i + |r| <= k < |s| ==> IsWhitespace(s[k])
  {
    var t := s[LeadingWhitespace(s)..];
    t[..|t| - TrailingWhitespace(t)]
  }

  /** Trimming text that has no whitespace at either end changes nothing. */
  lemma TrimKeepsTrimmed(s: string)
    requires Trimmed(s)
    ensures Trim(s) == s
  {
    assert LeadingWhitespace(s) == 0;
    assert TrailingWhitespace(s) == 0;
  }

  // --------------------------------------------------- blank-line collapse

  /** Three line feeds in a row start at position `k` of `s`. */
  predicate TripleAt(s: string, k: nat) {
    k + 2 < |s| && s[k] == '\n' && s[k + 1] == '\n' && s[k + 2] == '\n'
  }

  /** `s` has no three line feeds in a row. */
  predicate NoTripleNewline(s: string) {
    forall k: nat | k < |s| :: !TripleAt(s, k)
  }

  /** Putting one character in front of such a text keeps it free of three
      line feeds in a row, unless it makes a third line feed. */
  lemma PrependKeepsNoTriple(c: char, t: string)
    requires NoTripleNewline(t)
    requires !(c == '\n' && |t| >= 2 && t[0] == '\n' && t[1] == '\n')
    ensures NoTripleNewline([c] + t)
  {
    forall k: nat
      ensures !TripleAt([c] + t, k)
    {
      if k > 0 {
        assert TripleAt([c] + t, k) == TripleAt(t, k - 1);
      }
    }
  }

  /** Every slice of a text without three line feeds in a row is one too. */
  lemma SliceKeepsNoTriple(s: string, i: nat, j: nat)
    requires i <= j <= |s| && NoTripleNewline(s)
    ensures NoTripleNewline(s[i..j])
  {
    forall k: nat
      ensures !TripleAt(s[i..j], k)
    {
      if TripleAt(s[i..j], k) {
        assert TripleAt(s, i + k);
      }
    }
  }

  /** How many line feeds open `s`. */
  function NewlineRun(s: string): (n: nat)
    ensures n <= |s|
    ensures forall k :: 0 <= k < n ==> s[k] == '\n'
    ensures n < |s| ==> s[n] != '\n'
  {
    if |s| > 0 && s[0] == '\n' then 1 + NewlineRun(s[1..]) else 0
  }

  /** `s.replace(/\n\n+/g, '\n\n')`. The global regex is tried left to right:
      where two line feeds start, it takes the whole run greedily and writes
      two; anywhere else the character is copied and the scan moves on. The
      result keeps the first and last characters of `s` and never holds three
      line feeds in a row. */
  function CollapseBlankLines(s: string): (r: string)
    ensures |r| <= |s|
    ensures |s| > 0 ==> |r| > 0 && r[0] == s[0] && r[|r| - 1] == s[|s| - 1]
    ensures NoTripleNewline(r)
    decreases |s|
  {
    if |s| == 0 then ""
    else if |s| >= 2 && s[0] == '\n' && s[1] == '\n' then
      var rest := s[NewlineRun(s)..];
      var tail := CollapseBlankLines(rest);
      assert tail != [] ==> tail[0] == rest[0] != '\n';
      PrependKeepsNoTriple('\n', tail);
      PrependKeepsNoTriple('\n', ['\n'] + tail);
      assert ['\n'] + (['\n'] + tail) == "\n\n" + tail;
      "\n\n" + tail
    else
      var tail := CollapseBlankLines(s[1..]);
      PrependKeepsNoTriple(s[0], tail);
      [s[0]] + tail
  }

  /** The reference reading of the collapse: a character of `s` is dropped
      exactly when it is a line feed whose two predecessors are line feeds,
      that is, the third or later line feed of a run. */
  predicate Redundant(s: string, i: nat)
    requires i < |s|
  {
    2 <= i && s[i] == '\n' && s[i - 1] == '\n' && s[i - 2] == '\n'
  }

  /** The characters of `s[i..]` that are not redundant in `s`, in order. */
  function KeptFrom(s: string, i: nat): string
    requires i <= |s|
    decreases |s| - i
  {
    if i == |s| then ""
    else (if Redundant(s, i) then "" else [s[i]]) + KeptFrom(s, i + 1)
  }

  /** No line-feed run of `s` crosses position `i`. */
  predicate RunBoundary(s: string, i: nat)
    requires i <= |s|
  {
    !(0 < i < |s| && s[i - 1] == '\n' && s[i] == '\n')
  }

  /** The positions `i + 2 .. j` all hold redundant line feeds, so the
      reference filter skips them. */
  lemma {:induction false} SkipRedundant(s: string, i: nat, j: nat)
    requires i + 2 <= j <= |s|
    requires forall k :: i <= k < j ==> s[k] == '\n'
    ensures KeptFrom(s, i + 2) == KeptFrom(s, j)
    decreases j - i
  {
    if i + 2 < j {
      SkipRedundant(s, i + 1, j);
      assert Redundant(s, i + 2);
    }
  }

  /** The reference filter keeps the first two line feeds of a run that
      fills `s[i..m]` and drops the rest. */
  lemma {:induction false} KeptRunStart(s: string, i: nat, m: nat)
    requires i + 2 <= m <= |s|
    requires RunBoundary(s, i)
    requires forall k :: i <= k < m ==> s[k] == '\n'
    ensures KeptFrom(s, i) == "\n\n" + KeptFrom(s, m)
  {
    assert s[i] == '\n' && s[i + 1] == '\n';
    assert !Redundant(s, i);
    assert !Redundant(s, i + 1);
    assert KeptFrom(s, i) == [s[i]] + KeptFrom(s, i + 1);
    assert KeptFrom(s, i + 1) == [s[i + 1]] + KeptFrom(s, i + 2);
    SkipRedundant(s, i, m);
  }

  /** The run of line feeds at `i` ends just before `m`, and the collapse of
      `s[i..]` replaces it by two line feeds. */
  lemma {:induction false} RunEnd(s: string, i: nat) returns (m: nat)
    requires i + 1 < |s| && s[i] == '\n' && s[i + 1] == '\n'
    ensures i + 2 <= m <= |s|
    ensures forall k :: i <= k < m ==> s[k] == '\n'
    ensures m < |s| ==> s[m] != '\n'
    ensures CollapseBlankLines(s[i..]) == "\n\n" + CollapseBlankLines(s[m..])
  {
    var t := s[i..];
    var n := NewlineRun(t);
    assert t[0] == '\n' && t[1] == '\n';
    assert NewlineRun(t) == 1 + NewlineRun(t[1..]);
    assert t[n..] == s[i + n..];
    m := i + n;
  }

  /** At a run of two or more line feeds starting at `i`, the collapse and the
      reference filter both emit two line feeds and resume after the run. */
  lemma {:induction false} CollapseRunStep(s: string, i: nat) returns (m: nat)
    requires i + 1 < |s| && s[i] == '\n' && s[i + 1] == '\n' && RunBoundary(s, i)
    ensures i < m <= |s| && RunBoundary(s, m)
    ensures CollapseBlankLines(s[i..]) == "\n\n" + CollapseBlankLines(s[m..])
    ensures KeptFrom(s, i) == "\n\n" + KeptFrom(s, m)
  {
    m := RunEnd(s, i);
    KeptRunStart(s, i, m);
  }

  /** Anywhere else both copy the character at `i` and move one step on. */
  lemma {:induction false} CollapseCopyStep(s: string, i: nat)
    requires i < |s| && RunBoundary(s, i)
    requires !(i + 1 < |s| && s[i] == '\n' && s[i + 1] == '\n')
    ensures RunBoundary(s, i + 1)
    ensures CollapseBlankLines(s[i..]) == [s[i]] + CollapseBlankLines(s[i + 1..])
    ensures KeptFrom(s, i) == [s[i]] + KeptFrom(s, i + 1)
  {
    var t := s[i..];
    assert t[1..] == s[i + 1..];
    assert !Redundant(s, i);
  }

  /** One step of the collapse from position `i`: both it and the reference
      filter emit the same text `w` for `s[i..m]`, and `m` is again a point
      that no line-feed run crosses. */
  lemma {:induction false} CollapseStep(s: string, i: nat) returns (m: nat, w: string)
    requires i < |s| && RunBoundary(s, i)
    ensures i < m <= |s| && RunBoundary(s, m)
    ensures CollapseBlankLines(s[i..]) == w + CollapseBlankLines(s[m..])
    ensures KeptFrom(s, i) == w + KeptFrom(s, m)
  {
    if i + 1 < |s| && s[i] == '\n' && s[i + 1] == '\n' {
      m := CollapseRunStep(s, i);
      w := "\n\n";
    } else {
      CollapseCopyStep(s, i);
      m, w := i + 1, [s[i]];
    }
  }

  /** The collapse of a suffix starting where no line-feed run is split
      agrees with the reference filter from that point on. */
  lemma {:induction false} CollapseSuffixIsKept(s: string, i: nat)
    requires i <= |s| && RunBoundary(s, i)
    ensures CollapseBlankLines(s[i..]) == KeptFrom(s, i)
    decreases |s| - i
  {
    if i < |s| {
      var m, w := CollapseStep(s, i);
      CollapseSuffixIsKept(s, m);
    }
  }

  /** The collapse drops exactly the third and later line feeds of every run
      and keeps every other character, in order. */
  lemma CollapseIsReference(s: string)
    ensures CollapseBlankLines(s) == KeptFrom(s, 0)
  {
    assert s[0..] == s;
    CollapseSuffixIsKept(s, 0);
  }

  /** Text that already has no three line feeds in a row is left alone. */
  lemma {:induction false} CollapseKeepsClean(s: string)
    requires NoTripleNewline(s)
    ensures CollapseBlankLines(s) == s
    decreases |s|
  {
    if |s| >= 2 && s[0] == '\n' && s[1] == '\n' {
      assert |s| == 2 || s[2] != '\n' by {
        assert !TripleAt(s, 0);
      }
      assert NewlineRun(s) == 2 by {
        assert NewlineRun(s[1..]) == 1 + NewlineRun(s[2..]);
      }
      SliceKeepsNoTriple(s, 2, |s|);
      assert s[2..|s|] == s[2..];
      CollapseKeepsClean(s[2..]);
    } else if |s| > 0 {
      SliceKeepsNoTriple(s, 1, |s|);
      assert s[1..|s|] == s[1..];
      CollapseKeepsClean(s[1..]);
    }
  }

  /** Collapsing twice is collapsing once. */
  lemma CollapseIdempotent(s: string)
    ensures CollapseBlankLines(CollapseBlankLines(s)) == CollapseBlankLines(s)
  {
    CollapseKeepsClean(CollapseBlankLines(s));
  }

  // ---------------------------------------------------------- normalise

  /** What a stored review looks like after clean-up. */
  predicate Normalised(s: string) {
    Trimmed(s) && NoTripleNewline(s)
  }

  /** The clean-up of generated text: `text.trim()`, then the collapse, then
      `.trim()` once more. The result has no whitespace at either end, no
      three line feeds in a row, and is never longer than the input. */
  function Normalise(text: string): (r: string)
    ensures Normalised(r)
    ensures |r| <= |text|
  {
    var once := Trim(text);
    var collapsed := CollapseBlankLines(once);
    var i := LeadingWhitespace(collapsed);
    SliceKeepsNoTriple(collapsed, i, i + |Trim(collapsed)|);
    Trim(collapsed)
  }

  /** The second trim never removes anything: the collapse keeps the first
      and last characters of the already trimmed text. */
  lemma SecondTrimIsNoOp(text: string)
    ensures Trim(CollapseBlankLines(Trim(text))) == CollapseBlankLines(Trim(text))
  {
    TrimKeepsTrimmed(CollapseBlankLines(Trim(text)));
  }

  /** Normalised text is exactly the text normalisation leaves unchanged. */
  lemma NormaliseFixedPoints(s: string)
    ensures Normalise(s) == s <==> Normalised(s)
  {
    if Normalised(s) {
      TrimKeepsTrimmed(s);
      CollapseKeepsClean(s);
      TrimKeepsTrimmed(s);
    }
  }

  /** Normalising a second time changes nothing. */
  lemma NormaliseIdempotent(s: string)
    ensures Normalise(Normalise(s)) == Normalise(s)
  {
    NormaliseFixedPoints(Normalise(s));
  }
}
