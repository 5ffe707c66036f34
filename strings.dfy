/** The three JavaScript string operations the command router and the status
    report rely on: `String.prototype.trim`, `split(/\s+/)` and `includes`. */
module Strings {

  /** ECMAScript WhiteSpace and LineTerminator code points: the characters that
      `trim` removes and that the regular-expression class `\s` matches. */
  predicate IsSpace(c: char) {
    c == '\t' || c == '\n' || c == '\U{000B}' || c == '\U{000C}' || c == '\r' ||
    c == ' ' || c == '\U{00A0}' || c == '\U{1680}' ||
    ('\U{2000}' <= c <= '\U{200A}') ||
    c == '\U{2028}' || c == '\U{2029}' || c == '\U{202F}' || c == '\U{205F}' ||
    c == '\U{3000}' || c == '\U{FEFF}'
  }

  predicate NoSpace(s: string) {
    forall i :: 0 <= i < |s| ==> !IsSpace(s[i])
  }

  predicate AllSpace(s: string) {
    forall i :: 0 <= i < |s| ==> IsSpace(s[i])
  }

  lemma AllSpaceAppend(a: string, b: string)
    requires AllSpace(a) && AllSpace(b)
    ensures AllSpace(a + b)
  {
    forall i | 0 <= i < |a + b| ensures IsSpace((a + b)[i]) {
      if i >= |a| {
        assert (a + b)[i] == b[i - |a|];
      }
    }
  }

  /** Neither starts nor ends with white space: what `trim` returns. */
  predicate Trimmed(t: string) {
    t == [] || (!IsSpace(t[0]) && !IsSpace(t[|t| - 1]))
  }

  /** `w` is the first white-space-delimited word of `s`. */
  predicate StartsWithWord(s: string, w: string) {
    |w| <= |s| && s[..|w|] == w && (|w| == |s| || IsSpace(s[|w|]))
  }

  /** Removes the leading white space. */
  function TrimStart(s: string): (r: string)
    ensures |r| <= |s| && r == s[|s| - |r|..]
    ensures AllSpace(s[..|s| - |r|])
    ensures r == [] || !IsSpace(r[0])
  {
    s[SpaceRun(s)..]
  }

  /** Removes the trailing white space. */
  function TrimEnd(s: string): (r: string)
    ensures |r| <= |s| && r == s[..|r|]
    ensures AllSpace(s[|r|..])
    ensures r == [] || !IsSpace(r[|r| - 1])
  {
    if |s| > 0 && IsSpace(s[|s| - 1]) then
      var r := TrimEnd(s[..|s| - 1]);
      assert s[..|s| - 1][..|r|] == s[..|r|];
      assert s[|r|..] == s[..|s| - 1][|r|..] + [s[|s| - 1]];
      AllSpaceAppend(s[..|s| - 1][|r|..], [s[|s| - 1]]);
      r
    else s
  }

  /** `r` is `s` with the white-space runs `s[..i]` and `s[i + |r|..]` around it. */
  predicate PaddedAt(s: string, r: string, i: int) {
    0 <= i <= |s| - |r| && s[i..i + |r|] == r && AllSpace(s[..i]) && AllSpace(s[i + |r|..])
  }

  /** Trimming the start and then the end leaves white space on both sides. */
  lemma PaddedByTrims(s: string)
    ensures PaddedAt(s, TrimEnd(TrimStart(s)), |s| - |TrimStart(s)|)
  {
    var a := TrimStart(s);
    var r := TrimEnd(a);
    var i := |s| - |a|;
    assert s[i..i + |r|] == r;
    assert s[i + |r|..] == a[|r|..];
  }

  /** `s.trim()`: `s` is the result with white space around it, and a string
      that is already trimmed is left as it is. */
  function Trim(s: string): (r: string)
    ensures Trimmed(r)
    ensures exists i :: PaddedAt(s, r, i)
    ensures Trimmed(s) ==> r == s
  {
    PaddedByTrims(s);
    TrimEnd(TrimStart(s))
  }

  /** Length of the run of white space that `s` starts with. */
  function SpaceRun(s: string): (n: nat)
    ensures n <= |s| && AllSpace(s[..n])
    ensures n == |s| || !IsSpace(s[n])
  {
    if |s| > 0 && IsSpace(s[0]) then 1 + SpaceRun(s[1..]) else 0
  }

  /** `s.split(/\s+/)`: the pieces between maximal runs of white space. A
      leading run yields an empty first piece, a trailing run an empty last
      piece, and the empty string yields `[""]`. The first piece is the
      longest prefix without white space. */
  function SplitWs(s: string): (r: seq<string>)
    ensures |r| >= 1
    ensures forall k :: 0 <= k < |r| ==> NoSpace(r[k])
    ensures |r[0]| <= |s| && r[0] == s[..|r[0]|]
    ensures |r[0]| < |s| ==> IsSpace(s[|r[0]|])
    decreases |s|
  {
    if |s| == 0 then [[]]
    else if IsSpace(s[0]) then
      [[]] + SplitWs(s[SpaceRun(s)..])
    else
      var rest := SplitWs(s[1..]);
      assert s[..1 + |rest[0]|] == [s[0]] + rest[0];
      [[s[0]] + rest[0]] + rest[1..]
  }

  /** A string without white space is its own single piece, and only such a string. */
  lemma {:induction false} SplitSingle(s: string)
    ensures |SplitWs(s)| == 1 <==> NoSpace(s)
    decreases |s|
  {
    if |s| == 0 {
    } else if IsSpace(s[0]) {
      assert !NoSpace(s) by { assert IsSpace(s[0]); }
    } else {
      SplitSingle(s[1..]);
      assert NoSpace(s) <==> NoSpace(s[1..]) by {
        if NoSpace(s[1..]) {
          forall i | 0 <= i < |s| ensures !IsSpace(s[i]) {
            if i > 0 { assert s[i] == s[1..][i - 1]; }
          }
        }
        if NoSpace(s) {
          forall i | 0 <= i < |s[1..]| ensures !IsSpace(s[1..][i]) {
            assert s[1..][i] == s[i + 1];
          }
        }
      }
    }
  }

  /** The first piece is empty exactly for an empty string or a leading white space. */
  lemma SplitFirstEmpty(s: string)
    ensures SplitWs(s)[0] == [] <==> (s == [] || IsSpace(s[0]))
  {
  }

  /** Only the first and the last piece can be empty, and the last one is
      empty exactly when the string ends in white space. */
  lemma {:induction false} SplitInnerWords(s: string)
    ensures forall k :: 0 < k < |SplitWs(s)| - 1 ==> SplitWs(s)[k] != []
    ensures |SplitWs(s)| > 1 ==> (SplitWs(s)[|SplitWs(s)| - 1] == [] <==> IsSpace(s[|s| - 1]))
    decreases |s|
  {
    var r := SplitWs(s);
    if |s| == 0 {
    } else if IsSpace(s[0]) {
      var n := SpaceRun(s);
      var rest := SplitWs(s[n..]);
      SplitInnerWords(s[n..]);
      SplitFirstEmpty(s[n..]);
      assert r == [[]] + rest;
      if n == |s| {
        assert rest == [[]];
      } else {
        assert s[n..][|s[n..]| - 1] == s[|s| - 1];
        if |rest| == 1 {
          SplitSingle(s[n..]);
        }
      }
    } else {
      var rest := SplitWs(s[1..]);
      SplitInnerWords(s[1..]);
      SplitFirstEmpty(s[1..]);
      assert r == [[s[0]] + rest[0]] + rest[1..];
      if |rest| > 1 {
        assert s[1..][|s[1..]| - 1] == s[|s| - 1];
      }
    }
  }

  /** `s` with every white-space character removed. */
  function DropSpaces(s: string): (r: string)
    ensures NoSpace(r) && |r| <= |s|
  {
    if s == [] then [] else (if IsSpace(s[0]) then [] else [s[0]]) + DropSpaces(s[1..])
  }

  function Concat(ws: seq<string>): string {
    if ws == [] then [] else ws[0] + Concat(ws[1..])
  }

  lemma {:induction false} DropSpacesAllSpace(s: string)
    requires AllSpace(s)
    ensures DropSpaces(s) == []
  {
    if s != [] {
      DropSpacesAllSpace(s[1..]);
    }
  }

  lemma {:induction false} DropSpacesAppend(a: string, b: string)
    ensures DropSpaces(a + b) == DropSpaces(a) + DropSpaces(b)
  {
    if a != [] {
      assert (a + b)[1..] == a[1..] + b;
      DropSpacesAppend(a[1..], b);
    } else {
      assert a + b == b;
    }
  }

  /** Splitting loses exactly the white space: the pieces, put back together,
      are the non-space characters of `s` in their order. */
  lemma {:induction false} SplitKeepsText(s: string)
    ensures Concat(SplitWs(s)) == DropSpaces(s)
    decreases |s|
  {
    if |s| == 0 {
    } else if IsSpace(s[0]) {
      var n := SpaceRun(s);
      SplitKeepsText(s[n..]);
      assert s == s[..n] + s[n..];
      DropSpacesAppend(s[..n], s[n..]);
      DropSpacesAllSpace(s[..n]);
      var r := SplitWs(s);
      assert r == [[]] + SplitWs(s[n..]);
      assert r[1..] == SplitWs(s[n..]);
    } else {
      SplitKeepsText(s[1..]);
      var rest := SplitWs(s[1..]);
      var r := SplitWs(s);
      assert r == [[s[0]] + rest[0]] + rest[1..];
      assert r[1..] == rest[1..];
      assert Concat(rest) == rest[0] + Concat(rest[1..]);
    }
  }

  /** The first piece of the split is the first word, and only that word. */
  lemma FirstPieceIsFirstWord(s: string, w: string)
    requires NoSpace(w)
    ensures SplitWs(s)[0] == w <==> StartsWithWord(s, w)
  {
  }

  /** A trimmed, non-empty string splits into non-empty words. */
  lemma SplitTrimmedWords(t: string)
    requires Trimmed(t)
    ensures t != [] ==> forall k :: 0 <= k < |SplitWs(t)| ==> SplitWs(t)[k] != []
  {
    SplitFirstEmpty(t);
    SplitInnerWords(t);
  }

  /** A word followed by white space (or by nothing): the word is the first
      piece and the rest splits as on its own. */
  lemma {:induction false} SplitAfterWord(w: string, rest: string)
    requires NoSpace(w)
    requires rest == [] || IsSpace(rest[0])
    ensures SplitWs(w + rest) == [w] + SplitWs(rest)[1..]
    decreases |w|
  {
    if w == [] {
      assert w + rest == rest;
      if rest == [] {
      } else {
        assert SplitWs(rest)[0] == [];
      }
    } else {
      assert (w + rest)[1..] == w[1..] + rest;
      assert (w + rest)[0] == w[0];
      SplitAfterWord(w[1..], rest);
      assert [w[0]] + w[1..] == w;
    }
  }

  /** A run of white space before a word: an empty first piece, then the
      pieces of the word and what follows. */
  lemma SplitAfterSpaces(sep: string, y: string)
    requires sep != [] && AllSpace(sep)
    requires y == [] || !IsSpace(y[0])
    ensures SplitWs(sep + y) == [[]] + SplitWs(y)
  {
    var s := sep + y;
    assert forall i :: 0 <= i < |sep| ==> s[i] == sep[i];
    assert y != [] ==> s[|sep|] == y[0];
    assert SpaceRun(s) == |sep|;
    assert s[|sep|..] == y;
  }

  /** `set`, white space, a word `x`, then white space or nothing: the first
      two pieces are `set` and `x`. */
  lemma SplitSetLine(sep: string, x: string, rest: string)
    requires x != [] && NoSpace(x)
    requires sep != [] && AllSpace(sep)
    requires rest == [] || IsSpace(rest[0])
    ensures |SplitWs("set" + (sep + (x + rest)))| >= 2
    ensures SplitWs("set" + (sep + (x + rest)))[0] == "set"
    ensures SplitWs("set" + (sep + (x + rest)))[1] == x
  {
    SplitAfterWord("set", sep + (x + rest));
    SplitAfterSpaces(sep, x + rest);
    FirstPieceIsFirstWord(x + rest, x);
    assert (x + rest)[..|x|] == x;
  }

  /** `m` occurs in `s` starting at index `i`. */
  predicate OccursAt(s: string, m: string, i: int) {
    0 <= i <= |s| - |m| && s[i..i + |m|] == m
  }

  /** `s.includes(m)`: `m` occurs somewhere in `s` as a contiguous block. */
  function Includes(s: string, m: string): (b: bool)
    ensures b <==> exists i :: OccursAt(s, m, i)
    decreases |s|
  {
    if |m| <= |s| && s[..|m|] == m then
      assert OccursAt(s, m, 0);
      true
    else if |s| <= |m| then
      false
    else
      var b := Includes(s[1..], m);
      assert b ==> exists i :: OccursAt(s, m, i) by {
        if b {
          var j :| OccursAt(s[1..], m, j);
          assert s[j + 1..j + 1 + |m|] == s[1..][j..j + |m|];
          assert OccursAt(s, m, j + 1);
        }
      }
      assert (exists i :: OccursAt(s, m, i)) ==> b by {
        if exists i :: OccursAt(s, m, i) {
          var i :| OccursAt(s, m, i);
          assert i != 0;
          assert s[1..][i - 1..i - 1 + |m|] == s[i..i + |m|];
          assert OccursAt(s[1..], m, i - 1);
        }
      }
      b
  }

  /** A string includes each of its prefixes. */
  lemma IncludesPrefix(m: string, rest: string)
    ensures Includes(m + rest, m)
  {
    assert OccursAt(m + rest, m, 0);
  }
}
