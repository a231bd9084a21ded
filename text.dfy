/**
 * The string primitives the application relies on: Python's `str.strip`,
 * `str.lower`, `in` on strings, `str.startswith`, `str.join`, and the two
 * regular-expression splits the tag entry uses (`[,;\n]` and `[,;\n]+`).
 */
module Text {

  /** The characters Python's `str.strip()` removes: those `str.isspace()` accepts. */
  predicate IsSpace(c: char) {
    || c == ' '
    || ('\t' <= c <= '\r')
    || ('\U{1C}' <= c <= '\U{1F}')
    || c == '\U{85}' || c == '\U{A0}' || c == '\U{1680}'
    || ('\U{2000}' <= c <= '\U{200A}')
    || c == '\U{2028}' || c == '\U{2029}' || c == '\U{202F}' || c == '\U{205F}' || c == '\U{3000}'
  }

  /** `s.rstrip()`: the longest prefix of `s` that does not end with whitespace. */
  function RStrip(s: string): (r: string)
    ensures |r| <= |s| && r == s[..|r|]
    ensures forall i | |r| <= i < |s| :: IsSpace(s[i])
    ensures r != [] ==> !IsSpace(r[|r| - 1])
  {
    if s != [] && IsSpace(s[|s| - 1]) then RStrip(s[..|s| - 1]) else s
  }

  /** Neither end of `s` is whitespace. */
  predicate Trimmed(s: string) {
    s == [] || (!IsSpace(s[0]) && !IsSpace(s[|s| - 1]))
  }

  /** `s.strip()`: whitespace is taken off the front, then off the back, until neither end is whitespace. */
  function Strip(s: string): (r: string)
    ensures Trimmed(r) && |r| <= |s|
    ensures r == [] <==> forall i | 0 <= i < |s| :: IsSpace(s[i])
    decreases |s|
  {
    if s != [] && IsSpace(s[0]) then
      assert forall i | 1 <= i < |s| :: s[i] == s[1..][i - 1];
      Strip(s[1..])
    else if s != [] && IsSpace(s[|s| - 1]) then
      assert forall i | 0 <= i < |s| - 1 :: s[i] == s[..|s| - 1][i];
      Strip(s[..|s| - 1])
    else s
  }

  /** The stripped string is a piece of the original. */
  lemma {:induction false} StripContained(s: string)
    ensures Contains(s, Strip(s))
    decreases |s|
  {
    if s != [] && IsSpace(s[0]) {
      StripContained(s[1..]);
    } else if s != [] && IsSpace(s[|s| - 1]) {
      StripContained(s[..|s| - 1]);
      ContainsInPrefix(s, |s| - 1, Strip(s));
    } else {
      assert s[..|s|] == s;
    }
  }

  /** `not s.strip()`: the string is empty or all whitespace. */
  predicate IsBlank(s: string) {
    Strip(s) == []
  }

  /** The empty search term stays empty once stripped and lower-cased. */
  lemma EmptyTerm()
    ensures Lower(Strip([])) == []
  {
  }

  lemma StripTrimmed(s: string)
    requires Trimmed(s)
    ensures Strip(s) == s
  {
  }

  lemma {:induction false} StripIdempotent(s: string)
    ensures Strip(Strip(s)) == Strip(s)
  {
    StripTrimmed(Strip(s));
  }

  /** `s.startswith(t)`. */
  predicate StartsWith(s: string, t: string) {
    |t| <= |s| && s[..|t|] == t
  }

  /** Python's `t in s` on strings: `t` occurs in `s` as a contiguous piece. */
  predicate Contains(s: string, t: string)
    decreases |s|
  {
    StartsWith(s, t) || (s != [] && Contains(s[1..], t))
  }

  /** A piece of a prefix is a piece of the whole. */
  lemma {:induction false} ContainsInPrefix(s: string, m: nat, t: string)
    requires m <= |s| && Contains(s[..m], t)
    ensures Contains(s, t)
    decreases m
  {
    if StartsWith(s[..m], t) {
      assert s[..|t|] == s[..m][..|t|];
    } else {
      assert s[..m][1..] == s[1..][..m - 1];
      ContainsInPrefix(s[1..], m - 1, t);
    }
  }

  lemma {:induction false} ContainsEmpty(s: string)
    ensures Contains(s, [])
  {
  }

  function LowerChar(c: char): char {
    if 'A' <= c <= 'Z' then (c as int + 32) as char else c
  }

  /** `s.lower()` on the ASCII letters; every other character is kept. */
  function Lower(s: string): (r: string)
    ensures |r| == |s|
  {
    if s == [] then [] else [LowerChar(s[0])] + Lower(s[1..])
  }

  lemma {:induction false} LowerAt(s: string, i: nat)
    requires i < |s|
    ensures Lower(s)[i] == LowerChar(s[i])
  {
    if i > 0 {
      LowerAt(s[1..], i - 1);
    }
  }

  lemma {:induction false} LowerIdempotent(s: string)
    ensures Lower(Lower(s)) == Lower(s)
  {
    if s != [] {
      LowerIdempotent(s[1..]);
      assert Lower(s)[1..] == Lower(s[1..]);
    }
  }

  lemma {:induction false} LowerSplits(a: string, b: string)
    ensures Lower(a + b) == Lower(a) + Lower(b)
  {
    if a != [] {
      LowerSplits(a[1..], b);
      assert (a + b)[1..] == a[1..] + b;
    } else {
      assert a + b == b;
    }
  }

  /** `sep.join(parts)`. */
  function Join(sep: string, parts: seq<string>): string
    decreases |parts|
  {
    if parts == [] then []
    else if |parts| == 1 then parts[0]
    else parts[0] + sep + Join(sep, parts[1..])
  }

  /** The separator class `[,;\n]` of the tag entry. */
  predicate IsTagSeparator(c: char) {
    c == ',' || c == ';' || c == '\n'
  }

  function SeparatorCount(s: string): nat {
    if s == [] then 0 else (if IsTagSeparator(s[0]) then 1 else 0) + SeparatorCount(s[1..])
  }

  /** `re.split(r"[,;\n]", s)`: the pieces between single separators, empty ones included. */
  function Split(s: string): (parts: seq<string>)
    ensures |parts| == SeparatorCount(s) + 1
    ensures forall k, i | 0 <= k < |parts| && 0 <= i < |parts[k]| :: !IsTagSeparator(parts[k][i])
    ensures SeparatorCount(s) == 0 ==> parts == [s]
  {
    if s == [] then [[]]
    else
      var rest := Split(s[1..]);
      if IsTagSeparator(s[0]) then [[]] + rest
      else
        assert s == [s[0]] + s[1..];
        [[s[0]] + rest[0]] + rest[1..]
  }

  /** `re.split(r"[,;\n]+", s)`: a run of separators splits only once. */
  function SplitRuns(s: string): (parts: seq<string>)
    ensures |parts| >= 1
  {
    if s == [] then [[]]
    else
      var rest := SplitRuns(s[1..]);
      if IsTagSeparator(s[0]) then
        (if |s| > 1 && IsTagSeparator(s[1]) then rest else [[]] + rest)
      else [[s[0]] + rest[0]] + rest[1..]
  }

  /** `[p.strip() for p in parts if p.strip()]`. */
  function Pieces(parts: seq<string>): (r: seq<string>)
    ensures |r| <= |parts|
    ensures forall k | 0 <= k < |r| :: r[k] != [] && Trimmed(r[k])
  {
    if parts == [] then []
    else (if !IsBlank(parts[0]) then [Strip(parts[0])] else []) + Pieces(parts[1..])
  }

  /** The piece `[p.strip() for p in [x] if p.strip()]` contributes. */
  function PieceOf(x: string): seq<string> {
    if IsBlank(x) then [] else [Strip(x)]
  }

  /** The pieces of a list: those of its first element, then those of the rest. */
  lemma PiecesCons(xs: seq<string>)
    requires xs != []
    ensures Pieces(xs) == PieceOf(xs[0]) + Pieces(xs[1..])
  {
  }

  lemma {:induction false} SplitRunsAgrees(s: string)
    ensures SplitRuns(s) != [] && SplitRuns(s)[0] == Split(s)[0]
    ensures Pieces(SplitRuns(s)[1..]) == Pieces(Split(s)[1..])
  {
    if s != [] {
      SplitRunsAgrees(s[1..]);
      var r, p := SplitRuns(s[1..]), Split(s[1..]);
      if IsTagSeparator(s[0]) {
        if |s| > 1 && IsTagSeparator(s[1]) {
          assert s[1..][0] == s[1];
          assert p[0] == [];
          assert Pieces(p) == Pieces(p[1..]);
        } else {
          assert Pieces(r) == Pieces(p) by {
            assert r == [r[0]] + r[1..];
            assert p == [p[0]] + p[1..];
          }
        }
      }
    }
  }

  /**
   * Splitting on runs of separators and splitting on single separators
   * give the same stripped non-empty pieces.
   */
  lemma SplitRunsSamePieces(s: string)
    ensures Pieces(SplitRuns(s)) == Pieces(Split(s))
  {
    SplitRunsAgrees(s);
    var r, p := SplitRuns(s), Split(s);
    assert r == [r[0]] + r[1..];
    assert p == [p[0]] + p[1..];
  }
}
