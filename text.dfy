/** The few Python `str` operations the migration relies on, stated over
    Dafny strings (sequences of Unicode scalar values, so `|s|` counts code
    points as Python's `len` does). */
module Text {

  /** Python's `str.isspace()` for one character: the Unicode whitespace
      characters (bidirectional class WS, B or S, or category Zs). */
  predicate IsSpace(c: char) {
    ('\t' <= c <= '\r') || ('\U{1C}' <= c <= '\U{1F}') || c == ' '
    || c == '\U{85}' || c == '\U{A0}' || c == '\U{1680}' || ('\U{2000}' <= c <= '\U{200A}')
    || c == '\U{2028}' || c == '\U{2029}' || c == '\U{202F}' || c == '\U{205F}' || c == '\U{3000}'
  }

  predicate IsAscii(s: string) {
    forall i :: 0 <= i < |s| ==> s[i] < '\U{80}'
  }

  /** `s.lstrip()`: the suffix left after dropping leading whitespace. */
  function StripLeft(s: string): (r: string)
    ensures |r| <= |s| && r == s[|s| - |r|..]
    ensures forall i :: 0 <= i < |s| - |r| ==> IsSpace(s[i])
    ensures r == [] || !IsSpace(r[0])
  {
    if s != [] && IsSpace(s[0]) then StripLeft(s[1..]) else s
  }

  /** `s.rstrip()`: the prefix left after dropping trailing whitespace. */
  function StripRight(s: string): (r: string)
    ensures |r| <= |s| && r == s[..|r|]
    ensures forall i :: |r| <= i < |s| ==> IsSpace(s[i])
    ensures r == [] || !IsSpace(r[|r| - 1])
  {
    if s != [] && IsSpace(s[|s| - 1]) then StripRight(s[..|s| - 1]) else s
  }

  /** `s.strip()`: both ends stripped; what is left neither starts nor
      ends with whitespace (lemmas `StripIsInfix` and `StripCutsTrailingSpace` say what was cut off). */
  function Strip(s: string): (r: string)
    ensures |r| <= |s|
    ensures r == [] || (!IsSpace(r[0]) && !IsSpace(r[|r| - 1]))
  {
    StripRight(StripLeft(s))
  }

  /** The stripped string is the infix of `s` that starts after the
      leading whitespace; everything before it is whitespace. */
  lemma StripIsInfix(s: string)
    ensures var lo := |s| - |StripLeft(s)|;
      && lo + |Strip(s)| <= |s| && Strip(s) == s[lo..lo + |Strip(s)|]
      && (forall i :: 0 <= i < lo ==> IsSpace(s[i]))
  {
    var left := StripLeft(s);
    var r := StripRight(left);
    var lo := |s| - |left|;
    PrefixOfSuffix(s, lo, |r|);
  }

  /** A prefix of a suffix is an infix. */
  lemma PrefixOfSuffix<T>(s: seq<T>, lo: nat, n: nat)
    requires lo + n <= |s|
    ensures s[lo..][..n] == s[lo..lo + n]
  {
  }

  /** Everything after the stripped infix is whitespace too. */
  lemma StripCutsTrailingSpace(s: string)
    ensures forall i :: |s| - |StripLeft(s)| + |Strip(s)| <= i < |s| ==> IsSpace(s[i])
  {
    var left := StripLeft(s);
    var r := StripRight(left);
    var lo := |s| - |left|;
    forall i | lo + |r| <= i < |s|
      ensures IsSpace(s[i])
    {
      assert s[i] == left[i - lo];
    }
  }

  /** A stripped string is unchanged by stripping again. */
  lemma StripIdempotent(s: string)
    ensures Strip(Strip(s)) == Strip(s)
  {
    var r := Strip(s);
    StripIsInfix(s);
    StripIsInfix(r);
    StripCutsTrailingSpace(s);
    StripCutsTrailingSpace(r);
    if r != [] {
      assert StripLeft(r) == r;
      assert StripRight(r) == r;
    }
  }

  /** A string that is all whitespace strips to the empty string, and only
      such a string does. */
  lemma StripEmptyIffAllSpace(s: string)
    ensures Strip(s) == [] <==> forall i :: 0 <= i < |s| ==> IsSpace(s[i])
  {
    StripIsInfix(s);
    StripCutsTrailingSpace(s);
  }

  /** `s.replace(target, replacement)` for single characters: every
      occurrence of `target` becomes `replacement`, nothing else changes. */
  function ReplaceChar(s: string, target: char, replacement: char): (r: string)
    ensures |r| == |s|
    ensures forall i :: 0 <= i < |s| ==> r[i] == if s[i] == target then replacement else s[i]
  {
    if s == [] then [] else ReplaceChar(s[..|s| - 1], target, replacement) + [if s[|s| - 1] == target then replacement else s[|s| - 1]]
  }

  /** `s.rfind(c)`: the index of the last occurrence of `c`, or -1. */
  function LastIndexOf(s: string, c: char): (r: int)
    ensures -1 <= r < |s|
    ensures r >= 0 ==> s[r] == c
    ensures forall i :: r < i < |s| ==> s[i] != c
  {
    if s == [] then -1
    else if s[|s| - 1] == c then |s| - 1
    else LastIndexOf(s[..|s| - 1], c)
  }

  /** `rfind` over a concatenation: an occurrence in the right part wins. */
  lemma LastIndexOfAppend(x: string, y: string, c: char)
    ensures LastIndexOf(x + y, c) == if LastIndexOf(y, c) >= 0 then |x| + LastIndexOf(y, c) else LastIndexOf(x, c)
  {
    var r := LastIndexOf(x + y, c);
    var ry := LastIndexOf(y, c);
    var rx := LastIndexOf(x, c);
    if ry >= 0 {
      assert (x + y)[|x| + ry] == c;
    } else {
      if rx >= 0 {
        assert (x + y)[rx] == c;
      }
      assert forall i :: rx < i < |x| + |y| ==> (x + y)[i] != c by {
        forall i | rx < i < |x| + |y| ensures (x + y)[i] != c {
          if i < |x| { assert (x + y)[i] == x[i]; } else { assert (x + y)[i] == y[i - |x|]; }
        }
      }
    }
  }
}
