/** File-name handling of planka_api.py: Python's `os.path.splitext` (by its
    POSIX rule) and `transliterate_filename`. The transliteration library
    itself (`unidecode`) is a parameter. */
module Filenames {
  import opened Text

  /** Some character of `p[lo..hi]` is not a dot. */
  predicate HasNonDot(p: string, lo: int, hi: int)
    requires 0 <= lo && hi <= |p|
  {
    exists k :: lo <= k < hi && p[k] != '.'
  }

  /** `os.path.splitext`: the split is at the last dot of the final path
      component, unless everything in that component before the dot is a
      dot (so `.bashrc` and `..` have no extension). */
  function SplitExt(p: string): (r: (string, string))
    ensures r.0 + r.1 == p
    ensures r.1 == [] || (r.1[0] == '.' && '.' !in r.1[1..] && '/' !in r.1)
    ensures r.1 != [] ==> HasNonDot(p, LastIndexOf(p, '/') + 1, |r.0|)
    ensures r.1 == [] ==> var dot := LastIndexOf(p, '.');
      dot <= LastIndexOf(p, '/') || !HasNonDot(p, LastIndexOf(p, '/') + 1, dot)
  {
    var sep := LastIndexOf(p, '/');
    var dot := LastIndexOf(p, '.');
    if dot > sep && HasNonDot(p, sep + 1, dot) then
      assert p[dot] == '.';
      assert '/' !in p[dot..] by {
        forall i | 0 <= i < |p[dot..]| ensures p[dot..][i] != '/' { assert p[dot..][i] == p[dot + i]; }
      }
      (p[..dot], p[dot..])
    else
      (p, [])
  }

  /** The split is at the last dot. */
  lemma SplitExtAtLastDot()
    ensures SplitExt("report.pdf") == ("report", ".pdf")
    ensures SplitExt("archive.tar.gz") == ("archive.tar", ".gz")
  {
    var a, b := "report.pdf", "archive.tar.gz";
    assert a[6] == '.' && LastIndexOf(a, '.') == 6 && LastIndexOf(a, '/') == -1;
    assert a[0] != '.' && HasNonDot(a, 0, 6);
    assert a[..6] == "report" && a[6..] == ".pdf";
    assert b[11] == '.' && LastIndexOf(b, '.') == 11 && LastIndexOf(b, '/') == -1;
    assert b[0] != '.' && HasNonDot(b, 0, 11);
    assert b[..11] == "archive.tar" && b[11..] == ".gz";
  }

  /** A leading dot does not start an extension. */
  lemma SplitExtLeadingDot()
    ensures SplitExt(".bashrc") == (".bashrc", "")
  {
    var c := ".bashrc";
    assert c[0] == '.' && LastIndexOf(c, '.') == 0;
  }

  /** A name without a dot has no extension, and neither does one whose
      only dot is in a directory name. */
  lemma SplitExtNoDotInName()
    ensures SplitExt("notes") == ("notes", "")
    ensures SplitExt("dir.d/file") == ("dir.d/file", "")
  {
    var n, d := "notes", "dir.d/file";
    assert forall i :: 0 <= i < |n| ==> n[i] != '.';
    assert LastIndexOf(n, '.') == -1;
    assert d[5] == '/' && forall i :: 5 < i < |d| ==> d[i] != '/';
    assert LastIndexOf(d, '/') == 5;
    assert forall i :: 5 <= i < |d| ==> d[i] != '.';
    assert LastIndexOf(d, '.') < 5;
  }

  /** `transliterate_filename`: the base (without extension) goes through
      the transliterator, its spaces become underscores, and the original
      extension is put back unchanged. */
  function TransliterateFilename(filename: string, unidecode: string -> string): (r: string)
    ensures var (base, ext) := SplitExt(filename);
      && |r| == |unidecode(base)| + |ext|
      && r[|r| - |ext|..] == ext
      && ' ' !in r[..|r| - |ext|]
      && forall i :: 0 <= i < |unidecode(base)| ==>
           r[i] == if unidecode(base)[i] == ' ' then '_' else unidecode(base)[i]
  {
    var (base, ext) := SplitExt(filename);
    var safe := ReplaceChar(unidecode(base), ' ', '_');
    assert (safe + ext)[..|safe|] == safe;
    safe + ext
  }

  /** If the transliterator leaves ASCII text alone, an ASCII file name
      comes back unchanged except that each space in its base becomes an
      underscore. */
  lemma AsciiNameKeptExceptSpaces(filename: string, unidecode: string -> string)
    requires IsAscii(filename)
    requires forall s :: IsAscii(s) ==> unidecode(s) == s
    ensures var r := TransliterateFilename(filename, unidecode);
      var baseLength := |SplitExt(filename).0|;
      && |r| == |filename|
      && forall i :: 0 <= i < |filename| ==>
           r[i] == if i < baseLength && filename[i] == ' ' then '_' else filename[i]
  {
    var (base, ext) := SplitExt(filename);
    assert base == filename[..|base|];
    assert IsAscii(base);
    var r := TransliterateFilename(filename, unidecode);
    var safe := ReplaceChar(base, ' ', '_');
    assert r == safe + ext;
    forall i | 0 <= i < |filename|
      ensures r[i] == if i < |base| && filename[i] == ' ' then '_' else filename[i]
    {
      if i < |base| {
        assert filename[i] == base[i];
      } else {
        assert filename[i] == ext[i - |base|];
      }
    }
  }

  /** If the transliterator always produces ASCII, the base of the result is
      pure ASCII: no non-Latin character survives before the extension. */
  lemma TransliteratedBaseIsAscii(filename: string, unidecode: string -> string)
    requires forall s :: IsAscii(unidecode(s))
    ensures var r := TransliterateFilename(filename, unidecode);
      IsAscii(r[..|r| - |SplitExt(filename).1|])
  {
    var (base, ext) := SplitExt(filename);
    var r := TransliterateFilename(filename, unidecode);
    var safe := ReplaceChar(unidecode(base), ' ', '_');
    assert r[..|r| - |ext|] == safe;
    assert IsAscii(unidecode(base));
  }
}
