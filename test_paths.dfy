/**
 * The two pieces of string handling in the test harness (test/src/main.c):
 * the truncation of the executable's path to the test directory (two path
 * components are stripped in place) and prepare_path, which joins the test
 * directory and a relative path with a '/'. A C string is modelled by its
 * characters before the terminator, a char buffer by an array<char>.
 */
module TestPaths {

  const Nul: char := '\0'
  const Slash: char := '/'

  /**
   * The index of the last '/' in s[..hi], or -1 when there is none: where a
   * backward scan that starts at hi - 1 stops.
   */
  function LastSlashBelow(s: seq<char>, hi: nat): (r: int)
    requires hi <= |s|
    ensures -1 <= r < hi
    ensures r >= 0 ==> s[r] == Slash
    ensures forall j :: r < j < hi ==> s[j] != Slash
  {
    if hi == 0 then -1
    else if s[hi - 1] == Slash then hi - 1
    else LastSlashBelow(s, hi - 1)
  }

  /** The scan reads only s[..hi]. */
  lemma {:induction false} LastSlashPrefix(s: seq<char>, u: seq<char>, hi: nat)
    requires hi <= |s| && hi <= |u| && s[..hi] == u[..hi]
    ensures LastSlashBelow(s, hi) == LastSlashBelow(u, hi)
  {
    if hi > 0 {
      assert s[hi - 1] == s[..hi][hi - 1] == u[..hi][hi - 1] == u[hi - 1];
      assert s[..hi - 1] == s[..hi][..hi - 1] && u[..hi - 1] == u[..hi][..hi - 1];
      LastSlashPrefix(s, u, hi - 1);
    }
  }

  /** The scan finds a '/' exactly when s[..hi] holds one, and it is the last of them. */
  lemma {:induction false} LastSlashCount(s: seq<char>, hi: nat)
    requires hi <= |s|
    ensures LastSlashBelow(s, hi) == -1 <==> multiset(s[..hi])[Slash] == 0
    ensures LastSlashBelow(s, hi) >= 0 ==>
      multiset(s[..LastSlashBelow(s, hi)])[Slash] == multiset(s[..hi])[Slash] - 1
  {
    if hi > 0 {
      assert s[..hi] == s[..hi - 1] + [s[hi - 1]];
      LastSlashCount(s, hi - 1);
    }
  }

  /** The path has at least two '/', so both backward scans stop inside it. */
  predicate TwoSlashes(s: seq<char>)
  {
    multiset(s)[Slash] >= 2
  }

  /** Where the terminator is written: the next-to-last '/' of s. */
  function TestDirEnd(s: seq<char>): (r: nat)
    requires TwoSlashes(s)
    ensures r < |s| && s[r] == Slash
  {
    assert s[..|s|] == s;
    LastSlashCount(s, |s|);
    var p1 := LastSlashBelow(s, |s|);
    LastSlashCount(s, p1);
    LastSlashBelow(s, p1)
  }

  /** s cut around two of its positions p2 < p1. */
  lemma SplitAround(s: seq<char>, p2: nat, p1: nat)
    requires p2 < p1 < |s|
    ensures s == s[..p2] + [s[p2]] + s[p2 + 1..p1] + [s[p1]] + s[p1 + 1..]
  {
    assert s[p2..] == [s[p2]] + s[p2 + 1..p1] + [s[p1]] + s[p1 + 1..];
    assert s == s[..p2] + s[p2..];
  }

  /** No '/' in s[lo..hi] when the characters there are all different from it. */
  lemma NoSlashIn(s: seq<char>, lo: nat, hi: nat)
    requires lo <= hi <= |s|
    requires forall j :: lo <= j < hi ==> s[j] != Slash
    ensures Slash !in s[lo..hi]
  {
  }

  /**
   * The path with its last two components stripped. s is that result, then
   * '/', a component, '/', and a final component; neither component holds a
   * '/' (either may be empty).
   */
  lemma StripsTwoComponents(s: seq<char>)
    requires TwoSlashes(s)
    ensures var p2 := TestDirEnd(s);
      exists p1 :: p2 < p1 < |s| && s[p1] == Slash
        && s == s[..p2] + [Slash] + s[p2 + 1..p1] + [Slash] + s[p1 + 1..]
        && Slash !in s[p2 + 1..p1] && Slash !in s[p1 + 1..]
  {
    assert s[..|s|] == s;
    LastSlashCount(s, |s|);
    var p1 := LastSlashBelow(s, |s|);
    LastSlashCount(s, p1);
    var p2 := TestDirEnd(s);
    assert p2 == LastSlashBelow(s, p1);
    SplitAround(s, p2, p1);
    NoSlashIn(s, p2 + 1, p1);
    NoSlashIn(s, p1 + 1, |s|);
  }

  /**
   * One inner scan of the harness: endp moves back from `from` while the
   * character under it is not '/'. A '/' must exist at or below `from`:
   * nothing else bounds the scan.
   */
  method ScanBack(buf: array<char>, from: nat) returns (endp: nat)
    requires from < buf.Length && LastSlashBelow(buf[..], from + 1) >= 0
    ensures endp == LastSlashBelow(buf[..], from + 1)
  {
    endp := from;
    while buf[endp] != Slash
      invariant endp <= from
      invariant LastSlashBelow(buf[..], endp + 1) == LastSlashBelow(buf[..], from + 1)
      decreases endp
    {
      endp := endp - 1;
    }
  }

  /**
   * The allocation, memcpy and terminator that start test_abs_path: a new
   * buffer one longer than the copied length, holding the characters and
   * then a NUL.
   */
  method CopyTerminated(src: array<char>, len: nat) returns (dst: array<char>)
    requires len <= src.Length
    ensures fresh(dst)
    ensures dst[..] == src[..len] + [Nul]
  {
    dst := new char[len + 1];
    var j: nat := 0;
    while j < len
      invariant j <= len
      invariant dst[..j] == src[..j]
    {
      dst[j] := src[j];
      assert dst[..j + 1] == dst[..j] + [src[j]];
      j := j + 1;
    }
    dst[len] := Nul;
    assert dst[..] == dst[..len] + [Nul];
  }

  /**
   * The lines of main that derive test_abs_path from the executable's path
   * (the first fullPathLen characters of fullPath): the characters are
   * copied into a new buffer one longer and terminated; endp starts at the
   * terminator, scans back to the last '/', steps back once, scans back to
   * the previous '/', and a terminator is written there.
   */
  method TestAbsPath(fullPath: array<char>, fullPathLen: nat) returns (testAbsPath: array<char>)
    requires fullPathLen <= fullPath.Length
    requires TwoSlashes(fullPath[..fullPathLen])
    ensures fresh(testAbsPath)
    ensures testAbsPath[..] == (fullPath[..fullPathLen] + [Nul])[TestDirEnd(fullPath[..fullPathLen]) := Nul]
  {
    ghost var s := fullPath[..fullPathLen];
    testAbsPath := CopyTerminated(fullPath, fullPathLen);
    ghost var b := testAbsPath[..];
    assert b[..fullPathLen] == s[..fullPathLen];

    // the stops of both scans, as positions in s
    assert s[..|s|] == s;
    LastSlashCount(s, |s|);
    ghost var p1 := LastSlashBelow(s, |s|);
    LastSlashCount(s, p1);
    ghost var p2 := LastSlashBelow(s, p1);
    LastSlashPrefix(b, s, fullPathLen);
    LastSlashPrefix(b, s, p1);

    var endp: nat := fullPathLen;
    var i := 0;
    while i < 2
      invariant 0 <= i <= 2 && testAbsPath[..] == b
      invariant i == 0 ==> endp == fullPathLen
      invariant i == 1 ==> endp == p1 - 1
      invariant i == 2 ==> endp == p2
    {
      endp := ScanBack(testAbsPath, endp);
      i := i + 1;
      if i <= 1 {
        endp := endp - 1;
      }
    }
    testAbsPath[endp] := Nul;
  }

  /** With no NUL inside the path, the truncated C string is the path up to the stripped part. */
  lemma TruncatedStringLength(s: seq<char>)
    requires TwoSlashes(s) && Nul !in s
    ensures var buf := (s + [Nul])[TestDirEnd(s) := Nul];
      buf[TestDirEnd(s)] == Nul && buf[..TestDirEnd(s)] == s[..TestDirEnd(s)]
      && Nul !in buf[..TestDirEnd(s)]
  {
    var p2 := TestDirEnd(s);
    var buf := (s + [Nul])[p2 := Nul];
    assert buf[..p2] == s[..p2];
  }

  /** The path prepare_path builds: test_path, one '/', rel_path. */
  function JoinPath(testPath: seq<char>, relPath: seq<char>): seq<char>
  {
    testPath + [Slash] + relPath
  }

  /**
   * strcpy of src (no NUL inside) to dst at offset `at`: the characters of
   * src and then a terminator are written; nothing else changes.
   */
  method StrCopy(dst: array<char>, at: nat, src: seq<char>)
    requires at + |src| + 1 <= dst.Length
    requires Nul !in src
    modifies dst
    ensures dst[..] == old(dst[..])[..at] + src + [Nul] + old(dst[..])[at + |src| + 1..]
  {
    ghost var d0 := dst[..];
    var j: nat := 0;
    while j < |src|
      invariant j <= |src|
      invariant forall t :: 0 <= t < dst.Length ==>
        dst[t] == (if at <= t < at + j then src[t - at] else d0[t])
    {
      dst[at + j] := src[j];
      j := j + 1;
    }
    dst[at + |src|] := Nul;
    assert dst[..] == d0[..at] + src + [Nul] + d0[at + |src| + 1..];
  }

  /**
   * prepare_path: a new buffer of strlen(test_path) + strlen(rel_path) + 2
   * characters holding test_path, '/', rel_path and the terminator. Both
   * arguments are values here, so neither can be changed.
   */
  method PreparePath(testPath: seq<char>, relPath: seq<char>) returns (path: array<char>)
    requires Nul !in testPath && Nul !in relPath
    ensures fresh(path)
    ensures path[..] == JoinPath(testPath, relPath) + [Nul]
    ensures Nul !in path[..|testPath| + |relPath| + 1]
  {
    path := new char[|testPath| + |relPath| + 2];
    StrCopy(path, 0, testPath);
    path[|testPath|] := Slash;
    StrCopy(path, |testPath| + 1, relPath);
    assert path[..] == JoinPath(testPath, relPath) + [Nul];
    JoinSplits(testPath, relPath);
    assert path[..|testPath| + |relPath| + 1] == JoinPath(testPath, relPath);
  }

  /**
   * The joined path splits back into its parts at |test_path|, and when
   * neither part holds a NUL, strlen of the result is |test_path| + |rel_path| + 1.
   */
  lemma JoinSplits(testPath: seq<char>, relPath: seq<char>)
    ensures |JoinPath(testPath, relPath)| == |testPath| + |relPath| + 1
    ensures JoinPath(testPath, relPath)[..|testPath|] == testPath
    ensures JoinPath(testPath, relPath)[|testPath|] == Slash
    ensures JoinPath(testPath, relPath)[|testPath| + 1..] == relPath
    ensures Nul !in testPath && Nul !in relPath ==> Nul !in JoinPath(testPath, relPath)
  {
    var p := JoinPath(testPath, relPath);
    assert p[..|testPath|] == testPath;
    assert p[|testPath| + 1..] == relPath;
  }

  /** The separator is inserted unconditionally: a rel_path starting with '/' gives "//". */
  lemma DoubledSlash(testPath: seq<char>, relPath: seq<char>)
    requires |relPath| > 0 && relPath[0] == Slash
    ensures JoinPath(testPath, relPath)[|testPath|..|testPath| + 2] == "//"
  {
  }

  /** The joined path seen from the separator: '/', then the start of rel_path. */
  lemma JoinFromSeparator(testPath: seq<char>, relPath: seq<char>, k: nat)
    requires k <= |relPath|
    ensures JoinPath(testPath, relPath)[|testPath|..|testPath| + 1 + k] == [Slash] + relPath[..k]
  {
    var p := JoinPath(testPath, relPath);
    assert p[|testPath|..|testPath| + 1 + k] == ([Slash] + relPath)[..1 + k];
  }

  /** The harness passes "/dat/dft/idft_output_signal.dat", so the file path holds "//dat". */
  lemma HarnessDoubledSlash(testPath: seq<char>)
    ensures JoinPath(testPath, "/dat/dft/idft_output_signal.dat")[|testPath|..|testPath| + 5] == "//dat"
  {
    var rel := "/dat/dft/idft_output_signal.dat";
    JoinFromSeparator(testPath, rel, 4);
    assert rel == "/dat" + "/dft/idft_output_signal.dat";
    assert rel[..4] == "/dat";
  }
}
