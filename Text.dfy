/**
 * The string primitives the plugin leans on: JString::strtoupper / strtolower
 * (ASCII letters only), JString::trim, implode / explode on a one-character
 * separator, and Joomla's default 'cmd' input filter that every
 * `$input->get(...)` without an explicit filter applies.
 */
module Text {

  // ---------------------------------------------------------------- case

  predicate IsLowerAscii(c: char) { 'a' <= c <= 'z' }
  predicate IsUpperAscii(c: char) { 'A' <= c <= 'Z' }

  function UpperChar(c: char): char {
    if IsLowerAscii(c) then (c as int - 'a' as int + 'A' as int) as char else c
  }

  function LowerChar(c: char): char {
    if IsUpperAscii(c) then (c as int - 'A' as int + 'a' as int) as char else c
  }

  /** strtoupper: same length, each lower-case letter replaced by its upper-case partner, other characters kept. */
  function Upper(s: string): (r: string)
    ensures |r| == |s|
    ensures forall i :: 0 <= i < |r| ==> !IsLowerAscii(r[i])
    ensures forall i :: 0 <= i < |s| && IsLowerAscii(s[i]) ==> IsUpperAscii(r[i]) && LowerChar(r[i]) == s[i]
    ensures forall i :: 0 <= i < |s| && !IsLowerAscii(s[i]) ==> r[i] == s[i]
  {
    seq(|s|, i requires 0 <= i < |s| => UpperChar(s[i]))
  }

  /** strtolower: same length, each upper-case letter replaced by its lower-case partner, other characters kept. */
  function Lower(s: string): (r: string)
    ensures |r| == |s|
    ensures forall i :: 0 <= i < |r| ==> !IsUpperAscii(r[i])
    ensures forall i :: 0 <= i < |s| && IsUpperAscii(s[i]) ==> IsLowerAscii(r[i]) && UpperChar(r[i]) == s[i]
    ensures forall i :: 0 <= i < |s| && !IsUpperAscii(s[i]) ==> r[i] == s[i]
  {
    seq(|s|, i requires 0 <= i < |s| => LowerChar(s[i]))
  }

  /** Upper-casing first does not change what lower-casing yields: the comparison at line 390 ignores letter case. */
  lemma LowerOfUpper(s: string)
    ensures Lower(Upper(s)) == Lower(s)
  {
    forall i | 0 <= i < |s| ensures Lower(Upper(s))[i] == Lower(s)[i] {
      assert LowerChar(UpperChar(s[i])) == LowerChar(s[i]);
    }
  }

  // ---------------------------------------------------------------- trim

  /** The characters PHP's trim removes by default: space, \t, \n, \r, NUL, vertical tab. */
  predicate IsTrimSpace(c: char) {
    c == ' ' || c == '\t' || c == '\n' || c == '\r' || c == 0 as char || c == 11 as char
  }

  function TrimLeft(s: string): (r: string)
    ensures |r| <= |s| && r == s[|s| - |r|..]
    ensures r == [] || !IsTrimSpace(r[0])
    ensures forall i :: 0 <= i < |s| - |r| ==> IsTrimSpace(s[i])
    decreases |s|
  {
    if s != [] && IsTrimSpace(s[0]) then TrimLeft(s[1..]) else s
  }

  function TrimRight(s: string): (r: string)
    ensures |r| <= |s| && r == s[..|r|]
    ensures r == [] || !IsTrimSpace(r[|r| - 1])
    ensures forall i :: |r| <= i < |s| ==> IsTrimSpace(s[i])
    decreases |s|
  {
    if s != [] && IsTrimSpace(s[|s| - 1]) then TrimRight(s[..|s| - 1]) else s
  }

  /** r is s with the first i characters and the characters after i + |r| removed, all of them whitespace. */
  predicate TrimmedAt(r: string, s: string, i: nat) {
    && i + |r| <= |s| && s[i..i + |r|] == r
    && (forall j :: 0 <= j < i ==> IsTrimSpace(s[j]))
    && (forall j :: i + |r| <= j < |s| ==> IsTrimSpace(s[j]))
  }

  /** JString::trim: s with its leading and trailing whitespace removed, and nothing else. */
  function Trim(s: string): (r: string)
    ensures r == [] || (!IsTrimSpace(r[0]) && !IsTrimSpace(r[|r| - 1]))
    ensures exists i: nat :: TrimmedAt(r, s, i)
  {
    var l := TrimLeft(s);
    var r := TrimRight(l);
    assert TrimmedAt(r, s, |s| - |l|);
    r
  }

  predicate IsTrimmed(s: string) {
    s == [] || (!IsTrimSpace(s[0]) && !IsTrimSpace(s[|s| - 1]))
  }

  lemma TrimOfTrimmed(s: string)
    requires IsTrimmed(s)
    ensures Trim(s) == s
  {
  }

  /** Trimming twice is trimming once. */
  lemma TrimIdempotent(s: string)
    ensures Trim(Trim(s)) == Trim(s)
  {
    TrimOfTrimmed(Trim(s));
  }

  // ------------------------------------------------------- implode / explode

  /** implode(sep, fs) */
  function Join(fs: seq<string>, sep: char): string
    decreases |fs|
  {
    if |fs| == 0 then ""
    else if |fs| == 1 then fs[0]
    else fs[0] + [sep] + Join(fs[1..], sep)
  }

  /** explode(sep, s): always at least one piece, and no piece holds the separator. */
  function Split(s: string, sep: char): (r: seq<string>)
    ensures |r| >= 1
    ensures forall i :: 0 <= i < |r| ==> sep !in r[i]
    decreases |s|
  {
    if |s| == 0 then [""]
    else if s[0] == sep then [""] + Split(s[1..], sep)
    else
      var rest := Split(s[1..], sep);
      [[s[0]] + rest[0]] + rest[1..]
  }

  lemma JoinCons(f: string, fs: seq<string>, sep: char)
    requires |fs| >= 1
    ensures Join([f] + fs, sep) == f + [sep] + Join(fs, sep)
  {
    assert ([f] + fs)[1..] == fs;
  }

  /** Exploding and imploding again gives back the original string. */
  lemma {:induction false} JoinSplit(s: string, sep: char)
    ensures Join(Split(s, sep), sep) == s
    decreases |s|
  {
    if |s| == 0 {
    } else if s[0] == sep {
      JoinSplit(s[1..], sep);
      JoinCons("", Split(s[1..], sep), sep);
      assert s == [sep] + s[1..];
    } else {
      JoinSplit(s[1..], sep);
      JoinSplitGlue(s, sep);
    }
  }

  /** The step of JoinSplit where the first character is glued onto the first piece. */
  lemma JoinSplitGlue(s: string, sep: char)
    requires |s| > 0 && s[0] != sep
    requires Join(Split(s[1..], sep), sep) == s[1..]
    ensures Join(Split(s, sep), sep) == s
  {
    var rest := Split(s[1..], sep);
    var head := [s[0]] + rest[0];
    assert Split(s, sep) == [head] + rest[1..];
    if |rest| == 1 {
      assert Join(rest, sep) == rest[0] == s[1..];
      assert s == [s[0]] + s[1..];
    } else {
      assert rest == [rest[0]] + rest[1..];
      JoinCons(rest[0], rest[1..], sep);
      JoinCons(head, rest[1..], sep);
      assert Join(Split(s, sep), sep) == [s[0]] + (rest[0] + [sep] + Join(rest[1..], sep));
      assert s == [s[0]] + s[1..];
    }
  }

  /** Exploding a string that starts with a separator-free prefix x glues x onto the first piece. */
  lemma {:induction false} SplitPrefix(x: string, t: string, sep: char)
    requires sep !in x
    ensures Split(x + t, sep) == [x + Split(t, sep)[0]] + Split(t, sep)[1..]
    decreases |x|
  {
    if |x| == 0 {
      var pieces := Split(t, sep);
      assert x + t == t;
      assert x + pieces[0] == pieces[0];
      assert pieces == [pieces[0]] + pieces[1..];
    } else {
      assert (x + t)[0] == x[0];
      assert (x + t)[1..] == x[1..] + t;
      SplitPrefix(x[1..], t, sep);
      assert [x[0]] + (x[1..] + Split(t, sep)[0]) == x + Split(t, sep)[0];
    }
  }

  /** Imploding separator-free pieces and exploding again gives back the pieces. */
  lemma {:induction false} SplitJoin(fs: seq<string>, sep: char)
    requires |fs| >= 1
    requires forall i :: 0 <= i < |fs| ==> sep !in fs[i]
    ensures Split(Join(fs, sep), sep) == fs
    decreases |fs|
  {
    if |fs| == 1 {
      SplitPrefix(fs[0], "", sep);
      assert Split("", sep) == [""];
      assert fs[0] + "" == fs[0];
      assert Split(fs[0], sep) == [fs[0]];
      assert fs == [fs[0]];
    } else {
      var t := Join(fs[1..], sep);
      var u := [sep] + t;
      SplitJoin(fs[1..], sep);
      assert Join(fs, sep) == fs[0] + u;
      SplitPrefix(fs[0], u, sep);
      assert u[0] == sep && u[1..] == t;
      assert Split(u, sep) == [""] + fs[1..];
      assert fs[0] + "" == fs[0];
      assert fs == [fs[0]] + fs[1..];
    }
  }

  /** So implode is injective on separator-free lists: the joined string fixes the list and its order. */
  lemma JoinInjective(a: seq<string>, b: seq<string>, sep: char)
    requires |a| >= 1 && |b| >= 1
    requires forall i :: 0 <= i < |a| ==> sep !in a[i]
    requires forall i :: 0 <= i < |b| ==> sep !in b[i]
    requires Join(a, sep) == Join(b, sep)
    ensures a == b
  {
    SplitJoin(a, sep);
    SplitJoin(b, sep);
  }

  /** s[i..j] is one piece of s: it lies between two consecutive separators, or an end of s. */
  predicate PieceAt(s: string, sep: char, i: nat, j: nat) {
    && i <= j <= |s|
    && (i == 0 || s[i - 1] == sep)
    && (j == |s| || s[j] == sep)
    && sep !in s[i..j]
  }

  /** x is a piece of s, read off the string itself rather than through explode. */
  predicate IsPiece(s: string, sep: char, x: string) {
    exists i: nat, j: nat | i <= j <= |s| :: PieceAt(s, sep, i, j) && s[i..j] == x
  }

  /** A separator-free string has exactly one piece: itself. */
  lemma PiecesOfSepFree(f: string, sep: char, x: string)
    requires sep !in f
    ensures IsPiece(f, sep, x) <==> x == f
  {
    if x == f {
      assert PieceAt(f, sep, 0, |f|) && f[0..|f|] == x;
    }
    if IsPiece(f, sep, x) {
      var i: nat, j: nat :| i <= j <= |f| && PieceAt(f, sep, i, j) && f[i..j] == x;
      forall m | 0 <= m < |f| ensures f[m] != sep {
        assert f[m] in f;
      }
      assert f[i..j] == f;
    }
  }

  /** Every piece of f + sep + u is f or a piece of u. */
  lemma PieceOfConsIsHeadOrTail(f: string, u: string, sep: char, x: string)
    requires sep !in f && IsPiece(f + [sep] + u, sep, x)
    ensures x == f || IsPiece(u, sep, x)
  {
    var s := f + [sep] + u;
    var k := |f| + 1;
    var i: nat, j: nat :| i <= j <= |s| && PieceAt(s, sep, i, j) && s[i..j] == x;
    forall m | 0 <= m < |f| ensures s[m] != sep {
      assert s[m] == f[m] && f[m] in f;
    }
    forall m | i <= m < j ensures s[m] != sep {
      assert s[i..j][m - i] == s[m];
    }
    assert s[|f|] == sep;
    if i < k {
      assert s[i..j] == f;
    } else {
      assert u == s[k..];
      assert u[i - k..j - k] == s[i..j];
      assert PieceAt(u, sep, i - k, j - k);
    }
  }

  /** f and every piece of u are pieces of f + sep + u. */
  lemma HeadAndTailArePiecesOfCons(f: string, u: string, sep: char, x: string)
    requires sep !in f && (x == f || IsPiece(u, sep, x))
    ensures IsPiece(f + [sep] + u, sep, x)
  {
    var s := f + [sep] + u;
    var k := |f| + 1;
    if x == f {
      assert s[0..|f|] == f;
      assert PieceAt(s, sep, 0, |f|);
    } else {
      var i: nat, j: nat :| i <= j <= |u| && PieceAt(u, sep, i, j) && u[i..j] == x;
      assert s[k..] == u;
      assert s[k + i..k + j] == s[k..][i..j];
      assert PieceAt(s, sep, k + i, k + j);
    }
  }

  /** The pieces of an implode of separator-free strings are exactly those strings. */
  lemma {:induction false} JoinPieces(fs: seq<string>, sep: char, x: string)
    requires |fs| >= 1
    requires forall i :: 0 <= i < |fs| ==> sep !in fs[i]
    ensures x in fs <==> IsPiece(Join(fs, sep), sep, x)
    decreases |fs|
  {
    if |fs| == 1 {
      PiecesOfSepFree(fs[0], sep, x);
    } else {
      JoinCons(fs[0], fs[1..], sep);
      JoinPieces(fs[1..], sep, x);
      if IsPiece(Join(fs, sep), sep, x) {
        PieceOfConsIsHeadOrTail(fs[0], Join(fs[1..], sep), sep, x);
      }
      if x in fs {
        assert x == fs[0] || x in fs[1..];
        HeadAndTailArePiecesOfCons(fs[0], Join(fs[1..], sep), sep, x);
      }
      assert fs == [fs[0]] + fs[1..];
    }
  }

  // ------------------------------------------------------------ cmd filter

  /** The characters Joomla's 'cmd' filter keeps. */
  predicate IsCmdChar(c: char) {
    IsLowerAscii(c) || IsUpperAscii(c) || '0' <= c <= '9' || c == '_' || c == '.' || c == '-'
  }

  predicate IsCmdClean(s: string) {
    (forall i :: 0 <= i < |s| ==> IsCmdChar(s[i])) && (s == [] || s[0] != '.')
  }

  function KeepCmdChars(s: string): (r: string)
    ensures |r| <= |s|
    ensures forall i :: 0 <= i < |r| ==> IsCmdChar(r[i])
    decreases |s|
  {
    if s == [] then []
    else (if IsCmdChar(s[0]) then [s[0]] else []) + KeepCmdChars(s[1..])
  }

  function DropLeadingDots(s: string): (r: string)
    ensures |r| <= |s| && r == s[|s| - |r|..]
    ensures forall i :: 0 <= i < |s| - |r| ==> s[i] == '.'
    ensures r == [] || r[0] != '.'
    decreases |s|
  {
    if s != [] && s[0] == '.' then DropLeadingDots(s[1..]) else s
  }

  /**
   * The 'cmd' filter: drop every character outside [A-Za-z0-9_.-], then
   * leading dots. What is dropped in the second step is a run of dots, so
   * every later dot survives.
   */
  function CmdFilter(s: string): (r: string)
    ensures IsCmdClean(r)
    ensures |r| <= |s|
    ensures exists n :: 0 <= n <= |KeepCmdChars(s)| && r == KeepCmdChars(s)[n..]
                        && forall i :: 0 <= i < n ==> KeepCmdChars(s)[i] == '.'
  {
    var k := KeepCmdChars(s);
    var r := DropLeadingDots(k);
    assert forall i :: 0 <= i < |r| ==> r[i] == k[|k| - |r| + i];
    assert r == k[|k| - |r|..];
    r
  }

  lemma {:induction false} KeepCmdCharsOfClean(s: string)
    requires forall i :: 0 <= i < |s| ==> IsCmdChar(s[i])
    ensures KeepCmdChars(s) == s
    decreases |s|
  {
    if s != [] {
      KeepCmdCharsOfClean(s[1..]);
      assert s == [s[0]] + s[1..];
    }
  }

  lemma {:induction false} KeepCmdCharsCounts(s: string, c: char)
    ensures multiset(KeepCmdChars(s))[c] == if IsCmdChar(c) then multiset(s)[c] else 0
    decreases |s|
  {
    if s != [] {
      KeepCmdCharsCounts(s[1..], c);
      var kept := if IsCmdChar(s[0]) then [s[0]] else [];
      assert KeepCmdChars(s) == kept + KeepCmdChars(s[1..]);
      assert multiset(KeepCmdChars(s)) == multiset(kept) + multiset(KeepCmdChars(s[1..]));
      assert s == [s[0]] + s[1..];
      assert multiset(s) == multiset([s[0]]) + multiset(s[1..]);
    }
  }

  lemma {:induction false} DropLeadingDotsCounts(s: string, c: char)
    requires c != '.'
    ensures multiset(DropLeadingDots(s))[c] == multiset(s)[c]
    decreases |s|
  {
    if s != [] && s[0] == '.' {
      DropLeadingDotsCounts(s[1..], c);
      CountAfterOther(s, c);
    }
  }

  /** Dropping a first character other than c keeps the count of c. */
  lemma CountAfterOther(s: string, c: char)
    requires s != [] && s[0] != c
    ensures multiset(s)[c] == multiset(s[1..])[c]
  {
    assert s == [s[0]] + s[1..];
  }

  /** The filter drops nothing it allows except leading dots: every other allowed character survives as often as it occurs. */
  lemma CmdFilterKeepsAllowed(s: string, c: char)
    requires c != '.'
    ensures multiset(CmdFilter(s))[c] == if IsCmdChar(c) then multiset(s)[c] else 0
  {
    KeepCmdCharsCounts(s, c);
    DropLeadingDotsCounts(KeepCmdChars(s), c);
  }

  /** r is s with some characters deleted and the rest kept in order. */
  predicate IsSubsequence(r: string, s: string)
    decreases |s|
  {
    r == [] || (s != [] && ((r[0] == s[0] && IsSubsequence(r[1..], s[1..])) || IsSubsequence(r, s[1..])))
  }

  lemma {:induction false} KeepCmdCharsIsSubsequence(s: string)
    ensures IsSubsequence(KeepCmdChars(s), s)
    decreases |s|
  {
    if s != [] {
      var k := KeepCmdChars(s[1..]);
      KeepCmdCharsIsSubsequence(s[1..]);
      if IsCmdChar(s[0]) {
        assert KeepCmdChars(s) == [s[0]] + k;
        assert ([s[0]] + k)[1..] == k;
      } else {
        assert KeepCmdChars(s) == [] + k == k;
      }
    }
  }

  lemma SubsequenceOfTail(r: string, s: string)
    requires s != [] && IsSubsequence(r, s[1..])
    ensures IsSubsequence(r, s)
  {
  }

  lemma SubsequenceCons(r: string, s: string)
    requires s != [] && IsSubsequence(r, s[1..])
    ensures IsSubsequence([s[0]] + r, s)
  {
    assert ([s[0]] + r)[1..] == r;
  }

  /** The filter only deletes characters: what it keeps stays in the order of the input. */
  lemma {:induction false} CmdFilterKeepsOrder(s: string)
    ensures IsSubsequence(CmdFilter(s), s)
    decreases |s|
  {
    if s != [] {
      var t := s[1..];
      var k := KeepCmdChars(t);
      var ks := KeepCmdChars(s);
      if !IsCmdChar(s[0]) {
        assert ks == [] + k == k;
        assert CmdFilter(s) == CmdFilter(t);
        CmdFilterKeepsOrder(t);
        SubsequenceOfTail(CmdFilter(t), s);
      } else if s[0] == '.' {
        assert ks == ['.'] + k && ks[1..] == k;
        assert CmdFilter(s) == DropLeadingDots(k) == CmdFilter(t);
        CmdFilterKeepsOrder(t);
        SubsequenceOfTail(CmdFilter(t), s);
      } else {
        assert ks == [s[0]] + k;
        assert CmdFilter(s) == ks;
        KeepCmdCharsIsSubsequence(t);
        SubsequenceCons(k, s);
      }
    }
  }

  /** The filter leaves an already clean value as it is (so "success" and upper-case order ids pass through). */
  /**
   * A value whose first character is kept and is not a dot loses only the
   * characters outside the allowed set: all its dots survive, as in an IPv4
   * address.
   */
  lemma CmdFilterKeepsInnerDots(s: string)
    requires s != [] && IsCmdChar(s[0]) && s[0] != '.'
    ensures CmdFilter(s) == KeepCmdChars(s)
    ensures multiset(CmdFilter(s))['.'] == multiset(s)['.']
  {
    assert KeepCmdChars(s) == [s[0]] + KeepCmdChars(s[1..]);
    KeepCmdCharsCounts(s, '.');
  }

  lemma CmdFilterOfClean(s: string)
    requires IsCmdClean(s)
    ensures CmdFilter(s) == s
  {
    KeepCmdCharsOfClean(s);
  }

  // ------------------------------------------------------------ suffixes

  predicate EndsWith(s: string, suffix: string) {
    |suffix| <= |s| && s[|s| - |suffix|..] == suffix
  }
}
