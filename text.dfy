/**
 * The string operations of Go's `strings`, `strconv` and `path/filepath`
 * packages that the ingestion core relies on, restricted to the one-character
 * separators it uses.  Strings are `seq<char>`; every separator involved is
 * ASCII, so working on characters rather than bytes changes nothing.
 */
module Text {

  /** Index of the first occurrence of `c` in `s` (strings.Index with a one-character needle). */
  function IndexOf(s: string, c: char): (r: nat)
    requires c in s
    ensures r < |s|
  {
    if s[0] == c then 0
    else
      assert c in s[1..];
      1 + IndexOf(s[1..], c)
  }

  /** `IndexOf` finds an occurrence of `c`, and no earlier one. */
  lemma {:induction false} IndexOfFirst(s: string, c: char)
    requires c in s
    ensures s[IndexOf(s, c)] == c && c !in s[..IndexOf(s, c)]
  {
    if s[0] != c {
      assert c in s[1..];
      IndexOfFirst(s[1..], c);
      var r' := IndexOf(s[1..], c);
      assert s[..r' + 1] == [s[0]] + s[1..][..r'];
    }
  }

  /** Any position holding `c` with no `c` before it is the first occurrence. */
  lemma {:induction false} IndexOfUnique(s: string, c: char, k: nat)
    requires k < |s| && s[k] == c && c !in s[..k]
    ensures IndexOf(s, c) == k
  {
    if k > 0 {
      assert s[..k][0] == s[0];
      assert s[1..][..k - 1] == s[1..k];
      IndexOfUnique(s[1..], c, k - 1);
    }
  }

  /**
   * strings.SplitN(s, sep, 2) for a separator that occurs in `s`: the text
   * before its first occurrence and the text after it.
   */
  function SplitFirst(s: string, c: char): (string, string)
    requires c in s
  {
    var k := IndexOf(s, c);
    (s[..k], s[k + 1..])
  }

  /** The two parts, rejoined with `c`, give `s`, and the first holds no `c`. */
  lemma SplitFirstParts(s: string, c: char)
    requires c in s
    ensures SplitFirst(s, c).0 + [c] + SplitFirst(s, c).1 == s
    ensures c !in SplitFirst(s, c).0
  {
    var k := IndexOf(s, c);
    IndexOfFirst(s, c);
    assert s == s[..k] + [c] + s[k + 1..];
  }

  /** The split is the only way to write `s` as `a + [c] + b` with no `c` in `a`. */
  lemma SplitFirstUnique(s: string, c: char, a: string, b: string)
    requires s == a + [c] + b && c !in a
    ensures c in s && SplitFirst(s, c) == (a, b)
  {
    assert s[|a|] == c;
    assert s[..|a|] == a;
    IndexOfUnique(s, c, |a|);
    assert s[|a| + 1..] == b;
  }

  /** Index of the last occurrence of `c` in `s`. */
  function LastIndexOf(s: string, c: char): (r: nat)
    requires c in s
    ensures r < |s|
  {
    if s[|s| - 1] == c then |s| - 1
    else
      assert c in s[..|s| - 1] by {
        var j :| 0 <= j < |s| && s[j] == c;
        assert s[..|s| - 1][j] == c;
      }
      LastIndexOf(s[..|s| - 1], c)
  }

  /** Any position holding `c` with no `c` after it is the last occurrence. */
  lemma {:induction false} LastIndexOfUnique(s: string, c: char, k: nat)
    requires k < |s| && s[k] == c && c !in s[k + 1..]
    ensures c in s && LastIndexOf(s, c) == k
  {
    if k < |s| - 1 {
      assert s[|s| - 1] == s[k + 1..][|s| - k - 2];
      var init := s[..|s| - 1];
      assert init[k + 1..] == s[k + 1..|s| - 1];
      var after := init[k + 1..];
      assert c !in after by {
        forall j | 0 <= j < |after|
          ensures after[j] != c
        {
          assert after[j] == s[k + 1..][j];
        }
      }
      LastIndexOfUnique(init, c, k);
    }
  }

  /** The text before the last occurrence of `c` and the text after it. */
  function SplitLast(s: string, c: char): (string, string)
    requires c in s
  {
    var k := LastIndexOf(s, c);
    (s[..k], s[k + 1..])
  }

  /** The split at the last `c` is the only way to write `s` as `a + [c] + b` with no `c` in `b`. */
  lemma SplitLastUnique(s: string, c: char, a: string, b: string)
    requires s == a + [c] + b && c !in b
    ensures c in s && SplitLast(s, c) == (a, b)
  {
    assert s[|a|] == c;
    assert s[|a| + 1..] == b;
    LastIndexOfUnique(s, c, |a|);
    assert s[..|a|] == a;
  }

  /** Glues `parts` back together with `c` between consecutive parts. */
  function Join(parts: seq<string>, c: char): string
    requires |parts| >= 1
  {
    if |parts| == 1 then parts[0] else parts[0] + [c] + Join(parts[1..], c)
  }

  /**
   * strings.Split(s, sep) for a one-character separator: every segment
   * between occurrences of `c`; the empty string gives one empty segment.
   */
  function SplitAll(s: string, c: char): (r: seq<string>)
    ensures |r| >= 1
    decreases |s|
  {
    if c !in s then [s]
    else
      var (head, tail) := SplitFirst(s, c);
      [head] + SplitAll(tail, c)
  }

  /** No segment contains the separator. */
  lemma {:induction false} SplitAllSegments(s: string, c: char)
    ensures forall j :: 0 <= j < |SplitAll(s, c)| ==> c !in SplitAll(s, c)[j]
    decreases |s|
  {
    if c in s {
      var (head, tail) := SplitFirst(s, c);
      SplitFirstParts(s, c);
      SplitAllSegments(tail, c);
      assert SplitAll(s, c) == [head] + SplitAll(tail, c);
    }
  }

  /** The first segment is a prefix of the string. */
  lemma SplitAllHead(s: string, c: char)
    ensures |SplitAll(s, c)[0]| <= |s| && s[..|SplitAll(s, c)[0]|] == SplitAll(s, c)[0]
  {
    if c in s {
      SplitFirstParts(s, c);
      var (head, tail) := SplitFirst(s, c);
      assert s == head + ([c] + tail);
    }
  }

  /** Joining the segments with the separator gives back the string. */
  lemma {:induction false} JoinSplitAll(s: string, c: char)
    ensures Join(SplitAll(s, c), c) == s
    decreases |s|
  {
    if c in s {
      var (head, tail) := SplitFirst(s, c);
      SplitFirstParts(s, c);
      var rest := SplitAll(tail, c);
      assert SplitAll(s, c) == [head] + rest;
      assert ([head] + rest)[1..] == rest;
      JoinSplitAll(tail, c);
    }
  }

  /** The segments are determined: splitting `a + [c] + b` with no `c` in `a` yields `a` first. */
  lemma SplitAllCons(a: string, c: char, b: string)
    requires c !in a
    ensures SplitAll(a + [c] + b, c) == [a] + SplitAll(b, c)
  {
    SplitFirstUnique(a + [c] + b, c, a, b);
  }

  predicate EndsWith(s: string, c: char)
  {
    |s| > 0 && s[|s| - 1] == c
  }

  /** strings.TrimSuffix(s, suffix) for a one-character suffix. */
  function TrimSuffix(s: string, c: char): string
  {
    if EndsWith(s, c) then s[..|s| - 1] else s
  }

  /** One trailing `c` is removed when there is one, and nothing otherwise. */
  lemma TrimSuffixRemovesOne(s: string, c: char)
    ensures s == (if EndsWith(s, c) then TrimSuffix(s, c) + [c] else TrimSuffix(s, c))
  {
  }

  /** strings.HasPrefix(s, prefix). */
  predicate HasPrefix(s: string, prefix: string)
  {
    |prefix| <= |s| && s[..|prefix|] == prefix
  }

  /** A prefix of a prefix is a prefix. */
  lemma PrefixOfPrefix(s: string, t: string, u: string)
    requires HasPrefix(s, t) && HasPrefix(t, u)
    ensures HasPrefix(s, u)
  {
    assert s[..|u|] == s[..|t|][..|u|];
  }

  /**
   * filepath.Ext on a slash-separated path: the suffix that starts at the last
   * '.' of the final path element, or "" when that element has no '.'.
   */
  function Ext(path: string): string
  {
    if |path| == 0 || path[|path| - 1] == '/' then ""
    else if path[|path| - 1] == '.' then "."
    else
      var e := Ext(path[..|path| - 1]);
      if e == [] then "" else e + [path[|path| - 1]]
  }

  /** Every '.' of the path lies in a directory name: the last element has none. */
  predicate DotsBeforeSlash(path: string)
  {
    forall j :: 0 <= j < |path| && path[j] == '.' ==> '/' in path[j + 1..]
  }

  /** The extension is a suffix of the path. */
  lemma {:induction false} ExtSuffix(path: string)
    ensures |Ext(path)| <= |path| && Ext(path) == path[|path| - |Ext(path)|..]
  {
    if |path| > 0 && path[|path| - 1] != '/' && path[|path| - 1] != '.' {
      var init := path[..|path| - 1];
      ExtSuffix(init);
      var e := Ext(init);
      if e != [] {
        assert path[|path| - |e| - 1..] == init[|init| - |e|..] + [path[|path| - 1]];
      }
    }
  }

  /** A non-empty extension starts with its only '.' and holds no '/'. */
  lemma {:induction false} ExtShape(path: string)
    ensures var r := Ext(path); r != [] ==> r[0] == '.' && '.' !in r[1..] && '/' !in r
  {
    if |path| > 0 && path[|path| - 1] != '/' && path[|path| - 1] != '.' {
      var init := path[..|path| - 1];
      ExtShape(init);
      var e := Ext(init);
      if e != [] {
        assert (e + [path[|path| - 1]])[1..] == e[1..] + [path[|path| - 1]];
      }
    }
  }

  /** The extension is empty exactly when the last path element has no '.'. */
  lemma {:induction false} ExtEmpty(path: string)
    ensures Ext(path) == [] <==> DotsBeforeSlash(path)
  {
    if |path| == 0 || path[|path| - 1] == '/' {
      assert forall j :: 0 <= j < |path| && path[j] == '.' ==> path[j + 1..][|path| - j - 2] == '/';
    } else if path[|path| - 1] == '.' {
      assert path[|path|..] == [];
    } else {
      var init := path[..|path| - 1];
      ExtEmpty(init);
      assert path == init + [path[|path| - 1]];
      DotsBeforeSlashExtend(init, path[|path| - 1]);
    }
  }

  /** Appending a character that is neither '.' nor '/' keeps the answer of `DotsBeforeSlash`. */
  lemma DotsBeforeSlashExtend(init: string, c: char)
    requires c != '.' && c != '/'
    ensures DotsBeforeSlash(init + [c]) <==> DotsBeforeSlash(init)
  {
    var path := init + [c];
    forall j | 0 <= j < |init|
      ensures path[j] == init[j] && ('/' in path[j + 1..] <==> '/' in init[j + 1..])
    {
      assert path[j + 1..] == init[j + 1..] + [c];
    }
    if DotsBeforeSlash(init) {
      forall j | 0 <= j < |path| && path[j] == '.'
        ensures '/' in path[j + 1..]
      {
        assert j < |init|;
      }
    }
  }

  /** A line as `ReadString('\n')` delivers it: ending in its only '\n'. */
  predicate IsLine(l: string)
  {
    |l| > 0 && l[|l| - 1] == '\n' && '\n' !in l[..|l| - 1]
  }

  /**
   * bufio.Reader.ReadString('\n') on the unread text `rest`: the text up to
   * and including the first '\n', the end-of-file flag, and the text left
   * unread.  Without a '\n' the whole of `rest` comes back with end of file.
   */
  function ReadString(rest: string): (r: (string, bool, string))
    ensures r.0 + r.2 == rest
    ensures r.1 <==> '\n' !in rest
    ensures r.1 ==> r.2 == []
    ensures !r.1 ==> IsLine(r.0)
  {
    if '\n' !in rest then (rest, true, [])
    else
      var k := IndexOf(rest, '\n');
      IndexOfFirst(rest, '\n');
      assert rest[..k + 1][..k] == rest[..k];
      (rest[..k + 1], false, rest[k + 1..])
  }

  /** A stream cut by successive `ReadString` calls: the lines read, and the fragment left at end of file. */
  function SplitLines(stream: string): (seq<string>, string)
    decreases |stream|
  {
    var (line, eof, rest) := ReadString(stream);
    if eof then ([], line)
    else
      var (lines, fragment) := SplitLines(rest);
      ([line] + lines, fragment)
  }

  /**
   * One `ReadString` call on the unread text `rest`, whose lines are line `k`
   * on of the stream: it delivers line `k`, or end of file after the last.
   */
  lemma ReadNext(rest: string, lines: seq<string>, k: nat)
    requires k <= |lines| && SplitLines(rest).0 == lines[k..]
    ensures ReadString(rest).1 ==> k == |lines|
    ensures !ReadString(rest).1 ==>
      && k < |lines| && ReadString(rest).0 == lines[k]
      && SplitLines(ReadString(rest).2).0 == lines[k + 1..]
      && |ReadString(rest).2| < |rest|
  {
    var r := ReadString(rest);
    if r.1 {
      assert lines[k..] == [];
    } else {
      var tail := SplitLines(r.2).0;
      assert lines[k..] == [r.0] + tail;
      assert lines[k..][0] == lines[k];
      assert lines[k..][1..] == lines[k + 1..];
    }
  }

  function Concat(parts: seq<string>): string
  {
    if parts == [] then [] else parts[0] + Concat(parts[1..])
  }

  /** Every line read ends in its only '\n', and the fragment holds none. */
  lemma {:induction false} SplitLinesShape(stream: string)
    ensures forall j :: 0 <= j < |SplitLines(stream).0| ==> IsLine(SplitLines(stream).0[j])
    ensures '\n' !in SplitLines(stream).1
    decreases |stream|
  {
    var (line, eof, rest) := ReadString(stream);
    if !eof {
      SplitLinesShape(rest);
      assert SplitLines(stream).0 == [line] + SplitLines(rest).0;
    }
  }

  /** The lines read, followed by the fragment, are the stream. */
  lemma {:induction false} SplitLinesConcat(stream: string)
    ensures Concat(SplitLines(stream).0) + SplitLines(stream).1 == stream
    decreases |stream|
  {
    var (line, eof, rest) := ReadString(stream);
    if !eof {
      SplitLinesConcat(rest);
      var ls := SplitLines(stream).0;
      assert ls == [line] + SplitLines(rest).0;
      assert ls[1..] == SplitLines(rest).0;
      assert Concat(ls) + SplitLines(stream).1 == line + (Concat(SplitLines(rest).0) + SplitLines(rest).1);
    }
  }

  /** Lines that each end in their only '\n', then a fragment without one, are read back as such. */
  lemma {:induction false} SplitLinesUnique(lines: seq<string>, fragment: string)
    requires forall j :: 0 <= j < |lines| ==> IsLine(lines[j])
    requires '\n' !in fragment
    ensures SplitLines(Concat(lines) + fragment) == (lines, fragment)
  {
    var stream := Concat(lines) + fragment;
    if lines != [] {
      var l := lines[0];
      var rest := Concat(lines[1..]) + fragment;
      assert stream == l + rest;
      ReadStringLine(l, rest);
      SplitLinesUnique(lines[1..], fragment);
      assert SplitLines(stream) == ([l] + SplitLines(rest).0, SplitLines(rest).1);
      assert [l] + lines[1..] == lines;
    } else {
      assert stream == fragment;
    }
  }

  /** `ReadString` on a line followed by anything returns that line and leaves the rest unread. */
  lemma ReadStringLine(l: string, rest: string)
    requires IsLine(l)
    ensures ReadString(l + rest) == (l, false, rest)
  {
    var stream := l + rest;
    var k := |l| - 1;
    assert stream[k] == '\n' && stream[..k] == l[..k];
    IndexOfUnique(stream, '\n', k);
    assert stream[..k + 1] == l && stream[k + 1..] == rest;
  }

  predicate IsDigit(c: char)
  {
    '0' <= c <= '9'
  }

  function DigitChar(d: nat): (c: char)
    requires d < 10
    ensures IsDigit(c)
  {
    "0123456789"[d]
  }

  function DigitValue(c: char): (d: nat)
    requires IsDigit(c)
    ensures d < 10
  {
    (c as int - '0' as int) as nat
  }

  /** strconv.Itoa on a non-negative integer: its decimal digits. */
  function Digits(n: nat): (r: string)
    ensures |r| >= 1
    ensures forall j :: 0 <= j < |r| ==> IsDigit(r[j])
    ensures r[0] == '0' ==> n == 0
  {
    if n < 10 then [DigitChar(n)] else Digits(n / 10) + [DigitChar(n % 10)]
  }

  /** The value of a string of decimal digits. */
  function DigitsValue(s: string): nat
    requires forall j :: 0 <= j < |s| ==> IsDigit(s[j])
  {
    if s == [] then 0 else 10 * DigitsValue(s[..|s| - 1]) + DigitValue(s[|s| - 1])
  }

  lemma {:induction false} DigitsRoundTrip(n: nat)
    ensures DigitsValue(Digits(n)) == n
  {
    if n >= 10 {
      DigitsRoundTrip(n / 10);
      var r := Digits(n);
      assert r[..|r| - 1] == Digits(n / 10);
    }
  }

  /** The longest prefix of `s` made of decimal digits. */
  function LeadingDigits(s: string): (r: string)
    ensures |r| <= |s| && r == s[..|r|]
    ensures forall j :: 0 <= j < |r| ==> IsDigit(r[j])
    ensures |r| < |s| ==> !IsDigit(s[|r|])
  {
    if s == [] || !IsDigit(s[0]) then []
    else
      var t := LeadingDigits(s[1..]);
      assert [s[0]] + t == s[..|t| + 1];
      [s[0]] + t
  }

  lemma {:induction false} LeadingDigitsOf(d: string, rest: string)
    requires forall j :: 0 <= j < |d| ==> IsDigit(d[j])
    requires rest == [] || !IsDigit(rest[0])
    ensures LeadingDigits(d + rest) == d
  {
    if d != [] {
      assert (d + rest)[1..] == d[1..] + rest;
      LeadingDigitsOf(d[1..], rest);
    }
  }
}
