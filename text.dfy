/**
 * The Python `str` and `os.path` operations the scripts rely on, over `string`.
 * Character classes are the ASCII part of Python's Unicode classes.
 */
module Text {

  // ---------------------------------------------------------------------------
  // Character classes
  // ---------------------------------------------------------------------------

  /** `\d` and `str.isdigit`, restricted to ASCII. */
  predicate IsDigit(c: char) { '0' <= c <= '9' }

  predicate AllDigits(s: string) { forall i :: 0 <= i < |s| ==> IsDigit(s[i]) }

  /** `str.isspace` for ASCII: space, \t \n \v \f \r and the separators \x1c-\x1f. */
  predicate IsSpace(c: char) { c == ' ' || '\t' <= c <= '\r' || '\U{1C}' <= c <= '\U{1F}' }

  predicate NoSpace(s: string) { forall i :: 0 <= i < |s| ==> !IsSpace(s[i]) }

  predicate AllSpace(s: string) { forall i :: 0 <= i < |s| ==> IsSpace(s[i]) }

  function DigitValue(c: char): nat
    requires IsDigit(c)
  {
    c as int - '0' as int
  }

  /** `int(s)` for a run of ASCII digits. */
  function DecimalValue(s: string): nat
    requires AllDigits(s)
  {
    if s == [] then 0 else 10 * DecimalValue(s[..|s| - 1]) + DigitValue(s[|s| - 1])
  }

  predicate StartsWith(s: string, prefix: string) { |prefix| <= |s| && s[..|prefix|] == prefix }

  predicate EndsWith(s: string, suffix: string) { |suffix| <= |s| && s[|s| - |suffix|..] == suffix }

  // ---------------------------------------------------------------------------
  // strip / split
  // ---------------------------------------------------------------------------

  /** `s.lstrip()`: drops the leading whitespace. */
  function StripLeft(s: string): (r: string)
    ensures |r| <= |s|
    ensures r == [] || !IsSpace(r[0])
  {
    if s != [] && IsSpace(s[0]) then StripLeft(s[1..]) else s
  }

  /** What `lstrip()` drops is whitespace, and what it keeps is the rest of `s`. */
  lemma {:induction false} StripLeftCut(s: string)
    ensures StripLeft(s) == s[|s| - |StripLeft(s)|..]
    ensures AllSpace(s[..|s| - |StripLeft(s)|])
  {
    if s != [] && IsSpace(s[0]) {
      var r := StripLeft(s[1..]);
      StripLeftCut(s[1..]);
      assert s[..|s| - |r|] == [s[0]] + s[1..][..|s| - 1 - |r|];
    }
  }

  /** `s.rstrip()`: drops the trailing whitespace and nothing else. */
  function StripRight(s: string): (r: string)
    ensures |r| <= |s| && r == s[..|r|]
    ensures r == [] || !IsSpace(r[|r| - 1])
    ensures AllSpace(s[|r|..])
  {
    if s != [] && IsSpace(s[|s| - 1]) then
      var r := StripRight(s[..|s| - 1]);
      assert s[|r|..] == s[..|s| - 1][|r|..] + [s[|s| - 1]];
      r
    else s
  }

  /**
   * `s.strip()`: the part of `s` left between its leading and its trailing
   * whitespace (StripTrimmed); empty exactly when `s` is all whitespace.
   */
  function Strip(s: string): (r: string)
    ensures r == [] <==> AllSpace(s)
    ensures r != [] ==> !IsSpace(r[0]) && !IsSpace(r[|r| - 1])
  {
    var t := StripLeft(s);
    var r := StripRight(t);
    StripLeftCut(s);
    assert r == [] ==> s == s[..|s| - |t|] + t;
    r
  }

  /** What `strip()` keeps is a slice of `s` with only whitespace before and after it. */
  lemma StripTrimmed(s: string)
    ensures exists i :: (0 <= i <= |s| - |Strip(s)| && s[i..i + |Strip(s)|] == Strip(s)
      && AllSpace(s[..i]) && AllSpace(s[i + |Strip(s)|..]))
  {
    var t := StripLeft(s);
    var r := StripRight(t);
    StripLeftCut(s);
    var i := |s| - |t|;
    assert s[i..i + |r|] == t[..|r|] == r;
    assert s[i + |r|..] == t[|r|..];
  }

  /** Length of the run of non-whitespace characters that starts `s`. */
  function WordLen(s: string): (n: nat)
    ensures n <= |s|
    ensures NoSpace(s[..n])
    ensures n == |s| || IsSpace(s[n])
  {
    if s == [] || IsSpace(s[0]) then 0 else 1 + WordLen(s[1..])
  }

  /**
   * `s.split(maxsplit=m)`: at most `m` whitespace-separated words, then, if
   * anything but whitespace is left, that rest (leading whitespace skipped,
   * inner and trailing whitespace kept) as one last element.
   */
  function SplitMax(s: string, maxsplit: nat): (parts: seq<string>)
    ensures |parts| <= maxsplit + 1
    decreases |s|
  {
    var t := StripLeft(s);
    if t == [] then []
    else if maxsplit == 0 then [t]
    else
      var n := WordLen(t);
      [t[..n]] + SplitMax(t[n..], maxsplit - 1)
  }

  /** `s.split()`: the whitespace-separated words of `s`. */
  function Words(s: string): (ws: seq<string>)
    ensures s == [] ==> ws == []
    decreases |s|
  {
    var t := StripLeft(s);
    if t == [] then []
    else
      var n := WordLen(t);
      [t[..n]] + Words(t[n..])
  }

  /** A word is a non-empty run of non-whitespace characters. */
  predicate IsWord(w: string) { w != [] && NoSpace(w) }

  predicate AllWords(ws: seq<string>) { forall i :: 0 <= i < |ws| ==> IsWord(ws[i]) }

  /** Every piece `split()` returns is a word. */
  lemma {:induction false} WordsAreWords(s: string)
    ensures AllWords(Words(s))
    decreases |s|
  {
    var t := StripLeft(s);
    if t != [] {
      var n := WordLen(t);
      assert IsWord(t[..n]) by { assert n > 0; }
      WordsAreWords(t[n..]);
      ConsWords(t[..n], Words(t[n..]));
    }
  }

  lemma ConsWords(w: string, ws: seq<string>)
    requires IsWord(w) && AllWords(ws)
    ensures AllWords([w] + ws)
  {
    forall i | 0 <= i < 1 + |ws| ensures IsWord(([w] + ws)[i]) {
      if i > 0 {
        assert ([w] + ws)[i] == ws[i - 1];
      }
    }
  }

  /** `s.split(c)`: the pieces between occurrences of `c`, empty pieces included. */
  function SplitOn(s: string, c: char): (parts: seq<string>)
    ensures |parts| >= 1
    ensures forall i :: 0 <= i < |parts| ==> c !in parts[i]
    decreases |s|
  {
    var k := LastIndexOf(s, c);
    if k < 0 then [s] else SplitOn(s[..k], c) + [s[k + 1..]]
  }

  // ---------------------------------------------------------------------------
  // Searching
  // ---------------------------------------------------------------------------

  /** `s.rfind(c)`: the last index holding `c`, or -1. */
  function LastIndexOf(s: string, c: char): (k: int)
    ensures -1 <= k < |s|
    ensures k >= 0 ==> s[k] == c
    ensures forall j :: k < j < |s| ==> s[j] != c
  {
    if s == [] then -1 else if s[|s| - 1] == c then |s| - 1 else LastIndexOf(s[..|s| - 1], c)
  }

  predicate OccursAt(s: string, sub: string, i: nat) { i + |sub| <= |s| && s[i..i + |sub|] == sub }

  /** Python's `sub in s`. */
  predicate Contains(s: string, sub: string) { exists i: nat :: i <= |s| && OccursAt(s, sub, i) }

  /** `s.find(sub, start)`: the first occurrence at or after `start`, or -1. */
  function FindFrom(s: string, sub: string, start: nat): (k: int)
    requires start <= |s|
    ensures k == -1 || (start <= k && OccursAt(s, sub, k))
    ensures forall j: nat :: start <= j && (k == -1 || j < k) ==> !OccursAt(s, sub, j)
    decreases |s| - start
  {
    if start + |sub| > |s| then -1
    else if s[start..start + |sub|] == sub then start
    else if start == |s| then -1
    else FindFrom(s, sub, start + 1)
  }

  /** `s.find(sub)`; it is non-negative exactly when `sub in s`. */
  function Find(s: string, sub: string): (k: int)
    ensures k >= 0 <==> Contains(s, sub)
    ensures k >= 0 ==> OccursAt(s, sub, k) && forall j: nat :: j < k ==> !OccursAt(s, sub, j)
  {
    FindFrom(s, sub, 0)
  }

  // ---------------------------------------------------------------------------
  // Case and character replacement
  // ---------------------------------------------------------------------------

  function LowerChar(c: char): char { if 'A' <= c <= 'Z' then (c as int + 32) as char else c }

  function UpperChar(c: char): char { if 'a' <= c <= 'z' then (c as int - 32) as char else c }

  /** `s.lower()` on ASCII letters. */
  function Lower(s: string): (r: string)
    ensures |r| == |s| && forall i :: 0 <= i < |s| ==> r[i] == LowerChar(s[i])
  {
    seq(|s|, i requires 0 <= i < |s| => LowerChar(s[i]))
  }

  /** `s.upper()` on ASCII letters. */
  function Upper(s: string): (r: string)
    ensures |r| == |s| && forall i :: 0 <= i < |s| ==> r[i] == UpperChar(s[i])
  {
    seq(|s|, i requires 0 <= i < |s| => UpperChar(s[i]))
  }

  /** `s.replace(a, b)` for single characters. */
  function ReplaceChar(s: string, a: char, b: char): (r: string)
    ensures |r| == |s| && forall i :: 0 <= i < |s| ==> r[i] == if s[i] == a then b else s[i]
  {
    seq(|s|, i requires 0 <= i < |s| => if s[i] == a then b else s[i])
  }

  // ---------------------------------------------------------------------------
  // os.path
  // ---------------------------------------------------------------------------

  /** `os.path.join(a, b)` on POSIX: an absolute `b` replaces `a`. */
  function Join(a: string, b: string): (r: string)
    ensures EndsWith(r, b)
    ensures StartsWith(b, "/") ==> r == b
  {
    if StartsWith(b, "/") then b
    else if a == [] || EndsWith(a, "/") then a + b
    else a + "/" + b
  }

  /** `os.path.basename(p)`: everything after the last `/`. */
  function Basename(p: string): (r: string)
    ensures '/' !in r
    ensures EndsWith(p, r)
  {
    p[LastIndexOf(p, '/') + 1..]
  }

  /**
   * Where `os.path.splitext(p)` cuts: at the last `.` when it lies after the
   * last `/` and the base name has a character other than `.` before it,
   * otherwise at the end (no extension).
   */
  function ExtStart(p: string): (k: nat)
    ensures k <= |p|
  {
    var sep := LastIndexOf(p, '/');
    var dot := LastIndexOf(p, '.');
    if sep < dot && exists i :: sep < i < dot && p[i] != '.' then dot else |p|
  }

  /** `os.path.splitext(p)[0]`. */
  function Stem(p: string): string { p[..ExtStart(p)] }

  /** `os.path.splitext(p)[1]`: empty, or a `.` followed by no `.` and no `/`. */
  function Ext(p: string): (e: string)
    ensures Stem(p) + e == p
    ensures e == [] || (e[0] == '.' && '.' !in e[1..] && '/' !in e)
  {
    var k := ExtStart(p);
    assert p[..k] + p[k..] == p;
    p[k..]
  }

  // ---------------------------------------------------------------------------
  // Lemmas
  // ---------------------------------------------------------------------------

  /** The last index of `c` is determined by the two facts that characterise it. */
  lemma {:induction false} LastIndexOfUnique(s: string, c: char, k: int)
    requires -1 <= k < |s|
    requires k >= 0 ==> s[k] == c
    requires forall j :: k < j < |s| ==> s[j] != c
    ensures LastIndexOf(s, c) == k
  {
    if s != [] && s[|s| - 1] != c {
      LastIndexOfUnique(s[..|s| - 1], c, k);
    }
  }

  lemma LastIndexOfAppend(a: string, b: string, c: char)
    requires c !in b
    ensures LastIndexOf(a + b, c) == LastIndexOf(a, c)
  {
    var k := LastIndexOf(a, c);
    forall j | k < j < |a + b| ensures (a + b)[j] != c {
      if j >= |a| { assert (a + b)[j] == b[j - |a|]; }
    }
    LastIndexOfUnique(a + b, c, k);
  }

  /** A suffix that starts with `c` and has no other `c` puts the last `c` where it starts. */
  lemma LastIndexOfAt(a: string, b: string, c: char)
    requires |b| > 0 && b[0] == c && c !in b[1..]
    ensures LastIndexOf(a + b, c) == |a|
  {
    var s := a + b;
    assert s[|a|] == c;
    assert s[|a| + 1..] == b[1..];
    LastIndexOfUnique(s, c, |a|);
  }

  /**
   * Inserting a tag that has no `.` and no `/` between the stem and the
   * extension keeps the extension: the mute, shrink and similar output names
   * split back into the tagged stem and the input's extension.
   */
  lemma SplitExtTagged(p: string, tag: string)
    requires '.' !in tag && '/' !in tag
    ensures Stem(Stem(p) + tag + Ext(p)) == Stem(p) + tag
    ensures Ext(Stem(p) + tag + Ext(p)) == Ext(p)
  {
    if Ext(p) == [] {
      assert Stem(p) == p && Stem(p) + tag + Ext(p) == p + tag;
      TagWithoutExt(p, tag);
    } else {
      TagBeforeExt(p, tag);
    }
  }

  lemma TagWithoutExt(p: string, tag: string)
    requires '.' !in tag && '/' !in tag
    requires Ext(p) == []
    ensures Stem(p + tag) == p + tag && Ext(p + tag) == []
  {
    LastIndexOfAppend(p, tag, '/');
    LastIndexOfAppend(p, tag, '.');
    assert ExtStart(p + tag) == |p + tag|;
  }

  lemma TagBeforeExt(p: string, tag: string)
    requires '.' !in tag && '/' !in tag
    requires Ext(p) != []
    ensures Stem(Stem(p) + tag + Ext(p)) == Stem(p) + tag
    ensures Ext(Stem(p) + tag + Ext(p)) == Ext(p)
  {
    var stem, ext := Stem(p), Ext(p);
    var q := stem + tag + ext;
    var sep, dot := LastIndexOf(p, '/'), LastIndexOf(p, '.');
    assert ExtStart(p) == dot && stem == p[..dot];
    assert LastIndexOf(q, '.') == |stem + tag| by {
      LastIndexOfAt(stem + tag, ext, '.');
    }
    assert LastIndexOf(q, '/') == sep by {
      LastIndexOfAppend(stem, ext, '/');
      LastIndexOfAppend(stem, tag, '/');
      LastIndexOfAppend(stem + tag, ext, '/');
    }
    var i :| sep < i < dot && p[i] != '.';
    assert q[i] == p[i];
    assert ExtStart(q) == |stem + tag|;
    assert q[..|stem + tag|] == stem + tag;
  }

  /**
   * Appending an extension `e` to a name that has none, and whose base name is
   * not made of dots only, gives a name whose extension is `e`.
   */
  lemma AppendExt(p: string, e: string)
    requires Ext(p) == []
    requires exists i :: LastIndexOf(p, '/') < i < |p| && p[i] != '.'
    requires |e| > 0 && e[0] == '.' && '.' !in e[1..] && '/' !in e
    ensures Stem(p + e) == p && Ext(p + e) == e
  {
    var q := p + e;
    LastIndexOfAt(p, e, '.');
    LastIndexOfAppend(p, e, '/');
    var i :| LastIndexOf(p, '/') < i < |p| && p[i] != '.';
    assert q[i] == p[i];
    assert ExtStart(q) == |p|;
    assert q[..|p|] == p;
  }

  /** Skipping leading whitespace twice skips nothing more. */
  lemma StripLeftTwice(s: string)
    ensures StripLeft(StripLeft(s)) == StripLeft(s)
  {
  }

  /** `split(maxsplit=m)` and `split()` have the same first `m` words, and no more than `m + 1` pieces. */
  predicate AgreeUpTo(parts: seq<string>, ws: seq<string>, m: nat)
  {
    && |parts| == (if |ws| <= m then |ws| else m + 1)
    && (forall k :: 0 <= k < |parts| && k < m ==> parts[k] == ws[k])
    && (|ws| > m ==> Words(parts[m]) == ws[m..])
  }

  /**
   * `split(maxsplit=m)` agrees with `split()` on its first `m` words; when
   * more words follow, its last element holds exactly those further words.
   */
  lemma {:induction false} SplitMaxWords(s: string, m: nat)
    ensures AgreeUpTo(SplitMax(s, m), Words(s), m)
    decreases |s|
  {
    var t := StripLeft(s);
    if t != [] {
      if m == 0 {
        SplitMaxRest(s);
      } else {
        var n := WordLen(t);
        SplitMaxFirst(s, m, t, n);
        SplitMaxWords(t[n..], m - 1);
        AgreeCons(t[..n], SplitMax(t[n..], m - 1), Words(t[n..]), m);
      }
    }
  }

  lemma SplitMaxRest(s: string)
    requires StripLeft(s) != []
    ensures AgreeUpTo(SplitMax(s, 0), Words(s), 0)
  {
    StripLeftTwice(s);
    assert Words(StripLeft(s)) == Words(s);
  }

  /** Both splits start with the first word and continue on the text after it. */
  lemma SplitMaxFirst(s: string, m: nat, t: string, n: nat)
    requires t == StripLeft(s) && t != [] && n == WordLen(t) && m > 0
    ensures 0 < n && SplitMax(s, m) == [t[..n]] + SplitMax(t[n..], m - 1) && Words(s) == [t[..n]] + Words(t[n..])
  {
  }

  lemma AgreeCons(w: string, parts: seq<string>, ws: seq<string>, m: nat)
    requires m > 0 && AgreeUpTo(parts, ws, m - 1)
    ensures AgreeUpTo([w] + parts, [w] + ws, m)
  {
    if |ws| > m - 1 {
      assert ([w] + ws)[m..] == ws[m - 1..];
    }
  }

  /** Splitting on `c` after a piece free of `c` adds exactly that piece. */
  lemma SplitOnAppend(a: string, c: char, b: string)
    requires c !in b
    ensures SplitOn(a + [c] + b, c) == SplitOn(a, c) + [b]
  {
    LastIndexOfAt(a, [c] + b, c);
    var s := a + [c] + b;
    assert s == a + ([c] + b);
    assert s[..|a|] == a && s[|a| + 1..] == b;
  }

  lemma SplitOnNone(s: string, c: char)
    requires c !in s
    ensures SplitOn(s, c) == [s]
  {
    LastIndexOfUnique(s, c, -1);
  }

  /** `lower()` after `upper()` is `lower()`: upper-casing first changes nothing a case-insensitive lookup sees. */
  lemma LowerUpper(s: string)
    ensures Lower(Upper(s)) == Lower(s)
  {
    forall i | 0 <= i < |s| ensures Lower(Upper(s))[i] == Lower(s)[i] {
      var c := s[i];
      if 'a' <= c <= 'z' {
        assert UpperChar(c) as int == c as int - 32;
      }
    }
  }
}
