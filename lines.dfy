/** Python's `str.splitlines()`: the lines of a text, without their line boundaries. */
module Lines {

  /**
   * The line boundaries `splitlines` recognises: \n, \r (and \r\n taken as
   * one), \v, \f, the separators \x1c-\x1e, NEL, LINE SEPARATOR and
   * PARAGRAPH SEPARATOR.
   */
  predicate IsLineBreak(c: char)
  {
    c == '\n' || c == '\r' || c == '\U{0B}' || c == '\U{0C}' || '\U{1C}' <= c <= '\U{1E}'
    || c == '\U{85}' || c == '\U{2028}' || c == '\U{2029}'
  }

  predicate NoBreak(s: string) { forall i :: 0 <= i < |s| ==> !IsLineBreak(s[i]) }

  /** Length of the text before the first line boundary. */
  function LineLen(s: string): (n: nat)
    ensures n <= |s|
    ensures NoBreak(s[..n])
    ensures n == |s| || IsLineBreak(s[n])
  {
    if s == [] || IsLineBreak(s[0]) then 0
    else
      var n := LineLen(s[1..]);
      assert s[..n + 1] == [s[0]] + s[1..][..n];
      n + 1
  }

  /** Length of the boundary that starts at `n`: two for \r\n, otherwise one. */
  function BreakLen(s: string, n: nat): nat
    requires n < |s|
  {
    if s[n] == '\r' && n + 1 < |s| && s[n + 1] == '\n' then 2 else 1
  }

  /** `s.splitlines()`: no boundary characters kept, no empty line after a final boundary. */
  function SplitLines(s: string): (lines: seq<string>)
    decreases |s|
  {
    if s == [] then []
    else
      var n := LineLen(s);
      if n == |s| then [s]
      else [s[..n]] + SplitLines(s[n + BreakLen(s, n)..])
  }

  /** No line that `splitlines` returns holds a line boundary. */
  lemma {:induction false} SplitLinesNoBreak(s: string)
    ensures forall i :: 0 <= i < |SplitLines(s)| ==> NoBreak(SplitLines(s)[i])
    decreases |s|
  {
    if s != [] {
      var n := LineLen(s);
      if n < |s| {
        var rest := s[n + BreakLen(s, n)..];
        SplitLinesNoBreak(rest);
        assert SplitLines(s) == [s[..n]] + SplitLines(rest);
        forall i | 0 <= i < |SplitLines(s)| ensures NoBreak(SplitLines(s)[i]) {
          if i > 0 {
            assert SplitLines(s)[i] == SplitLines(rest)[i - 1];
          }
        }
      }
    }
  }

  /** The text `"\n".join(lines) + "\n"`, each line written with its newline. */
  function JoinLines(lines: seq<string>): string
  {
    if lines == [] then [] else lines[0] + "\n" + JoinLines(lines[1..])
  }

  /** Writing one more line appends that line and its newline. */
  lemma {:induction false} JoinLinesAppend(lines: seq<string>, line: string)
    ensures JoinLines(lines + [line]) == JoinLines(lines) + line + "\n"
    decreases |lines|
  {
    if lines != [] {
      assert (lines + [line])[1..] == lines[1..] + [line];
      JoinLinesAppend(lines[1..], line);
    } else {
      assert JoinLines([line]) == line + "\n" + JoinLines([]);
    }
  }

  lemma {:induction false} LineLenAt(a: string, b: string)
    requires NoBreak(a)
    requires b != [] && IsLineBreak(b[0])
    ensures LineLen(a + b) == |a|
    decreases |a|
  {
    var s := a + b;
    if a == [] {
      assert s == b;
    } else {
      assert s[0] == a[0] && !IsLineBreak(s[0]);
      assert s[1..] == a[1..] + b;
      LineLenAt(a[1..], b);
      assert LineLen(s) == LineLen(s[1..]) + 1;
    }
  }

  /** Lines free of boundaries, each written with a newline, split back into the same lines. */
  lemma {:induction false} SplitJoinLines(lines: seq<string>)
    requires forall i :: 0 <= i < |lines| ==> NoBreak(lines[i])
    ensures SplitLines(JoinLines(lines)) == lines
    decreases |lines|
  {
    if lines != [] {
      var l := lines[0];
      var rest := JoinLines(lines[1..]);
      var s := JoinLines(lines);
      assert s == l + ("\n" + rest);
      LineLenAt(l, "\n" + rest);
      assert s[|l|] == '\n';
      assert s[..|l|] == l;
      assert s[|l| + 1..] == rest;
      SplitJoinLines(lines[1..]);
    }
  }
}
