/**
 * The list file that ffmpeg's concat demuxer reads: one `file '<path>'` line
 * per input, in the order the inputs are merged. merge.py writes the absolute
 * path of each input, merge-shrink-180.py each joined path as it is. Neither
 * escapes a `'` inside a path.
 */
module ConcatList {
  import opened Wrappers
  import opened Lines

  const Keyword := "file "

  /** The line naming one input, without its newline: the path between `'`s. */
  function EntryLine(path: string): string { Keyword + "'" + path + "'" }

  /**
   * The argument the demuxer reads from the text after `file `: every `'`
   * opens or closes a quoted run and is itself dropped, every other
   * character is kept.
   */
  function Token(s: string, quoted: bool): (r: string)
    ensures '\'' !in r
    ensures |r| <= |s|
    decreases |s|
  {
    if s == [] then []
    else if s[0] == '\'' then Token(s[1..], !quoted)
    else [s[0]] + Token(s[1..], quoted)
  }

  /** The path a line names when it is a `file` line. */
  function PathOf(line: string): Option<string>
  {
    if |line| >= |Keyword| && line[..|Keyword|] == Keyword
    then Some(Token(line[|Keyword|..], false))
    else None
  }

  function EntryLines(paths: seq<string>): seq<string>
  {
    seq(|paths|, i requires 0 <= i < |paths| => EntryLine(paths[i]))
  }

  /** The text of the list for `paths`: each entry line followed by a newline. */
  function ListText(paths: seq<string>): string { JoinLines(EntryLines(paths)) }

  /** The paths named by `lines`, or `None` when some line is not a `file` line. */
  function ReadLines(lines: seq<string>): (r: Option<seq<string>>)
    ensures r.Some? ==> |r.value| == |lines|
  {
    if lines == [] then Some([])
    else
      var init := ReadLines(lines[..|lines| - 1]);
      var last := PathOf(lines[|lines| - 1]);
      if init.Some? && last.Some? then Some(init.value + [last.value]) else None
  }

  /**
   * Reading a list file back: the paths of its lines, in order. The text is
   * split at every line break `splitlines` knows, a larger set than the `\n`
   * and `\r` the demuxer ends lines at; the round trips below therefore ask
   * for paths free of all of them, more than the demuxer needs.
   */
  function ReadList(text: string): Option<seq<string>> { ReadLines(SplitLines(text)) }

  /** The loop that writes the list: one entry line and its newline per path. */
  method WriteList(paths: seq<string>) returns (text: string)
    ensures text == ListText(paths)
  {
    text := "";
    for i := 0 to |paths|
      invariant text == ListText(paths[..i])
    {
      assert EntryLines(paths[..i + 1]) == EntryLines(paths[..i]) + [EntryLine(paths[i])];
      JoinLinesAppend(EntryLines(paths[..i]), EntryLine(paths[i]));
      text := text + EntryLine(paths[i]) + "\n";
    }
    assert paths[..|paths|] == paths;
  }

  /** Text without a `'` reads as itself, whatever the quoting state. */
  lemma {:induction false} TokenPlain(p: string, rest: string, quoted: bool)
    requires '\'' !in p
    ensures Token(p + rest, quoted) == p + Token(rest, quoted)
    decreases |p|
  {
    if p == [] {
      assert p + rest == rest;
    } else {
      assert (p + rest)[0] == p[0] != '\'';
      assert (p + rest)[1..] == p[1..] + rest;
      TokenPlain(p[1..], rest, quoted);
      calc {
        Token(p + rest, quoted);
        [p[0]] + Token(p[1..] + rest, quoted);
        [p[0]] + (p[1..] + Token(rest, quoted));
        { assert p == [p[0]] + p[1..]; }
        p + Token(rest, quoted);
      }
    }
  }

  /**
   * An entry line always reads as a `file` line. It names exactly the path it
   * was written for when that path holds no `'`; a path that holds one reads
   * back without its quotes, so as another path.
   */
  lemma PathOfEntry(path: string)
    ensures PathOf(EntryLine(path)).Some?
    ensures PathOf(EntryLine(path)) == Some(path) <==> '\'' !in path
  {
    var line := EntryLine(path);
    assert line[..|Keyword|] == Keyword;
    var arg := line[|Keyword|..];
    assert arg == "'" + (path + "'");
    assert Token(arg, false) == Token(path + "'", true);
    if '\'' !in path {
      TokenPlain(path, "'", true);
      assert Token("'", true) == Token([], false) == [];
      assert Token(arg, false) == path;
    }
  }

  /** A path holding a `'` does not survive the list: `it's.mp4` reads as `its.mp4`. */
  lemma QuotedPathLost()
    ensures PathOf(EntryLine("it's.mp4")) == Some("its.mp4")
  {
    var arg := EntryLine("it's.mp4")[|Keyword|..];
    assert arg == "'it's.mp4'";
    assert Token(arg, false) == "its.mp4" by {
      TokenPlain("it", "'s.mp4'", true);
      assert "it's.mp4'" == "it" + "'s.mp4'";
      TokenPlain("s.mp4", "'", false);
      assert "s.mp4'" == "s.mp4" + "'";
    }
  }

  lemma {:induction false} ReadEntryLines(paths: seq<string>)
    requires forall i :: 0 <= i < |paths| ==> '\'' !in paths[i]
    ensures ReadLines(EntryLines(paths)) == Some(paths)
    decreases |paths|
  {
    if paths != [] {
      var init := paths[..|paths| - 1];
      assert EntryLines(paths)[..|paths| - 1] == EntryLines(init);
      ReadEntryLines(init);
      PathOfEntry(paths[|paths| - 1]);
      assert EntryLines(paths)[|paths| - 1] == EntryLine(paths[|paths| - 1]);
      assert init + [paths[|paths| - 1]] == paths;
    }
  }

  /**
   * A list written for paths without line breaks and without `'` has exactly
   * one line per path, and reading it back yields the paths in their order.
   */
  lemma ListRoundTrip(paths: seq<string>)
    requires forall i :: 0 <= i < |paths| ==> NoBreak(paths[i]) && '\'' !in paths[i]
    ensures |SplitLines(ListText(paths))| == |paths|
    ensures ReadList(ListText(paths)) == Some(paths)
  {
    var lines := EntryLines(paths);
    forall i | 0 <= i < |lines| ensures NoBreak(lines[i]) {
      assert lines[i] == Keyword + "'" + paths[i] + "'";
    }
    SplitJoinLines(lines);
    ReadEntryLines(paths);
  }
}
