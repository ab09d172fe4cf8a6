/**
 * Output names in camera.py: `--shrink` writes `<stem>-<WxH><ext>`, `--mute`
 * writes `<stem>_mute<ext>`, a slice writes `<base>-slice.mp4`, a subtitled
 * copy `<base>-subtitled.mp4`, a merge `<TODAY>-merge.mp4`, and a merge
 * followed by a shorten or a slice `<TODAY>-<tag>-<action>.mp4`. A name given
 * with `-n` replaces these, and is refused when more than one file would be
 * written under it. Also the subtitle position table behind `--pos`.
 * `TODAY` is a parameter: the clock is not part of the model.
 */
module CameraNames {
  import opened Wrappers
  import opened Text

  /** A `-n` name that Python finds truthy. */
  predicate IsGiven(name: Option<string>) { name.Some? && name.value != [] }

  // ---------------------------------------------------------------------------
  // --shrink
  // ---------------------------------------------------------------------------

  /** The resolution argument without the one final newline that `$` lets through. */
  function ChompNewline(s: string): string
  {
    if |s| > 0 && s[|s| - 1] == '\n' then s[..|s| - 1] else s
  }

  /** `re.match(r'^\d+x\d+$', s)`: digits, `x`, digits, and at most a final newline. */
  predicate IsResolution(s: string)
  {
    var t := ChompNewline(s);
    var k := LastIndexOf(t, 'x');
    0 < k < |t| - 1 && AllDigits(t[..k]) && AllDigits(t[k + 1..])
  }

  /** A resolution holds no `.` and no `/`, so it never moves the extension or the directory. */
  lemma ResolutionChars(s: string)
    requires IsResolution(s)
    ensures '.' !in s && '/' !in s
  {
    var t := ChompNewline(s);
    var k := LastIndexOf(t, 'x');
    forall i | 0 <= i < |s| ensures s[i] != '.' && s[i] != '/' {
      if i < |t| {
        if i < k {
          assert t[..k][i] == s[i];
        } else if i > k {
          assert t[k + 1..][i - k - 1] == s[i];
        }
      }
    }
  }

  lemma ResolutionAccepted()
    ensures IsResolution("1024x768")
  {
    assert LastIndexOf("1024x768", 'x') == 4 by {
      LastIndexOfAt("1024", "x768", 'x');
      assert "1024" + "x768" == "1024x768";
    }
  }

  lemma ResolutionWithNewline()
    ensures IsResolution("640x480\n")
  {
    assert ChompNewline("640x480\n") == "640x480";
    assert LastIndexOf("640x480", 'x') == 3 by {
      LastIndexOfAt("640", "x480", 'x');
      assert "640" + "x480" == "640x480";
    }
  }

  lemma ResolutionRejected()
    ensures !IsResolution("1024X768")
  {
    LastIndexOfUnique("1024X768", 'x', -1);
  }

  datatype ShrinkError = BadResolution(resolution: string) | MissingFile(path: string)

  /**
   * `shrink_video(resolution, file_path)` up to the ffmpeg call: the
   * resolution is checked first, then that the file exists; the output keeps
   * the directory and extension and tags the stem with the resolution.
   */
  function ShrinkOutput(resolution: string, path: string, fileExists: bool): (r: Result<string, ShrinkError>)
    ensures !IsResolution(resolution) <==> r == Err(BadResolution(resolution))
    ensures IsResolution(resolution) && !fileExists <==> r == Err(MissingFile(path))
    ensures r.Ok? ==> Stem(r.value) == Stem(path) + "-" + resolution && Ext(r.value) == Ext(path)
  {
    if !IsResolution(resolution) then Err(BadResolution(resolution))
    else if !fileExists then Err(MissingFile(path))
    else
      var tag := "-" + resolution;
      ShrinkName(resolution, path, tag);
      Ok(Stem(path) + tag + Ext(path))
  }

  /** The resolution tag sits between the stem and the extension of the output name. */
  lemma ShrinkName(resolution: string, path: string, tag: string)
    requires IsResolution(resolution) && tag == "-" + resolution
    ensures Stem(Stem(path) + tag + Ext(path)) == Stem(path) + tag
    ensures Ext(Stem(path) + tag + Ext(path)) == Ext(path)
  {
    ResolutionChars(resolution);
    assert tag[0] == '-' && tag[1..] == resolution;
    SplitExtTagged(path, tag);
  }

  // ---------------------------------------------------------------------------
  // Per-file outputs of the processing modes
  // ---------------------------------------------------------------------------

  /** The processing modes that write one output per input file. */
  datatype Mode = Shorten | Slice | Subtitle | Mute

  /**
   * The output of one input file: the `-n` name when given; otherwise the
   * input itself for a shorten (it is overwritten), `<base>-slice.mp4` and
   * `<base>-subtitled.mp4` in the working directory, or `<stem>_mute<ext>`
   * beside the input.
   */
  function OutputFor(mode: Mode, input: string, name: Option<string>): string
  {
    if IsGiven(name) then name.value
    else match mode
      case Shorten => input
      case Slice => Stem(Basename(input)) + "-slice.mp4"
      case Subtitle => Stem(Basename(input)) + "-subtitled.mp4"
      case Mute => Stem(input) + "_mute" + Ext(input)
  }

  datatype PlanError = NameForManyFiles(count: nat)

  /**
   * The outputs `main` writes in a per-file mode: refused when a `-n` name is
   * given for more than one file, otherwise one output per input, in order.
   */
  function OutputPlan(mode: Mode, files: seq<string>, name: Option<string>): (r: Result<seq<string>, PlanError>)
    ensures r.Err? <==> IsGiven(name) && |files| > 1
    ensures r.Ok? ==> |r.value| == |files|
    ensures r.Ok? ==> forall i :: 0 <= i < |files| ==> r.value[i] == OutputFor(mode, files[i], name)
    ensures r.Ok? && IsGiven(name) ==> forall i :: 0 <= i < |files| ==> r.value[i] == name.value
    ensures r.Ok? && !IsGiven(name) && mode == Shorten ==> r.value == files
  {
    if IsGiven(name) && |files| > 1 then Err(NameForManyFiles(|files|))
    else Ok(seq(|files|, i requires 0 <= i < |files| => OutputFor(mode, files[i], name)))
  }

  /** The mute output sits beside its input, keeps its extension, and its stem is the input's tagged with `_mute`. */
  lemma MuteOutputSplits(input: string)
    ensures Stem(OutputFor(Mute, input, None)) == Stem(input) + "_mute"
    ensures Ext(OutputFor(Mute, input, None)) == Ext(input)
  {
    SplitExtTagged(input, "_mute");
  }

  /** Different inputs never share a mute output: the name gives back the input's stem and extension. */
  lemma MuteOutputInjective(a: string, b: string)
    requires OutputFor(Mute, a, None) == OutputFor(Mute, b, None)
    ensures a == b
  {
    MuteOutputSplits(a);
    MuteOutputSplits(b);
    var sa, sb := Stem(a) + "_mute", Stem(b) + "_mute";
    assert sa == sb;
    assert Stem(a) == sa[..|sa| - 5] && Stem(b) == sb[..|sb| - 5];
    assert Stem(a) + Ext(a) == a && Stem(b) + Ext(b) == b;
  }

  /** A slice is written in the working directory, whatever the input's directory. */
  lemma SliceOutputLocal(input: string)
    ensures '/' !in OutputFor(Slice, input, None)
  {
    StemOfBasename(input);
    assert OutputFor(Slice, input, None) == Stem(Basename(input)) + "-slice.mp4";
  }

  /** A subtitled copy is written in the working directory, whatever the input's directory. */
  lemma SubtitleOutputLocal(input: string)
    ensures '/' !in OutputFor(Subtitle, input, None)
  {
    StemOfBasename(input);
    assert OutputFor(Subtitle, input, None) == Stem(Basename(input)) + "-subtitled.mp4";
  }

  lemma StemOfBasename(p: string)
    ensures '/' !in Stem(Basename(p))
  {
    var b := Basename(p);
    var stem := Stem(b);
    assert stem == b[..ExtStart(b)];
    forall i | 0 <= i < |stem| ensures stem[i] != '/' {
      assert stem[i] == b[i];
    }
  }

  lemma NoCharConcat(a: string, b: string, c: char)
    requires c !in a && c !in b
    ensures c !in a + b
  {
  }

  // ---------------------------------------------------------------------------
  // Merge outputs
  // ---------------------------------------------------------------------------

  /** `c` is in Python's `\w` (ASCII letters, digits, underscore). */
  predicate IsWordChar(c: char) { 'a' <= c <= 'z' || 'A' <= c <= 'Z' || IsDigit(c) || c == '_' }

  /** `s.replace(c, '')`: every `c` dropped, every other character kept (in order, see WithoutAppend). */
  function Without(s: string, c: char): (r: string)
    ensures c !in r
    ensures multiset(r) == multiset(s)[c := 0]
  {
    if s == [] then []
    else
      assert s == [s[0]] + s[1..];
      assert multiset(s) == multiset{s[0]} + multiset(s[1..]);
      (if s[0] == c then [] else [s[0]]) + Without(s[1..], c)
  }

  /** Removing characters from a concatenation removes them from each part, so the kept ones stay in order. */
  lemma {:induction false} WithoutAppend(a: string, b: string, c: char)
    ensures Without(a + b, c) == Without(a, c) + Without(b, c)
    decreases |a|
  {
    if a == [] {
      assert a + b == b;
    } else {
      assert (a + b)[0] == a[0];
      assert (a + b)[1..] == a[1..] + b;
      WithoutAppend(a[1..], b, c);
    }
  }

  /** The part of a pattern a tag is made from: its base name with the wildcards `*` and `?` removed. */
  function TagSource(word: string): string { Basename(Without(Without(word, '*'), '?')) }

  /**
   * `re.sub(r'[^\w\-]', '_', ...)` on the tag source: word characters and `-`
   * stay in place, every other character becomes `_`.
   */
  function SafeTag(word: string): (r: string)
    ensures |r| == |TagSource(word)|
    ensures forall i :: 0 <= i < |r| ==> IsWordChar(r[i]) || r[i] == '-'
    ensures forall i :: 0 <= i < |r| && (IsWordChar(TagSource(word)[i]) || TagSource(word)[i] == '-') ==>
      r[i] == TagSource(word)[i]
    ensures forall i :: 0 <= i < |r| && !(IsWordChar(TagSource(word)[i]) || TagSource(word)[i] == '-') ==>
      r[i] == '_'
  {
    var b := TagSource(word);
    seq(|b|, i requires 0 <= i < |b| => if IsWordChar(b[i]) || b[i] == '-' then b[i] else '_')
  }

  /** A tag is already safe: making it safe again changes nothing. */
  lemma SafeTagIdempotent(word: string)
    ensures SafeTag(SafeTag(word)) == SafeTag(word)
  {
    var t := SafeTag(word);
    assert '*' !in t && '?' !in t && '/' !in t;
    WithoutAbsent(t, '*');
    WithoutAbsent(t, '?');
    LastIndexOfUnique(t, '/', -1);
    assert Basename(t) == t;
  }

  lemma {:induction false} WithoutAbsent(s: string, c: char)
    requires c !in s
    ensures Without(s, c) == s
  {
    if s != [] {
      WithoutAbsent(s[1..], c);
      assert s == [s[0]] + s[1..];
    }
  }

  /** `-m` alone: the `-n` name, or `<TODAY>-merge.mp4`. */
  function MergeOutput(today: string, name: Option<string>): (r: string)
    ensures IsGiven(name) ==> r == name.value
    ensures !IsGiven(name) ==> StartsWith(r, today) && EndsWith(r, "-merge.mp4")
    ensures !IsGiven(name) ==> r == today + "-merge.mp4"
  {
    if IsGiven(name) then name.value else today + "-merge.mp4"
  }

  /**
   * `-m` followed by `-s` or `-S`: the `-n` name, or
   * `<TODAY>-<tag>-shorten.mp4` / `<TODAY>-<tag>-slice.mp4`, where the tag is
   * made from the first of the `-f` patterns (`args.files.split()`). Without
   * `-n` the output lands in the working directory whatever the pattern.
   */
  function ChainOutput(today: string, patterns: seq<string>, shorten: bool, name: Option<string>): (r: string)
    requires patterns != []
    ensures IsGiven(name) ==> r == name.value
    ensures !IsGiven(name) ==> StartsWith(r, today + "-") && EndsWith(r, ActionSuffix(shorten))
    ensures !IsGiven(name) ==> r == today + "-" + SafeTag(patterns[0]) + ActionSuffix(shorten)
    ensures !IsGiven(name) && '/' !in today ==> '/' !in r
  {
    if IsGiven(name) then name.value
    else
      SafeTagLocal(patterns[0]);
      Tagged(today, SafeTag(patterns[0]), shorten)
  }

  /** `<today>-<tag>-<action>.mp4`. */
  function Tagged(today: string, tag: string, shorten: bool): (r: string)
    ensures StartsWith(r, today + "-") && EndsWith(r, ActionSuffix(shorten))
    ensures |r| == |today| + 1 + |tag| + |ActionSuffix(shorten)|
    ensures r[|today| + 1..|today| + 1 + |tag|] == tag
    ensures '/' !in today && '/' !in tag ==> '/' !in r
  {
    var head := today + "-";
    assert '/' !in today && '/' !in tag ==> '/' !in head + tag + ActionSuffix(shorten) by {
      if '/' !in today && '/' !in tag {
        NoCharConcat(today, "-", '/');
        NoCharConcat(head, tag, '/');
        NoCharConcat(head + tag, ActionSuffix(shorten), '/');
      }
    }
    head + tag + ActionSuffix(shorten)
  }

  /** `-<action>.mp4`, the action being `shorten` or `slice`. */
  function ActionSuffix(shorten: bool): (r: string)
    ensures '/' !in r
  {
    "-" + (if shorten then "shorten" else "slice") + ".mp4"
  }

  /** The safe tag never holds a `/`: only word characters and `-` survive. */
  lemma SafeTagLocal(word: string)
    ensures '/' !in SafeTag(word)
  {
    var tag := SafeTag(word);
    forall i | 0 <= i < |tag| ensures tag[i] != '/' {
    }
  }

  // ---------------------------------------------------------------------------
  // --pos
  // ---------------------------------------------------------------------------

  /** The ASS style fields a position sets; `MarginL` only for some. */
  datatype Style = Style(alignment: string, marginL: Option<string>, marginV: string)

  const PosTable: map<string, Style> := map[
    "top-left" := Style("4", None, "10"),
    "top-center" := Style("6", None, "0"),
    "top-right" := Style("7", None, "10"),
    "middle-left" := Style("8", None, "0"),
    "middle-center" := Style("8", Some("100"), "0"),
    "middle-right" := Style("8", Some("200"), "0"),
    "bottom-left" := Style("1", None, "10"),
    "bottom-center" := Style("2", None, "10"),
    "bottom-right" := Style("3", None, "10"),
    "top" := Style("6", None, "0"),
    "bottom" := Style("2", None, "10"),
    "center" := Style("8", None, "50")
  ]

  /** `parse_pos(pos)`: the style of the lower-cased position, or an error naming it. */
  function ParsePos(pos: string): (r: Result<Style, string>)
    ensures r.Ok? <==> Lower(pos) in PosTable
    ensures r.Ok? ==> r.value == PosTable[Lower(pos)]
    ensures r.Err? ==> r.error == Lower(pos)
  {
    var key := Lower(pos);
    if key in PosTable then Ok(PosTable[key]) else Err(key)
  }

  /** The lookup ignores case: an upper-cased position selects the same style. */
  lemma ParsePosIgnoresCase(pos: string)
    ensures ParsePos(Upper(pos)).Ok? == ParsePos(pos).Ok?
    ensures ParsePos(pos).Ok? ==> ParsePos(Upper(pos)) == ParsePos(pos)
  {
    LowerUpper(pos);
  }

  /** `top` and `bottom` are aliases of `top-center` and `bottom-center`; `center` is not `middle-center`. */
  lemma PosAliases()
    ensures ParsePos("TOP") == ParsePos("top-center")
    ensures ParsePos("Bottom") == ParsePos("bottom-center")
    ensures ParsePos("center") != ParsePos("middle-center")
  {
    assert Lower("TOP") == "top";
    assert Lower("top-center") == "top-center";
    assert Lower("Bottom") == "bottom";
    assert Lower("bottom-center") == "bottom-center";
    assert Lower("center") == "center";
    assert Lower("middle-center") == "middle-center";
  }
}
