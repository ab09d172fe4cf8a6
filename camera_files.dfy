/**
 * Finding files in camera.py: the fixed-directory scan behind the
 * statistics modes (`find_files`) and the pattern resolution behind every
 * processing mode (`resolve_files`). The file system is reached through two
 * oracles: `glob` gives what `glob.glob` returns for a pattern, `isFile`
 * what `os.path.isfile` answers for a path.
 */
module CameraFiles {
  import opened Text
  import opened Order

  const CamDir := "Camera"

  /** Extensions `-l` looks at: videos only. */
  const VideoExts: seq<string> := ["mp4"]

  /** Extensions `-d` counts: videos and photos. */
  const MediaExts: seq<string> := ["mp4", "heic", "HEIC", "jpg", "JPG", "jpeg", "JPEG"]

  /** The pattern `find_files` globs for one extension. */
  function ExtPattern(ext: string): string { Join(CamDir, "*." + ext) }

  /** The matches of every extension's pattern, one extension after the other. */
  function Globbed(exts: seq<string>, glob: string -> seq<string>): seq<string>
  {
    if exts == [] then [] else Globbed(exts[..|exts| - 1], glob) + glob(ExtPattern(exts[|exts| - 1]))
  }

  /** `find_files(exts)`: extends the result list with each extension's matches. */
  method FindFiles(exts: seq<string>, glob: string -> seq<string>) returns (files: seq<string>)
    ensures files == Globbed(exts, glob)
  {
    files := [];
    for i := 0 to |exts|
      invariant files == Globbed(exts[..i], glob)
    {
      assert exts[..i + 1][..i] == exts[..i];
      files := files + glob(ExtPattern(exts[i]));
    }
    assert exts[..|exts|] == exts;
  }

  /** A name is found exactly when some extension's pattern matched it. */
  lemma {:induction false} GlobbedMember(exts: seq<string>, glob: string -> seq<string>, f: string)
    ensures f in Globbed(exts, glob) <==> exists i :: 0 <= i < |exts| && f in glob(ExtPattern(exts[i]))
  {
    if exts != [] {
      var init := exts[..|exts| - 1];
      GlobbedMember(init, glob, f);
      if f in Globbed(exts, glob) && f !in Globbed(init, glob) {
        assert f in glob(ExtPattern(exts[|exts| - 1]));
      }
      if exists i :: 0 <= i < |exts| && f in glob(ExtPattern(exts[i])) {
        var i :| 0 <= i < |exts| && f in glob(ExtPattern(exts[i]));
        if i < |exts| - 1 {
          assert exts[i] == init[i];
        }
      }
    }
  }

  // ---------------------------------------------------------------------------
  // resolve_files
  // ---------------------------------------------------------------------------

  /** `os.path.isabs` on POSIX. */
  predicate IsAbs(p: string) { StartsWith(p, "/") }

  /** The pattern actually globbed: `.mp4` is added to a pattern without extension when videos are required. */
  function SearchPattern(p: string, requireMp4: bool): string
  {
    if requireMp4 && Ext(p) == [] && p != "." && p != CamDir then p + ".mp4" else p
  }

  /** `.mp4` is appended exactly in the required-video case for an extensionless pattern other than `.` and `Camera`; otherwise the pattern is kept. */
  lemma SearchPatternCases(p: string, requireMp4: bool)
    ensures SearchPattern(p, requireMp4) == p || SearchPattern(p, requireMp4) == p + ".mp4"
    ensures SearchPattern(p, requireMp4) == p + ".mp4" <==> requireMp4 && Ext(p) == [] && p != "." && p != CamDir
  {
    assert |p + ".mp4"| != |p|;
  }

  /** The hits of one glob that are regular files. */
  function FilesIn(hits: seq<string>, isFile: string -> bool): set<string>
  {
    set x | x in hits && isFile(x)
  }

  /**
   * What one searched pattern contributes: an absolute pattern is the file
   * itself if it is one (the directory loop stops at once); otherwise the
   * file hits of the pattern under `.` and under `Camera`.
   */
  function FoundFor(q: string, glob: string -> seq<string>, isFile: string -> bool): set<string>
  {
    if IsAbs(q) then (if isFile(q) then {q} else {})
    else FilesIn(glob(Join(".", q)), isFile) + FilesIn(glob(Join(CamDir, q)), isFile)
  }

  /** The set `resolve_files` accumulates over all patterns. */
  function Resolved(patterns: seq<string>, requireMp4: bool, glob: string -> seq<string>, isFile: string -> bool): set<string>
  {
    if patterns == [] then {}
    else Resolved(patterns[..|patterns| - 1], requireMp4, glob, isFile)
         + FoundFor(SearchPattern(patterns[|patterns| - 1], requireMp4), glob, isFile)
  }

  /** The inner loop of `resolve_files`: adds each hit of one glob that is a file. */
  method AddFiles(found: set<string>, hits: seq<string>, isFile: string -> bool) returns (r: set<string>)
    ensures r == found + FilesIn(hits, isFile)
  {
    r := found;
    for k := 0 to |hits|
      invariant r == found + FilesIn(hits[..k], isFile)
    {
      assert hits[..k + 1] == hits[..k] + [hits[k]];
      if isFile(hits[k]) {
        r := r + {hits[k]};
      }
    }
    assert hits[..|hits|] == hits;
  }

  /**
   * The directory loop of `resolve_files` for one searched pattern: an
   * absolute pattern is checked once and ends the loop, any other is globbed
   * under `.` and then under `Camera`.
   */
  method SearchDirs(found: set<string>, q: string, glob: string -> seq<string>, isFile: string -> bool) returns (r: set<string>)
    ensures r == found + FoundFor(q, glob, isFile)
  {
    r := found;
    var dirs := [".", CamDir];
    var j := 0;
    while j < |dirs|
      invariant 0 <= j <= |dirs|
      invariant IsAbs(q) ==> j == 0 && r == found
      invariant !IsAbs(q) && j == 0 ==> r == found
      invariant !IsAbs(q) && j == 1 ==> r == found + FilesIn(glob(Join(".", q)), isFile)
      invariant !IsAbs(q) && j == 2 ==> r == found + FoundFor(q, glob, isFile)
    {
      if IsAbs(q) {
        if isFile(q) {
          r := r + {q};
        }
        break;
      }
      var hits := glob(Join(dirs[j], q));
      assert j == 1 ==> r + FilesIn(hits, isFile) == found + FoundFor(q, glob, isFile);
      r := AddFiles(r, hits, isFile);
      j := j + 1;
    }
  }

  /** `resolve_files(patterns, require_mp4)`: every file found, each once, in ascending order. */
  method ResolveFiles(patterns: seq<string>, requireMp4: bool, glob: string -> seq<string>, isFile: string -> bool)
    returns (files: seq<string>)
    ensures files == SortedSet(Resolved(patterns, requireMp4, glob, isFile))
  {
    var found: set<string> := {};
    for i := 0 to |patterns|
      invariant found == Resolved(patterns[..i], requireMp4, glob, isFile)
    {
      assert patterns[..i + 1][..i] == patterns[..i];
      var q := SearchPattern(patterns[i], requireMp4);
      found := SearchDirs(found, q, glob, isFile);
    }
    assert patterns[..|patterns|] == patterns;
    files := SortedSet(found);
  }

  /** A path is resolved exactly when it is a file that some pattern's search found. */
  lemma {:induction false} ResolvedMember(patterns: seq<string>, requireMp4: bool, glob: string -> seq<string>, isFile: string -> bool, f: string)
    ensures f in Resolved(patterns, requireMp4, glob, isFile) <==>
      exists i :: 0 <= i < |patterns| && f in FoundFor(SearchPattern(patterns[i], requireMp4), glob, isFile)
  {
    if patterns != [] {
      var init := patterns[..|patterns| - 1];
      ResolvedMember(init, requireMp4, glob, isFile, f);
      if exists i :: 0 <= i < |patterns| && f in FoundFor(SearchPattern(patterns[i], requireMp4), glob, isFile) {
        var i :| 0 <= i < |patterns| && f in FoundFor(SearchPattern(patterns[i], requireMp4), glob, isFile);
        if i < |patterns| - 1 {
          assert patterns[i] == init[i];
        }
      }
    }
  }

  /** Everything resolved is a file: `isFile` held for it when it was added. */
  lemma {:induction false} ResolvedAreFiles(patterns: seq<string>, requireMp4: bool, glob: string -> seq<string>, isFile: string -> bool, f: string)
    requires f in Resolved(patterns, requireMp4, glob, isFile)
    ensures isFile(f)
  {
    var init := patterns[..|patterns| - 1];
    if f in Resolved(init, requireMp4, glob, isFile) {
      ResolvedAreFiles(init, requireMp4, glob, isFile, f);
    }
  }

  /**
   * No path string is listed twice: a path matched by several patterns is
   * listed once. `./x.mp4` and `Camera/x.mp4` are different paths and are
   * both listed, even when they name the same file.
   */
  lemma ResolvedNoRepeats(files: seq<string>, patterns: seq<string>, requireMp4: bool, glob: string -> seq<string>, isFile: string -> bool)
    requires files == SortedSet(Resolved(patterns, requireMp4, glob, isFile))
    ensures forall i, j :: 0 <= i < j < |files| ==> files[i] != files[j]
  {
    forall i, j | 0 <= i < j < |files| ensures files[i] != files[j] {
      assert Less(files[i], files[j]);
      LessIrreflexive(files[i]);
    }
  }
}
