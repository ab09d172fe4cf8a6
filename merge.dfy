/**
 * merge.py: statistics over `Camera/` (`-l`, `-d`) and the concatenation of
 * videos chosen by prefix (`-p`) or by name (`-m`). The file system is
 * reached through oracles: `glob` for `glob.glob`, `isFile` for
 * `os.path.isfile`, `abspath` for `os.path.abspath`; `today` stands for the
 * `TODAY` stamp taken from the clock. `find_files` is the same function as
 * in camera.py and is shared with it (`CameraFiles.FindFiles`).
 */
module Merge {
  import opened Wrappers
  import opened Text
  import opened Order
  import opened Dates
  import opened CameraFiles
  import opened ConcatList
  import CameraStats

  /** Extensions of `-t p`: photos only, unlike `-d` of camera.py. */
  const PhotoExts: seq<string> := ["heic", "HEIC", "jpg", "JPG", "jpeg", "JPEG"]

  datatype FileType = Movies | Photos

  /** `-t m` looks at `.mp4` files, `-t p` at photos. */
  function TypeExts(t: FileType): seq<string> { if t == Movies then VideoExts else PhotoExts }

  // ---------------------------------------------------------------------------
  // show_last
  // ---------------------------------------------------------------------------

  /** What `show_last` prints: nothing dated, or the latest date and the files naming it. */
  datatype LastSummary = NoDates | Latest(date: string, matched: seq<string>)

  /**
   * `show_last(files)`: the greatest extracted date, and every file whose
   * base name contains it, in input order (no sort, unlike camera.py).
   */
  function ShowLast(files: seq<string>): (r: LastSummary)
    ensures r.NoDates? <==> DateSet(files) == {}
    ensures r.Latest? ==> r.date in DateSet(files) && forall d :: d in DateSet(files) ==> LessEq(d, r.date)
    ensures r.Latest? ==> forall f :: f in r.matched <==> f in files && Contains(Basename(f), r.date)
    ensures r.Latest? ==> r.matched == Containing(files, r.date)
    ensures r.Latest? ==> r.matched != []
  {
    var d := LatestDate(files);
    if d.None? then NoDates
    else
      assert Containing(files, d.value) != [] by {
        var k := DateSetWitness(files, d.value);
        DateOfBaseOccurs(Basename(files[k]));
        assert files[k] in Containing(files, d.value);
      }
      Latest(d.value, Containing(files, d.value))
  }

  // ---------------------------------------------------------------------------
  // show_date
  // ---------------------------------------------------------------------------

  /**
   * `show_date(files)`: each extracted date once, ascending, with the
   * number of files whose base name contains it as a substring.
   */
  function ShowDate(files: seq<string>): (r: seq<CameraStats.DateCount>)
    ensures |r| == |DateSet(files)|
    ensures forall k :: 0 <= k < |r| ==> r[k].date in DateSet(files) && r[k].count == |Containing(files, r[k].date)|
    ensures forall i, j :: 0 <= i < j < |r| ==> Less(r[i].date, r[j].date)
  {
    SubstringCounts(files, SortedSet(DateSet(files)))
  }

  /** Each date of `ds` with its substring count, in the order of `ds`. */
  function SubstringCounts(files: seq<string>, ds: seq<string>): (r: seq<CameraStats.DateCount>)
    ensures |r| == |ds| && forall k :: 0 <= k < |ds| ==> r[k] == CameraStats.DateCount(ds[k], |Containing(files, ds[k])|)
  {
    seq(|ds|, i requires 0 <= i < |ds| => CameraStats.DateCount(ds[i], |Containing(files, ds[i])|))
  }

  /** Every extracted date is listed. */
  lemma ShowDateDates(files: seq<string>, d: string)
    ensures d in DateSet(files) <==> exists k :: 0 <= k < |ShowDate(files)| && ShowDate(files)[k].date == d
  {
    var dates := DateSet(files);
    var r, ds := ShowDate(files), SortedSet(dates);
    assert r == SubstringCounts(files, ds);
    if d in dates {
      var k :| 0 <= k < |ds| && ds[k] == d;
      assert r[k].date == d;
    } else {
      forall k | 0 <= k < |r| ensures r[k].date != d {
        assert r[k].date in dates;
      }
    }
  }

  /**
   * A substring count is never below the number of files carrying the date,
   * so no listed count is zero; it can be larger, since a name may contain
   * a date without starting with it.
   */
  lemma ShowDateCounts(files: seq<string>)
    ensures forall k :: 0 <= k < |ShowDate(files)| ==>
      ShowDate(files)[k].count >= CountDated(files, ShowDate(files)[k].date) > 0
  {
    var r := ShowDate(files);
    forall k | 0 <= k < |r| ensures r[k].count >= CountDated(files, r[k].date) > 0 {
      CountDatedAtMostContaining(files, r[k].date);
      CountDatedPositive(files, r[k].date);
    }
  }

  /** `-l` / `-d`: the files of the chosen type, then the report; an empty search reports nothing. */
  datatype Stats = NoFiles | LastStats(last: LastSummary) | DateStats(counts: seq<CameraStats.DateCount>)

  /** The report of the statistics branch of `main`: `-l` when `last`, `-d` otherwise. */
  function StatsReport(last: bool, t: FileType, glob: string -> seq<string>): (r: Stats)
    ensures r.NoFiles? <==> Globbed(TypeExts(t), glob) == []
    ensures r.LastStats? ==> last && r.last == ShowLast(Globbed(TypeExts(t), glob))
    ensures r.DateStats? ==> !last && r.counts == ShowDate(Globbed(TypeExts(t), glob))
    ensures !r.NoFiles? ==> (last <==> r.LastStats?)
  {
    var files := Globbed(TypeExts(t), glob);
    if files == [] then NoFiles
    else if last then LastStats(ShowLast(files))
    else DateStats(ShowDate(files))
  }

  /** The statistics branch of `main`. */
  method StatsMode(last: bool, t: FileType, glob: string -> seq<string>) returns (r: Stats)
    ensures r == StatsReport(last, t, glob)
    ensures r.NoFiles? <==> Globbed(TypeExts(t), glob) == []
    ensures r.LastStats? ==> last && r.last == ShowLast(Globbed(TypeExts(t), glob))
    ensures r.DateStats? ==> !last && r.counts == ShowDate(Globbed(TypeExts(t), glob))
    ensures !r.NoFiles? ==> (last <==> r.LastStats?)
  {
    var files := FindFiles(TypeExts(t), glob);
    if files == [] {
      return NoFiles;
    }
    if last {
      r := LastStats(ShowLast(files));
    } else {
      r := DateStats(ShowDate(files));
    }
  }

  // ---------------------------------------------------------------------------
  // build_concat_file
  // ---------------------------------------------------------------------------

  function Absolute(files: seq<string>, abspath: string -> string): seq<string>
  {
    seq(|files|, i requires 0 <= i < |files| => abspath(files[i]))
  }

  /** `build_concat_file(files)`: the list text naming the absolute path of each file, in order. */
  method BuildConcatFile(files: seq<string>, abspath: string -> string) returns (text: string)
    ensures text == ListText(Absolute(files, abspath))
  {
    text := WriteList(Absolute(files, abspath));
  }

  // ---------------------------------------------------------------------------
  // main: choosing the files to merge
  // ---------------------------------------------------------------------------

  /**
   * The options of `main`: `-l`, `-d`, `-t`, `-p`, `-m` and `-i`; a string
   * option counts as given when it is present and not empty.
   */
  datatype MergeArgs = MergeArgs(last: bool, date: bool, fileType: FileType,
                                 prefix: Option<string>, merge: Option<string>, info: Option<string>)

  datatype MergeError = NoCamDir | BothOptions | NoMatch(pattern: string) | Missing(path: string) | NoSource

  /** A merge of `files` into `output`, the `-i` report over the files found, or the `-l` / `-d` statistics. */
  datatype MergeJob = Concat(files: seq<string>, output: string) | Info(found: seq<string>) | Report(stats: Stats)

  predicate IsGiven(o: Option<string>) { o.Some? && o.value != [] }

  /** The glob pattern of `-p PREFIX`. */
  function PrefixPattern(prefix: string): string { Join(CamDir, prefix + "*.mp4") }

  /** The `-m` paths: each name under `Camera/`, stopping at the first that is not a file. */
  function NamedFiles(names: seq<string>, isFile: string -> bool): (r: Result<seq<string>, MergeError>)
    ensures r.Ok? <==> AllFiles(names, isFile)
    ensures r.Ok? ==> r.value == UnderCamDir(names)
    ensures r.Err? ==> r.error.Missing?
  {
    if names == [] then Ok([])
    else
      var init := names[..|names| - 1];
      var p := Join(CamDir, names[|names| - 1]);
      var r := NamedFiles(init, isFile);
      NamedLast(names);
      if r.Err? then r
      else if !isFile(p) then Err(Missing(p))
      else Ok(r.value + [p])
  }

  /** Every name is a file under `Camera/`. */
  predicate AllFiles(names: seq<string>, isFile: string -> bool)
  {
    forall k :: 0 <= k < |names| ==> isFile(Join(CamDir, names[k]))
  }

  /** Each name joined under `Camera/`. */
  function UnderCamDir(names: seq<string>): (r: seq<string>)
    ensures |r| == |names| && forall k :: 0 <= k < |names| ==> r[k] == Join(CamDir, names[k])
  {
    seq(|names|, k requires 0 <= k < |names| => Join(CamDir, names[k]))
  }

  lemma NamedLast(names: seq<string>)
    requires names != []
    ensures var init, p := names[..|names| - 1], Join(CamDir, names[|names| - 1]);
      && UnderCamDir(names) == UnderCamDir(init) + [p]
      && forall isFile: string -> bool :: AllFiles(names, isFile) <==> AllFiles(init, isFile) && isFile(p)
  {
    var init := names[..|names| - 1];
    assert forall k :: 0 <= k < |init| ==> init[k] == names[k];
  }

  /** The abort names the first name that is not a file under `Camera/`. */
  lemma {:induction false} NamedFilesMissing(names: seq<string>, isFile: string -> bool)
    requires NamedFiles(names, isFile).Err?
    ensures exists k :: (0 <= k < |names| && NamedFiles(names, isFile).error == Missing(Join(CamDir, names[k]))
      && !isFile(Join(CamDir, names[k])) && AllFiles(names[..k], isFile))
  {
    var init := names[..|names| - 1];
    var r := NamedFiles(init, isFile);
    if r.Err? {
      NamedFilesMissing(init, isFile);
      var k :| 0 <= k < |init| && r.error == Missing(Join(CamDir, init[k]))
        && !isFile(Join(CamDir, init[k])) && AllFiles(init[..k], isFile);
      assert NamedFiles(names, isFile) == r;
      assert init[k] == names[k] && init[..k] == names[..k];
    } else {
      assert NamedFiles(names, isFile) == Err(Missing(Join(CamDir, names[|names| - 1])));
      assert AllFiles(names[..|names| - 1], isFile);
    }
  }

  /** The `-m` loop: appends `Camera/<name>` for each name, and aborts at the first missing one. */
  method CollectNamed(names: seq<string>, isFile: string -> bool) returns (r: Result<seq<string>, MergeError>)
    ensures r == NamedFiles(names, isFile)
  {
    var files := [];
    for i := 0 to |names|
      invariant NamedFiles(names[..i], isFile) == Ok(files)
    {
      var fpath := Join(CamDir, names[i]);
      NamedFilesStep(names, i, isFile);
      if !isFile(fpath) {
        NamedFilesAbort(names, i + 1, isFile);
        return Err(Missing(fpath));
      }
      files := files + [fpath];
    }
    assert names[..|names|] == names;
    r := Ok(files);
  }

  lemma NamedFilesStep(names: seq<string>, i: nat, isFile: string -> bool)
    requires i < |names|
    ensures var p, r := Join(CamDir, names[i]), NamedFiles(names[..i], isFile);
      NamedFiles(names[..i + 1], isFile) == if r.Err? then r else if !isFile(p) then Err(Missing(p)) else Ok(r.value + [p])
  {
    assert names[..i + 1][..i] == names[..i];
  }

  /** Once a prefix of the names aborts, the whole list aborts with the same error. */
  lemma {:induction false} NamedFilesAbort(names: seq<string>, i: nat, isFile: string -> bool)
    requires i <= |names| && NamedFiles(names[..i], isFile).Err?
    ensures NamedFiles(names, isFile) == NamedFiles(names[..i], isFile)
    decreases |names|
  {
    if i < |names| {
      var init := names[..|names| - 1];
      assert init[..i] == names[..i];
      NamedFilesAbort(init, i, isFile);
    } else {
      assert names[..i] == names;
    }
  }

  /** The `-i` loop: the paths under `Camera/` that are files, in order; the others are skipped. */
  function InfoFiles(names: seq<string>, isFile: string -> bool): (r: seq<string>)
    ensures |r| <= |names|
    ensures forall p :: p in r <==> isFile(p) && exists k :: 0 <= k < |names| && p == Join(CamDir, names[k])
  {
    if names == [] then []
    else
      var init := names[..|names| - 1];
      var p := Join(CamDir, names[|names| - 1]);
      assert forall k :: 0 <= k < |init| ==> init[k] == names[k];
      InfoFiles(init, isFile) + (if isFile(p) then [p] else [])
  }

  /**
   * The `-i` loop goes through the names in order and keeps repeats: the
   * files of two name lists, one after the other, are the files of the
   * joined list.
   */
  lemma {:induction false} InfoFilesAppend(a: seq<string>, b: seq<string>, isFile: string -> bool)
    ensures InfoFiles(a + b, isFile) == InfoFiles(a, isFile) + InfoFiles(b, isFile)
    decreases |b|
  {
    if b == [] {
      assert a + b == a;
    } else {
      var init := b[..|b| - 1];
      assert (a + b)[..|a + b| - 1] == a + init;
      assert (a + b)[|a + b| - 1] == b[|b| - 1];
      InfoFilesAppend(a, init, isFile);
    }
  }

  /**
   * `main`: `Camera/` must exist; `-l` or `-d` reports the statistics and ends
   * the run before any merge option is looked at; `-p` and `-m` exclude
   * each other; `-p` merges the sorted matches of `Camera/PREFIX*.mp4` into
   * `PREFIX-merged.mp4`; `-m` merges the named files in the given order into
   * `TODAY-merged.mp4`; `-i` reports; without any of them the run fails.
   */
  function MergeMain(args: MergeArgs, camDir: bool, today: string, glob: string -> seq<string>, isFile: string -> bool)
    : (r: Result<MergeJob, MergeError>)
    ensures !camDir ==> r == Err(NoCamDir)
    ensures camDir && (args.last || args.date) ==> r == Ok(Report(StatsReport(args.last, args.fileType, glob)))
    ensures r.Ok? && r.value.Report? <==> camDir && (args.last || args.date)
    ensures camDir && !args.last && !args.date && IsGiven(args.prefix) && IsGiven(args.merge) ==> r == Err(BothOptions)
    ensures camDir && !args.last && !args.date && IsGiven(args.prefix) && !IsGiven(args.merge) ==>
      && (r.Ok? <==> glob(PrefixPattern(args.prefix.value)) != [])
      && (r.Err? ==> r.error == NoMatch(PrefixPattern(args.prefix.value)))
      && (r.Ok? ==> r.value.Concat? && r.value.output == args.prefix.value + "-merged.mp4"
                    && SortedBy(r.value.files, Id) && multiset(r.value.files) == multiset(glob(PrefixPattern(args.prefix.value))))
    ensures camDir && !args.last && !args.date && !IsGiven(args.prefix) && IsGiven(args.merge) ==>
      && (r.Ok? <==> NamedFiles(Words(args.merge.value), isFile).Ok?)
      && (r.Ok? ==> r.value == Concat(NamedFiles(Words(args.merge.value), isFile).value, today + "-merged.mp4"))
    ensures camDir && !args.last && !args.date && !IsGiven(args.prefix) && !IsGiven(args.merge) ==>
      (IsGiven(args.info) <==> r.Ok?) && (r.Ok? ==> r.value.Info?) && (r.Err? ==> r.error == NoSource)
  {
    if !camDir then Err(NoCamDir)
    else if args.last || args.date then Ok(Report(StatsReport(args.last, args.fileType, glob)))
    else if IsGiven(args.prefix) && IsGiven(args.merge) then Err(BothOptions)
    else if IsGiven(args.prefix) then
      var pattern := PrefixPattern(args.prefix.value);
      var files := SortBy(glob(pattern), Id);
      if files == [] then Err(NoMatch(pattern)) else Ok(Concat(files, args.prefix.value + "-merged.mp4"))
    else if IsGiven(args.merge) then
      var named := NamedFiles(Words(args.merge.value), isFile);
      if named.Err? then Err(named.error) else Ok(Concat(named.value, today + "-merged.mp4"))
    else if IsGiven(args.info) then Ok(Info(InfoFiles(Words(args.info.value), isFile)))
    else Err(NoSource)
  }

  /**
   * Every path `-m` merges is a file: the name under `Camera/`, or the name
   * itself when it is absolute, since `os.path.join` then drops `Camera`.
   */
  lemma NamedMergeFiles(args: MergeArgs, today: string, glob: string -> seq<string>, isFile: string -> bool)
    requires !args.last && !args.date && !IsGiven(args.prefix) && IsGiven(args.merge)
    requires MergeMain(args, true, today, glob, isFile).Ok?
    ensures var job := MergeMain(args, true, today, glob, isFile).value;
      job.Concat? && |job.files| == |Words(args.merge.value)|
      && forall k :: 0 <= k < |job.files| ==> (isFile(job.files[k]) &&
        if StartsWith(Words(args.merge.value)[k], "/") then job.files[k] == Words(args.merge.value)[k]
        else StartsWith(job.files[k], CamDir + "/"))
  {
  }
}
