/**
 * scale-1280x720.py: re-encodes the `.mp4` files of a source directory into
 * `<destination>/<date>/<name>`, optionally only those of one date. The
 * file system and ffmpeg are oracles: `mp4s` is what globbing `*.mp4` in the
 * source gives, `pathExists` answers whether an output path exists. The thread
 * pool that runs `process_file` on every file is not part of this model;
 * each file is handled on its own.
 */
module Scale {
  import opened Wrappers
  import opened Text
  import opened Order
  import opened Dates

  /**
   * The `extract_date` of this script is `Dates.LeadingDate` on the file
   * name: eight leading digits, with no `VID_` allowance, so a name that
   * camera.py dates is skipped here.
   */
  lemma NoVidPrefix(d: string)
    requires IsDateText(d)
    ensures LeadingDate("VID_" + d) == None
    ensures DateOfBase("VID_" + d) == Some(d)
  {
    assert ("VID_" + d)[0] == 'V';
    assert ("VID_" + d)[4..] == d;
    assert ("VID_" + d)[4..][..8] == d;
  }

  /** The logging options: silent in quiet mode, otherwise errors and progress on standard output. */
  function LogLevelArgs(quiet: bool): (r: seq<string>)
    ensures |r| >= 2 && r[0] == "-loglevel"
    ensures r[1] == "quiet" <==> quiet
    ensures ("-progress" in r) <==> !quiet
  {
    if quiet then ["-loglevel", "quiet"] else ["-loglevel", "error", "-progress", "pipe:1"]
  }

  /** The fixed encoding options, from the input path to the forced overwrite of the output. */
  function EncodeArgs(input: string, output: string): seq<string>
  {
    ["ffmpeg", "-i", input,
     "-c:v", "libvpx-vp9", "-b:v", "4000k",
     "-vf", "scale=720:1280,transpose=1",
     "-c:a", "aac", "-b:a", "152k", "-ar", "44100", "-r", "30",
     "-f", "mp4", output, "-y"]
  }

  /** The ffmpeg command for one file. */
  function FfmpegCommand(input: string, output: string, quiet: bool): (cmd: seq<string>)
    ensures |cmd| == 21 + |LogLevelArgs(quiet)|
    ensures cmd[0] == "ffmpeg" && cmd[2] == input && cmd[19] == output && cmd[20] == "-y"
    ensures cmd[21..] == LogLevelArgs(quiet)
  {
    EncodeArgs(input, output) + LogLevelArgs(quiet)
  }

  /**
   * What `process_file` does with one file: nothing at all when its name has
   * no date; otherwise it creates `<dst>/<date>` and then either skips an
   * existing output or converts into it.
   */
  datatype FileAction =
    | NoDate(name: string)
    | OutputExists(outputDir: string, output: string)
    | Convert(outputDir: string, output: string, cmd: seq<string>)

  /** `process_file(file, dst, quiet_mode)`. */
  function ProcessFile(file: string, dst: string, quiet: bool, pathExists: string -> bool): (r: FileAction)
    ensures r.NoDate? <==> LeadingDate(Basename(file)).None?
    ensures !r.NoDate? ==> r.outputDir == Join(dst, LeadingDate(Basename(file)).value)
    ensures !r.NoDate? ==> r.output == Join(r.outputDir, Basename(file))
    ensures !r.NoDate? ==> (r.OutputExists? <==> pathExists(r.output))
    ensures r.Convert? ==> r.cmd == FfmpegCommand(file, r.output, quiet)
  {
    var name := Basename(file);
    var date := LeadingDate(name);
    if date.None? then NoDate(name)
    else
      var outputDir := Join(dst, date.value);
      var output := Join(outputDir, name);
      if pathExists(output) then OutputExists(outputDir, output)
      else Convert(outputDir, output, FfmpegCommand(file, output, quiet))
  }

  /**
   * The output of a dated file sits directly in the date directory under
   * the destination and keeps the file's own name.
   */
  lemma ProcessFileOutput(file: string, dst: string, quiet: bool, pathExists: string -> bool)
    requires LeadingDate(Basename(file)).Some?
    ensures var r, name := ProcessFile(file, dst, quiet, pathExists), Basename(file);
      && r.output == Join(dst, LeadingDate(name).value) + "/" + name
      && Basename(r.output) == name
  {
    var name := Basename(file);
    var date := LeadingDate(name).value;
    var dir := Join(dst, date);
    assert dir[|dir| - 1] == date[7];
    assert name[0] == date[0];
    JoinUnder(dir, name);
  }

  /** A name without `/` joined under a directory not ending in `/` is its own base name. */
  lemma JoinUnder(dir: string, name: string)
    requires dir != [] && dir[|dir| - 1] != '/'
    requires name != [] && '/' !in name
    ensures Join(dir, name) == dir + "/" + name
    ensures Basename(dir + "/" + name) == name
  {
    assert !StartsWith(name, "/") by {
      assert name[0] in name;
    }
    LastIndexOfAt(dir, "/" + name, '/');
    assert dir + "/" + name == dir + ("/" + name);
    assert (dir + "/" + name)[|dir| + 1..] == name;
  }

  // ---------------------------------------------------------------------------
  // main
  // ---------------------------------------------------------------------------

  /** `[f for f in mp4_files if extract_date(f.name) == date]`. */
  function WithDate(files: seq<string>, date: string): (r: seq<string>)
    ensures |r| <= |files|
  {
    if files == [] then []
    else
      var f := files[|files| - 1];
      WithDate(files[..|files| - 1], date) + (if LeadingDate(Basename(f)) == Some(date) then [f] else [])
  }

  /** The filter keeps exactly the files named with the date. */
  lemma {:induction false} WithDateMember(files: seq<string>, date: string, g: string)
    ensures g in WithDate(files, date) <==> g in files && LeadingDate(Basename(g)) == Some(date)
  {
    if files != [] {
      var init := files[..|files| - 1];
      WithDateMember(init, date, g);
      assert g in files <==> g in init || g == files[|files| - 1];
    }
  }

  /** The filter keeps the order of the files. */
  lemma {:induction false} WithDateAppend(a: seq<string>, b: seq<string>, date: string)
    ensures WithDate(a + b, date) == WithDate(a, date) + WithDate(b, date)
    decreases |b|
  {
    if b == [] {
      assert a + b == a;
    } else {
      var init, f := b[..|b| - 1], b[|b| - 1];
      assert (a + b)[..|a + b| - 1] == a + init && (a + b)[|a + b| - 1] == f;
      WithDateAppend(a, init, date);

    }
  }

  /** A date argument that is not eight digits (such as `2024-01-01`) selects nothing. */
  lemma WithMalformedDate(files: seq<string>, date: string)
    requires !IsDateText(date)
    ensures WithDate(files, date) == []
  {
    forall f ensures f !in WithDate(files, date) {
      WithDateMember(files, date, f);
      LeadingDateSpec(Basename(f), date);
    }
    NoMembers(WithDate(files, date));
  }

  /** How `main` ends before or instead of the conversions. */
  datatype ScaleRun =
    | NoSourceDir
    | NoMp4Files
    | NoneOnDate(date: string)
    | ProcessAll(files: seq<string>)

  predicate IsGiven(o: Option<string>) { o.Some? && o.value != [] }

  /**
   * `main` up to the thread pool: the source must be a directory holding
   * `.mp4` files; a given date narrows the files to those named with it, and
   * when none is left the run ends.
   */
  function ScaleMain(srcIsDir: bool, mp4s: seq<string>, date: Option<string>): (r: ScaleRun)
    ensures r == NoSourceDir <==> !srcIsDir
    ensures r == NoMp4Files <==> srcIsDir && mp4s == []
    ensures r.NoneOnDate? <==> srcIsDir && mp4s != [] && IsGiven(date) && WithDate(mp4s, date.value) == []
    ensures r.ProcessAll? ==> r.files != []
    ensures r.ProcessAll? ==> forall f :: f in r.files <==> f in mp4s && (IsGiven(date) ==> LeadingDate(Basename(f)) == date)
  {
    if !srcIsDir then NoSourceDir
    else if mp4s == [] then NoMp4Files
    else if IsGiven(date) then
      var kept := WithDate(mp4s, date.value);
      assert forall f :: f in kept <==> f in mp4s && LeadingDate(Basename(f)) == date by {
        forall f ensures f in kept <==> f in mp4s && LeadingDate(Basename(f)) == date {
          WithDateMember(mp4s, date.value, f);
        }
      }
      if kept == [] then NoneOnDate(date.value) else ProcessAll(kept)
    else ProcessAll(mp4s)
  }

  /** The exit status: 1 for the validation errors, 0 otherwise. */
  function ExitStatus(r: ScaleRun): (status: int)
    ensures status == 1 <==> r.NoSourceDir? || r.NoMp4Files?
    ensures status == 0 <==> !(r.NoSourceDir? || r.NoMp4Files?)
  {
    if r.NoSourceDir? || r.NoMp4Files? then 1 else 0
  }

  /** `main` exits with 0 exactly when the source is a directory holding `.mp4` files, matched on the date or not. */
  lemma ScaleExit(srcIsDir: bool, mp4s: seq<string>, date: Option<string>)
    ensures ExitStatus(ScaleMain(srcIsDir, mp4s, date)) == 0 <==> srcIsDir && mp4s != []
  {
  }
}
