/**
 * merge-shrink-180.py: concatenates the videos of one date prefix in a
 * directory, then speeds the result up when it runs longer than the target
 * duration. The directory listing, ffmpeg's outcomes and the probed
 * durations are inputs; a duration is a `real`, standing for the float the
 * probe returns.
 */
module MergeShrink {
  import opened Wrappers
  import opened Text
  import opened Order
  import opened Lines
  import opened ConcatList

  /** The name `main` merges into before compressing. */
  const TempOutput := "temp_merged_video.mp4"

  /** The default `target_duration` of `compress_video_duration`, in seconds. */
  const TargetDuration: real := 180.0

  /** A video of the prefix: its name starts with it and, ignoring case, ends in `.mp4`, `.avi` or `.mkv`. */
  predicate IsVideoName(f: string, prefix: string)
  {
    StartsWith(f, prefix) && (EndsWith(Lower(f), ".mp4") || EndsWith(Lower(f), ".avi") || EndsWith(Lower(f), ".mkv"))
  }

  /** The comprehension over `os.listdir`: the videos of the prefix, in listing order. */
  function Matching(listing: seq<string>, prefix: string): (r: seq<string>)
    ensures |r| <= |listing|
    ensures forall f :: f in r <==> f in listing && IsVideoName(f, prefix)
  {
    if listing == [] then []
    else
      var init := listing[..|listing| - 1];
      var f := listing[|listing| - 1];
      assert forall g :: g in listing <==> g in init || g == f;
      Matching(init, prefix) + (if IsVideoName(f, prefix) then [f] else [])
  }

  /** `sorted(videos)`: the matching names in ascending order. */
  function SelectedNames(listing: seq<string>, prefix: string): (r: seq<string>)
    ensures SortedBy(r, Id)
    ensures multiset(r) == multiset(Matching(listing, prefix))
    ensures forall f :: f in r <==> f in listing && IsVideoName(f, prefix)
  {
    var r := SortBy(Matching(listing, prefix), Id);
    assert forall f :: f in r <==> f in multiset(Matching(listing, prefix));
    r
  }

  /** Each selected name joined under the input directory. */
  function InDir(inputDir: string, names: seq<string>): (r: seq<string>)
    ensures |r| == |names|
    ensures forall i :: 0 <= i < |names| ==> EndsWith(r[i], names[i])
  {
    seq(|names|, i requires 0 <= i < |names| => Join(inputDir, names[i]))
  }

  /** What `merge_videos` does: nothing without a match; otherwise it writes the list and runs the concat. */
  datatype MergeRun = NoVideos | Merged(videos: seq<string>, listText: string, ok: bool)

  /**
   * `merge_videos(input_dir, date_prefix, output_file)`: the sorted videos of
   * the prefix, each under the directory, written to the list file; the
   * result is true only when there was something to merge and ffmpeg
   * succeeded.
   */
  function MergeVideos(inputDir: string, prefix: string, listing: seq<string>, ffmpegOk: bool): (r: MergeRun)
    ensures r.NoVideos? <==> forall f :: f in listing ==> !IsVideoName(f, prefix)
    ensures r.Merged? ==> r.ok == ffmpegOk && |r.videos| == |Matching(listing, prefix)|
    ensures r.Merged? ==> r.videos == InDir(inputDir, SelectedNames(listing, prefix)) && r.listText == ListText(r.videos)
  {
    var names := SelectedNames(listing, prefix);
    if names == [] then
      NoMembers(names);
      NoVideos
    else
      assert |names| == |multiset(names)| == |multiset(Matching(listing, prefix))| == |Matching(listing, prefix)|;
      var videos := InDir(inputDir, names);
      assert names[0] in names;
      Merged(videos, ListText(videos), ffmpegOk)
  }

  /** `create_file_list` writes the list that names the videos in order, one line each. */
  lemma MergeListNamesVideos(inputDir: string, prefix: string, listing: seq<string>, ffmpegOk: bool)
    requires MergeVideos(inputDir, prefix, listing, ffmpegOk).Merged?
    requires forall f :: f in listing ==> NoBreak(Join(inputDir, f)) && '\'' !in Join(inputDir, f)
    ensures var r := MergeVideos(inputDir, prefix, listing, ffmpegOk);
      ReadList(r.listText) == Some(r.videos) && |SplitLines(r.listText)| == |r.videos|
  {
    var r := MergeVideos(inputDir, prefix, listing, ffmpegOk);
    var names := SelectedNames(listing, prefix);
    forall i | 0 <= i < |r.videos| ensures NoBreak(r.videos[i]) && '\'' !in r.videos[i] {
      assert names[i] in names;
    }
    ListRoundTrip(r.videos);
  }

  // ---------------------------------------------------------------------------
  // compress_video_duration
  // ---------------------------------------------------------------------------

  /** `get_video_duration`: the probed duration, or 0 when probing fails. */
  function Duration(probed: Option<real>): real
  {
    if probed.None? then 0.0 else probed.value
  }

  /** Whether `compress_video_duration` runs ffmpeg at all. */
  predicate Compresses(probed: Option<real>, target: real) { Duration(probed) > target }

  /**
   * `compress_video_duration(input_file, output_file, target_duration)`: the
   * input when it is short enough or when ffmpeg fails, the output only after
   * a successful compression.
   */
  function CompressDuration(input: string, output: string, probed: Option<real>, target: real, ffmpegOk: bool): (r: string)
    ensures r == input || r == output
    ensures !Compresses(probed, target) ==> r == input
    ensures Compresses(probed, target) && !ffmpegOk ==> r == input
    ensures Compresses(probed, target) && ffmpegOk ==> r == output
  {
    if Duration(probed) <= target then input
    else if ffmpegOk then output
    else input
  }

  /** A video that cannot be probed counts as 0 seconds and is returned as it is. */
  lemma UnprobedKept(input: string, output: string, target: real, ffmpegOk: bool)
    requires target >= 0.0
    ensures CompressDuration(input, output, None, target, ffmpegOk) == input
  {
  }

  // ---------------------------------------------------------------------------
  // main
  // ---------------------------------------------------------------------------

  /** How `main` ends: without the input directory, without a merge, or with the final file and whether the temporary one is removed. */
  datatype ShrinkRun = NoInputDir | NotMerged | Finished(final: string, removeTemp: bool)

  /**
   * `main`: merges into the temporary file, compresses it into the output
   * file, and removes the temporary file when the final result is another
   * file and the temporary one still exists.
   */
  function ShrinkMain(inputIsDir: bool, inputDir: string, prefix: string, outputFile: string, listing: seq<string>,
                      mergeOk: bool, probed: Option<real>, compressOk: bool, tempExists: bool): (r: ShrinkRun)
    ensures !inputIsDir ==> r == NoInputDir
    ensures inputIsDir ==> (r.Finished? <==> MergeVideos(inputDir, prefix, listing, mergeOk).Merged? && mergeOk)
    ensures r.Finished? ==> r.final == CompressDuration(TempOutput, outputFile, probed, TargetDuration, compressOk)
    ensures r.Finished? ==> (r.removeTemp <==> r.final != TempOutput && tempExists)
  {
    if !inputIsDir then NoInputDir
    else
      var merged := MergeVideos(inputDir, prefix, listing, mergeOk);
      if merged.NoVideos? || !merged.ok then NotMerged
      else
        var final := CompressDuration(TempOutput, outputFile, probed, TargetDuration, compressOk);
        Finished(final, final != TempOutput && tempExists)
  }

  /**
   * The temporary file is removed only after a successful compression into
   * a different output file, so the file `main` ends with is never the one
   * removed; when the video needed no compression, the temporary file is
   * the result and stays.
   */
  lemma CleanupKeepsResult(inputDir: string, prefix: string, outputFile: string, listing: seq<string>,
                           mergeOk: bool, probed: Option<real>, compressOk: bool, tempExists: bool)
    requires ShrinkMain(true, inputDir, prefix, outputFile, listing, mergeOk, probed, compressOk, tempExists).Finished?
    ensures var r := ShrinkMain(true, inputDir, prefix, outputFile, listing, mergeOk, probed, compressOk, tempExists);
      && (r.removeTemp ==> r.final == outputFile && outputFile != TempOutput && Compresses(probed, TargetDuration) && compressOk)
      && (!Compresses(probed, TargetDuration) ==> r.final == TempOutput && !r.removeTemp)
  {
  }
}
