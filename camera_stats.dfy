/**
 * The statistics modes of camera.py: `-l [DATE]` lists the videos of one
 * day sorted by base name (`show_last`), `-d` tallies every video and photo
 * of `Camera/` per date (`show_date`). Durations that `-l` prints next to
 * each file come from `ffprobe` and are not part of this model.
 */
module CameraStats {
  import opened Wrappers
  import opened Text
  import opened Order
  import opened Dates
  import opened CameraFiles

  // ---------------------------------------------------------------------------
  // show_last
  // ---------------------------------------------------------------------------

  /** What `show_last` reports: no dated file at all, no file of the chosen day, or that day's files. */
  datatype LastReport =
    | NoDatedFiles
    | NothingOn(date: string)
    | Listing(date: string, files: seq<string>)

  /** A target date that Python finds truthy: given and not empty. */
  predicate IsGiven(target: Option<string>) { target.Some? && target.value != [] }

  /**
   * `show_last(files, target_date)`: the given day, or else the latest date
   * of any file; then every file whose base name contains that day, sorted by
   * base name.
   */
  function ShowLast(files: seq<string>, target: Option<string>): (r: LastReport)
    ensures r.NoDatedFiles? <==> !IsGiven(target) && DateSet(files) == {}
    ensures IsGiven(target) && !r.NoDatedFiles? ==> r.date == target.value
    ensures !IsGiven(target) && !r.NoDatedFiles? ==> Some(r.date) == LatestDate(files)
    ensures r.NothingOn? ==> Containing(files, r.date) == []
    ensures r.Listing? ==> SortedBy(r.files, Basename) && multiset(r.files) == multiset(Containing(files, r.date))
    ensures r.Listing? ==> r.files != [] && forall f :: f in r.files ==> f in files && Contains(Basename(f), r.date)
  {
    var date := if IsGiven(target) then Some(target.value) else LatestDate(files);
    if date.None? then NoDatedFiles
    else
      var matched := Containing(files, date.value);
      if matched == [] then NothingOn(date.value)
      else
        var sorted := SortBy(matched, Basename);
        assert forall f :: f in sorted ==> f in matched by {
          forall f | f in sorted ensures f in matched {
            assert f in multiset(sorted);
          }
        }
        assert sorted != [] by {
          assert matched[0] in multiset(sorted);
        }
        Listing(date.value, sorted)
  }

  /**
   * Without a target, a dated file always yields a listing: the latest date
   * occurs in the base name of the file it came from, and every file carrying
   * that date is listed.
   */
  lemma ShowLastLatest(files: seq<string>, target: Option<string>)
    requires !IsGiven(target) && DateSet(files) != {}
    ensures ShowLast(files, target).Listing?
    ensures forall f :: f in files && ExtractDate(f) == LatestDate(files) ==> f in ShowLast(files, target).files
  {
    var d := LatestDate(files).value;
    var k := DateSetWitness(files, d);
    DateOfBaseOccurs(Basename(files[k]));
    assert files[k] in Containing(files, d);
    var r := ShowLast(files, target);
    forall f | f in files && ExtractDate(f) == LatestDate(files) ensures f in r.files {
      DateOfBaseOccurs(Basename(f));
      assert f in multiset(Containing(files, d));
    }
  }

  /** `-l` lists the `.mp4` files of `Camera/`. */
  method LastMode(glob: string -> seq<string>, target: Option<string>) returns (r: LastReport)
    ensures r == ShowLast(Globbed(VideoExts, glob), target)
  {
    var files := FindFiles(VideoExts, glob);
    r := ShowLast(files, target);
  }

  // ---------------------------------------------------------------------------
  // show_date
  // ---------------------------------------------------------------------------

  datatype DateCount = DateCount(date: string, count: nat)

  /** One line per date of `ds`, each with the number of files carrying it. */
  function Report(files: seq<string>, ds: seq<string>): (r: seq<DateCount>)
    ensures |r| == |ds|
    ensures forall k :: 0 <= k < |ds| ==> r[k] == DateCount(ds[k], CountDated(files, ds[k]))
  {
    if ds == [] then []
    else Report(files, ds[..|ds| - 1]) + [DateCount(ds[|ds| - 1], CountDated(files, ds[|ds| - 1]))]
  }

  /** What `show_date` prints: every date found, ascending, with its count. */
  function DateReport(files: seq<string>): seq<DateCount>
  {
    Report(files, SortedSet(DateSet(files)))
  }

  function Total(report: seq<DateCount>): nat
  {
    if report == [] then 0 else Total(report[..|report| - 1]) + report[|report| - 1].count
  }

  /** `counts` holds, for each date of `files`, the number of files carrying it, and nothing else. */
  predicate Tallied(counts: map<string, nat>, files: seq<string>)
  {
    counts.Keys == DateSet(files) && forall d :: d in counts ==> counts[d] == CountDated(files, d)
  }

  /** The counting loop of `show_date`: `date_counts[d] = date_counts.get(d, 0) + 1` for each dated file. */
  method CountByDate(files: seq<string>) returns (counts: map<string, nat>)
    ensures counts.Keys == DateSet(files)
    ensures forall d :: d in counts ==> counts[d] == CountDated(files, d)
  {
    counts := map[];
    for i := 0 to |files|
      invariant Tallied(counts, files[..i])
    {
      var d := ExtractDate(files[i]);
      TallyNext(counts, files, i);
      if d.Some? {
        counts := counts[d.value := (if d.value in counts then counts[d.value] else 0) + 1];
      }
    }
    assert files[..|files|] == files;
  }

  /** One more file keeps the tally: its date, if any, is counted once more. */
  lemma TallyNext(counts: map<string, nat>, files: seq<string>, i: nat)
    requires i < |files| && Tallied(counts, files[..i])
    ensures var d := ExtractDate(files[i]);
      Tallied(if d.Some? then counts[d.value := (if d.value in counts then counts[d.value] else 0) + 1] else counts, files[..i + 1])
  {
    TallyStep(files, i);
    var d := ExtractDate(files[i]);
    if d.Some? {
      var n := (if d.value in counts then counts[d.value] else 0) + 1;
      var m := counts[d.value := n];
      CountDatedPositive(files[..i], d.value);
      assert m.Keys == counts.Keys + {d.value};
      forall e | e in m ensures m[e] == CountDated(files[..i + 1], e) {
        if e != d.value {
          assert m[e] == counts[e];
        }
      }
    }
  }

  /** What one more file adds to the dates and the per-date counts. */
  lemma TallyStep(files: seq<string>, i: nat)
    requires i < |files|
    ensures DateSet(files[..i + 1]) == DateSet(files[..i]) + (if ExtractDate(files[i]).Some? then {ExtractDate(files[i]).value} else {})
    ensures forall d :: CountDated(files[..i + 1], d) == CountDated(files[..i], d) + (if ExtractDate(files[i]) == Some(d) then 1 else 0)
  {
    assert files[..i + 1][..i] == files[..i];
  }

  /**
   * `show_date`: counts the dated files of `Camera/` per date in a
   * dictionary, then reports the dates in ascending order. The `files`
   * argument of the source is ignored by it; the files are always those
   * `find_files` gives for the video and photo extensions.
   */
  method ShowDate(glob: string -> seq<string>) returns (report: seq<DateCount>)
    ensures report == DateReport(Globbed(MediaExts, glob))
  {
    var files := FindFiles(MediaExts, glob);
    var counts := CountByDate(files);
    report := [];
    if counts == map[] {
      return;
    }
    report := ReportLines(files, counts, SortedSet(counts.Keys));
  }

  /** The output loop of `show_date`: one `date = count` line per sorted date. */
  method ReportLines(files: seq<string>, counts: map<string, nat>, ds: seq<string>) returns (report: seq<DateCount>)
    requires forall d :: d in counts ==> counts[d] == CountDated(files, d)
    requires forall d :: d in ds ==> d in counts
    ensures report == Report(files, ds)
  {
    report := [];
    for k := 0 to |ds|
      invariant report == Report(files, ds[..k])
    {
      assert ds[..k + 1][..k] == ds[..k];
      report := report + [DateCount(ds[k], counts[ds[k]])];
    }
    assert ds[..|ds|] == ds;
  }

  predicate Distinct(ds: seq<string>) { forall i, j :: 0 <= i < j < |ds| ==> ds[i] != ds[j] }

  /** How many entries of `ds` equal the date `od`. */
  function Hits(ds: seq<string>, od: Option<string>): nat
  {
    if ds == [] then 0 else Hits(ds[..|ds| - 1], od) + (if od == Some(ds[|ds| - 1]) then 1 else 0)
  }

  /** A date that is listed once is hit once; no date is hit nowhere. */
  lemma {:induction false} HitsOnce(ds: seq<string>, od: Option<string>)
    requires Distinct(ds)
    requires od.Some? ==> od.value in ds
    ensures Hits(ds, od) == if od.Some? then 1 else 0
  {
    if ds != [] {
      var init := ds[..|ds| - 1];
      if od.Some? && od.value != ds[|ds| - 1] {
        var k :| 0 <= k < |ds| && ds[k] == od.value;
        assert init[k] == od.value;
        HitsOnce(init, od);
      } else if od.Some? {
        HitsAbsent(init, od);
      } else {
        HitsOnce(init, od);
      }
    }
  }

  lemma {:induction false} HitsAbsent(ds: seq<string>, od: Option<string>)
    requires od.Some? && od.value !in ds
    ensures Hits(ds, od) == 0
  {
    if ds != [] {
      HitsAbsent(ds[..|ds| - 1], od);
    }
  }

  /** Adding one file to the tally adds one to the total for every entry that equals its date. */
  lemma {:induction false} ReportStep(init: seq<string>, f: string, ds: seq<string>)
    ensures Total(Report(init + [f], ds)) == Total(Report(init, ds)) + Hits(ds, ExtractDate(f))
  {
    assert (init + [f])[..|init|] == init;
    if ds != [] {
      var r := Report(init + [f], ds);
      assert r[..|r| - 1] == Report(init + [f], ds[..|ds| - 1]);
      var r0 := Report(init, ds);
      assert r0[..|r0| - 1] == Report(init, ds[..|ds| - 1]);
      ReportStep(init, f, ds[..|ds| - 1]);
    }
  }

  /** When every date appears once in `ds`, the counts of `ds` add up to the number of dated files. */
  lemma {:induction false} ReportTotal(files: seq<string>, ds: seq<string>)
    requires Distinct(ds)
    requires forall d :: d in DateSet(files) ==> d in ds
    ensures Total(Report(files, ds)) == NumDated(files)
  {
    if files == [] {
      ReportEmpty(files, ds);
    } else {
      var init, f := files[..|files| - 1], files[|files| - 1];
      assert files == init + [f];
      ReportTotal(init, ds);
      ReportStep(init, f, ds);
      HitsOnce(ds, ExtractDate(f));
    }
  }

  lemma {:induction false} ReportEmpty(files: seq<string>, ds: seq<string>)
    requires files == []
    ensures Total(Report(files, ds)) == 0
  {
    if ds != [] {
      var r := Report(files, ds);
      assert r[..|r| - 1] == Report(files, ds[..|ds| - 1]);
      ReportEmpty(files, ds[..|ds| - 1]);
    }
  }

  /** `show_date` lists each date once, in ascending order. */
  lemma DateReportSorted(files: seq<string>)
    ensures var r := DateReport(files);
      forall i, j :: 0 <= i < j < |r| ==> Less(r[i].date, r[j].date)
  {
  }

  /** The dates listed are exactly the dates of the files. */
  lemma DateReportDates(files: seq<string>, d: string)
    ensures d in DateSet(files) <==> exists k :: 0 <= k < |DateReport(files)| && DateReport(files)[k].date == d
  {
    var ds := SortedSet(DateSet(files));
    var r := DateReport(files);
    if d in DateSet(files) {
      var k :| 0 <= k < |ds| && ds[k] == d;
      assert r[k].date == d;
    }
  }

  /** No date is listed with a zero count. */
  lemma DateReportPositive(files: seq<string>)
    ensures forall k :: 0 <= k < |DateReport(files)| ==> DateReport(files)[k].count > 0
  {
    var ds := SortedSet(DateSet(files));
    forall k | 0 <= k < |ds| ensures DateReport(files)[k].count > 0 {
      CountDatedPositive(files, ds[k]);
    }
  }

  /** The counts add up to the number of dated files: each file is counted once, under its own date. */
  lemma DateReportTotal(files: seq<string>)
    ensures Total(DateReport(files)) == NumDated(files)
  {
    var ds := SortedSet(DateSet(files));
    forall i, j | 0 <= i < j < |ds| ensures ds[i] != ds[j] {
      LessIrreflexive(ds[i]);
    }
    ReportTotal(files, ds);
  }
}
