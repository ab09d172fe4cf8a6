/**
 * Dates in file names (`YYYYmmdd`): the `extract_date` helpers of the
 * scripts, the `YYYYmmdd` argument validator, and the per-date tallies the
 * statistics modes print.
 */
module Dates {
  import opened Wrappers
  import opened Text
  import opened Order

  /** Eight ASCII digits: the shape of a date in a file name. */
  predicate IsDateText(d: string) { |d| == 8 && AllDigits(d) }

  /** `re.match(r'^(\d{8})', s)`: the first eight characters when they are all digits. */
  function LeadingDate(s: string): Option<string>
  {
    if |s| >= 8 && AllDigits(s[..8]) then Some(s[..8]) else None
  }

  /** `s` starts with the date `d`, and no other date: a date is a fixed-length prefix. */
  lemma LeadingDateSpec(s: string, d: string)
    ensures LeadingDate(s) == Some(d) <==> IsDateText(d) && StartsWith(s, d)
  {
  }

  /**
   * `re.match(r'(?:VID_)?(\d{8})', b)` on a base name `b`. The optional `VID_`
   * is tried first; without it the match must start with a digit, which a
   * name starting with `VID_` does not.
   */
  function DateOfBase(b: string): Option<string>
  {
    if StartsWith(b, "VID_") then LeadingDate(b[4..]) else LeadingDate(b)
  }

  /** `extract_date` of camera.py and merge.py: the date pattern applied to the base name. */
  function ExtractDate(f: string): Option<string>
  {
    DateOfBase(Basename(f))
  }

  /** The extracted date is the eight digits that start the base name, or follow its `VID_`. */
  lemma DateOfBaseSpec(b: string, d: string)
    ensures DateOfBase(b) == Some(d) <==> IsDateText(d) && (StartsWith(b, d) || StartsWith(b, "VID_" + d))
  {
    LeadingDateSpec(b, d);
    StartsWithVid(b, d);
    if StartsWith(b, "VID_") {
      LeadingDateSpec(b[4..], d);
      assert IsDateText(d) ==> !StartsWith(b, d) by {
        if IsDateText(d) {
          assert b[0] == 'V' && IsDigit(d[0]);
        }
      }
    }
  }

  lemma StartsWithVid(b: string, d: string)
    ensures StartsWith(b, "VID_" + d) <==> StartsWith(b, "VID_") && StartsWith(b[4..], d)
  {
    var v := "VID_" + d;
    if StartsWith(b, v) {
      assert b[..4] == v[..4];
      assert b[4..][..|d|] == v[4..];
    }
    if StartsWith(b, "VID_") && StartsWith(b[4..], d) {
      assert b[..4 + |d|] == b[..4] + b[4..][..|d|];
    }
  }

  /** The date of a name that carries one occurs in that name. */
  lemma DateOfBaseOccurs(b: string)
    requires DateOfBase(b).Some?
    ensures Contains(b, DateOfBase(b).value)
  {
    var d := DateOfBase(b).value;
    if StartsWith(b, "VID_") {
      assert b[4..4 + |d|] == b[4..][..8];
      assert OccursAt(b, d, 4);
    } else {
      assert OccursAt(b, d, 0);
    }
  }

  // ---------------------------------------------------------------------------
  // The YYYYmmdd validator
  // ---------------------------------------------------------------------------

  /** `int(d[:4])`. */
  function Year(d: string): nat
    requires IsDateText(d)
  {
    1000 * DigitValue(d[0]) + 100 * DigitValue(d[1]) + 10 * DigitValue(d[2]) + DigitValue(d[3])
  }

  /** `int(d[4:6])`. */
  function Month(d: string): nat
    requires IsDateText(d)
  {
    10 * DigitValue(d[4]) + DigitValue(d[5])
  }

  /** `int(d[6:8])`. */
  function Day(d: string): nat
    requires IsDateText(d)
  {
    10 * DigitValue(d[6]) + DigitValue(d[7])
  }

  predicate IsLeapYear(y: nat) { y % 4 == 0 && (y % 100 != 0 || y % 400 == 0) }

  function DaysInMonth(y: nat, m: nat): nat
    requires 1 <= m <= 12
  {
    if m == 2 then (if IsLeapYear(y) then 29 else 28)
    else if m == 4 || m == 6 || m == 9 || m == 11 then 30
    else 31
  }

  /** What `datetime.strptime(s, "%Y%m%d")` accepts: a real day of a year from 1 on. */
  predicate IsCalendarDate(s: string)
  {
    IsDateText(s) && Year(s) >= 1 && 1 <= Month(s) <= 12 && 1 <= Day(s) <= DaysInMonth(Year(s), Month(s))
  }

  /** `re.match(r'^\d{8}$', s)`; `$` also matches just before a final newline. */
  predicate DateShaped(s: string)
  {
    IsDateText(s) || (|s| == 9 && AllDigits(s[..8]) && s[8] == '\n')
  }

  datatype DateError = BadFormat(arg: string) | InvalidDate(arg: string)

  /** `validate_date_format_opt`: no argument passes through, a real date is returned unchanged. */
  function ValidateDateOpt(arg: Option<string>): (r: Result<Option<string>, DateError>)
    ensures arg.None? ==> r == Ok(None)
    ensures r.Ok? ==> r.value == arg
    ensures arg.Some? && r.Ok? ==> IsCalendarDate(arg.value)
    ensures arg.Some? && IsCalendarDate(arg.value) ==> r.Ok?
  {
    match arg
    case None => Ok(None)
    case Some(s) =>
      if !DateShaped(s) then Err(BadFormat(s))
      else if !IsCalendarDate(s) then Err(InvalidDate(s))
      else Ok(Some(s))
  }

  /** Leap days: 2024 and 2000 have 29 February, 2023 and 1900 do not; a newline is not accepted. */
  lemma ValidateDateExamples()
    ensures ValidateDateOpt(Some("20240229")) == Ok(Some("20240229"))
    ensures ValidateDateOpt(Some("20000229")).Ok?
    ensures ValidateDateOpt(Some("20230229")) == Err(InvalidDate("20230229"))
    ensures ValidateDateOpt(Some("19000229")) == Err(InvalidDate("19000229"))
    ensures ValidateDateOpt(Some("20241301")) == Err(InvalidDate("20241301"))
    ensures ValidateDateOpt(Some("00000101")) == Err(InvalidDate("00000101"))
    ensures ValidateDateOpt(Some("2024011")) == Err(BadFormat("2024011"))
    ensures ValidateDateOpt(Some("20240101\n")) == Err(InvalidDate("20240101\n"))
  {
    assert Year("20240229") == 2024 && Month("20240229") == 2 && Day("20240229") == 29;
    assert Year("20000229") == 2000 && Month("20000229") == 2 && Day("20000229") == 29;
    assert Year("20230229") == 2023 && Month("20230229") == 2 && Day("20230229") == 29;
    assert Year("19000229") == 1900 && Month("19000229") == 2 && Day("19000229") == 29;
    assert Month("20241301") == 13;
    assert Year("00000101") == 0;
    assert DateShaped("20240101\n");
  }

  // ---------------------------------------------------------------------------
  // Tallies over a list of file names
  // ---------------------------------------------------------------------------

  /** `{extract_date(f) for f in files if extract_date(f)}`. */
  function DateSet(files: seq<string>): (ds: set<string>)
    ensures forall d :: d in ds ==> IsDateText(d)
  {
    if files == [] then {}
    else
      var last := ExtractDate(files[|files| - 1]);
      DateSet(files[..|files| - 1]) + (if last.Some? then {last.value} else {})
  }

  /** How many of `files` carry the date `d`. */
  function CountDated(files: seq<string>, d: string): nat
  {
    if files == [] then 0
    else CountDated(files[..|files| - 1], d) + (if ExtractDate(files[|files| - 1]) == Some(d) then 1 else 0)
  }

  /** How many of `files` carry any date. */
  function NumDated(files: seq<string>): nat
  {
    if files == [] then 0
    else NumDated(files[..|files| - 1]) + (if ExtractDate(files[|files| - 1]).Some? then 1 else 0)
  }

  /** Every date in the set comes from some file of the list. */
  lemma {:induction false} DateSetWitness(files: seq<string>, d: string) returns (k: nat)
    requires d in DateSet(files)
    ensures k < |files| && ExtractDate(files[k]) == Some(d)
  {
    var init := files[..|files| - 1];
    if d in DateSet(init) {
      k := DateSetWitness(init, d);
      assert files[k] == init[k];
    } else {
      k := |files| - 1;
    }
  }

  lemma {:induction false} CountDatedPositive(files: seq<string>, d: string)
    ensures CountDated(files, d) > 0 <==> d in DateSet(files)
  {
    if files != [] {
      CountDatedPositive(files[..|files| - 1], d);
    }
  }

  /** The greatest date `sorted` puts last, `None` when no file has a date. */
  function LatestDate(files: seq<string>): (r: Option<string>)
    ensures r.None? <==> DateSet(files) == {}
    ensures r.Some? ==> r.value in DateSet(files) && forall d :: d in DateSet(files) ==> LessEq(d, r.value)
  {
    var ds := SortedSet(DateSet(files));
    if ds == [] then None
    else
      assert forall d :: d in DateSet(files) ==> LessEq(d, ds[|ds| - 1]) by {
        forall d | d in DateSet(files) ensures LessEq(d, ds[|ds| - 1]) {
          var k :| 0 <= k < |ds| && ds[k] == d;
        }
      }
      Some(ds[|ds| - 1])
  }

  /** `[f for f in files if d in os.path.basename(f)]`. */
  function Containing(files: seq<string>, d: string): (r: seq<string>)
    ensures forall f :: f in r ==> f in files && Contains(Basename(f), d)
    ensures forall f :: f in files && Contains(Basename(f), d) ==> f in r
  {
    if files == [] then []
    else
      var init := Containing(files[..|files| - 1], d);
      var f := files[|files| - 1];
      assert forall g :: g in files ==> g in files[..|files| - 1] || g == f;
      if Contains(Basename(f), d) then init + [f] else init
  }

  /** The matches keep the input order: the matches of two lists, one after the other, are the matches of the joined list. */
  lemma {:induction false} ContainingAppend(a: seq<string>, b: seq<string>, d: string)
    ensures Containing(a + b, d) == Containing(a, d) + Containing(b, d)
    decreases |b|
  {
    if b == [] {
      assert a + b == a;
    } else {
      var init := b[..|b| - 1];
      assert (a + b)[..|a + b| - 1] == a + init;
      ContainingAppend(a, init, d);
    }
  }

  /** Every file whose date is `d` has `d` in its name: the substring count is never below the date count. */
  lemma {:induction false} CountDatedAtMostContaining(files: seq<string>, d: string)
    ensures CountDated(files, d) <= |Containing(files, d)|
  {
    if files != [] {
      var f := files[|files| - 1];
      CountDatedAtMostContaining(files[..|files| - 1], d);
      if ExtractDate(f) == Some(d) {
        DateOfBaseOccurs(Basename(f));
      }
    }
  }
}
