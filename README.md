# camtools in Dafny

camtools is a set of Python scripts around a phone's camera roll:

- `camera.py` lists and tallies photos and videos by the date in their file names. It resolves file patterns, names the outputs of its ffmpeg modes (shrink, mute, slice, subtitle, merge) and syncs the phone's `DCIM/Camera` over adb.
- `adb-rsync.py` copies an Android directory tree over adb. It parses `ls -la`, recurses into sub-directories and skips files whose MD5 matches.
- `merge.py` tallies `Camera/` by date and concatenates videos chosen by prefix (`-p`) or by name (`-m`).
- `scale-1280x720.py` re-encodes the `.mp4` files of a directory into `<destination>/<date>/<name>`.
- `merge-shrink-180.py` concatenates the videos of one date prefix and speeds the result up to 180 seconds.

This project models the deterministic layer under the external calls. That layer covers:

- date extraction from file names;
- the `YYYYmmdd` validator;
- per-date tallies and latest-date selection;
- pattern resolution;
- output-name rules;
- the subtitle position table;
- the delta-sync plans and success counters;
- the `ls -la` parser and the recursive sync tally;
- the concat list format;
- the selection filters and exit decisions of the single-purpose scripts.

Everything external is an input. Each of these is a parameter:

- `glob` stands for `glob.glob`.
- `isFile` stands for `os.path.isfile`.
- `abspath` stands for `os.path.abspath`.
- `find` is the output of one adb `find`.
- `test` is the verdict of `adb shell test -f`.
- `pullOk` says whether an `adb pull` succeeded.
- `ls` is the run of `adb shell ls -la`.
- `files` gives the local file, the hashes and the pull run for one file.
- the directory listing is a sequence, and a probed duration is an optional `real`.
- `today` stands for the clock's `TODAY`.

Loops that build a set, a dictionary or a counter are methods with loop invariants, each proved equal to a specification function. The properties are then proved about those functions.

Modules, one per file:

- `Wrappers`: `Option`, `Result`.
- `Text`: Python string operations on ASCII.
- `Order`: Python string order, `sorted`.
- `Lines`: `splitlines`.
- `ConcatList`: the ffmpeg concat list, and how the concat demuxer reads its `file` lines back.
- `Dates`, `CameraFiles`, `CameraStats`, `CameraNames`, `CameraSync`: camera.py.
- `AdbRsync`: adb-rsync.py.
- `Merge`: merge.py.
- `Scale`: scale-1280x720.py.
- `MergeShrink`: merge-shrink-180.py.

## Model

| member | source | states |
|---|---|---|
| Dates.LeadingDateSpec | scale-1280x720.py:28-31 | The date of a name is `d` exactly when `d` is eight digits and the name starts with `d`; no `VID_` allowance. |
| Dates.DateOfBaseSpec | camera.py:60-63 | `extract_date` yields `d` exactly when `d` is eight digits and the base name starts with `d` or with `VID_` followed by `d`; merge.py:18-22 is the same function. |
| Dates.DateOfBaseOccurs | camera.py:60-63 | An extracted date occurs as a substring of the base name it came from. |
| Dates.ValidateDateOpt | camera.py:516-527 | No argument passes as none; a string is accepted, unchanged, exactly when it is a calendar date of a year from 1 on; otherwise it is refused. |
| Dates.ValidateDateExamples | camera.py:520-527 | Leap days of 2024 and 2000 pass, 29 February 2023 and 1900 fail, month 13 and year 0 fail, seven digits fail the format, and a trailing newline passes the regex but not `strptime`. |
| Dates.DateSetWitness | camera.py:84 | Every date in the set of extracted dates comes from some file of the list. |
| Dates.CountDatedPositive | camera.py:109-112 | A date has a positive count exactly when it is one of the extracted dates. |
| Dates.LatestDate | camera.py:84-88 | No latest date exactly when no file has a date; otherwise it is an extracted date no smaller than any other. |
| Dates.Containing | camera.py:91 | The matched files are exactly the files whose base name contains the date. |
| Dates.ContainingAppend | camera.py:91 | The filter keeps input order: filtering two lists one after the other is filtering their concatenation. |
| Dates.CountDatedAtMostContaining | merge.py:50-53 | The number of files carrying a date never exceeds the number whose base name contains it. |
| CameraFiles.FindFiles | camera.py:25-30 | The loop's result is the matches of each extension's `Camera/*.<ext>` pattern, extension after extension. |
| CameraFiles.GlobbedMember | camera.py:25-30 | A path is found exactly when some extension's pattern matched it. |
| CameraFiles.SearchPatternCases | camera.py:40-46 | `.mp4` is appended exactly when videos are required, the pattern has no extension, and it is neither `.` nor `Camera`; otherwise the pattern is kept. |
| CameraFiles.AddFiles | camera.py:55-57 | The inner loop adds exactly the hits that are files. |
| CameraFiles.SearchDirs | camera.py:48-57 | The directory loop adds an absolute pattern only if it is a file and stops; otherwise it adds the file hits under `.` and `Camera`. |
| CameraFiles.ResolveFiles | camera.py:32-58 | The result is `sorted` of the accumulated set. |
| CameraFiles.ResolvedMember | camera.py:38-57 | A path is resolved exactly when some pattern's search found it and it is a file. |
| CameraFiles.ResolvedAreFiles | camera.py:50-57 | Every resolved path is a file. |
| CameraFiles.ResolvedNoRepeats | camera.py:38-58 | No path string is listed twice; a path matched by several patterns is listed once. `./x.mp4` and `Camera/x.mp4` are different paths and are both listed. |
| CameraStats.ShowLast | camera.py:77-101 | The given day is used as is; with no day, the latest extracted date is used, or nothing when no file has a date. The listing holds exactly the files whose base name contains that day, sorted by base name, and is non-empty. |
| CameraStats.ShowLastLatest | camera.py:84-97 | Without a target, a dated list always yields a listing that includes every file carrying the latest date. |
| CameraStats.LastMode | camera.py:629-636 | `-l` reports over the `.mp4` files of `Camera/`. |
| CameraStats.Report | camera.py:122-123 | One line per date, each with the number of files carrying that date. |
| CameraStats.CountByDate | camera.py:109-112 | The dictionary's keys are exactly the extracted dates, and each value is the number of files carrying that date. |
| CameraStats.TallyNext | camera.py:110-112 | One more file keeps the dictionary a tally: its date, if any, gains one. |
| CameraStats.TallyStep | camera.py:109-112 | One more file adds its date to the date set and one to that date's count, nothing else. |
| CameraStats.ShowDate | camera.py:103-123 | `show_date` reports over the video and photo files of `Camera/`, whatever list it is given. |
| CameraStats.ReportLines | camera.py:119-123 | The output loop reports each sorted date with its dictionary count. |
| CameraStats.HitsOnce | camera.py:109-112 | A date listed once among distinct dates is hit once. |
| CameraStats.HitsAbsent | camera.py:109-112 | A date not listed is hit nowhere. |
| CameraStats.ReportStep | camera.py:109-112 | One more file raises the total by the number of listed dates equal to its date. |
| CameraStats.ReportTotal | camera.py:109-123 | Over distinct dates covering every extracted date, the counts add up to the number of dated files. |
| CameraStats.ReportEmpty | camera.py:114-116 | No files give a zero total. |
| CameraStats.DateReportSorted | camera.py:119 | Dates are reported strictly ascending, each once. |
| CameraStats.DateReportDates | camera.py:119-123 | The reported dates are exactly the extracted dates. |
| CameraStats.DateReportPositive | camera.py:109-112 | No date is reported with a zero count. |
| CameraStats.DateReportTotal | camera.py:109-123 | The counts add up to the number of dated files: each is counted once, under its own date, and undated files are ignored. |
| CameraNames.ResolutionChars | camera.py:424 | An accepted resolution holds no `.` and no `/`. |
| CameraNames.ResolutionAccepted | camera.py:424 | `1024x768` is accepted. |
| CameraNames.ResolutionWithNewline | camera.py:424 | `640x480` followed by a newline is accepted, since `$` matches before a final newline. |
| CameraNames.ResolutionRejected | camera.py:424 | `1024X768` is refused. |
| CameraNames.ShrinkOutput | camera.py:422-432 | A malformed resolution is refused first, then a missing file; the output keeps the input's extension and its stem is the input's stem, `-`, and the resolution. |
| CameraNames.ShrinkName | camera.py:431-432 | The resolution tag sits between the stem and the unchanged extension. |
| CameraNames.OutputPlan | camera.py:773-819 | A `-n` name with more than one file is refused; otherwise there is one output per input in order, each the output of its own input: the `-n` name for each, or for a shorten without `-n` the input itself (also 878-888, 917-927). |
| CameraNames.MuteOutputSplits | camera.py:926-927 | The mute output keeps the extension, and its stem is the input's stem with `_mute`. |
| CameraNames.MuteOutputInjective | camera.py:926-927 | Two inputs with the same mute output are the same input. |
| CameraNames.SliceOutputLocal | camera.py:818-819 | A slice is written in the working directory. |
| CameraNames.SubtitleOutputLocal | camera.py:887-888 | A subtitled copy is written in the working directory. |
| CameraNames.Without | camera.py:730 | Removing a character leaves none of it and keeps every other character, as often as it occurs. |
| CameraNames.WithoutAppend | camera.py:730 | Removing a character works part by part, so the kept characters stay in order. |
| CameraNames.SafeTag | camera.py:730 | The tag is as long as the pattern's base name without `*` and `?`; word characters and `-` stay in place and every other character becomes `_`, so it holds only ASCII word characters and `-`. |
| CameraNames.SafeTagIdempotent | camera.py:730 | Making a safe tag safe again changes nothing. |
| CameraNames.SafeTagLocal | camera.py:730 | The tag holds no `/`. |
| CameraNames.MergeOutput | camera.py:758 | The `-n` name when given; otherwise exactly `<TODAY>-merge.mp4`. |
| CameraNames.ChainOutput | camera.py:727-732 | The `-n` name when given; otherwise exactly `TODAY-`, the safe tag of the first pattern, and `-shorten.mp4` or `-slice.mp4`, with no `/`. |
| CameraNames.Tagged | camera.py:732 | The name starts with `TODAY-`, has the tag right after it, ends with the action suffix, and holds no `/` when its parts hold none. |
| CameraNames.ParsePos | camera.py:443-464 | Accepted exactly when the lower-cased position is in the table, giving its style; otherwise the error names the lower-cased position. |
| CameraNames.ParsePosIgnoresCase | camera.py:444 | Upper-casing the position changes neither acceptance nor the style. |
| CameraNames.PosAliases | camera.py:446-459 | `TOP` is `top-center`, `Bottom` is `bottom-center`, and `center` is not `middle-center`. |
| CameraSync.NewFiles | camera.py:266 | Strictly ascending, and holding exactly the remote names that are not local. |
| CameraSync.OrgPullsMember | camera.py:271-276 | A pull is planned exactly for a non-empty name of the list, into the same relative path locally. |
| CameraSync.OrgPullsPrefix | camera.py:271-276 | The pulls of a prefix of the names are a prefix of the plan. |
| CameraSync.SyncFilesOrg | camera.py:259-278 | With every pull succeeding, the pulls are exactly the plan over the sorted new names. Otherwise they are a prefix of that plan ending at the first failed pull. |
| CameraSync.PullAll | camera.py:271-276 | The loop skips empty names and pulls the rest in order; a failing pull ends it, as the raised error does. |
| CameraSync.PullStopped | camera.py:276 | Successful pulls followed by a failing one form a stopped prefix of the plan. |
| CameraSync.OrgPullsNew | camera.py:266-276 | Every planned pull fetches a non-empty name that is remote and not local; a local-only file is never touched. |
| CameraSync.FirstPrefix | camera.py:313-314 | The index of the first prefix that occurs in the line; no earlier prefix occurs. |
| CameraSync.After | camera.py:315 | The text after the first occurrence of the prefix: a suffix of the line, with no earlier occurrence. |
| CameraSync.RelPath | camera.py:313-318 | A kept path is visible and ends the line; a line with no prefix gives none. |
| CameraSync.RelPathFirstMatch | camera.py:313-318 | When prefix `k` is the first to occur, the path is what follows it if visible, and nothing otherwise: no later prefix is tried. |
| CameraSync.LineRelsMember | camera.py:308-318 | A path is collected from the lines exactly when some line yields it. |
| CameraSync.RemoteSetMember | camera.py:303-320 | A path is collected exactly when some line of some successful root search yields it. |
| CameraSync.AddLines | camera.py:308-318 | The line loop adds exactly the lines' relative paths. |
| CameraSync.CutLine | camera.py:313-318 | The prefix loop computes the line's relative path. |
| CameraSync.CollectRemote | camera.py:303-320 | The search loop collects the paths of every root. |
| CameraSync.CollectLocal | camera.py:327-332 | The local scan collects the visible local relative paths. |
| CameraSync.ToDownload | camera.py:335 | Strictly ascending, and holding exactly the remote paths that are not local. |
| CameraSync.FirstPassing | camera.py:345-353 | None exactly when no candidate passes `test -f`; otherwise the first one that passes. |
| CameraSync.FindSource | camera.py:345-353 | The nested source search stops at the first candidate that passes. |
| CameraSync.FirstPassingAt | camera.py:349-351 | A passing candidate preceded only by failing ones is the source found. |
| CameraSync.AttemptsMember | camera.py:343-363 | Every pull attempted fetches the first passing candidate of a path to download into that path under the local directory. |
| CameraSync.AttemptsComplete | camera.py:343-363 | Every path to download that has a passing candidate is pulled from its first one. |
| CameraSync.Succeeded | camera.py:362-367 | The success count is at most the number of pulls, and equals it exactly when every pull succeeded. |
| CameraSync.Download | camera.py:342-367 | A path without a source is skipped; the count gains one per pull that succeeded. |
| CameraSync.TryPull | camera.py:344-367 | One iteration: search the source, then pull from it if found. |
| CameraSync.SucceededConcat | camera.py:362-367 | The successes of two runs of pulls add up. |
| CameraSync.SyncFiles | camera.py:280-369 | A successful `adb sync` ends the run. Then no remote file ends it, then nothing new ends it. Otherwise the missing paths are downloaded and counted. |
| CameraSync.SyncResultBounds | camera.py:327-369 | `0 <= success <= pulls <= len(to_download)`. Every pull writes a visible remote path missing locally from that path's first source that passed `test -f`, and every remote path missing locally that has such a source is pulled. |
| CameraSync.RemoteSetVisible | camera.py:316-317 | Every collected path is non-empty and not a dot file. |
| AdbRsync.RunAdb | adb-rsync.py:9-18 | None exactly when a checked command fails; otherwise the stripped output. |
| AdbRsync.StripLeftBlank | adb-rsync.py:31 | A blank line strips to nothing. |
| AdbRsync.ParseLineParts | adb-rsync.py:30-33 | The blank-line test changes nothing: a line is parsed from its `split(maxsplit=8)` fields. |
| AdbRsync.ParseLineSome | adb-rsync.py:31-38 | A line gives an entry exactly when it has at least eight words and does not name `.` or `..`. |
| AdbRsync.ParseLineFields | adb-rsync.py:34-44 | The permissions are the first word. The size is the fifth word's value when it is all digits, else 0. The time is words six to eight, and the path is the joined name with `\` turned into `/`. |
| AdbRsync.ParseLineName | adb-rsync.py:32-36 | The name is the eighth word when there are eight; otherwise the eighth word, one space, and the rest of the line. |
| AdbRsync.ParseListing | adb-rsync.py:30-45 | The line loop yields the entries of the lines in order. |
| AdbRsync.ListRemoteDir | adb-rsync.py:20-55 | The listing is the top entries, then, when recursive, the sub-directory listings appended. |
| AdbRsync.ListedEmpty | adb-rsync.py:23-26 | A failed or empty `ls` gives no entries. |
| AdbRsync.ListedOrder | adb-rsync.py:48-53 | A recursive listing starts with the top entries; every later entry comes from the listing of one of its sub-directories. |
| AdbRsync.SubListingsMember | adb-rsync.py:50-52 | An entry of the sub-listings comes from the recursive listing of a directory entry. |
| AdbRsync.RemoteHash | adb-rsync.py:57-62 | A hash exactly when `md5sum` succeeded with output not starting `No such`; it is the output's first word. |
| AdbRsync.SyncFile | adb-rsync.py:79-99 | An up-to-date file counts as synced; the result is false exactly when the file was not up to date and the pull gave None. |
| AdbRsync.SyncFileNeverFails | adb-rsync.py:93-96 | The pull runs unchecked, so `sync_file` always reports success. |
| AdbRsync.CountSynced | adb-rsync.py:118-135 | The count is at most the number of entries, and equals it exactly when every entry synced. |
| AdbRsync.SyncDirectory | adb-rsync.py:101-140 | False for an empty listing; otherwise true exactly when every entry synced. |
| AdbRsync.SyncEntries | adb-rsync.py:115-135 | The loop counts every entry and the entries that synced. |
| AdbRsync.CountSyncedStep | adb-rsync.py:122-135 | One more entry raises the count by one exactly when it synced. |
| AdbRsync.SyncEntry | adb-rsync.py:124-135 | A directory entry syncs by recursion, a file through `sync_file`. |
| AdbRsync.DirSyncedFiles | adb-rsync.py:111-140 | A directory syncs exactly when it lists something and every entry syncs; one holding only files syncs whenever it lists something. |
| ConcatList.WriteList | merge.py:57-59 | The write loop writes one `file '<path>'` line per path. |
| ConcatList.PathOfEntry | merge.py:59 | An entry line is a `file` line, and the demuxer reads back exactly the path it was written for if and only if the path holds no `'`. |
| ConcatList.QuotedPathLost | merge.py:59 | The unescaped path `it's.mp4` reads back as `its.mp4`. |
| ConcatList.ReadEntryLines | merge.py:58-59 | For paths without `'`, reading the entry lines back yields the paths in order. |
| ConcatList.ListRoundTrip | merge-shrink-180.py:18-22 | For paths without line breaks and without `'` the list has exactly one line per path, and reading it back yields the paths in order. |
| Merge.ShowLast | merge.py:36-47 | Nothing when no file has a date. Otherwise the date is the greatest extracted date, and the match list is non-empty and is exactly the files whose base name contains it, in input order and with repeats. |
| Merge.ShowDate | merge.py:49-53 | One line per extracted date, strictly ascending; each count is the number of files whose base name contains the date. |
| Merge.ShowDateDates | merge.py:50-51 | The reported dates are exactly the extracted dates. |
| Merge.ShowDateCounts | merge.py:52 | Each count is at least the number of files carrying the date, hence never zero. |
| Merge.StatsReport | merge.py:131-141 | No files of the chosen type means no report; otherwise `-l` gives `show_last` and `-d` gives `show_date`. |
| Merge.StatsMode | merge.py:131-141 | The statistics branch computes that report. |
| Merge.BuildConcatFile | merge.py:55-60 | The list names the absolute path of each file, in input order; camera.py:125-130 is the same function. |
| Merge.NamedFiles | merge.py:155-163 | Accepted exactly when every name is a file under `Camera/`, giving those paths in order; otherwise the error names a missing path. |
| Merge.NamedFilesMissing | merge.py:157-161 | The abort names the first name that is not a file; all before it are files. |
| Merge.CollectNamed | merge.py:156-162 | The loop appends the paths and aborts at the first missing one. |
| Merge.NamedFilesAbort | merge.py:159-161 | Once a prefix of the names aborts, the whole list aborts with the same error. |
| Merge.InfoFiles | merge.py:164-175 | The `-i` loop keeps exactly the named paths that are files, at most one per name. |
| Merge.InfoFilesAppend | merge.py:168-175 | The loop goes through the names in order, keeping repeats: the files of joined name lists are the files of each, one after the other. |
| Merge.MergeMain | merge.py:127-180 | No `Camera/` fails. `-l` or `-d` gives the statistics report whatever the other options, and only they do. Otherwise `-p` with `-m` fails. `-p` merges the sorted glob matches into `<prefix>-merged.mp4`, failing on no match. `-m` merges the named files into `<TODAY>-merged.mp4`. `-i` reports; nothing given fails. |
| Merge.NamedMergeFiles | merge.py:157-163 | Every path `-m` merges is a file: under `Camera/`, or the name itself when it is absolute. |
| Scale.NoVidPrefix | scale-1280x720.py:28-31 | `VID_` followed by a date has no date here, though camera.py dates it. |
| Scale.LogLevelArgs | scale-1280x720.py:59-62 | Quiet mode gives `-loglevel quiet`; otherwise `-progress` is present. |
| Scale.FfmpegCommand | scale-1280x720.py:52-62 | The command reads the input, writes the output with `-y`, and ends with the logging options. |
| Scale.ProcessFile | scale-1280x720.py:33-62 | Skipped exactly when the name has no date. Otherwise the output is `<dst>/<date>/<name>`, skipped exactly when it exists, else converted by the ffmpeg command. |
| Scale.ProcessFileOutput | scale-1280x720.py:42-44 | The output sits directly in the date directory and keeps the file's own name. |
| Scale.WithDateMember | scale-1280x720.py:106 | The filter keeps exactly the files whose extracted date equals the argument. |
| Scale.WithDateAppend | scale-1280x720.py:106 | The filter keeps the files' order. |
| Scale.WithMalformedDate | scale-1280x720.py:105-106 | A date argument that is not eight digits selects nothing. |
| Scale.ScaleMain | scale-1280x720.py:97-109 | No source directory and no `.mp4` files are errors. A given date with no match ends the run. Otherwise the files to process are the non-empty filtered list. |
| Scale.ExitStatus | scale-1280x720.py:17-25 | Status 1 exactly for the validation errors, 0 otherwise, including no match on the date. |
| Scale.ScaleExit | scale-1280x720.py:97-109 | `main` exits with 0 exactly when the source is a directory holding `.mp4` files. |
| MergeShrink.Matching | merge-shrink-180.py:27-28 | Exactly the listed names that start with the prefix and, lower-cased, end in `.mp4`, `.avi` or `.mkv`. |
| MergeShrink.SelectedNames | merge-shrink-180.py:34 | Those names, ascending, each as often as listed. |
| MergeShrink.MergeVideos | merge-shrink-180.py:24-50 | Nothing to merge exactly when no name qualifies. Otherwise the videos are the sorted names under the directory, the list names them, and the result is ffmpeg's outcome. |
| MergeShrink.MergeListNamesVideos | merge-shrink-180.py:34-38 | For videos whose paths hold no line break and no `'`, the list written has one line per video and reads back as the videos in order. |
| MergeShrink.CompressDuration | merge-shrink-180.py:56-81 | The input when the duration is within the target or ffmpeg fails; the output only after a successful compression. |
| MergeShrink.UnprobedKept | merge-shrink-180.py:14-16 | A video that cannot be probed counts as 0 seconds and is returned unchanged. |
| MergeShrink.ShrinkMain | merge-shrink-180.py:83-104 | No input directory ends the run. It finishes exactly when the merge succeeded, and the temporary file is removed exactly when the final file differs from it and it exists. |
| MergeShrink.CleanupKeepsResult | merge-shrink-180.py:98-104 | The temporary file is removed only after a successful compression into another file; when no compression was needed it is the result and stays. |
| Text.Strip | adb-rsync.py:14 | `strip()` is empty exactly for an all-whitespace text, and otherwise neither starts nor ends with whitespace. |
| Text.StripTrimmed | adb-rsync.py:14 | `strip()` keeps the slice of the text between a whitespace prefix and a whitespace suffix. |
| Text.SplitMaxWords | adb-rsync.py:32 | `split(maxsplit=m)` and `split()` agree on the first `m` words. |
| Text.Ext | camera.py:40 | `splitext`: stem and extension make up the path; the extension is empty or a dot with no further dot or `/`. |
| Order.SortedSet | camera.py:58 | `sorted` of a set is strictly ascending and holds exactly its elements. |
| Order.StrictlySortedUnique | camera.py:58 | Two strictly ascending lists with the same elements are equal. |
| Order.SortBy | camera.py:97 | `sort(key=...)` is ascending by key and a permutation of its input. |
| Lines.SplitJoinLines | merge.py:57-59 | Lines free of line breaks, each written with a newline, split back into the same lines. |

## Left out

- ffmpeg, ffprobe and adb are not modelled; their outcomes are inputs. So are `glob`, `os.listdir`, `Path.rglob`, `os.path.isfile`, `os.path.exists` and `os.path.abspath`.
- File system effects are not modelled: `mkdir`, `makedirs`, `move`, `copy`, `remove`, and writing and removing the list files.
- Floating point:
  - `parse_time_str` and the slice bounds;
  - the speed and `atempo` chains of `shorten_video` in camera.py and merge.py;
  - duration parsing in `get_duration`, `get_video_info` and `total_duration`;
  - the `K`/`M`/`G` conversion of `get_remote_dir_size`;
  - the minutes and seconds total of `-i`.
  A probed duration in merge-shrink-180.py is a `real`, compared with the target.
- MD5 hashing: the hashes are opaque optional strings. `get_local_file_hash` is an input; `get_remote_file_hash` is modelled from the `md5sum` run.
- The thread pool of scale-1280x720.py: `process_file` is modelled for one file, since the tasks are independent.
- The `adb sync` fast path of `sync_files` is a boolean input.
- `check_adb`, `check_remote_dir`, the device check, `test -d` and the dry-run and list-only modes of adb-rsync.py are not modelled, beyond the listing they share.
- argparse, printing, `sys.exit` codes other than scale-1280x720.py's, and the conflict checks between camera.py options are not modelled. One consequence follows from camera.py:591-594 and 617: `--font`, `--pos` and `--size` have truthy defaults and sit in the conflict list of the statistics mode, so as written `-l` and `-d` exit with status 1 unless `--font "" --pos "" --size 0` is also given. `CameraStats.LastMode` models only the branch body that follows the check (camera.py:629-636).
- `add_subtitle`'s `force_style` string and camera.py's `-i` report over `get_video_info` are not modelled.
- The clock: `TODAY` is a parameter.
- Unicode: `\d`, `str.isdigit`, `str.isspace`, `str.lower`/`upper` and `\w` cover ASCII only.
- `Path.rglob` and `relative_to`: the local scan takes the relative paths of the local files as its input.
- `CameraSync.SyncFilesOrg`: a failing pull ends the run, as the exception raised by the checked `run_adb_command` does. What the caller does with the exception is not modelled.
- `CameraSync.SyncFilesOrg`: `get_file_list`'s failure when the `find` command fails is not modelled; the listing is the command's output.
- `AdbRsync.ListRemoteDir`: each recursion level spends one unit of `fuel`. A directory reached with no fuel left still lists its own entries, but its sub-directories are not descended into. The source has no bound and loops forever on a cyclic listing.
- `AdbRsync.SyncDirectory`: bounded by the same `fuel`. A sub-directory entry reached with no fuel left counts as an entry that did not sync.
- `CameraSync.FindSource`: the candidates are tried root by root and prefix by prefix as one flat list. Both nested `break`s end the search at the first hit, which is the same order.
- `ConcatList.PathOfEntry`: merge.py:59 and merge-shrink-180.py:22 write a path between `'`s without escaping a `'` inside it. The concat demuxer then drops that quote, so such a path reads back as another path (`ConcatList.QuotedPathLost`). The exact read-back is promised only for paths without `'`.
- `ConcatList.ReadEntryLines`: promised only for paths without `'`, for the same reason.
- `ConcatList.ListRoundTrip`: promised only for paths without line breaks and without `'`.
- `MergeShrink.MergeListNamesVideos`: promised only for joined paths without line breaks and without `'`.
- `ConcatList.Token`: of the demuxer's argument syntax only the `'` quoting is modelled. Backslash escapes and the whitespace that ends an unquoted argument are not, since the lists written here quote the whole path.
- `Scale.ProcessFile`: the output path is the text `os.path.join` would give for `dst`, the date and the name. The source builds it with `pathlib` (scale-1280x720.py:42-44) and passes `str(output_file)` (line 57), which drops `.` components and repeated `/`; with `dst` equal to `./out` the source writes `out/20240101/x.mp4` where the model has `./out/20240101/x.mp4`. Both name the same file.
- `Order.SortBy`: stability, the order among equal keys, is not stated.
- `CameraStats.LastMode`: the durations printed beside each file are not modelled.
