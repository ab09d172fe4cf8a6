/**
 * adb-rsync.py: a one-way copy of an Android directory tree over adb. The
 * device is reached through oracles: `ls` gives the run of
 * `adb shell ls -la <path>` for a path, and `files` gives, for a remote and
 * a local path, what syncing that file meets (whether the local file exists,
 * the run of `md5sum`, the local hash, the run of `adb pull`).
 *
 * The recursion of the source has no bound of its own; here every level
 * spends one unit of `fuel`, and a directory met with no fuel left is not
 * entered.
 */
module AdbRsync {
  import opened Wrappers
  import opened Text

  /** What one `adb` invocation yields: its exit status and its standard output. */
  datatype AdbRun = AdbRun(status: int, stdout: string)

  /** `run_adb_command(command, check)`: the stripped output, or `None` when a checked command fails. */
  function RunAdb(run: AdbRun, check: bool): (r: Option<string>)
    ensures r.None? <==> check && run.status != 0
    ensures r.Some? ==> r.value == Strip(run.stdout)
  {
    if check && run.status != 0 then None else Some(Strip(run.stdout))
  }

  // ---------------------------------------------------------------------------
  // list_remote_dir
  // ---------------------------------------------------------------------------

  /** One entry of a listing. */
  datatype Entry = Entry(name: string, size: nat, permissions: string, mtime: string, path: string)

  /** An entry whose permissions start with `d`. */
  predicate IsDir(e: Entry) { StartsWith(e.permissions, "d") }

  /** `str.isdigit()` on ASCII: not empty and digits only. */
  predicate IsNumeral(s: string) { s != [] && AllDigits(s) }

  /** The blank lines of a listing hold no fields. */
  lemma {:induction false} StripLeftBlank(s: string)
    requires AllSpace(s)
    ensures StripLeft(s) == []
  {
    if s != [] {
      StripLeftBlank(s[1..]);
    }
  }

  /** `' '.join(parts[7:])` for at most nine parts: the eighth field, and the rest of the line after one space. */
  function NameOf(parts: seq<string>): string
    requires 8 <= |parts| <= 9
  {
    if |parts| == 8 then parts[7] else parts[7] + " " + parts[8]
  }

  /** The entry the fields of a line describe, unless there are too few of them or the name is `.` or `..`. */
  function PartsEntry(remotePath: string, parts: seq<string>): Option<Entry>
  {
    if |parts| < 8 || |parts| > 9 then None
    else
      var name := NameOf(parts);
      if name == "." || name == ".." then None
      else
        var size := if IsNumeral(parts[4]) then DecimalValue(parts[4]) else 0;
        var path := ReplaceChar(Join(remotePath, name), '\\', '/');
        Some(Entry(name, size, parts[0], parts[5] + " " + parts[6] + " " + parts[7], path))
  }

  /** One line of `ls -la` under `remotePath`: blank lines are skipped, the others cut with `split(maxsplit=8)`. */
  function ParseLine(remotePath: string, line: string): Option<Entry>
  {
    if Strip(line) == [] then None else PartsEntry(remotePath, SplitMax(line, 8))
  }

  /** `split(maxsplit=8)` against `split()`: the first eight fields are words, and a ninth holds the remaining words. */
  predicate FieldsOf(parts: seq<string>, ws: seq<string>)
  {
    && AllWords(ws)
    && (|parts| >= 8 <==> |ws| >= 8)
    && (|parts| >= 8 ==> |parts| <= 9 && (forall k :: 0 <= k < 8 ==> parts[k] == ws[k]) && (|parts| == 8 <==> |ws| == 8))
    && (|parts| > 8 ==> Words(parts[8]) == ws[8..] && parts[8] != [])
  }

  lemma LineFields(line: string)
    ensures FieldsOf(SplitMax(line, 8), Words(line))
  {
    SplitMaxWords(line, 8);
    WordsAreWords(line);
    var parts, ws := SplitMax(line, 8), Words(line);
    assert AgreeUpTo(parts, ws, 8);
  }

  /** The blank-line test changes nothing: a blank line has no fields. */
  lemma ParseLineParts(remotePath: string, line: string)
    ensures ParseLine(remotePath, line) == PartsEntry(remotePath, SplitMax(line, 8))
    ensures FieldsOf(SplitMax(line, 8), Words(line))
  {
    LineFields(line);
    if Strip(line) == [] {
      StripLeftBlank(line);
    }
  }

  /** A line is an entry exactly when it has eight words or more and does not name `.` or `..`. */
  lemma ParseLineSome(remotePath: string, line: string)
    ensures var ws := Words(line);
      ParseLine(remotePath, line).Some? <==> |ws| >= 8 && !(|ws| == 8 && (ws[7] == "." || ws[7] == ".."))
  {
    ParseLineParts(remotePath, line);
    PartsSome(remotePath, SplitMax(line, 8), Words(line));
  }

  lemma PartsSome(remotePath: string, parts: seq<string>, ws: seq<string>)
    requires FieldsOf(parts, ws)
    ensures PartsEntry(remotePath, parts).Some? <==> |ws| >= 8 && !(|ws| == 8 && (ws[7] == "." || ws[7] == ".."))
  {
    if |parts| > 8 {
      assert IsWord(ws[7]);
      assert |NameOf(parts)| > 2;
    }
  }

  /**
   * The fields of an entry: the permissions are the first word, the size the
   * fifth read as a number (0 when it is not one), the time the sixth to
   * eighth words, and the path the joined name with every `\` turned into `/`.
   */
  lemma ParseLineFields(remotePath: string, line: string)
    requires ParseLine(remotePath, line).Some?
    ensures var e, ws := ParseLine(remotePath, line).value, Words(line);
      && |ws| >= 8
      && e.permissions == ws[0]
      && e.size == (if IsNumeral(ws[4]) then DecimalValue(ws[4]) else 0)
      && e.mtime == ws[5] + " " + ws[6] + " " + ws[7]
    ensures var e := ParseLine(remotePath, line).value;
      e.path == ReplaceChar(Join(remotePath, e.name), '\\', '/') && '\\' !in e.path
  {
    ParseLineParts(remotePath, line);
    PartsFields(remotePath, SplitMax(line, 8), Words(line));
  }

  lemma PartsFields(remotePath: string, parts: seq<string>, ws: seq<string>)
    requires FieldsOf(parts, ws) && PartsEntry(remotePath, parts).Some?
    ensures var e := PartsEntry(remotePath, parts).value;
      && |ws| >= 8
      && e.permissions == ws[0]
      && e.size == (if IsNumeral(ws[4]) then DecimalValue(ws[4]) else 0)
      && e.mtime == ws[5] + " " + ws[6] + " " + ws[7]
      && e.path == ReplaceChar(Join(remotePath, e.name), '\\', '/') && '\\' !in e.path
  {
  }

  /**
   * The name of an entry: the eighth word when there are eight; otherwise
   * the eighth word, one space, and a rest that holds every further word.
   */
  lemma ParseLineName(remotePath: string, line: string)
    requires ParseLine(remotePath, line).Some?
    ensures var e, ws := ParseLine(remotePath, line).value, Words(line);
      |ws| == 8 ==> e.name == ws[7]
    ensures var e, ws := ParseLine(remotePath, line).value, Words(line);
      |ws| > 8 ==> StartsWith(e.name, ws[7] + " ") && Words(e.name[|ws[7]| + 1..]) == ws[8..]
  {
    ParseLineParts(remotePath, line);
    PartsName(remotePath, SplitMax(line, 8), Words(line));
  }

  lemma PartsName(remotePath: string, parts: seq<string>, ws: seq<string>)
    requires FieldsOf(parts, ws) && PartsEntry(remotePath, parts).Some?
    ensures var e := PartsEntry(remotePath, parts).value;
      && (|ws| == 8 ==> e.name == ws[7])
      && (|ws| > 8 ==> StartsWith(e.name, ws[7] + " ") && Words(e.name[|ws[7]| + 1..]) == ws[8..])
  {
    if |parts| > 8 {
      assert NameOf(parts)[|parts[7]| + 1..] == parts[8];
    }
  }

  /** The entries of the given lines, in order. */
  function ParseEntries(remotePath: string, lines: seq<string>): (r: seq<Entry>)
    ensures |r| <= |lines|
  {
    if lines == [] then []
    else
      var e := ParseLine(remotePath, lines[|lines| - 1]);
      ParseEntries(remotePath, lines[..|lines| - 1]) + (if e.Some? then [e.value] else [])
  }

  /** The entries of one `ls -la` output: nothing for a failed or empty output, the first line skipped. */
  function TopEntries(remotePath: string, output: Option<string>): seq<Entry>
  {
    if output.None? || output.value == [] then []
    else ParseEntries(remotePath, SplitOn(output.value, '\n')[1..])
  }

  /**
   * `list_remote_dir(remote_path, recursive)`: the entries of the directory
   * in order, then, when recursive, the listings of its sub-directories in
   * the order they were listed.
   */
  function Listed(remotePath: string, recursive: bool, ls: string -> AdbRun, fuel: nat): seq<Entry>
    decreases fuel, 0
  {
    var top := TopEntries(remotePath, RunAdb(ls(remotePath), true));
    if recursive && fuel > 0 then top + SubListings(top, ls, fuel - 1) else top
  }

  /** The recursive listings of the directories among `es`, one after the other. */
  function SubListings(es: seq<Entry>, ls: string -> AdbRun, fuel: nat): seq<Entry>
    decreases fuel, |es|
  {
    if es == [] then []
    else
      var e := es[|es| - 1];
      SubListings(es[..|es| - 1], ls, fuel) + (if IsDir(e) then Listed(e.path, true, ls, fuel) else [])
  }

  /** The line loop of `list_remote_dir`. */
  method ParseListing(remotePath: string, lines: seq<string>) returns (files: seq<Entry>)
    ensures files == ParseEntries(remotePath, lines)
  {
    files := [];
    for i := 0 to |lines|
      invariant files == ParseEntries(remotePath, lines[..i])
    {
      assert lines[..i + 1][..i] == lines[..i];
      var e := ParseLine(remotePath, lines[i]);
      if e.Some? {
        files := files + [e.value];
      }
    }
    assert lines[..|lines|] == lines;
  }

  /** `list_remote_dir`: the top entries, then the sub-directory listings appended. */
  method ListRemoteDir(remotePath: string, recursive: bool, ls: string -> AdbRun, fuel: nat) returns (files: seq<Entry>)
    ensures files == Listed(remotePath, recursive, ls, fuel)
    decreases fuel
  {
    var output := RunAdb(ls(remotePath), true);
    if output.None? || output.value == [] {
      return [];
    }
    files := ParseListing(remotePath, SplitOn(output.value, '\n')[1..]);
    if recursive && fuel > 0 {
      var sub := [];
      for i := 0 to |files|
        invariant sub == SubListings(files[..i], ls, fuel - 1)
      {
        assert files[..i + 1][..i] == files[..i];
        if IsDir(files[i]) {
          var more := ListRemoteDir(files[i].path, true, ls, fuel - 1);
          sub := sub + more;
        }
      }
      assert files[..|files|] == files;
      files := files + sub;
    }
  }

  /** A failed or empty `ls` gives no entries, recursive or not. */
  lemma ListedEmpty(remotePath: string, recursive: bool, ls: string -> AdbRun, fuel: nat)
    requires RunAdb(ls(remotePath), true).None? || RunAdb(ls(remotePath), true) == Some([])
    ensures Listed(remotePath, recursive, ls, fuel) == []
  {
    var top := TopEntries(remotePath, RunAdb(ls(remotePath), true));
    assert top == [];
    assert SubListings(top, ls, fuel) == [];
  }

  /**
   * A recursive listing starts with the directory's own entries, and every
   * later entry comes from the listing of one of its sub-directories.
   */
  lemma ListedOrder(remotePath: string, ls: string -> AdbRun, fuel: nat, e: Entry)
    requires fuel > 0
    ensures TopEntries(remotePath, RunAdb(ls(remotePath), true)) <= Listed(remotePath, true, ls, fuel)
    ensures e in Listed(remotePath, true, ls, fuel) ==>
      e in TopEntries(remotePath, RunAdb(ls(remotePath), true))
      || exists d :: d in TopEntries(remotePath, RunAdb(ls(remotePath), true)) && IsDir(d) && e in Listed(d.path, true, ls, fuel - 1)
  {
    var top := TopEntries(remotePath, RunAdb(ls(remotePath), true));
    var all := Listed(remotePath, true, ls, fuel);
    assert all == top + SubListings(top, ls, fuel - 1);
    assert all[..|top|] == top;
    if e in all && e !in top {
      SubListingsMember(top, ls, fuel - 1, e);
    }
  }

  lemma {:induction false} SubListingsMember(es: seq<Entry>, ls: string -> AdbRun, fuel: nat, e: Entry)
    requires e in SubListings(es, ls, fuel)
    ensures exists d :: d in es && IsDir(d) && e in Listed(d.path, true, ls, fuel)
  {
    var init := es[..|es| - 1];
    if e in SubListings(init, ls, fuel) {
      SubListingsMember(init, ls, fuel, e);
      var d :| d in init && IsDir(d) && e in Listed(d.path, true, ls, fuel);
      assert d in es;
    } else {
      assert es[|es| - 1] in es;
    }
  }

  // ---------------------------------------------------------------------------
  // sync_file
  // ---------------------------------------------------------------------------

  /** `get_remote_file_hash`: the first word of a successful `md5sum` output that is not an error message. */
  function RemoteHash(run: AdbRun): (r: Option<string>)
    ensures r.Some? <==> run.status == 0 && !AllSpace(run.stdout) && !StartsWith(Strip(run.stdout), "No such")
    ensures r.Some? ==> IsWord(r.value) && StartsWith(Strip(run.stdout), r.value)
  {
    var out := RunAdb(run, true);
    if out.Some? && out.value != [] && !StartsWith(out.value, "No such") then
      var ws := Words(out.value);
      assert ws != [];
      WordsAreWords(out.value);
      Some(ws[0])
    else None
  }

  /** What syncing one file meets: the local file, the `md5sum` run, the local hash and the `adb pull` run. */
  datatype FileState = FileState(localExists: bool, hashRun: AdbRun, localHash: Option<string>, pull: AdbRun)

  /** The local copy exists and both hashes are present, non-empty and equal. */
  predicate UpToDate(st: FileState)
  {
    var rh := RemoteHash(st.hashRun);
    st.localExists && rh.Some? && st.localHash.Some? && rh.value != [] && st.localHash.value != [] && rh == st.localHash
  }

  /**
   * `sync_file`: an up-to-date file is skipped and counts as synced;
   * otherwise it is pulled, and the result is false only when the pull
   * helper gave `None`.
   */
  function SyncFile(st: FileState): (ok: bool)
    ensures UpToDate(st) ==> ok
    ensures !ok <==> !UpToDate(st) && RunAdb(st.pull, false).None?
  {
    if UpToDate(st) then true else RunAdb(st.pull, false).Some?
  }

  /**
   * The pull runs unchecked, and an unchecked run always yields its output,
   * so `sync_file` never reports a failure, whatever the pull did.
   */
  lemma SyncFileNeverFails(st: FileState)
    ensures SyncFile(st)
  {
    assert RunAdb(st.pull, false).Some?;
  }

  // ---------------------------------------------------------------------------
  // sync_directory
  // ---------------------------------------------------------------------------

  /** Whether one entry syncs: a sub-directory recursively, a file through `sync_file`. */
  function EntrySynced(e: Entry, localDir: string, ls: string -> AdbRun, files: (string, string) -> FileState, fuel: nat): bool
    decreases fuel, 0, 0
  {
    var local := Join(localDir, e.name);
    if IsDir(e) then fuel > 0 && DirSynced(e.path, local, ls, files, fuel - 1)
    else SyncFile(files(e.path, local))
  }

  /** `success_count` after the loop over `es`. */
  function CountSynced(es: seq<Entry>, localDir: string, ls: string -> AdbRun, files: (string, string) -> FileState, fuel: nat): (n: nat)
    ensures n <= |es|
    ensures n == |es| <==> forall k :: 0 <= k < |es| ==> EntrySynced(es[k], localDir, ls, files, fuel)
    decreases fuel, 0, |es|
  {
    if es == [] then 0
    else
      var init := es[..|es| - 1];
      assert forall k :: 0 <= k < |init| ==> init[k] == es[k];
      CountSynced(init, localDir, ls, files, fuel) + (if EntrySynced(es[|es| - 1], localDir, ls, files, fuel) then 1 else 0)
  }

  /** `sync_directory`: false for an empty listing; otherwise true when every entry synced. */
  function DirSynced(remoteDir: string, localDir: string, ls: string -> AdbRun, files: (string, string) -> FileState, fuel: nat): bool
    decreases fuel, 1, 0
  {
    var es := Listed(remoteDir, false, ls, fuel);
    es != [] && CountSynced(es, localDir, ls, files, fuel) == |es|
  }

  /** `sync_directory`: false for an empty listing; otherwise true when every entry synced. */
  method SyncDirectory(remoteDir: string, localDir: string, ls: string -> AdbRun, files: (string, string) -> FileState, fuel: nat)
    returns (ok: bool)
    ensures ok == DirSynced(remoteDir, localDir, ls, files, fuel)
    decreases fuel, 2
  {
    var remoteFiles := ListRemoteDir(remoteDir, false, ls, fuel);
    if remoteFiles == [] {
      return false;
    }
    var successCount := SyncEntries(remoteFiles, localDir, ls, files, fuel);
    ok := successCount == |remoteFiles|;
  }

  /** The loop of `sync_directory`: counts every entry, and the entries that synced. */
  method SyncEntries(es: seq<Entry>, localDir: string, ls: string -> AdbRun, files: (string, string) -> FileState, fuel: nat)
    returns (successCount: nat)
    ensures successCount == CountSynced(es, localDir, ls, files, fuel)
    decreases fuel, 1
  {
    successCount := 0;
    var totalCount := 0;
    for i := 0 to |es|
      invariant totalCount == i
      invariant successCount == CountSynced(es[..i], localDir, ls, files, fuel)
    {
      CountSyncedStep(es, i, localDir, ls, files, fuel);
      totalCount := totalCount + 1;
      var synced := SyncEntry(es[i], localDir, ls, files, fuel);
      if synced {
        successCount := successCount + 1;
      }
    }
    assert es[..|es|] == es;
  }

  lemma CountSyncedStep(es: seq<Entry>, i: nat, localDir: string, ls: string -> AdbRun, files: (string, string) -> FileState, fuel: nat)
    requires i < |es|
    ensures CountSynced(es[..i + 1], localDir, ls, files, fuel)
      == CountSynced(es[..i], localDir, ls, files, fuel) + (if EntrySynced(es[i], localDir, ls, files, fuel) then 1 else 0)
  {
    assert es[..i + 1][..i] == es[..i];
  }

  /** The body of the loop of `sync_directory` for one entry. */
  method SyncEntry(e: Entry, localDir: string, ls: string -> AdbRun, files: (string, string) -> FileState, fuel: nat)
    returns (synced: bool)
    ensures synced == EntrySynced(e, localDir, ls, files, fuel)
    decreases fuel, 0
  {
    var local := Join(localDir, e.name);
    if IsDir(e) {
      if fuel == 0 {
        synced := false;
      } else {
        synced := SyncDirectory(e.path, local, ls, files, fuel - 1);
      }
    } else {
      synced := SyncFile(files(e.path, local));
    }
  }

  /**
   * A directory syncs exactly when it lists something and every entry
   * syncs; one that holds only files syncs whenever it lists something.
   */
  lemma DirSyncedFiles(remoteDir: string, localDir: string, ls: string -> AdbRun, files: (string, string) -> FileState, fuel: nat)
    ensures var es := Listed(remoteDir, false, ls, fuel);
      DirSynced(remoteDir, localDir, ls, files, fuel) <==> es != [] && forall k :: 0 <= k < |es| ==> EntrySynced(es[k], localDir, ls, files, fuel)
    ensures var es := Listed(remoteDir, false, ls, fuel);
      es != [] && (forall k :: 0 <= k < |es| ==> !IsDir(es[k])) ==> DirSynced(remoteDir, localDir, ls, files, fuel)
  {
    var es := Listed(remoteDir, false, ls, fuel);
    forall k | 0 <= k < |es| && !IsDir(es[k]) ensures EntrySynced(es[k], localDir, ls, files, fuel) {
      SyncFileNeverFails(files(es[k].path, Join(localDir, es[k].name)));
    }
  }
}
