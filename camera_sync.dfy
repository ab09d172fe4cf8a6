/**
 * The phone-to-computer sync of camera.py. `sync_files_org` pulls the names
 * that `find` lists under the remote camera directory and the local copy
 * lacks. `sync_files` first tries `adb sync`. When that fails, it searches
 * several remote roots, turns every hit into a path relative to its
 * `Camera/` directory, and pulls what the local copy lacks from the first
 * root where `test -f` finds it. Every adb call is an oracle parameter here:
 * `find` gives the output of the search under one root, `test` the verdict
 * of `test -f`, `pullOk` whether a pull succeeded.
 */
module CameraSync {
  import opened Wrappers
  import opened Text
  import opened Order
  import opened Lines

  const RemoteDir := "/sdcard/DCIM/Camera"

  /** One `adb pull <src> <dst>`. */
  datatype Pull = Pull(src: string, dst: string)

  // ---------------------------------------------------------------------------
  // sync_files_org
  // ---------------------------------------------------------------------------

  /** `get_file_list(REMOTE_DIR, is_remote=True)`: the lines of the stripped `find` output. */
  function RemoteList(out: string): seq<string>
  {
    SplitLines(Strip(out))
  }

  /** `sorted(set(remote_files) - set(local_files))`. */
  function NewFiles(remote: seq<string>, local: seq<string>): (r: seq<string>)
    ensures StrictlySorted(r)
    ensures forall f :: f in r <==> f in remote && f !in local
  {
    SortedSet(set f | f in remote && f !in local)
  }

  /** The pull for one name: from under `REMOTE_DIR` to the same relative path under the local directory. */
  function OrgPull(localDir: string, f: string): Pull
  {
    Pull(RemoteDir + "/" + f, Join(localDir, f))
  }

  /** The pulls the download loop issues when none fails: one per non-empty name, in order. */
  function OrgPulls(localDir: string, names: seq<string>): (r: seq<Pull>)
    ensures |r| <= |names|
  {
    if names == [] then []
    else
      var f := names[|names| - 1];
      OrgPulls(localDir, names[..|names| - 1]) + (if f != [] then [OrgPull(localDir, f)] else [])
  }

  /** A pull is planned exactly for a non-empty name of the list. */
  lemma {:induction false} OrgPullsMember(localDir: string, names: seq<string>, p: Pull)
    ensures p in OrgPulls(localDir, names) <==> exists f :: f in names && f != [] && p == OrgPull(localDir, f)
  {
    if names != [] {
      var init := names[..|names| - 1];
      OrgPullsMember(localDir, init, p);
      assert forall f :: f in names <==> f in init || f == names[|names| - 1];
    }
  }

  /** The pulls of a prefix of the names are a prefix of the pulls. */
  lemma {:induction false} OrgPullsPrefix(localDir: string, names: seq<string>, i: nat)
    requires i <= |names|
    ensures OrgPulls(localDir, names[..i]) <= OrgPulls(localDir, names)
  {
    if i < |names| {
      var init := names[..|names| - 1];
      OrgPullsPrefix(localDir, init, i);
      assert init[..i] == names[..i];
    } else {
      assert names[..i] == names;
    }
  }

  /** Every pull of `ps` succeeds. */
  predicate AllOk(ps: seq<Pull>, pullOk: Pull -> bool)
  {
    forall k :: 0 <= k < |ps| ==> pullOk(ps[k])
  }

  /** The pulls issued when one fails: a prefix of the plan whose last pull, and only that one, failed. */
  predicate Stopped(issued: seq<Pull>, plan: seq<Pull>, pullOk: Pull -> bool)
  {
    && issued <= plan && issued != []
    && !pullOk(issued[|issued| - 1])
    && forall k :: 0 <= k < |issued| - 1 ==> pullOk(issued[k])
  }

  /**
   * `sync_files_org`: pulls each new non-empty name in ascending order. A
   * failing pull raises out of the function (`check=True`), so the pulls
   * issued are a prefix of the plan that ends at the first failure.
   */
  method SyncFilesOrg(listing: string, local: seq<string>, localDir: string, pullOk: Pull -> bool)
    returns (issued: seq<Pull>, completed: bool)
    ensures completed ==> issued == OrgPulls(localDir, NewFiles(RemoteList(listing), local)) && AllOk(issued, pullOk)
    ensures !completed ==> Stopped(issued, OrgPulls(localDir, NewFiles(RemoteList(listing), local)), pullOk)
  {
    var newFiles := NewFiles(RemoteList(listing), local);
    if newFiles == [] {
      return [], true;
    }
    issued, completed := PullAll(newFiles, localDir, pullOk);
  }

  /** The download loop of `sync_files_org`: empty names are skipped, the first failing pull ends it. */
  method PullAll(names: seq<string>, localDir: string, pullOk: Pull -> bool) returns (issued: seq<Pull>, completed: bool)
    ensures completed ==> issued == OrgPulls(localDir, names) && AllOk(issued, pullOk)
    ensures !completed ==> Stopped(issued, OrgPulls(localDir, names), pullOk)
  {
    issued, completed := [], true;
    var i := 0;
    while i < |names| && completed
      invariant 0 <= i <= |names|
      invariant completed ==> issued == OrgPulls(localDir, names[..i]) && AllOk(issued, pullOk)
      invariant !completed ==> Stopped(issued, OrgPulls(localDir, names), pullOk)
    {
      OrgPullsStep(localDir, names, i);
      var file := names[i];
      if file != [] {
        var p := OrgPull(localDir, file);
        if !pullOk(p) {
          PullStopped(localDir, names, i, pullOk);
          completed := false;
        }
        issued := issued + [p];
      }
      i := i + 1;
    }
    assert completed ==> names[..i] == names;
  }

  /** A failing pull after successful ones: what the loop has issued when it stops. */
  lemma PullStopped(localDir: string, names: seq<string>, i: nat, pullOk: Pull -> bool)
    requires i < |names| && names[i] != []
    requires AllOk(OrgPulls(localDir, names[..i]), pullOk)
    requires !pullOk(OrgPull(localDir, names[i]))
    ensures Stopped(OrgPulls(localDir, names[..i]) + [OrgPull(localDir, names[i])], OrgPulls(localDir, names), pullOk)
  {
    OrgPullsStep(localDir, names, i);
    OrgPullsPrefix(localDir, names, i + 1);
  }

  lemma OrgPullsStep(localDir: string, names: seq<string>, i: nat)
    requires i < |names|
    ensures OrgPulls(localDir, names[..i + 1]) == OrgPulls(localDir, names[..i]) + (if names[i] != [] then [OrgPull(localDir, names[i])] else [])
  {
    assert names[..i + 1][..i] == names[..i];
  }

  /**
   * Every planned pull fetches a non-empty name that is remote and not local:
   * nothing that exists only locally is ever touched, and nothing is planned
   * when every remote name is already local.
   */
  lemma OrgPullsNew(listing: string, local: seq<string>, localDir: string, p: Pull)
    requires p in OrgPulls(localDir, NewFiles(RemoteList(listing), local))
    ensures exists f :: f != [] && f in RemoteList(listing) && f !in local && p == OrgPull(localDir, f)
  {
    OrgPullsMember(localDir, NewFiles(RemoteList(listing), local), p);
  }

  // ---------------------------------------------------------------------------
  // sync_files: remote paths relative to the camera directory
  // ---------------------------------------------------------------------------

  /** The remote roots searched, in order. */
  const Bases: seq<string> := [
    "/sdcard/DCIM/Camera",
    "/storage/emulated/0/DCIM/Camera",
    "/sdcard/Android/data/com.android.providers.media/files/DCIM",
    "/storage/emulated/0/Android/data/com.android.providers.media/files/DCIM"
  ]

  /** The prefixes a found path is cut after, tried in this order. */
  const RelPrefixes: seq<string> := ["/DCIM/Camera/", "/100ANDRO/Camera/", "/Camera/"]

  /** Index of the first of `prefixes` that occurs in `line`, or `|prefixes|` when none does. */
  function FirstPrefix(line: string, prefixes: seq<string>): (k: nat)
    ensures k <= |prefixes|
    ensures k < |prefixes| ==> Contains(line, prefixes[k])
    ensures forall j :: 0 <= j < k ==> !Contains(line, prefixes[j])
  {
    if prefixes == [] then 0
    else if Find(line, prefixes[0]) >= 0 then 0
    else 1 + FirstPrefix(line, prefixes[1..])
  }

  /** `line.split(prefix, 1)[1]`: what follows the first occurrence of `prefix`. */
  function After(line: string, prefix: string): (r: string)
    requires Contains(line, prefix)
    ensures |r| + |prefix| <= |line|
    ensures EndsWith(line, r)
    ensures OccursAt(line, prefix, |line| - |r| - |prefix|)
    ensures forall j: nat :: j < |line| - |r| - |prefix| ==> !OccursAt(line, prefix, j)
  {
    line[Find(line, prefix) + |prefix|..]
  }

  /** A relative path worth fetching: not empty, and its base name is not a dot file. */
  predicate Visible(rel: string) { rel != [] && !StartsWith(Basename(rel), ".") }

  /**
   * The relative path of one stripped `find` line: the text after the first
   * matching prefix, provided it is visible. Once a prefix has matched, no
   * later prefix is tried, even when the cut leaves nothing visible.
   */
  function RelPath(line: string): (r: Option<string>)
    ensures r.Some? ==> Visible(r.value) && EndsWith(line, r.value)
    ensures (forall j :: 0 <= j < |RelPrefixes| ==> !Contains(line, RelPrefixes[j])) ==> r.None?
  {
    var k := FirstPrefix(line, RelPrefixes);
    if k == |RelPrefixes| then None
    else
      var rel := After(line, RelPrefixes[k]);
      if Visible(rel) then Some(rel) else None
  }

  /** When the `k`-th prefix is the first to occur, the path is what follows it, if visible. */
  lemma RelPathFirstMatch(line: string, k: nat)
    requires k < |RelPrefixes| && Contains(line, RelPrefixes[k])
    requires forall j :: 0 <= j < k ==> !Contains(line, RelPrefixes[j])
    ensures RelPath(line) == if Visible(After(line, RelPrefixes[k])) then Some(After(line, RelPrefixes[k])) else None
  {
    var m := FirstPrefix(line, RelPrefixes);
    assert m == k;
  }

  /** What one raw output line contributes: blank lines are skipped, others stripped and cut. */
  function LineRel(line: string): Option<string>
  {
    var t := Strip(line);
    if t == [] then None else RelPath(t)
  }

  /** The relative paths of a list of output lines. */
  function LineRels(lines: seq<string>): (r: set<string>)
    ensures forall x :: x in r ==> Visible(x)
  {
    if lines == [] then {}
    else
      var o := LineRel(lines[|lines| - 1]);
      LineRels(lines[..|lines| - 1]) + (if o.Some? then {o.value} else {})
  }

  /**
   * The relative paths found under the first `n` roots. `find(root)` is the
   * output of that root's `find` run; the run is unchecked, so a failing
   * `find` still gives its output. `None` stands for a run that raised and
   * was skipped by the bare `except`, and such a root adds nothing.
   */
  function RemoteSet(find: string -> Option<string>, n: nat): set<string>
    requires n <= |Bases|
  {
    if n == 0 then {}
    else
      var out := find(Bases[n - 1]);
      RemoteSet(find, n - 1) + (if out.Some? then LineRels(SplitLines(out.value)) else {})
  }

  /** A path is collected exactly when some line of some successful search yields it. */
  lemma {:induction false} RemoteSetMember(find: string -> Option<string>, n: nat, x: string)
    requires n <= |Bases|
    ensures x in RemoteSet(find, n) <==>
      exists i :: 0 <= i < n && find(Bases[i]).Some? && x in LineRels(SplitLines(find(Bases[i]).value))
  {
    if n > 0 {
      RemoteSetMember(find, n - 1, x);
    }
  }

  lemma {:induction false} LineRelsMember(lines: seq<string>, x: string)
    ensures x in LineRels(lines) <==> exists l :: l in lines && LineRel(l) == Some(x)
  {
    if lines != [] {
      var init := lines[..|lines| - 1];
      LineRelsMember(init, x);
      assert forall l :: l in lines <==> l in init || l == lines[|lines| - 1];
    }
  }

  /** The line loop for one root's output: adds each line's relative path. */
  method AddLines(found: set<string>, lines: seq<string>) returns (r: set<string>)
    ensures r == found + LineRels(lines)
  {
    r := found;
    for j := 0 to |lines|
      invariant r == found + LineRels(lines[..j])
    {
      LineRelsStep(lines, j);
      var line := Strip(lines[j]);
      if line == [] {
        continue;
      }
      var rel := CutLine(line);
      if rel.Some? {
        r := r + {rel.value};
      }
    }
    assert lines[..|lines|] == lines;
  }

  lemma LineRelsStep(lines: seq<string>, j: nat)
    requires j < |lines|
    ensures LineRels(lines[..j + 1]) == LineRels(lines[..j]) + (if LineRel(lines[j]).Some? then {LineRel(lines[j]).value} else {})
  {
    assert lines[..j + 1][..j] == lines[..j];
  }

  /** The prefix loop for one stripped line: the first prefix that occurs decides, then the loop stops. */
  method CutLine(line: string) returns (rel: Option<string>)
    ensures rel == RelPath(line)
  {
    rel := None;
    var k := 0;
    while k < |RelPrefixes|
      invariant k <= |RelPrefixes|
      invariant forall m :: 0 <= m < k ==> !Contains(line, RelPrefixes[m])
    {
      if Find(line, RelPrefixes[k]) >= 0 {
        var cut := After(line, RelPrefixes[k]);
        if Visible(cut) {
          rel := Some(cut);
        }
        RelPathFirstMatch(line, k);
        return;
      }
      k := k + 1;
    }
  }

  /** The search loop of `sync_files`: every root, every line of its output. */
  method CollectRemote(find: string -> Option<string>) returns (remote: set<string>)
    ensures remote == RemoteSet(find, |Bases|)
  {
    remote := {};
    for i := 0 to |Bases|
      invariant remote == RemoteSet(find, i)
    {
      var out := find(Bases[i]);
      if out.None? {
        continue;
      }
      remote := AddLines(remote, SplitLines(out.value));
    }
  }

  // ---------------------------------------------------------------------------
  // sync_files: local paths, the download list and the pulls
  // ---------------------------------------------------------------------------

  /** The local relative paths compared against: files whose base name is not a dot file. */
  function LocalSet(files: seq<string>): set<string>
  {
    set rel | rel in files && !StartsWith(Basename(rel), ".")
  }

  /** The local scan of `sync_files`, over the relative paths of the local files. */
  method CollectLocal(files: seq<string>) returns (local: set<string>)
    ensures local == LocalSet(files)
  {
    local := {};
    for i := 0 to |files|
      invariant local == LocalSet(files[..i])
    {
      assert files[..i + 1] == files[..i] + [files[i]];
      if !StartsWith(Basename(files[i]), ".") {
        local := local + {files[i]};
      }
    }
    assert files[..|files|] == files;
  }

  /** `sorted(remote_files - local_files)`. */
  function ToDownload(remote: set<string>, local: set<string>): (r: seq<string>)
    ensures StrictlySorted(r)
    ensures forall x :: x in r <==> x in remote && x !in local
  {
    SortedSet(remote - local)
  }

  const SourcePrefixes: seq<string> := ["", "/DCIM/Camera", "/100ANDRO/Camera", "/Camera"]

  /** The remote paths probed for `rel`: every root with every sub-directory, root by root. */
  function Candidates(rel: string): (r: seq<string>)
    ensures |r| == |Bases| * |SourcePrefixes|
  {
    seq(|Bases| * |SourcePrefixes|, k requires 0 <= k < |Bases| * |SourcePrefixes| =>
      Bases[k / |SourcePrefixes|] + SourcePrefixes[k % |SourcePrefixes|] + "/" + rel)
  }

  /** The first candidate that passes `test`. */
  function FirstPassing(cands: seq<string>, test: string -> bool): (r: Option<string>)
    ensures r.None? <==> forall k :: 0 <= k < |cands| ==> !test(cands[k])
    ensures r.Some? ==> exists n :: (0 <= n < |cands| && cands[n] == r.value && test(r.value)
      && forall k :: 0 <= k < n ==> !test(cands[k]))
  {
    if cands == [] then None
    else if test(cands[0]) then Some(cands[0])
    else
      var r := FirstPassing(cands[1..], test);
      assert forall k :: 1 <= k < |cands| ==> cands[k] == cands[1..][k - 1];
      r
  }

  /** The source search: stops at the first candidate that `test -f` accepts. */
  method FindSource(rel: string, test: string -> bool) returns (src: Option<string>)
    ensures src == FirstPassing(Candidates(rel), test)
  {
    var cands := Candidates(rel);
    src := None;
    var k := 0;
    while k < |cands|
      invariant k <= |cands|
      invariant forall m :: 0 <= m < k ==> !test(cands[m])
    {
      var candidate := Bases[k / |SourcePrefixes|] + SourcePrefixes[k % |SourcePrefixes|] + "/" + rel;
      if test(candidate) {
        src := Some(candidate);
        FirstPassingAt(cands, test, k);
        return;
      }
      k := k + 1;
    }
  }

  lemma {:induction false} FirstPassingAt(cands: seq<string>, test: string -> bool, n: nat)
    requires n < |cands| && test(cands[n])
    requires forall k :: 0 <= k < n ==> !test(cands[k])
    ensures FirstPassing(cands, test) == Some(cands[n])
  {
    var r := FirstPassing(cands, test);
    var m :| 0 <= m < |cands| && cands[m] == r.value && test(r.value) && forall k :: 0 <= k < m ==> !test(cands[k]);
    assert m == n;
  }

  /** The pull attempted for one path: from its first source, if it has one, to that path under the local directory. */
  function Attempt(rel: string, localDir: string, test: string -> bool): (r: seq<Pull>)
    ensures |r| <= 1
  {
    var src := FirstPassing(Candidates(rel), test);
    if src.Some? then [Pull(src.value, Join(localDir, rel))] else []
  }

  /** The pulls attempted: one for each path with a source, in order; the others are skipped. */
  function Attempts(todo: seq<string>, localDir: string, test: string -> bool): (r: seq<Pull>)
    ensures |r| <= |todo|
  {
    if todo == [] then []
    else Attempts(todo[..|todo| - 1], localDir, test) + Attempt(todo[|todo| - 1], localDir, test)
  }

  /**
   * Each attempted pull fetches the first source found for a listed path
   * into that path under the local directory.
   */
  lemma {:induction false} AttemptsMember(todo: seq<string>, localDir: string, test: string -> bool, p: Pull)
    requires p in Attempts(todo, localDir, test)
    ensures exists rel :: (rel in todo && test(p.src) && p.src in Candidates(rel) && p.dst == Join(localDir, rel)
      && FirstPassing(Candidates(rel), test) == Some(p.src))
  {
    var init := todo[..|todo| - 1];
    if p in Attempts(init, localDir, test) {
      AttemptsMember(init, localDir, test, p);
      var rel :| rel in init && test(p.src) && p.src in Candidates(rel) && p.dst == Join(localDir, rel)
        && FirstPassing(Candidates(rel), test) == Some(p.src);
      assert rel in todo;
    } else {
      var rel := todo[|todo| - 1];
      assert p in Attempt(rel, localDir, test);
      assert p == Pull(FirstPassing(Candidates(rel), test).value, Join(localDir, rel));
    }
  }

  /** Every listed path that has a source is attempted, from its first source. */
  lemma {:induction false} AttemptsComplete(todo: seq<string>, localDir: string, test: string -> bool, rel: string)
    requires rel in todo && FirstPassing(Candidates(rel), test).Some?
    ensures Pull(FirstPassing(Candidates(rel), test).value, Join(localDir, rel)) in Attempts(todo, localDir, test)
  {
    var init := todo[..|todo| - 1];
    var last := todo[|todo| - 1];
    assert todo == init + [last];
    if rel == last {
      assert Attempt(rel, localDir, test) == [Pull(FirstPassing(Candidates(rel), test).value, Join(localDir, rel))];
    } else {
      assert rel in init;
      AttemptsComplete(init, localDir, test, rel);
    }
  }

  /** How many of the pulls succeed. */
  function Succeeded(pulls: seq<Pull>, pullOk: Pull -> bool): (n: nat)
    ensures n <= |pulls|
    ensures n == |pulls| <==> forall k :: 0 <= k < |pulls| ==> pullOk(pulls[k])
  {
    if pulls == [] then 0
    else
      var init := pulls[..|pulls| - 1];
      assert forall k :: 0 <= k < |init| ==> init[k] == pulls[k];
      Succeeded(init, pullOk) + (if pullOk(pulls[|pulls| - 1]) then 1 else 0)
  }

  /** The download loop: a path without a source is skipped, a failed pull is caught and not counted. */
  method Download(todo: seq<string>, localDir: string, test: string -> bool, pullOk: Pull -> bool)
    returns (issued: seq<Pull>, success: nat)
    ensures issued == Attempts(todo, localDir, test)
    ensures success == Succeeded(issued, pullOk)
  {
    issued, success := [], 0;
    for i := 0 to |todo|
      invariant issued == Attempts(todo[..i], localDir, test)
      invariant success == Succeeded(issued, pullOk)
    {
      AttemptsStep(todo, i, localDir, test);
      var pulled, ok := TryPull(todo[i], localDir, test, pullOk);
      SucceededConcat(issued, pulled, pullOk);
      issued, success := issued + pulled, success + ok;
    }
    assert todo[..|todo|] == todo;
  }

  /** One iteration: search the sources of a path, then pull from the first one found. */
  method TryPull(rel: string, localDir: string, test: string -> bool, pullOk: Pull -> bool)
    returns (pulled: seq<Pull>, ok: nat)
    ensures pulled == Attempt(rel, localDir, test)
    ensures ok == Succeeded(pulled, pullOk)
  {
    var src := FindSource(rel, test);
    if src.None? {
      return [], 0;
    }
    var p := Pull(src.value, Join(localDir, rel));
    pulled := [p];
    assert pulled[..0] == [];
    ok := if pullOk(p) then 1 else 0;
  }

  lemma AttemptsStep(todo: seq<string>, i: nat, localDir: string, test: string -> bool)
    requires i < |todo|
    ensures Attempts(todo[..i + 1], localDir, test) == Attempts(todo[..i], localDir, test) + Attempt(todo[i], localDir, test)
  {
    assert todo[..i + 1][..i] == todo[..i];
  }

  /** The successes of two runs of pulls add up. */
  lemma {:induction false} SucceededConcat(a: seq<Pull>, b: seq<Pull>, pullOk: Pull -> bool)
    ensures Succeeded(a + b, pullOk) == Succeeded(a, pullOk) + Succeeded(b, pullOk)
    decreases |b|
  {
    if b == [] {
      assert a + b == a;
    } else {
      var init := b[..|b| - 1];
      assert (a + b)[..|a + b| - 1] == a + init;
      SucceededConcat(a, init, pullOk);
    }
  }

  /** How `sync_files` ends. */
  datatype SyncOutcome =
    | FastSynced
    | NoRemoteFiles
    | UpToDate
    | Downloaded(pulls: seq<Pull>, success: nat, total: nat)

  /** What `sync_files` does for the given adb answers and local files. */
  function SyncResult(fastOk: bool, find: string -> Option<string>, localFiles: seq<string>, localDir: string,
                      test: string -> bool, pullOk: Pull -> bool): SyncOutcome
  {
    if fastOk then FastSynced
    else
      var remote := RemoteSet(find, |Bases|);
      if remote == {} then NoRemoteFiles
      else
        var todo := ToDownload(remote, LocalSet(localFiles));
        if todo == [] then UpToDate
        else
          var pulls := Attempts(todo, localDir, test);
          Downloaded(pulls, Succeeded(pulls, pullOk), |todo|)
  }

  /**
   * `sync_files`: `adb sync` first; otherwise search the roots, compare with
   * the local files, and pull each missing path from its first source.
   */
  method SyncFiles(fastOk: bool, find: string -> Option<string>, localFiles: seq<string>, localDir: string,
                   test: string -> bool, pullOk: Pull -> bool) returns (r: SyncOutcome)
    ensures r == SyncResult(fastOk, find, localFiles, localDir, test, pullOk)
  {
    if fastOk {
      return FastSynced;
    }
    var remote := CollectRemote(find);
    if remote == {} {
      return NoRemoteFiles;
    }
    var local := CollectLocal(localFiles);
    var todo := ToDownload(remote, local);
    if todo == [] {
      return UpToDate;
    }
    var issued, success := Download(todo, localDir, test, pullOk);
    r := Downloaded(issued, success, |todo|);
  }

  /**
   * The reported count never exceeds the number of new files; every pull
   * writes a visible remote path that was missing locally from that path's
   * first source; and every such path with a source is pulled.
   */
  lemma SyncResultBounds(fastOk: bool, find: string -> Option<string>, localFiles: seq<string>, localDir: string,
                         test: string -> bool, pullOk: Pull -> bool, p: Pull, rel: string)
    requires SyncResult(fastOk, find, localFiles, localDir, test, pullOk).Downloaded?
    ensures var r := SyncResult(fastOk, find, localFiles, localDir, test, pullOk);
      r.success <= |r.pulls| <= r.total
    ensures var r := SyncResult(fastOk, find, localFiles, localDir, test, pullOk);
      p in r.pulls ==> exists x :: (Visible(x) && x in RemoteSet(find, |Bases|) && x !in LocalSet(localFiles)
        && p.dst == Join(localDir, x) && test(p.src) && FirstPassing(Candidates(x), test) == Some(p.src))
    ensures var r := SyncResult(fastOk, find, localFiles, localDir, test, pullOk);
      (rel in RemoteSet(find, |Bases|) && rel !in LocalSet(localFiles) && FirstPassing(Candidates(rel), test).Some?)
        ==> Pull(FirstPassing(Candidates(rel), test).value, Join(localDir, rel)) in r.pulls
  {
    var r := SyncResult(fastOk, find, localFiles, localDir, test, pullOk);
    var remote := RemoteSet(find, |Bases|);
    var todo := ToDownload(remote, LocalSet(localFiles));
    if p in r.pulls {
      AttemptsMember(todo, localDir, test, p);
      var x :| x in todo && test(p.src) && p.src in Candidates(x) && p.dst == Join(localDir, x)
        && FirstPassing(Candidates(x), test) == Some(p.src);
      RemoteSetVisible(find, |Bases|, x);
    }
    if rel in remote && rel !in LocalSet(localFiles) && FirstPassing(Candidates(rel), test).Some? {
      AttemptsComplete(todo, localDir, test, rel);
    }
  }

  lemma {:induction false} RemoteSetVisible(find: string -> Option<string>, n: nat, x: string)
    requires n <= |Bases| && x in RemoteSet(find, n)
    ensures Visible(x)
  {
    if x !in RemoteSet(find, n - 1) {
      assert x in LineRels(SplitLines(find(Bases[n - 1]).value));
    } else {
      RemoteSetVisible(find, n - 1, x);
    }
  }
}
