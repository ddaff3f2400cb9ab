/**
 * Downloading one soundboard: the reconciler that drops identifiers whose file already
 * exists (`download_all_soundboard_files`), the loop that fetches and writes one file
 * per identifier (`download_and_save_mp3s`), and `scrape_soundboard`, which resolves a
 * page and hands its job to them.
 */
module Download {
  import opened Wrappers
  import opened Format
  import opened Web
  import opened Soundboard

  /** The part of the filesystem the downloader sees: existing directories, and file contents by path. */
  datatype Disk = Disk(dirs: set<string>, files: map<string, Bytes>)

  /** `sounds/<dir>/`, relative to the working directory. */
  function DirPath(dir: string): string
  {
    "sounds/" + dir + "/"
  }

  /** `sounds/<dir>/<id>.mp3`, relative to the working directory. */
  function FilePath(dir: string, id: string): string
  {
    DirPath(dir) + id + ".mp3"
  }

  /** Within one directory, different identifiers have different files. */
  lemma FilePathInjective(dir: string, a: string, b: string)
    requires FilePath(dir, a) == FilePath(dir, b)
    ensures a == b
  {
    var d := DirPath(dir);
    assert FilePath(dir, a)[|d|..|d| + |a|] == a;
    assert FilePath(dir, b)[|d|..|d| + |b|] == b;
  }

  /** The identifiers whose file does not exist yet, in their original order. */
  function Missing(files: map<string, Bytes>, dir: string, names: seq<string>): (r: seq<string>)
    ensures |r| <= |names|
    ensures forall i :: 0 <= i < |r| ==> FilePath(dir, r[i]) !in files
    decreases |names|
  {
    if names == [] then []
    else (if FilePath(dir, names[0]) in files then [] else [names[0]]) + Missing(files, dir, names[1..])
  }

  /** An identifier is kept exactly when it was listed and its file is absent. */
  lemma {:induction false} MissingMembers(files: map<string, Bytes>, dir: string, names: seq<string>, id: string)
    ensures id in Missing(files, dir, names) <==> id in names && FilePath(dir, id) !in files
    decreases |names|
  {
    if names != [] {
      MissingMembers(files, dir, names[1..], id);
      assert names == [names[0]] + names[1..];
    }
  }

  /** Filtering works on each part of a list separately, so the kept identifiers keep their order. */
  lemma {:induction false} MissingConcat(files: map<string, Bytes>, dir: string, a: seq<string>, b: seq<string>)
    ensures Missing(files, dir, a + b) == Missing(files, dir, a) + Missing(files, dir, b)
    decreases |a|
  {
    if a == [] {
      assert a + b == b;
    } else {
      assert (a + b)[0] == a[0] && (a + b)[1..] == a[1..] + b;
      MissingConcat(files, dir, a[1..], b);
    }
  }

  /** The list left for downloading: all of it in a new directory, the missing files otherwise. */
  function Remaining(disk: Disk, dir: string, names: seq<string>): seq<string>
  {
    if DirPath(dir) in disk.dirs then Missing(disk.files, dir, names) else names
  }

  /** The directory after the reconciler: it exists, whether or not it did before. */
  function Prepared(disk: Disk, dir: string): Disk
  {
    disk.(dirs := disk.dirs + {DirPath(dir)})
  }

  /**
   * The reconciling half of `download_all_soundboard_files`: create the directory when it
   * is missing, otherwise pop, from the last index down, every identifier whose file
   * exists, counting the pops.
   */
  method Reconcile(disk: Disk, dir: string, fileNames: seq<string>)
    returns (newDisk: Disk, remaining: seq<string>, skipped: nat)
    ensures newDisk == Prepared(disk, dir)
    ensures remaining == Remaining(disk, dir, fileNames)
    ensures skipped + |remaining| == |fileNames|
  {
    remaining := fileNames;
    skipped := 0;
    if DirPath(dir) !in disk.dirs {
      newDisk := Prepared(disk, dir);
    } else {
      newDisk := disk;
      assert Prepared(disk, dir).dirs == disk.dirs;
      var x := |fileNames| - 1;
      while x >= 0
        invariant -1 <= x < |fileNames|
        invariant remaining == fileNames[..x + 1] + Missing(disk.files, dir, fileNames[x + 1..])
        invariant skipped + |remaining| == |fileNames|
      {
        assert fileNames[x..][1..] == fileNames[x + 1..];
        assert remaining[x] == fileNames[x];
        if FilePath(dir, remaining[x]) in disk.files {
          skipped := skipped + 1;
          remaining := remaining[..x] + remaining[x + 1..];
          assert remaining == fileNames[..x] + Missing(disk.files, dir, fileNames[x..]);
        } else {
          assert fileNames[..x + 1] == fileNames[..x] + [fileNames[x]];
        }
        x := x - 1;
      }
      assert fileNames[..0] == [] && fileNames[0..] == fileNames;
    }
  }

  /** `requests.get(BASE_URL + (template % id)).content`. */
  function Fetch(site: Site, template: string, id: string): (r: Result<Bytes, Error>)
    ensures r.Success? <==> Percent(template, id).Success? && BaseUrl + Percent(template, id).value in site
    ensures r.Success? ==> r.value == site[BaseUrl + Percent(template, id).value].content
    ensures Percent(template, id).Failure? ==> r == Failure(FormatError(Percent(template, id).error))
    ensures Percent(template, id).Success? && BaseUrl + Percent(template, id).value !in site ==>
      r == Failure(FetchError(BaseUrl + Percent(template, id).value))
  {
    match Percent(template, id)
    case Failure(e) => Failure(FormatError(e))
    case Success(path) =>
      match Get(site, BaseUrl + path)
      case Failure(e) => Failure(e)
      case Success(response) => Success(response.content)
  }

  /** What the download loop leaves behind: the disk, the paths written in order, and the error that stopped it. */
  datatype Run = Run(disk: Disk, written: seq<string>, error: Option<Error>)

  /** The number of identifiers the loop started on: those written, and the one that failed. */
  function Attempts(run: Run): nat
  {
    |run.written| + if run.error.Some? then 1 else 0
  }

  /**
   * The loop of `download_and_save_mp3s`: for each identifier in order, fetch its file
   * and write it to `sounds/<dir>/<id>.mp3`; the first failure stops the loop and keeps
   * the files already written.
   */
  function SaveAll(site: Site, disk: Disk, dir: string, template: string, names: seq<string>): Run
    decreases |names|
  {
    if names == [] then Run(disk, [], None)
    else
      match Fetch(site, template, names[0])
      case Failure(e) => Run(disk, [], Some(e))
      case Success(body) =>
        var path := FilePath(dir, names[0]);
        if DirPath(dir) !in disk.dirs then Run(disk, [], Some(FileError(path)))
        else
          var rest := SaveAll(site, disk.(files := disk.files[path := body]), dir, template, names[1..]);
          rest.(written := [path] + rest.written)
  }

  /** `run` with `done` written before it. */
  function After(done: seq<string>, run: Run): Run
  {
    run.(written := done + run.written)
  }

  /**
   * The files are written one per identifier, in list order, until the first failure;
   * without a failure every identifier gets its file.
   */
  lemma {:induction false} SaveAllOrder(site: Site, disk: Disk, dir: string, template: string, names: seq<string>)
    ensures var run := SaveAll(site, disk, dir, template, names);
      && |run.written| <= |names|
      && (run.error.None? ==> |run.written| == |names|)
      && (forall k :: 0 <= k < |run.written| ==> run.written[k] == FilePath(dir, names[k]))
    decreases |names|
  {
    if names != [] && Fetch(site, template, names[0]).Success? && DirPath(dir) in disk.dirs {
      var path := FilePath(dir, names[0]);
      var next := disk.(files := disk.files[path := Fetch(site, template, names[0]).value]);
      SaveAllOrder(site, next, dir, template, names[1..]);
    }
  }

  /**
   * The loop stops at the first identifier whose fetch or write fails, and only there:
   * every identifier before it was fetched successfully.
   */
  lemma {:induction false} SaveAllStops(site: Site, disk: Disk, dir: string, template: string, names: seq<string>)
    ensures var run := SaveAll(site, disk, dir, template, names);
      && (forall k :: 0 <= k < |run.written| && k < |names| ==> Fetch(site, template, names[k]).Success?)
      && (run.error.Some? ==>
            && |run.written| < |names|
            && (Fetch(site, template, names[|run.written|]).Failure? || DirPath(dir) !in disk.dirs))
    decreases |names|
  {
    if names != [] && Fetch(site, template, names[0]).Success? && DirPath(dir) in disk.dirs {
      var path := FilePath(dir, names[0]);
      var next := disk.(files := disk.files[path := Fetch(site, template, names[0]).value]);
      SaveAllStops(site, next, dir, template, names[1..]);
      var rest := SaveAll(site, next, dir, template, names[1..]);
      forall k | 0 < k < |rest.written| + 1 && k < |names|
        ensures Fetch(site, template, names[k]).Success?
      {
        assert names[1..][k - 1] == names[k];
      }
      if rest.error.Some? {
        assert names[1..][|rest.written|] == names[|rest.written| + 1];
      }
    }
  }

  /** No file is removed, only the written paths change, and the directories stay as they were. */
  lemma {:induction false} SaveAllFrame(site: Site, disk: Disk, dir: string, template: string, names: seq<string>)
    ensures var run := SaveAll(site, disk, dir, template, names);
      && run.disk.dirs == disk.dirs
      && run.disk.files.Keys == disk.files.Keys + (set p | p in run.written)
      && (forall p :: p in disk.files && p !in run.written ==> run.disk.files[p] == disk.files[p])
    decreases |names|
  {
    if names != [] && Fetch(site, template, names[0]).Success? && DirPath(dir) in disk.dirs {
      var path := FilePath(dir, names[0]);
      var next := disk.(files := disk.files[path := Fetch(site, template, names[0]).value]);
      SaveAllFrame(site, next, dir, template, names[1..]);
      var rest := SaveAll(site, next, dir, template, names[1..]);
      assert (set p | p in [path] + rest.written) == {path} + (set p | p in rest.written);
    }
  }

  /** Each written file holds the body fetched for its identifier. */
  lemma {:induction false} SaveAllContents(site: Site, disk: Disk, dir: string, template: string, names: seq<string>)
    ensures var run := SaveAll(site, disk, dir, template, names);
      forall k :: 0 <= k < |run.written| && k < |names| ==>
        run.written[k] in run.disk.files &&
        Fetch(site, template, names[k]) == Success(run.disk.files[run.written[k]])
    decreases |names|
  {
    if names != [] && Fetch(site, template, names[0]).Success? && DirPath(dir) in disk.dirs {
      var path := FilePath(dir, names[0]);
      var next := disk.(files := disk.files[path := Fetch(site, template, names[0]).value]);
      SaveAllContents(site, next, dir, template, names[1..]);
      SaveAllFrame(site, next, dir, template, names[1..]);
      SaveAllOrder(site, next, dir, template, names[1..]);
      SaveAllStep(site, disk, dir, template, names);
      ContentsCons(site, dir, template, names, next, SaveAll(site, next, dir, template, names[1..]));
    }
  }

  /** The step of `SaveAllContents`: the first file, written before the rest of the run. */
  lemma ContentsCons(site: Site, dir: string, template: string, names: seq<string>, next: Disk, rest: Run)
    requires names != [] && Fetch(site, template, names[0]).Success?
    requires var path := FilePath(dir, names[0]);
      path in next.files && next.files[path] == Fetch(site, template, names[0]).value
    requires next.files.Keys <= rest.disk.files.Keys
    requires forall p :: p in next.files && p !in rest.written ==> rest.disk.files[p] == next.files[p]
    requires |rest.written| < |names|
    requires forall k :: 0 <= k < |rest.written| ==> rest.written[k] == FilePath(dir, names[1..][k])
    requires forall k :: 0 <= k < |rest.written| && k < |names[1..]| ==>
      rest.written[k] in rest.disk.files && Fetch(site, template, names[1..][k]) == Success(rest.disk.files[rest.written[k]])
    ensures var run := After([FilePath(dir, names[0])], rest);
      forall k :: 0 <= k < |run.written| && k < |names| ==>
        run.written[k] in run.disk.files &&
        Fetch(site, template, names[k]) == Success(run.disk.files[run.written[k]])
  {
    var path := FilePath(dir, names[0]);
    var run := After([path], rest);
    forall k | 0 <= k < |run.written| && k < |names|
      ensures run.written[k] in run.disk.files
      ensures Fetch(site, template, names[k]) == Success(run.disk.files[run.written[k]])
    {
      if k == 0 {
        if path in rest.written {
          var j :| 0 <= j < |rest.written| && rest.written[j] == path;
          FilePathInjective(dir, names[0], names[1..][j]);
        }
      } else {
        assert run.written[k] == rest.written[k - 1];
        assert names[1..][k - 1] == names[k];
      }
    }
  }

  /**
   * One counter of the progress line, `index/total`; on the console it reads
   * `Counter(index, total)`.
   */
  datatype Tick = Tick(index: nat, total: nat)

  function TickText(t: Tick): string
  {
    Counter(t.index, t.total)
  }

  /**
   * The progress line after `done` identifiers were started: the counter `0/n` first, then
   * one counter per started identifier, `i/n` in place `i`.
   */
  function Progress(n: nat, done: nat): (r: seq<Tick>)
    ensures |r| == done + 1
  {
    if done == 0 then [Tick(0, n)] else Progress(n, done - 1) + [Tick(done, n)]
  }

  /** The `i`-th entry of the progress line is the counter `i/n`. */
  lemma {:induction false} ProgressEntry(n: nat, done: nat, i: nat)
    requires i <= done
    ensures Progress(n, done)[i] == Tick(i, n)
    ensures TickText(Progress(n, done)[i]) == Counter(i, n)
    decreases done
  {
    if done > 0 && i < done {
      ProgressEntry(n, done - 1, i);
      assert Progress(n, done)[i] == Progress(n, done - 1)[i];
    }
  }

  /** Writes the first counter, `0/n`. */
  method StartProgress(n: nat) returns (line: seq<Tick>)
    ensures line == Progress(n, 0)
  {
    line := [Tick(0, n)];
  }

  /** Writes the counter of the `done`-th identifier after the line so far. */
  method AdvanceProgress(progress: seq<Tick>, n: nat, done: nat) returns (next: seq<Tick>)
    requires 0 < done && progress == Progress(n, done - 1)
    ensures next == Progress(n, done)
  {
    next := progress + [Tick(done, n)];
  }

  /** One step of the download loop, for a non-empty list. */
  lemma SaveAllStep(site: Site, disk: Disk, dir: string, template: string, names: seq<string>)
    requires names != []
    ensures Fetch(site, template, names[0]).Failure? ==>
      SaveAll(site, disk, dir, template, names) == Run(disk, [], Some(Fetch(site, template, names[0]).error))
    ensures Fetch(site, template, names[0]).Success? && DirPath(dir) !in disk.dirs ==>
      SaveAll(site, disk, dir, template, names) == Run(disk, [], Some(FileError(FilePath(dir, names[0]))))
    ensures Fetch(site, template, names[0]).Success? && DirPath(dir) in disk.dirs ==>
      var next := disk.(files := disk.files[FilePath(dir, names[0]) := Fetch(site, template, names[0]).value]);
      SaveAll(site, disk, dir, template, names) == After([FilePath(dir, names[0])], SaveAll(site, next, dir, template, names[1..]))
  {
  }

  /**
   * Where the download loop stands after starting `i` identifiers: `cur` is the disk, `written`
   * the paths written so far, and what is left of the run is still to come; after a failure
   * the run is over.
   */
  ghost predicate Midway(site: Site, disk: Disk, dir: string, template: string, names: seq<string>,
                         i: nat, cur: Disk, written: seq<string>, error: Option<Error>)
  {
    && i <= |names|
    && (error.None? ==>
          && |written| == i
          && SaveAll(site, disk, dir, template, names) == After(written, SaveAll(site, cur, dir, template, names[i..])))
    && (error.Some? ==>
          && |written| + 1 == i
          && SaveAll(site, disk, dir, template, names) == Run(cur, written, error))
  }

  /** One turn of the download loop: fetch the `i`-th file and write it, or fail. */
  method SaveNext(site: Site, disk: Disk, dir: string, template: string, names: seq<string>,
                  i: nat, cur: Disk, ghost written: seq<string>)
    returns (next: Disk, error: Option<Error>, ghost written': seq<string>)
    requires i < |names| && Midway(site, disk, dir, template, names, i, cur, written, None)
    ensures Midway(site, disk, dir, template, names, i + 1, next, written', error)
  {
    var id := names[i];
    ghost var rest := names[i..];
    assert rest[0] == id && rest[1..] == names[i + 1..];
    SaveAllStep(site, cur, dir, template, rest);
    var fetched := Fetch(site, template, id);
    next, written' := cur, written;
    if fetched.Failure? {
      error := Some(fetched.error);
      assert written + [] == written;
    } else if DirPath(dir) !in cur.dirs {
      error := Some(FileError(FilePath(dir, id)));
      assert written + [] == written;
    } else {
      error := None;
      var path := FilePath(dir, id);
      next := cur.(files := cur.files[path := fetched.value]);
      ghost var tail := SaveAll(site, next, dir, template, names[i + 1..]);
      assert written + ([path] + tail.written) == (written + [path]) + tail.written;
      written' := written + [path];
    }
  }

  /**
   * `download_and_save_mp3s`: write the counter `0/n`, then for each identifier write its
   * counter, fetch its file and write it to disk. The first failure stops the loop.
   */
  method DownloadAndSave(site: Site, disk: Disk, dir: string, template: string, fileNames: seq<string>)
    returns (newDisk: Disk, progress: seq<Tick>, error: Option<Error>)
    ensures var run := SaveAll(site, disk, dir, template, fileNames);
      && Attempts(run) <= |fileNames|
      && newDisk == run.disk && error == run.error
      && progress == Progress(|fileNames|, Attempts(run))
  {
    var n := |fileNames|;
    newDisk := disk;
    error := None;
    progress := StartProgress(n);
    ghost var written: seq<string> := [];
    assert fileNames[0..] == fileNames;
    var i := 0;
    while i < n && error.None?
      invariant progress == Progress(n, i)
      invariant Midway(site, disk, dir, template, fileNames, i, newDisk, written, error)
    {
      newDisk, error, written := SaveNext(site, disk, dir, template, fileNames, i, newDisk, written);
      i := i + 1;
      progress := AdvanceProgress(progress, n, i);
    }
    if error.None? {
      assert fileNames[i..] == [];
    }
    assert Attempts(SaveAll(site, disk, dir, template, fileNames)) == i;
  }

  /**
   * What `download_all_soundboard_files` leaves behind: the directory exists, and the
   * identifiers still missing from it are downloaded in order until the first failure.
   */
  function DownloadAll(site: Site, disk: Disk, dir: string, template: string, names: seq<string>): Run
  {
    SaveAll(site, Prepared(disk, dir), dir, template, Remaining(disk, dir, names))
  }

  /**
   * `download_all_soundboard_files`: reconcile the list against the directory, and hand
   * what is left, if anything, to `download_and_save_mp3s`.
   */
  method DownloadAllSoundboardFiles(site: Site, disk: Disk, dir: string, template: string, fileNames: seq<string>)
    returns (newDisk: Disk, skipped: nat, progress: seq<Tick>, error: Option<Error>)
    ensures var remaining := Remaining(disk, dir, fileNames);
      var run := DownloadAll(site, disk, dir, template, fileNames);
      && newDisk == run.disk && error == run.error
      && skipped + |remaining| == |fileNames|
      && progress == if remaining == [] then [] else Progress(|remaining|, Attempts(run))
  {
    var prepared, remaining;
    prepared, remaining, skipped := Reconcile(disk, dir, fileNames);
    if |remaining| == 0 {
      newDisk, progress, error := prepared, [], None;
      return;
    }
    newDisk, progress, error := DownloadAndSave(site, prepared, dir, template, remaining);
  }

  /** Without a failure, every listed identifier has its file afterwards. */
  lemma DownloadAllComplete(site: Site, disk: Disk, dir: string, template: string, names: seq<string>)
    requires DownloadAll(site, disk, dir, template, names).error.None?
    ensures var after := DownloadAll(site, disk, dir, template, names).disk;
      && DirPath(dir) in after.dirs
      && forall id :: id in names ==> FilePath(dir, id) in after.files
  {
    var remaining := Remaining(disk, dir, names);
    var prepared := Prepared(disk, dir);
    SaveAllOrder(site, prepared, dir, template, remaining);
    SaveAllFrame(site, prepared, dir, template, remaining);
    var run := SaveAll(site, prepared, dir, template, remaining);
    forall id | id in names ensures FilePath(dir, id) in run.disk.files {
      if id in remaining {
        var k :| 0 <= k < |remaining| && remaining[k] == id;
        assert run.written[k] == FilePath(dir, id);
      } else {
        MissingMembers(disk.files, dir, names, id);
      }
    }
  }

  /** Running the download a second time after a clean run finds nothing left to fetch. */
  lemma DownloadAllIdempotent(site: Site, disk: Disk, dir: string, template: string, names: seq<string>)
    requires DownloadAll(site, disk, dir, template, names).error.None?
    ensures var after := DownloadAll(site, disk, dir, template, names).disk;
      && Remaining(after, dir, names) == []
      && DownloadAll(site, after, dir, template, names) == Run(after, [], None)
  {
    var after := DownloadAll(site, disk, dir, template, names).disk;
    DownloadAllComplete(site, disk, dir, template, names);
    var left := Missing(after.files, dir, names);
    if left != [] {
      MissingMembers(after.files, dir, names, left[0]);
    }
    assert Prepared(after, dir) == after;
  }

  /** A file that existed before the run keeps its contents: the reconciler skipped it. */
  lemma DownloadAllKeepsExisting(site: Site, disk: Disk, dir: string, template: string, names: seq<string>, id: string)
    requires DirPath(dir) in disk.dirs && FilePath(dir, id) in disk.files
    ensures var after := DownloadAll(site, disk, dir, template, names).disk;
      FilePath(dir, id) in after.files && after.files[FilePath(dir, id)] == disk.files[FilePath(dir, id)]
  {
    var remaining := Remaining(disk, dir, names);
    var prepared := Prepared(disk, dir);
    SaveAllOrder(site, prepared, dir, template, remaining);
    SaveAllFrame(site, prepared, dir, template, remaining);
    var run := SaveAll(site, prepared, dir, template, remaining);
    MissingMembers(disk.files, dir, names, id);
    forall k | 0 <= k < |run.written| ensures run.written[k] != FilePath(dir, id) {
      assert FilePath(dir, remaining[k]) !in disk.files;
    }
  }

  /** `scrape_soundboard`: the outcome on the disk and the error that stopped it, if any. */
  function Scrape(site: Site, disk: Disk, url: string): (Disk, Option<Error>)
  {
    match Resolve(site, url)
    case Failure(e) => (disk, Some(e))
    case Success(None) => (disk, None)
    case Success(Some(job)) =>
      var run := DownloadAll(site, disk, job.dir, job.template, job.sounds);
      (run.disk, run.error)
  }

  /**
   * `scrape_soundboard`: resolve the page into a job, then download the job's files into
   * the directory named after the page title. A page without a manifest tag leaves the
   * disk alone.
   */
  method ScrapeSoundboard(site: Site, disk: Disk, url: string) returns (newDisk: Disk, error: Option<Error>)
    ensures (newDisk, error) == Scrape(site, disk, url)
  {
    match Resolve(site, url)
    case Failure(e) =>
      newDisk, error := disk, Some(e);
    case Success(None) =>
      newDisk, error := disk, None;
    case Success(Some(job)) =>
      var skipped, progress;
      newDisk, skipped, progress, error := DownloadAllSoundboardFiles(site, disk, job.dir, job.template, job.sounds);
  }

  /** The disk `after` keeps every directory and every file path of `before`. */
  predicate Grows(before: Disk, after: Disk)
  {
    before.dirs <= after.dirs && before.files.Keys <= after.files.Keys
  }

  lemma GrowsTrans(a: Disk, b: Disk, c: Disk)
    requires Grows(a, b) && Grows(b, c)
    ensures Grows(a, c)
  {
  }

  /** Scraping never deletes a file: the disk only gains files and directories. */
  lemma ScrapeGrows(site: Site, disk: Disk, url: string)
    ensures Grows(disk, Scrape(site, disk, url).0)
  {
    match Resolve(site, url)
    case Failure(_) =>
    case Success(None) =>
    case Success(Some(job)) =>
      var prepared := Prepared(disk, job.dir);
      SaveAllFrame(site, prepared, job.dir, job.template, Remaining(disk, job.dir, job.sounds));
  }
}
