/** The folder downloader (`S3FolderDownloader`): it counts the files under
    the parsed prefix, dispatches one download task per file and counts the
    downloads that succeed. The object store is reduced to what the code asks
    of it: the pages of a listing and, per task, whether the download
    succeeds. The worker pool is run as a sequential loop. */
module Downloader {
  import opened Strings
  import opened S3Url
  import opened Listing

  /** A snapshot of the store: the pages `list_objects_v2` yields for a bucket and prefix. */
  type Store = (string, string) -> Pages

  /** Which way `download_folder` ended: the URL was rejected (line 73, caught
      at line 228), the prefix held no files (line 183), or every task was
      dispatched and ran (line 226). */
  datatype RunStatus = InvalidUrl | NoFiles | Finished

  /** Where a run looks (lines 163-164): the bucket and prefix already set on
      the downloader when both are non-empty, otherwise what the URL parses to. */
  function Resolve(bucket: string, prefix: string, url: string): (r: ParseResult)
    ensures r.Unrecognised? <==> (
      (bucket == "" || prefix == "") && !StartsWith(url, Scheme) && !Contains(url, VirtualHostMarker) &&
      !(Contains(url, RegionMarker) && Contains(url, ServiceDomain)))
    ensures r.Parsed? && (bucket == "" || prefix == "") ==>
      '/' !in r.loc.bucket && (r.loc.prefix == "" || EndsWith(r.loc.prefix, "/"))
    ensures bucket != "" && prefix != "" ==> r == Parsed(Location(bucket, prefix))
  {
    if bucket != "" && prefix != "" then Parsed(Location(bucket, prefix)) else ParseS3Url(url)
  }

  /** Resolving from a resolved location changes nothing: a second run of
      `download_folder` looks where the first one did. */
  lemma ResolveAgain(bucket: string, prefix: string, url: string)
    requires Resolve(bucket, prefix, url).Parsed?
    ensures var loc := Resolve(bucket, prefix, url).loc;
      Resolve(loc.bucket, loc.prefix, url) == Parsed(loc)
  {
  }

  class S3FolderDownloader {
    var url: string
    var outputDir: string
    var keepStructure: bool
    var bucket: string
    var prefix: string
    var totalFiles: nat
    var downloadedFiles: nat

    /** `__init__`: the output directory falls back to the working directory;
        nothing is parsed or counted yet. */
    constructor (url: string, outputDir: string, cwd: string)
      ensures this.url == url
      ensures this.outputDir == (if outputDir == "" then cwd else outputDir)
      ensures !keepStructure && bucket == "" && prefix == ""
      ensures totalFiles == 0 && downloadedFiles == 0
    {
      this.url := url;
      this.outputDir := if outputDir == "" then cwd else outputDir;
      keepStructure := false;
      bucket, prefix := "", "";
      totalFiles, downloadedFiles := 0, 0;
    }

    /** `count_files`: the number of keys over all pages that are not
        directory markers. */
    method CountFiles(pages: Pages) returns (count: nat)
      ensures count == |FileKeys(pages)|
    {
      count := 0;
      var i := 0;
      while i < |pages|
        invariant 0 <= i <= |pages|
        invariant count == |FileKeys(pages[..i])|
      {
        var page := pages[i];
        var files := 0;
        var j := 0;
        while j < |page|
          invariant 0 <= j <= |page|
          invariant files == |PageFiles(page[..j])|
        {
          assert page[..j + 1][..j] == page[..j];
          if !EndsWith(page[j], "/") {
            files := files + 1;
          }
          j := j + 1;
        }
        assert page[..j] == page;
        assert pages[..i + 1][..i] == pages[..i];
        count := count + files;
        i := i + 1;
      }
      assert pages[..i] == pages;
    }

    /** The dispatch loop of `download_folder` (lines 194-220): in listing
        order, one task per key that is not a directory marker, with the
        local path chosen by the `keep_structure` rule. */
    method PlanTasks(pages: Pages) returns (tasks: seq<Task>)
      ensures tasks == PlannedTasks(FileKeys(pages), bucket, prefix, outputDir, keepStructure)
      ensures forall n :: 0 <= n < |tasks| ==> !IsMarker(tasks[n].key)
    {
      tasks := [];
      var i := 0;
      while i < |pages|
        invariant 0 <= i <= |pages|
        invariant tasks == PlannedTasks(FileKeys(pages[..i]), bucket, prefix, outputDir, keepStructure)
      {
        tasks := PlanPage(pages[i], FileKeys(pages[..i]), tasks);
        FileKeysStep(pages, i);
        i := i + 1;
      }
      assert pages[..i] == pages;
      PlannedTasksAreFiles(pages, bucket, prefix, outputDir, keepStructure);
    }

    /** The inner loop of the dispatch (lines 196-220): the tasks planned for
        the keys `done` seen so far, followed by one task per file key of
        `page`. */
    method PlanPage(page: Page, ghost done: seq<string>, tasks: seq<Task>) returns (extended: seq<Task>)
      requires tasks == PlannedTasks(done, bucket, prefix, outputDir, keepStructure)
      ensures extended == PlannedTasks(done + PageFiles(page), bucket, prefix, outputDir, keepStructure)
    {
      extended := tasks;
      assert page[..0] == [] && done + [] == done;
      var j := 0;
      while j < |page|
        invariant 0 <= j <= |page|
        invariant extended == PlannedTasks(done + PageFiles(page[..j]), bucket, prefix, outputDir, keepStructure)
      {
        var key := page[j];
        PlanStep(done, page, j, bucket, prefix, outputDir, keepStructure);
        if !EndsWith(key, "/") {
          var task := TaskFor(bucket, prefix, outputDir, keepStructure, key);
          extended := extended + [task];
        }
        j := j + 1;
      }
      assert page[..j] == page;
    }

    /** `download_file`: the counter goes up by one exactly when the download
        succeeds; `succeeds` stands for the store's transfer and the directory
        creation before it. */
    method DownloadFile(bucket: string, key: string, localPath: string, succeeds: Task -> bool) returns (ok: bool)
      modifies this`downloadedFiles
      ensures ok == succeeds(Task(bucket, key, localPath))
      ensures downloadedFiles == old(downloadedFiles) + (if ok then 1 else 0)
    {
      ok := succeeds(Task(bucket, key, localPath));
      if ok {
        downloadedFiles := downloadedFiles + 1;
      }
    }

    /** The worker pool, run one task after the other: the counter gains the
        number of tasks that succeed. */
    method RunTasks(tasks: seq<Task>, succeeds: Task -> bool)
      modifies this`downloadedFiles
      ensures downloadedFiles == old(downloadedFiles) + Successes(tasks, succeeds)
    {
      var i := 0;
      while i < |tasks|
        invariant 0 <= i <= |tasks|
        invariant downloadedFiles == old(downloadedFiles) + Successes(tasks[..i], succeeds)
      {
        assert tasks[..i + 1][..i] == tasks[..i];
        var _ := DownloadFile(tasks[i].bucket, tasks[i].key, tasks[i].localPath, succeeds);
        i := i + 1;
      }
      assert tasks[..i] == tasks;
    }

    /** The first step of `download_folder` (lines 163-164): parse the URL
        unless both the bucket and the prefix are already known. */
    method ResolveLocation() returns (ok: bool)
      modifies this`bucket, this`prefix
      ensures ok == Resolve(old(bucket), old(prefix), url).Parsed?
      ensures ok ==> Resolve(old(bucket), old(prefix), url).loc == Location(bucket, prefix)
      ensures !ok ==> bucket == old(bucket) && prefix == old(prefix)
    {
      ok := true;
      if bucket == "" || prefix == "" {
        var parsed := ParseS3Url(url);
        if parsed.Unrecognised? {
          return false;
        }
        bucket, prefix := parsed.loc.bucket, parsed.loc.prefix;
      }
    }

    /** `download_folder`: resolve the location, count the files on a first
        listing, stop when there are none, otherwise dispatch one task per
        file of a second listing and run them. `countPass` and `dispatchPass`
        are the store as the two listings see it. */
    method DownloadFolder(countPass: Store, dispatchPass: Store, succeeds: Task -> bool)
      returns (status: RunStatus, tasks: seq<Task>)
      modifies this`bucket, this`prefix, this`totalFiles, this`downloadedFiles
      ensures status == InvalidUrl <==> Resolve(old(bucket), old(prefix), url).Unrecognised?
      ensures status == InvalidUrl ==>
        bucket == old(bucket) && prefix == old(prefix) && totalFiles == old(totalFiles)
      ensures status != InvalidUrl ==> Resolve(old(bucket), old(prefix), url).loc == Location(bucket, prefix)
      ensures status != InvalidUrl ==> totalFiles == |FileKeys(countPass(bucket, prefix))|
      ensures status == NoFiles <==> status != InvalidUrl && totalFiles == 0
      ensures status != Finished ==> tasks == [] && downloadedFiles == old(downloadedFiles)
      ensures status == Finished ==>
        tasks == PlannedTasks(FileKeys(dispatchPass(bucket, prefix)), bucket, prefix, outputDir, keepStructure)
      ensures status == Finished ==> downloadedFiles == old(downloadedFiles) + Successes(tasks, succeeds)
      ensures status == Finished ==> old(downloadedFiles) <= downloadedFiles <= old(downloadedFiles) + |tasks|
      ensures status == Finished && countPass(bucket, prefix) == dispatchPass(bucket, prefix) ==>
        |tasks| == totalFiles
    {
      var located := ResolveLocation();
      if !located {
        return InvalidUrl, [];
      }
      totalFiles := CountFiles(countPass(bucket, prefix));
      if totalFiles == 0 {
        return NoFiles, [];
      }
      tasks := PlanTasks(dispatchPass(bucket, prefix));
      RunTasks(tasks, succeeds);
      status := Finished;
    }
  }
}
