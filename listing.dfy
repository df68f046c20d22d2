/** What the downloader makes of a paginated object listing: which keys are
    files (not "directory marker" keys ending in `/`), where each file goes on
    disk, and the download tasks a listing gives rise to. */
module Listing {
  import opened Strings

  /** One page of `list_objects_v2`: the keys of its `Contents`, in order; a
      page without `Contents` is the empty page. */
  type Page = seq<string>

  /** Every page the paginator yields for one bucket and prefix. */
  type Pages = seq<Page>

  /** A key ending in `/` stands for a directory and is never downloaded. */
  predicate IsMarker(key: string) {
    EndsWith(key, "/")
  }

  /** The file keys of one page, in listing order. */
  function PageFiles(page: Page): seq<string>
    decreases |page|
  {
    if page == [] then []
    else if IsMarker(page[|page| - 1]) then PageFiles(page[..|page| - 1])
    else PageFiles(page[..|page| - 1]) + [page[|page| - 1]]
  }

  /** The file keys of a whole listing, page after page. */
  function FileKeys(pages: Pages): seq<string>
    decreases |pages|
  {
    if pages == [] then [] else FileKeys(pages[..|pages| - 1]) + PageFiles(pages[|pages| - 1])
  }

  /** Every key of every page, markers included. */
  function AllKeys(pages: Pages): seq<string>
    decreases |pages|
  {
    if pages == [] then [] else AllKeys(pages[..|pages| - 1]) + pages[|pages| - 1]
  }

  /** A page keeps each of its file keys exactly as often as it lists it and
      drops every marker. */
  lemma {:induction false} PageFilesCount(page: Page, k: string)
    ensures multiset(PageFiles(page))[k] == if IsMarker(k) then 0 else multiset(page)[k]
    decreases |page|
  {
    if page != [] {
      var init := page[..|page| - 1];
      PageFilesCount(init, k);
      assert page == init + [page[|page| - 1]];
    }
  }

  /** The file keys of a listing are its non-marker keys, each as often as the
      listing holds it: no file is lost or duplicated, no marker kept. */
  lemma {:induction false} FileKeysCount(pages: Pages, k: string)
    ensures multiset(FileKeys(pages))[k] == if IsMarker(k) then 0 else multiset(AllKeys(pages))[k]
    decreases |pages|
  {
    if pages != [] {
      FileKeysCount(pages[..|pages| - 1], k);
      PageFilesCount(pages[|pages| - 1], k);
    }
  }

  /** A key is among the file keys exactly when some page lists it and it is
      not a marker. */
  lemma FileKeysMembership(pages: Pages, k: string)
    ensures k in FileKeys(pages) <==> !IsMarker(k) && k in AllKeys(pages)
  {
    FileKeysCount(pages, k);
    assert k in FileKeys(pages) <==> multiset(FileKeys(pages))[k] > 0;
    assert k in AllKeys(pages) <==> multiset(AllKeys(pages))[k] > 0;
  }

  /** Listings concatenate: the file keys of two runs of pages are those of
      the first followed by those of the second, so a page without contents
      adds nothing. */
  lemma {:induction false} FileKeysAppend(first: Pages, second: Pages)
    ensures FileKeys(first + second) == FileKeys(first) + FileKeys(second)
    decreases |second|
  {
    if second == [] {
      assert first + second == first;
    } else {
      var init := second[..|second| - 1];
      FileKeysAppend(first, init);
      assert (first + second)[..|first + second| - 1] == first + init;
    }
  }

  /** The file count is the sum of the per-page counts, whatever the page boundaries. */
  lemma FileCountOfPages(pages: Pages, page: Page)
    ensures |FileKeys(pages + [page])| == |FileKeys(pages)| + |PageFiles(page)|
    ensures |FileKeys(pages + [[]])| == |FileKeys(pages)|
  {
    FileKeysAppend(pages, [page]);
    FileKeysAppend(pages, [[]]);
    assert FileKeys([page]) == FileKeys([]) + PageFiles(page);
    assert FileKeys([[]]) == FileKeys([]) + PageFiles([]);
  }

  /** A listing `a/`, `a/1.txt`, `a/2.txt` holds two files: the marker `a/` is skipped. */
  lemma MarkerSkippedExample()
    ensures FileKeys([["a/", "a/1.txt", "a/2.txt"]]) == ["a/1.txt", "a/2.txt"]
  {
    var page: Page := ["a/", "a/1.txt", "a/2.txt"];
    assert [page][..0] == [];
    assert page[..2][..1][..0] == [];
    assert "a/"[1..] == "/";
    assert "a/1.txt"[6..][0] != "/"[0] && "a/2.txt"[6..][0] != "/"[0];
    assert PageFiles(page[..2][..1]) == [];
    assert PageFiles(page[..2]) == ["a/1.txt"];
    assert PageFiles(page) == ["a/1.txt", "a/2.txt"];
  }

  /** `os.path.join(dir, name)` on POSIX: an absolute `name` replaces `dir`;
      otherwise a `/` is put between them unless `dir` is empty or already
      ends in one. */
  function JoinPath(dir: string, name: string): string {
    if StartsWith(name, "/") then name
    else if dir == "" || EndsWith(dir, "/") then dir + name
    else dir + "/" + name
  }

  /** `dir` with exactly the separator that `JoinPath` puts after it. */
  function DirPrefix(dir: string): string {
    if dir == "" || EndsWith(dir, "/") then dir else dir + "/"
  }

  /** A joined path lies inside a non-empty `dir` exactly when the name is
      relative. */
  lemma JoinPathInside(dir: string, name: string)
    requires dir != ""
    ensures JoinPath(dir, name) == DirPrefix(dir) + name <==> !StartsWith(name, "/")
  {
    if StartsWith(name, "/") {
      assert |DirPrefix(dir) + name| > |name|;
    }
  }

  /** `key[n:]` in Python: empty when `n` is past the end. */
  function DropFront(key: string, n: nat): string {
    if n <= |key| then key[n..] else ""
  }

  /** The path of a key relative to the output directory (lines 204-209):
      the whole key when keeping the structure or when there is no prefix,
      else the key with the prefix's length cut from its front. */
  function RelativePath(key: string, prefix: string, keepStructure: bool): (r: string)
    ensures keepStructure || prefix == "" ==> r == key
    ensures !keepStructure && StartsWith(key, prefix) ==> key == prefix + r
  {
    if keepStructure then key
    else if prefix != "" then
      assert StartsWith(key, prefix) ==> key == key[..|prefix|] + key[|prefix|..];
      DropFront(key, |prefix|)
    else key
  }

  /** Where a key is written (line 206 or 210). */
  function LocalPath(outputDir: string, prefix: string, keepStructure: bool, key: string): string {
    JoinPath(outputDir, RelativePath(key, prefix, keepStructure))
  }

  /** Without `keep_structure`, a key under the prefix is written to the
      output directory followed by the rest of the key: prefix `folder/` and
      key `folder/sub/file.txt` give `out/sub/file.txt`. */
  lemma LocalPathStripsPrefix(outputDir: string, prefix: string, rest: string)
    requires prefix != "" && outputDir != "" && !EndsWith(outputDir, "/")
    requires !StartsWith(rest, "/")
    ensures LocalPath(outputDir, prefix, false, prefix + rest) == outputDir + "/" + rest
  {
    assert (prefix + rest)[|prefix|..] == rest;
  }

  /** With `keep_structure`, the whole key is written below the output
      directory: `folder/sub/file.txt` gives `out/folder/sub/file.txt`. */
  lemma LocalPathKeepsKey(outputDir: string, prefix: string, key: string)
    requires outputDir != "" && !EndsWith(outputDir, "/")
    requires !StartsWith(key, "/")
    ensures LocalPath(outputDir, prefix, true, key) == outputDir + "/" + key
  {
  }

  /** Two keys under the prefix whose relative paths are relative land on two
      different local files: no task overwrites another's output. */
  lemma LocalPathInjective(outputDir: string, prefix: string, keepStructure: bool, k1: string, k2: string)
    requires outputDir != ""
    requires StartsWith(k1, prefix) && StartsWith(k2, prefix)
    requires !StartsWith(RelativePath(k1, prefix, keepStructure), "/")
    requires !StartsWith(RelativePath(k2, prefix, keepStructure), "/")
    requires LocalPath(outputDir, prefix, keepStructure, k1) == LocalPath(outputDir, prefix, keepStructure, k2)
    ensures k1 == k2
  {
    var r1, r2 := RelativePath(k1, prefix, keepStructure), RelativePath(k2, prefix, keepStructure);
    JoinPathInside(outputDir, r1);
    JoinPathInside(outputDir, r2);
    var d := DirPrefix(outputDir);
    assert r1 == (d + r1)[|d|..] == (d + r2)[|d|..] == r2;
  }

  /** One download job: `(bucket, key, local_path)` as submitted to the pool. */
  datatype Task = Task(bucket: string, key: string, localPath: string)

  /** The task for a key of the listing. */
  function TaskFor(bucket: string, prefix: string, outputDir: string, keepStructure: bool, key: string): Task {
    Task(bucket, key, LocalPath(outputDir, prefix, keepStructure, key))
  }

  /** The tasks for `keys`, in order: one per key. */
  function PlannedTasks(keys: seq<string>, bucket: string, prefix: string, outputDir: string, keepStructure: bool): (tasks: seq<Task>)
    ensures |tasks| == |keys|
    decreases |keys|
  {
    if keys == [] then []
    else PlannedTasks(keys[..|keys| - 1], bucket, prefix, outputDir, keepStructure)
         + [TaskFor(bucket, prefix, outputDir, keepStructure, keys[|keys| - 1])]
  }

  /** The `n`-th planned task downloads the `n`-th key to its local path. */
  lemma {:induction false} PlannedTaskAt(keys: seq<string>, bucket: string, prefix: string, outputDir: string, keepStructure: bool, n: nat)
    requires n < |keys|
    ensures PlannedTasks(keys, bucket, prefix, outputDir, keepStructure)[n]
         == Task(bucket, keys[n], LocalPath(outputDir, prefix, keepStructure, keys[n]))
    decreases |keys|
  {
    if n < |keys| - 1 {
      PlannedTaskAt(keys[..|keys| - 1], bucket, prefix, outputDir, keepStructure, n);
    }
  }

  /** Every task planned for a listing downloads a file key the listing
      holds: none is a marker. */
  lemma PlannedTasksAreFiles(pages: Pages, bucket: string, prefix: string, outputDir: string, keepStructure: bool)
    ensures var tasks := PlannedTasks(FileKeys(pages), bucket, prefix, outputDir, keepStructure);
      forall n :: 0 <= n < |tasks| ==> !IsMarker(tasks[n].key) && tasks[n].key in AllKeys(pages)
  {
    var files := FileKeys(pages);
    var tasks := PlannedTasks(files, bucket, prefix, outputDir, keepStructure);
    forall n | 0 <= n < |tasks|
      ensures !IsMarker(tasks[n].key) && tasks[n].key in AllKeys(pages)
    {
      PlannedTaskAt(files, bucket, prefix, outputDir, keepStructure, n);
      FileKeysMembership(pages, files[n]);
    }
  }

  /** Every file key of a listing is downloaded by some planned task. */
  lemma PlannedTasksCoverFiles(pages: Pages, bucket: string, prefix: string, outputDir: string, keepStructure: bool, k: string)
    requires k in AllKeys(pages) && !IsMarker(k)
    ensures var tasks := PlannedTasks(FileKeys(pages), bucket, prefix, outputDir, keepStructure);
      exists n :: 0 <= n < |tasks| && tasks[n].key == k
  {
    var files := FileKeys(pages);
    FileKeysMembership(pages, k);
    var n :| 0 <= n < |files| && files[n] == k;
    PlannedTaskAt(files, bucket, prefix, outputDir, keepStructure, n);
  }

  /** Extending a page prefix by one key adds that key exactly when it is a file. */
  lemma PageFilesStep(page: Page, j: nat)
    requires j < |page|
    ensures PageFiles(page[..j + 1]) == PageFiles(page[..j]) + (if IsMarker(page[j]) then [] else [page[j]])
  {
    assert page[..j + 1][..j] == page[..j];
  }

  /** Extending a listing prefix by one page adds that page's files. */
  lemma FileKeysStep(pages: Pages, i: nat)
    requires i < |pages|
    ensures FileKeys(pages[..i + 1]) == FileKeys(pages[..i]) + PageFiles(pages[i])
  {
    assert pages[..i + 1][..i] == pages[..i];
  }

  /** Planning one more key appends its task. */
  lemma PlannedTasksAppend(keys: seq<string>, key: string, bucket: string, prefix: string, outputDir: string, keepStructure: bool)
    ensures PlannedTasks(keys + [key], bucket, prefix, outputDir, keepStructure)
         == PlannedTasks(keys, bucket, prefix, outputDir, keepStructure) + [TaskFor(bucket, prefix, outputDir, keepStructure, key)]
  {
    assert (keys + [key])[..|keys|] == keys;
  }

  /** Scanning one more key of a page appends its task exactly when it is a file. */
  lemma PlanStep(done: seq<string>, page: Page, j: nat, bucket: string, prefix: string, outputDir: string, keepStructure: bool)
    requires j < |page|
    ensures PlannedTasks(done + PageFiles(page[..j + 1]), bucket, prefix, outputDir, keepStructure)
         == PlannedTasks(done + PageFiles(page[..j]), bucket, prefix, outputDir, keepStructure)
            + (if IsMarker(page[j]) then [] else [TaskFor(bucket, prefix, outputDir, keepStructure, page[j])])
  {
    PageFilesStep(page, j);
    var files := PageFiles(page[..j]);
    if IsMarker(page[j]) {
      assert PageFiles(page[..j + 1]) == files + [] == files;
    } else {
      assert PageFiles(page[..j + 1]) == files + [page[j]];
      assert done + (files + [page[j]]) == (done + files) + [page[j]];
      PlannedTasksAppend(done + files, page[j], bucket, prefix, outputDir, keepStructure);
    }
  }

  /** How many tasks the download oracle lets succeed. */
  function Successes(tasks: seq<Task>, succeeds: Task -> bool): (r: nat)
    ensures r <= |tasks|
    ensures r == |tasks| <==> forall n :: 0 <= n < |tasks| ==> succeeds(tasks[n])
    ensures r == 0 <==> forall n :: 0 <= n < |tasks| ==> !succeeds(tasks[n])
    decreases |tasks|
  {
    if tasks == [] then 0
    else
      var init := tasks[..|tasks| - 1];
      var r := Successes(init, succeeds);
      assert forall n :: 0 <= n < |init| ==> tasks[n] == init[n];
      r + if succeeds(tasks[|tasks| - 1]) then 1 else 0
  }
}
