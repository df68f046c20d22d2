# gs3d folder downloader: a Dafny model

This project models the core of `S3FolderDownloader` (`src/GS3D.py`). The
downloader copies every object under an S3 "folder" to a local directory.

- `parse_s3_url` turns the location the user gives into a bucket and a key
  prefix. It tries three URL shapes strictly in order:
  - the native `s3://bucket/key`;
  - a URL containing `s3.amazonaws.com` (virtual-hosted: the bucket is the
    first label of the host);
  - a URL containing both `s3-` and `.amazonaws.com` (path style: the
    bucket is the first path segment).

  Anything else is an error. A parsed, non-empty prefix ends in `/`.
- `count_files` counts, over every page of the listing, the keys that do not
  end in `/`. Keys ending in `/` are "directory markers".
- `download_folder` does four things in order:
  1. It parses the URL unless the bucket and the prefix are both already set.
  2. It counts the files, and returns at once when there are none.
  3. It lists the prefix a second time and submits one download task per
     file key.
  4. It computes each task's local path by the `keep_structure` rule: the
     whole key, or the key with the prefix's length cut from its front.
- `download_file` adds one to the downloaded-files counter for each download
  that succeeds.

The model has four modules:

- `Strings`: the Python `str` operations the code relies on, with their exact
  semantics. These are `startswith`, `endswith`, `in`, `split(c, 1)`,
  `lstrip(c)` and `replace`.
- `S3Url`: the parser, as pure functions. The lemmas cover each URL shape
  (bucket and prefix extraction), the precedence of the shapes, and the
  trailing-slash rule.
- `Listing`: the marker filter, the local-path rule and the task plan of a
  listing. These are stated as functions, with lemmas about counts,
  membership and coverage.
- `Downloader`: the class `S3FolderDownloader`, with its fields and
  imperative methods. The counting and dispatch loops are proved against the
  `Listing` functions. The counter is proved to rise by exactly the number of
  successful tasks, and the early return when no file is found is proved.

The object store enters as parameters, not as calls:

- A `Store` maps a bucket and prefix to the pages a listing yields. The count
  pass and the dispatch pass each get their own `Store`, because the code
  lists twice.
- A `succeeds` oracle says whether a task's transfer works.

Three behaviours of the code that the model keeps as they are:

- Only a prefix that `parse_s3_url` produces is given a trailing `/`
  (lines 78-80). A bucket and prefix already set on the object are used
  unchanged (lines 163-164).
- The relative path is `key[len(prefix):]`, and a leading `/` left in it is
  not stripped (line 209). `os.path.join` then treats such a path as absolute.
- An empty bucket name is accepted: nothing in lines 54-82 rejects it.

A regional virtual-hosted URL such as `https://b.s3.us-east-1.amazonaws.com/k`
matches neither https test. It is modelled as rejected, which is what the
code does, even though the docstring at line 28 advertises that shape.

## Model

| member | source | states |
|---|---|---|
| Strings.ContainsAt | src/GS3D.py:61 | The `in` test holds exactly when the pattern occurs at some index of the string. |
| Strings.SplitOnce | src/GS3D.py:58 | `split(c, 1)` gives one part exactly when `c` does not occur. Otherwise it gives a head without `c` and a tail, and head, `c` and tail rebuild the input. |
| Strings.SplitOnceAt | src/GS3D.py:58 | Splitting `h + c + t`, where `h` holds no `c`, cuts exactly between `h` and `t`. |
| Strings.LStrip | src/GS3D.py:65 | `lstrip(c)` returns a suffix of the input that does not start with `c`. Every character it removed is `c`. |
| Strings.ReplaceAbsent | src/GS3D.py:58 | `replace` leaves a string unchanged when the pattern does not occur in it. |
| Strings.ReplaceFront | src/GS3D.py:58 | `replace` consumes an occurrence at the front and carries on after it. |
| Strings.ReplaceShrinks | src/GS3D.py:58 | Deleting a pattern with `replace` never lengthens a string, and shortens it by at least the pattern's length when the pattern occurs. |
| Strings.ReplaceSkip | src/GS3D.py:58 | `replace` copies a leading part in which no occurrence starts, and works on the remainder alone. |
| S3Url.SplitUrl | src/GS3D.py:63-64 | The network location `urlparse` yields contains no `/`. When there is a network location, the path is empty or starts with `/`. |
| S3Url.NetlocAndPath | src/GS3D.py:63-64 | The text after `//` splits into a host without `/` and a path that is empty or absolute, and together they rebuild the text. |
| S3Url.NetlocAndPathOf | src/GS3D.py:63-64 | A host without `/` followed by an empty or absolute path splits back into exactly that host and path. |
| S3Url.SplitUrlOf | src/GS3D.py:63-64 | `scheme://host/path` splits back into that host and path (round trip). |
| S3Url.Normalize | src/GS3D.py:78-80 | The prefix is empty exactly when the input was. A non-empty prefix ends in `/`, extends the input by at most one character, and an input already ending in `/` is kept. |
| S3Url.NormalizeIdempotent | src/GS3D.py:78-80 | Normalising twice is normalising once. |
| S3Url.BucketAndKey | src/GS3D.py:58-60 | The bucket holds no `/`. Either the text is all bucket and the key is empty, or the text is the bucket, `/` and the key. |
| S3Url.FirstLabel | src/GS3D.py:64 | The first label holds no `.`. It is the whole host or the host's front up to its first `.`, and it holds no `/` when the host holds none. |
| S3Url.ParseHttps | src/GS3D.py:61-76 | The https shapes fail exactly when neither the `s3.amazonaws.com` test nor the `s3-` with `.amazonaws.com` test holds. A parsed bucket holds no `/`. |
| S3Url.ParseS3Url | src/GS3D.py:54-82 | Parsing fails exactly when none of the three shape tests holds. A parsed bucket holds no `/`. A parsed prefix is empty or ends in `/`. |
| S3Url.ParseS3UrlAsWritten | src/GS3D.py:56-60 | The code's `replace` version fails on exactly the same URLs as the corrected parser, and its bucket holds no `/`. |
| S3Url.ParseNative | src/GS3D.py:56-60 | `s3://bucket/key` parses to that bucket and the normalised key, whatever the key contains. |
| S3Url.ParseNativeBucketOnly | src/GS3D.py:58-60 | `s3://bucket` with no `/` parses to that bucket and an empty prefix. |
| S3Url.ParseVirtualHosted | src/GS3D.py:61-65 | A non-native URL containing `s3.amazonaws.com` with host `first.domain` parses to bucket `first` and the path without leading `/`s, normalised. This holds even when the path style's markers are present as well (precedence). |
| S3Url.VirtualHostedSplit | src/GS3D.py:63-64 | For such a URL, `urlparse` yields the original path, and the host's first label is the bucket. |
| S3Url.ParsePathStyle | src/GS3D.py:66-71 | A non-native URL without `s3.amazonaws.com` that contains `s3-` and `.amazonaws.com`, with path `/…/bucket/key` (one or more leading slashes), parses to that bucket and the normalised key. |
| S3Url.ParsePathStyleBucketOnly | src/GS3D.py:66-71 | The same shape with path `/…/bucket` and nothing after the bucket parses to that bucket and an empty prefix (the `''` branch of line 71). |
| S3Url.PathStyleSplit | src/GS3D.py:68-69 | The path of `scheme://host` followed by a run of slashes and a text not starting with `/`, with its leading slashes stripped, is that text. |
| S3Url.LStripRun | src/GS3D.py:65-69 | `lstrip(c)` removes a whole leading run of `c` and stops at the first other character. |
| S3Url.AsWrittenAgrees | src/GS3D.py:58 | The code's `replace('s3://', '')` and removing only the scheme agree on every URL in which `s3://` does not occur again after the scheme. |
| S3Url.AsWrittenDisagrees | src/GS3D.py:58 | On every URL in which `s3://` does occur again after the scheme, the two give different locations. With the lemma above: they agree exactly when `s3://` does not reappear. |
| S3Url.LocationSize | src/GS3D.py:58-80 | The bucket and the normalised prefix split from a text together have the text's length, give or take one. |
| S3Url.AsWrittenDropsInnerScheme | src/GS3D.py:58 | For `s3://bucket/s3://key`, the intended prefix is `s3://key` normalised. The code as written yields `key` normalised, and the two differ. |
| S3Url.ReplaceInnerScheme | src/GS3D.py:58 | `replace('s3://', '')` turns `s3://bucket/s3://key` into `bucket/key`. |
| S3Url.NoSchemeAcrossSlash | src/GS3D.py:58 | In `bucket/s3://…` with no `/` in the bucket, no `s3://` starts before the one after the slash. |
| Listing.PageFilesCount | src/GS3D.py:134 | The file keys of a page hold each non-marker key exactly as often as the page lists it, and no marker. |
| Listing.FileKeysCount | src/GS3D.py:131-135 | Over all pages, each non-marker key is kept as often as the listing holds it and each marker is dropped (as multisets). |
| Listing.FileKeysMembership | src/GS3D.py:131-135 | A key is a file key exactly when some page lists it and it does not end in `/`. |
| Listing.FileKeysAppend | src/GS3D.py:131-135 | The file keys of two runs of pages are those of the first followed by those of the second. |
| Listing.FileCountOfPages | src/GS3D.py:131-135 | One more page adds its own file count, and a page without `Contents` adds nothing. |
| Listing.MarkerSkippedExample | src/GS3D.py:134 | The page `a/`, `a/1.txt`, `a/2.txt` has exactly the files `a/1.txt` and `a/2.txt`. |
| Listing.JoinPathInside | src/GS3D.py:204-210 | `os.path.join` puts the name inside a non-empty directory exactly when the name is not absolute. |
| Listing.RelativePath | src/GS3D.py:204-209 | With `keep_structure` or no prefix, the relative path is the key. Otherwise, for a key under the prefix, the prefix followed by the result gives back the key. |
| Listing.LocalPathStripsPrefix | src/GS3D.py:207-210 | Without `keep_structure`, the key `prefix + rest` is written to `output_dir/rest`. For example, `folder/` and `folder/sub/file.txt` give `out/sub/file.txt`. |
| Listing.LocalPathKeepsKey | src/GS3D.py:204-206 | With `keep_structure`, a key is written to `output_dir/key`. |
| Listing.LocalPathInjective | src/GS3D.py:204-210 | Two keys under the prefix with relative paths land on the same local file only when they are the same key. |
| Listing.PlannedTasks | src/GS3D.py:194-220 | The plan has one task per file key. |
| Listing.PlannedTaskAt | src/GS3D.py:213-219 | The n-th task downloads the n-th file key of the bucket to that key's local path. |
| Listing.PlannedTasksAreFiles | src/GS3D.py:199-201 | Every planned task downloads a key the listing holds, and that key is not a marker. |
| Listing.PlannedTasksCoverFiles | src/GS3D.py:194-220 | Every non-marker key of the listing is downloaded by some planned task. |
| Listing.PageFilesStep | src/GS3D.py:196-201 | Scanning one more key of a page adds it exactly when it is not a marker. |
| Listing.FileKeysStep | src/GS3D.py:194-196 | Scanning one more page adds that page's file keys. |
| Listing.PlannedTasksAppend | src/GS3D.py:213-220 | Planning one more key appends exactly its task. |
| Listing.PlanStep | src/GS3D.py:196-220 | Scanning one more key of a page appends that key's task exactly when the key is not a marker, and otherwise leaves the plan as it was. |
| Listing.Successes | src/GS3D.py:149-150 | The number of successful tasks is at most the number of tasks. It equals the number of tasks exactly when all succeed, and is zero exactly when none does. |
| Downloader.Resolve | src/GS3D.py:163-164 | Resolution fails exactly when a parse is needed (bucket or prefix unset) and none of the three shape tests of lines 56, 61 and 66 holds. A location obtained by parsing has a bucket without `/` and an empty or `/`-terminated prefix. A bucket and prefix already set are kept exactly, without normalisation. |
| Downloader.ResolveAgain | src/GS3D.py:163-164 | Resolving from a resolved location gives that same location: a second run looks where the first one did. |
| Downloader.S3FolderDownloader.constructor | src/GS3D.py:37-51 | The output directory falls back to the working directory. `keep_structure` is off, the bucket and prefix are unset, and both counters are zero. |
| Downloader.S3FolderDownloader.CountFiles | src/GS3D.py:125-137 | The count is the number of non-marker keys over all pages. |
| Downloader.S3FolderDownloader.PlanTasks | src/GS3D.py:194-220 | The tasks dispatched for a listing are exactly the planned tasks of its file keys, in listing order, and none is for a marker. |
| Downloader.S3FolderDownloader.PlanPage | src/GS3D.py:196-220 | The inner loop over one page extends the plan of the keys seen so far to the plan of those keys followed by the page's file keys. |
| Downloader.S3FolderDownloader.DownloadFile | src/GS3D.py:139-157 | The result is the oracle's verdict for the task. The counter rises by one exactly when the download succeeds, and is otherwise unchanged. |
| Downloader.S3FolderDownloader.RunTasks | src/GS3D.py:192-220 | After the pool has run the tasks, the counter has gained exactly the number of successful tasks. |
| Downloader.S3FolderDownloader.ResolveLocation | src/GS3D.py:163-164 | It succeeds exactly when `Resolve` does. On success the fields hold the resolved location. On failure they are unchanged. |
| Downloader.S3FolderDownloader.DownloadFolder | src/GS3D.py:159-231 | An unrecognised URL ends the run with the fields, the total and the counter unchanged and no task. The total is the file count of the first listing. A total of zero returns before any task is dispatched and the counter is unchanged. Otherwise the tasks are the plan of the second listing, and the counter gains the number of successes, never more than the number of tasks. When both listings agree, the number of tasks equals the total. |

## Left out

- `initialize_s3_client` (lines 84-123): credential and client selection happen outside the model. The store is a parameter.
- The thread pool and its lock (lines 149, 192): tasks run one after the other in dispatch order. This is one legal schedule of the pool. With the lock, the counter's final value does not depend on the schedule.
- `max_workers`, the profile, the keys, the region and the anonymous flag: they only configure the client and the pool.
- The progress bar, `print` and `os.makedirs` (lines 143, 151-152, 170-177, 179, 182, 186, 222-226, 229-231): output only. A failing `makedirs` is folded into the `succeeds` oracle, like the transfer itself.
- Network I/O: a listing is a `Store` snapshot, and a transfer is the `succeeds` oracle. An error raised while listing (caught at line 228) is not modelled. Only the unrecognised-URL error is.
- `main` and the argument parser: not part of the core. Setting `keep_structure` from the command line is therefore not modelled as an operation. The field exists and is read by the path rule.
- User cancellation and byte-level progress: not part of the core.
- The unset fields: `None` and `''` are both modelled as the empty string. The code tests both with `not`, so they behave the same.
- SplitUrl: models only the network-location and path split of `urllib.parse.urlparse`. Among the ways it differs from it:
  - The scheme ends at the first `:`, and the scheme is not checked for validity.
  - `urlparse` cuts `;params` off the last path segment for every scheme that takes parameters (among them `http`, `https` and a URL without a scheme). The model leaves them in the path, so `https://b.s3.amazonaws.com/d/a;v=1` gives prefix `d/a;v=1/` in the model and `d/a/` in the program.
  - `urlparse` ends the network location at the first `/`, `?` or `#` and removes the query and fragment from the path. The model ends it only at `/`, and keeps a query or fragment in the network location or the path, so `https://b.s3.amazonaws.com?x/y` gives prefix `y/` in the model and an empty prefix in the program.
  - `urlparse` raises `ValueError` when the network location's brackets are unmatched or do not enclose a valid IP literal followed only by an optional `:port`, or when a non-ASCII network location gains one of `/ ? # @ :` under NFKC normalisation. Line 228 catches it, ending the run as for an unrecognised URL, with the fields unchanged. The model parses such URLs: `https://[b.s3.amazonaws.com/k` gives bucket `[b`, `https://[x].s3.amazonaws.com/k` gives bucket `[x]`, and a host `b℀.s3.amazonaws.com` gives bucket `b℀`.
  - `urlparse` strips leading control characters and spaces and deletes tabs, carriage returns and line feeds anywhere in the URL. The model keeps them.
- Listing.JoinPathInside: `os.path.join` is modelled in its POSIX form with two arguments.
- Downloader.S3FolderDownloader.ResolveLocation, and through it Downloader.S3FolderDownloader.DownloadFolder, parse with the corrected `S3Url.ParseS3Url`. For a URL in which `s3://` reappears after the scheme, such as `s3://b/s3://k`, the modelled run lists prefix `s3://k/` where the program lists `k/`. On every other URL the two parsers agree (`S3Url.AsWrittenAgrees`).
- S3Url.ParseS3Url: it removes only the leading `s3://`, the evidently intended behaviour. The code's own `replace` is `S3Url.ParseS3UrlAsWritten` (see Findings).

## Findings

| source | as written | input that shows it | evidently intended | confidence | as-written member | corrected member |
|---|---|---|---|---|---|---|
| src/GS3D.py:58 | `s3_url.replace('s3://', '')` removes every occurrence of `s3://`, not just the scheme | `s3://b/s3://k` parses to prefix `k/` instead of `s3://k/` | remove only the leading scheme (`s3_url[5:]`) | high; not executed | S3Url.AsWrittenDropsInnerScheme | S3Url.ParseNative |
