/** Parsing of the S3 location the user gives on the command line into a
    bucket name and a key prefix (`S3FolderDownloader.parse_s3_url`). */
module S3Url {
  import opened Strings

  /** A parsed location: the bucket and the key prefix ("folder") inside it. */
  datatype Location = Location(bucket: string, prefix: string)

  /** Either a location, or the `ValueError` raised for an unrecognised URL. */
  datatype ParseResult = Parsed(loc: Location) | Unrecognised

  /** The native scheme, tested first. */
  const Scheme: string := "s3://"

  /** The host marker of the virtual-hosted shape `https://bucket.s3.region.amazonaws.com/key`. */
  const VirtualHostMarker: string := "s3.amazonaws.com"

  /** The two markers of the path shape `https://s3-region.amazonaws.com/bucket/key`. */
  const RegionMarker: string := "s3-"
  const ServiceDomain: string := ".amazonaws.com"

  /** The part of `urllib.parse.urlparse` the parser reads: the network
      location and the path. The scheme ends at the first `:`; when `//`
      follows it, the network location runs from there to the next `/` and
      the path is the rest, `/` included; otherwise there is no network
      location and everything after the scheme is the path. */
  datatype UrlParts = UrlParts(netloc: string, path: string)

  function SplitUrl(url: string): (r: UrlParts)
    ensures '/' !in r.netloc
    ensures r.netloc == [] || r.path == [] || r.path[0] == '/'
  {
    var parts := SplitOnce(url, ':');
    var afterScheme := if parts.Two? then parts.tail else url;
    if |afterScheme| >= 2 && afterScheme[0] == '/' && afterScheme[1] == '/' then
      NetlocAndPath(afterScheme[2..])
    else
      UrlParts("", afterScheme)
  }

  /** The text after `//`: the network location up to the first `/`, then the path. */
  function NetlocAndPath(text: string): (r: UrlParts)
    ensures '/' !in r.netloc
    ensures r.path == [] || r.path[0] == '/'
    ensures r.netloc + r.path == text
  {
    var parts := SplitOnce(text, '/');
    if parts.One? then UrlParts(text, "")
    else
      assert parts.head + ("/" + parts.tail) == parts.head + "/" + parts.tail;
      UrlParts(parts.head, "/" + parts.tail)
  }

  /** A host without `/` followed by an empty or absolute path splits back into the two. */
  lemma NetlocAndPathOf(host: string, path: string)
    requires '/' !in host
    requires path == [] || path[0] == '/'
    ensures NetlocAndPath(host + path) == UrlParts(host, path)
  {
    if path == [] {
      assert host + path == host;
    } else {
      assert host + path == host + [path[0]] + path[1..];
      SplitOnceAt(host, '/', path[1..]);
    }
  }

  /** A URL assembled from a scheme without `:`, `://`, a host without `/` and
      a path that is empty or starts with `/` splits back into that host and path. */
  lemma SplitUrlOf(scheme: string, host: string, path: string)
    requires ':' !in scheme && '/' !in host
    requires path == [] || path[0] == '/'
    ensures SplitUrl(scheme + "://" + host + path) == UrlParts(host, path)
  {
    var url := scheme + "://" + host + path;
    var hostAndPath := host + path;
    var rest := "//" + hostAndPath;
    assert url == scheme + [':'] + rest;
    SplitOnceAt(scheme, ':', rest);
    var afterScheme := SplitOnce(url, ':').tail;
    assert afterScheme == rest;
    assert rest[0] == '/' && rest[1] == '/';
    assert rest[|"//"|..] == hostAndPath;
    NetlocAndPathOf(host, path);
    assert SplitUrl(url) == NetlocAndPath(afterScheme[2..]);
  }

  /** The trailing-slash rule applied to every parsed prefix (lines 78-80). */
  function Normalize(prefix: string): (r: string)
    ensures r == "" <==> prefix == ""
    ensures r != "" ==> EndsWith(r, "/")
    ensures StartsWith(r, prefix) && |r| <= |prefix| + 1
    ensures EndsWith(prefix, "/") ==> r == prefix
  {
    if prefix != "" && !EndsWith(prefix, "/") then prefix + "/" else prefix
  }

  /** Normalising twice is normalising once. */
  lemma NormalizeIdempotent(prefix: string)
    ensures Normalize(Normalize(prefix)) == Normalize(prefix)
  {
  }

  /** `text.split('/', 1)` read as bucket and key: the bucket is the text before
      the first `/`, the key the text after it, or empty when there is no `/`. */
  function BucketAndKey(text: string): (r: Location)
    ensures '/' !in r.bucket
    ensures r.bucket == text || text == r.bucket + "/" + r.prefix
    ensures r.bucket == text ==> r.prefix == ""
  {
    var parts := SplitOnce(text, '/');
    Location(parts.First(), parts.Rest())
  }

  /** Text before the first `.` of a host name (`netloc.split('.')[0]`). */
  function FirstLabel(host: string): (r: string)
    ensures '.' !in r
    ensures r == host || StartsWith(host, r + ".")
    ensures '/' !in host ==> '/' !in r
  {
    var parts := SplitOnce(host, '.');
    if parts.Two? then
      assert host[..|parts.head| + 1] == parts.head + ".";
      parts.head
    else
      parts.whole
  }

  /** The two https shapes, tried in order after the native scheme (lines 61-76). */
  function ParseHttps(url: string): (r: ParseResult)
    ensures r.Unrecognised? <==> !Contains(url, VirtualHostMarker) && !(Contains(url, RegionMarker) && Contains(url, ServiceDomain))
    ensures r.Parsed? ==> '/' !in r.loc.bucket
  {
    if Contains(url, VirtualHostMarker) then
      var u := SplitUrl(url);
      var bucket := FirstLabel(u.netloc);
      Parsed(Location(bucket, LStrip(u.path, '/')))
    else if Contains(url, RegionMarker) && Contains(url, ServiceDomain) then
      Parsed(BucketAndKey(LStrip(SplitUrl(url).path, '/')))
    else
      Unrecognised
  }

  /** The location with its prefix normalised. */
  function Finish(r: ParseResult): ParseResult {
    if r.Parsed? then Parsed(Location(r.loc.bucket, Normalize(r.loc.prefix))) else r
  }

  /** `parse_s3_url`, with the scheme removed only where it stands at the front of
      the URL (see ParseS3UrlAsWritten for the code's own `replace`). */
  function ParseS3Url(url: string): (r: ParseResult)
    ensures r.Unrecognised? <==>
      !StartsWith(url, Scheme) && !Contains(url, VirtualHostMarker) && !(Contains(url, RegionMarker) && Contains(url, ServiceDomain))
    ensures r.Parsed? ==> '/' !in r.loc.bucket
    ensures r.Parsed? ==> r.loc.prefix == "" || EndsWith(r.loc.prefix, "/")
  {
    if StartsWith(url, Scheme) then Finish(Parsed(BucketAndKey(url[|Scheme|..])))
    else Finish(ParseHttps(url))
  }

  /** `parse_s3_url` exactly as written: line 58 removes the scheme with
      `replace('s3://', '')`, which deletes every occurrence of `s3://`, also
      those inside the key. */
  function ParseS3UrlAsWritten(url: string): (r: ParseResult)
    ensures r.Unrecognised? <==> ParseS3Url(url).Unrecognised?
    ensures r.Parsed? ==> '/' !in r.loc.bucket
  {
    if StartsWith(url, Scheme) then Finish(Parsed(BucketAndKey(ReplaceAll(url, Scheme, ""))))
    else Finish(ParseHttps(url))
  }

  /** Native shape: the bucket is the text after `s3://` up to the first `/`,
      the prefix is the rest, normalised, whatever else the URL contains. */
  lemma ParseNative(bucket: string, key: string)
    requires '/' !in bucket
    ensures ParseS3Url(Scheme + bucket + "/" + key) == Parsed(Location(bucket, Normalize(key)))
  {
    var url := Scheme + bucket + "/" + key;
    assert url[..|Scheme|] == Scheme;
    assert url[|Scheme|..] == bucket + "/" + key;
    SplitOnceAt(bucket, '/', key);
  }

  /** Native shape without a `/` after the bucket: the prefix is empty. */
  lemma ParseNativeBucketOnly(bucket: string)
    requires '/' !in bucket
    ensures ParseS3Url(Scheme + bucket) == Parsed(Location(bucket, ""))
  {
    var url := Scheme + bucket;
    assert url[..|Scheme|] == Scheme;
    assert url[|Scheme|..] == bucket;
  }

  /** Virtual-hosted shape: the bucket is the host's first label, the prefix
      is the path without its leading slashes, normalised. */
  lemma ParseVirtualHosted(scheme: string, first: string, domain: string, path: string)
    requires ':' !in scheme && '.' !in first && '/' !in first && '/' !in domain
    requires path == [] || path[0] == '/'
    requires !StartsWith(scheme + "://" + first + "." + domain + path, Scheme)
    requires Contains(scheme + "://" + first + "." + domain + path, VirtualHostMarker)
    ensures ParseS3Url(scheme + "://" + first + "." + domain + path)
         == Parsed(Location(first, Normalize(LStrip(path, '/'))))
  {
    var url := scheme + "://" + first + "." + domain + path;
    VirtualHostedSplit(scheme, first, domain, path);
    assert ParseHttps(url) == Parsed(Location(first, LStrip(path, '/')));
  }

  /** The host of a virtual-hosted URL is its network location, and the
      bucket its first label. */
  lemma VirtualHostedSplit(scheme: string, first: string, domain: string, path: string)
    requires ':' !in scheme && '.' !in first && '/' !in first && '/' !in domain
    requires path == [] || path[0] == '/'
    ensures var u := SplitUrl(scheme + "://" + first + "." + domain + path);
      u.path == path && FirstLabel(u.netloc) == first
  {
    var host := first + "." + domain;
    assert scheme + "://" + first + "." + domain + path == scheme + "://" + host + path;
    SplitUrlOf(scheme, host, path);
    assert host == first + ['.'] + domain;
    SplitOnceAt(first, '.', domain);
  }

  /** Path shape: after the run of leading slashes, the bucket is the first
      path segment and the prefix the rest, normalised; it applies only when
      the virtual-hosted marker is absent. */
  lemma ParsePathStyle(scheme: string, host: string, slashes: string, bucket: string, key: string)
    requires ':' !in scheme && '/' !in host && '/' !in bucket && bucket != ""
    requires slashes != [] && forall i :: 0 <= i < |slashes| ==> slashes[i] == '/'
    requires !StartsWith(scheme + "://" + host + slashes + bucket + "/" + key, Scheme)
    requires !Contains(scheme + "://" + host + slashes + bucket + "/" + key, VirtualHostMarker)
    requires Contains(scheme + "://" + host + slashes + bucket + "/" + key, RegionMarker)
    requires Contains(scheme + "://" + host + slashes + bucket + "/" + key, ServiceDomain)
    ensures ParseS3Url(scheme + "://" + host + slashes + bucket + "/" + key)
         == Parsed(Location(bucket, Normalize(key)))
  {
    var body := bucket + "/" + key;
    var url := scheme + "://" + host + slashes + bucket + "/" + key;
    assert url == scheme + "://" + host + slashes + body;
    PathStyleSplit(scheme, host, slashes, body);
    SplitOnceAt(bucket, '/', key);
    assert ParseHttps(url) == Parsed(Location(bucket, key));
  }

  /** Path shape with nothing after the bucket: the prefix is empty. */
  lemma ParsePathStyleBucketOnly(scheme: string, host: string, slashes: string, bucket: string)
    requires ':' !in scheme && '/' !in host && '/' !in bucket
    requires slashes != [] && forall i :: 0 <= i < |slashes| ==> slashes[i] == '/'
    requires !StartsWith(scheme + "://" + host + slashes + bucket, Scheme)
    requires !Contains(scheme + "://" + host + slashes + bucket, VirtualHostMarker)
    requires Contains(scheme + "://" + host + slashes + bucket, RegionMarker)
    requires Contains(scheme + "://" + host + slashes + bucket, ServiceDomain)
    ensures ParseS3Url(scheme + "://" + host + slashes + bucket) == Parsed(Location(bucket, ""))
  {
    var url := scheme + "://" + host + slashes + bucket;
    PathStyleSplit(scheme, host, slashes, bucket);
    assert ParseHttps(url) == Parsed(Location(bucket, ""));
  }

  /** The path of a path-style URL, stripped of its leading slashes, is the
      text after them. */
  lemma PathStyleSplit(scheme: string, host: string, slashes: string, body: string)
    requires ':' !in scheme && '/' !in host
    requires slashes != [] && forall i :: 0 <= i < |slashes| ==> slashes[i] == '/'
    requires body == [] || body[0] != '/'
    ensures LStrip(SplitUrl(scheme + "://" + host + slashes + body).path, '/') == body
  {
    var path := slashes + body;
    assert scheme + "://" + host + slashes + body == scheme + "://" + host + path;
    assert path[0] == slashes[0];
    SplitUrlOf(scheme, host, path);
    LStripRun('/', slashes, body);
  }

  /** `lstrip(c)` removes a whole leading run of `c` and stops at the first
      other character. */
  lemma {:induction false} LStripRun(c: char, run: string, body: string)
    requires forall i :: 0 <= i < |run| ==> run[i] == c
    requires body == [] || body[0] != c
    ensures LStrip(run + body, c) == body
    decreases |run|
  {
    if run == [] {
      assert run + body == body;
    } else {
      assert (run + body)[1..] == run[1..] + body;
      LStripRun(c, run[1..], body);
    }
  }

  /** The code's `replace` and the front-only removal agree on every URL in
      which `s3://` does not reappear after the scheme. */
  lemma AsWrittenAgrees(url: string)
    requires StartsWith(url, Scheme) ==> !Contains(url[|Scheme|..], Scheme)
    ensures ParseS3UrlAsWritten(url) == ParseS3Url(url)
  {
    if StartsWith(url, Scheme) {
      var rest := url[|Scheme|..];
      assert url == Scheme + rest;
      ReplaceAbsent(rest, Scheme, "");
      assert ReplaceAll(url, Scheme, "") == ReplaceAll(rest, Scheme, "");
    }
  }

  /** Conversely, whenever `s3://` occurs again after the scheme, the code's
      `replace` gives a different location: it removes at least five more
      characters, and splitting and normalising move the length by at most one. */
  lemma AsWrittenDisagrees(url: string)
    requires StartsWith(url, Scheme) && Contains(url[|Scheme|..], Scheme)
    ensures ParseS3UrlAsWritten(url) != ParseS3Url(url)
  {
    var rest := url[|Scheme|..];
    assert url == Scheme + rest;
    ReplaceFront(rest, Scheme, "");
    ReplaceShrinks(rest, Scheme);
    var stripped := ReplaceAll(url, Scheme, "");
    assert |stripped| + |Scheme| <= |rest|;
    LocationSize(rest);
    LocationSize(stripped);
  }

  /** The bucket and the normalised prefix of a text together have the
      text's length, give or take one. */
  lemma LocationSize(text: string)
    ensures var loc := BucketAndKey(text);
      |text| - 1 <= |loc.bucket| + |Normalize(loc.prefix)| <= |text| + 1
  {
  }

  /** A URL whose key itself starts with `s3://`, as in `s3://b/s3://k`:
      the key prefix is `s3://k/`, but the code as written deletes the inner
      `s3://` as well and lists prefix `k/`, a different one. */
  lemma AsWrittenDropsInnerScheme(bucket: string, key: string)
    requires '/' !in bucket && !Contains(key, Scheme)
    ensures ParseS3Url(Scheme + bucket + "/" + Scheme + key) == Parsed(Location(bucket, Normalize(Scheme + key)))
    ensures ParseS3UrlAsWritten(Scheme + bucket + "/" + Scheme + key) == Parsed(Location(bucket, Normalize(key)))
    ensures Normalize(key) != Normalize(Scheme + key)
  {
    var url := Scheme + bucket + "/" + Scheme + key;
    assert url == Scheme + bucket + "/" + (Scheme + key);
    ParseNative(bucket, Scheme + key);
    ReplaceInnerScheme(bucket, key);
    assert url[..|Scheme|] == Scheme;
    SplitOnceAt(bucket, '/', key);
  }

  /** `replace('s3://', '')` on `s3://bucket/s3://key` leaves `bucket/key`. */
  lemma ReplaceInnerScheme(bucket: string, key: string)
    requires '/' !in bucket && !Contains(key, Scheme)
    ensures ReplaceAll(Scheme + bucket + "/" + Scheme + key, Scheme, "") == bucket + "/" + key
  {
    var u := bucket + "/";
    var v := Scheme + key;
    assert Scheme + bucket + "/" + Scheme + key == Scheme + (u + v);
    NoSchemeAcrossSlash(bucket, key);
    ReplaceFront(u + v, Scheme, "");
    assert ReplaceAll(Scheme + (u + v), Scheme, "") == ReplaceAll(u + v, Scheme, "");
    ReplaceSkip(u, v, Scheme, "");
    ReplaceFront(key, Scheme, "");
    ReplaceAbsent(key, Scheme, "");
    assert ReplaceAll(v, Scheme, "") == key;
  }

  /** In `bucket/s3://…` with no `/` in the bucket, no `s3://` starts
      before the one after the slash. */
  lemma NoSchemeAcrossSlash(bucket: string, key: string)
    requires '/' !in bucket
    ensures forall i :: 0 <= i < |bucket + "/"| ==> !StartsWith((bucket + "/" + (Scheme + key))[i..], Scheme)
  {
    var s := bucket + "/" + (Scheme + key);
    var n := |bucket|;
    assert s[n] == '/' && s[n + 1] == 's' && s[n + 2] == '3' && s[n + 3] == ':';
    forall i | 0 <= i < |bucket + "/"|
      ensures !StartsWith(s[i..], Scheme)
    {
      if i + 3 < n {
        assert s[i + 3] == bucket[i + 3];
      }
      assert s[i + 3] != '/' || s[i + 4] != '/';
    }
  }
}
