/** S3 URLs: `urlparse` splits `s3://bucket/key` into bucket, key and file
    name; `s3_to_https` turns the same URL into a virtual-hosted HTTPS one. */
module S3Url {
  import opened Wrappers
  import opened Strings

  const Scheme: string := "s3://"

  /** What `urlparse` returns: the `bucket`, `key` and `filename` entries. */
  datatype Location = Location(bucket: string, key: string, filename: string)

  /** The two ways `urlparse` raises: the URL does not begin with `s3://`
      (the explicit `Exception`), or nothing but slashes is left once every
      `s3://` is removed (the `IndexError` of `url_obj[0]`). */
  datatype UrlError = NotS3(url: string) | NoBucket(url: string)

  /** A bucket as `urlparse` can return it: a single non-empty segment. */
  predicate ValidBucket(b: string) {
    b != "" && '/' !in b
  }

  /** A key as `urlparse` can return it: empty, or non-empty `/`-segments. */
  predicate ValidKey(k: string) {
    k == "" || forall p :: p in Split(k, '/') ==> p != ""
  }

  /** The last `/`-segment of a key (the empty string for the empty key). */
  function LastSegment(k: string): string {
    var parts := Split(k, '/');
    parts[|parts| - 1]
  }

  /** `'s3://%s/%s' % (bucket, key)`, the form in which the module writes
      S3 URLs back. */
  function Format(bucket: string, key: string): string {
    Scheme + bucket + "/" + key
  }

  /** `urlparse(url)`. */
  function UrlParse(url: string): Result<Location, UrlError> {
    if !StartsWith(url, Scheme) then Err(NotS3(url))
    else
      var segs := NonEmpty(Split(ReplaceAll(url, Scheme, ""), '/'));
      if |segs| == 0 then Err(NoBucket(url))
      else Ok(Location(segs[0], Join(segs[1..], "/"), if |segs| > 1 then segs[|segs| - 1] else ""))
  }

  /** `s3_to_https(url, region)`; the region is a parameter here rather than
      a default read from the environment when the module is imported. */
  function S3ToHttps(url: string, region: string): Result<string, UrlError> {
    match UrlParse(url)
    case Err(e) => Err(e)
    case Ok(loc) => Ok("https://" + loc.bucket + ".s3." + region + ".amazonaws.com/" + loc.key)
  }

  /** The split of `s` has no non-empty part exactly when `s` is made of
      slashes only. */
  lemma {:induction false} AllSlashes(s: string)
    ensures NonEmpty(Split(s, '/')) == [] <==> forall i :: 0 <= i < |s| ==> s[i] == '/'
    decreases |s|
  {
    if |s| > 0 {
      AllSlashes(s[1..]);
      if s[0] == '/' {
        assert Split(s, '/') == [""] + Split(s[1..], '/');
        assert ([""] + Split(s[1..], '/'))[1..] == Split(s[1..], '/');
        assert forall i :: 1 <= i < |s| ==> s[i] == s[1..][i - 1];
      } else {
        var parts := Split(s, '/');
        assert parts[0] != "" && parts[0] in parts;
      }
    }
  }

  /** `urlparse` fails exactly when the URL lacks the `s3://` prefix, or when
      nothing but slashes remains after every `s3://` is deleted. */
  lemma ParseFailure(url: string)
    ensures UrlParse(url) == Err(NotS3(url)) <==> |url| < 5 || url[..5] != "s3://"
    ensures UrlParse(url) == Err(NoBucket(url)) <==>
      StartsWith(url, Scheme) && forall i :: 0 <= i < |ReplaceAll(url, Scheme, "")| ==> ReplaceAll(url, Scheme, "")[i] == '/'
  {
    var x := ReplaceAll(url, Scheme, "");
    AllSlashes(x);
    assert |NonEmpty(Split(x, '/'))| == 0 <==> NonEmpty(Split(x, '/')) == [];
  }

  /** Whatever `urlparse` returns is a single-segment bucket, a key without
      empty segments, and the key's last segment as file name, which is
      empty when the URL names a bucket only. */
  lemma ParseShape(url: string)
    requires UrlParse(url).Ok?
    ensures ValidBucket(UrlParse(url).value.bucket)
    ensures ValidKey(UrlParse(url).value.key)
    ensures UrlParse(url).value.filename == LastSegment(UrlParse(url).value.key)
  {
    var x := ReplaceAll(url, Scheme, "");
    var segs := NonEmpty(Split(x, '/'));
    SplitPartsFree(x, '/');
    assert forall p :: p in segs ==> p != "" && '/' !in p;
    assert segs[0] in segs;
    if |segs| > 1 {
      var rest := segs[1..];
      assert forall p :: p in rest ==> p in segs;
      SplitJoin(rest, '/');
    }
  }

  /** A joined list of non-empty, slash-free parts holds no two slashes in a
      row and neither begins nor ends with one. */
  lemma {:induction false} JoinNoDoubleSlash(parts: seq<string>)
    requires |parts| >= 1
    requires forall p :: p in parts ==> p != "" && '/' !in p
    ensures var s := Join(parts, "/");
      |s| > 0 && s[0] != '/' && s[|s| - 1] != '/' &&
      forall i :: 0 <= i < |s| - 1 ==> s[i] != '/' || s[i + 1] != '/'
    decreases |parts|
  {
    assert parts[0] in parts;
    if |parts| > 1 {
      var rest := parts[1..];
      assert forall p :: p in rest ==> p in parts;
      JoinNoDoubleSlash(rest);
      var s := Join(parts, "/");
      var t := Join(rest, "/");
      var n := |parts[0]|;
      assert s == parts[0] + "/" + t;
      assert forall i :: 0 <= i < n ==> s[i] == parts[0][i];
      assert s[n] == '/';
      assert forall i :: n < i < |s| ==> s[i] == t[i - n - 1];
    }
  }

  /** With a valid bucket and key, `bucket/key` holds no `s3://`: it has no
      two slashes in a row. */
  lemma SchemeAbsent(b: string, k: string)
    requires ValidBucket(b) && ValidKey(k)
    ensures forall i :: !OccursAt(b + "/" + k, Scheme, i)
  {
    var x := b + "/" + k;
    if k != "" {
      SplitPartsFree(k, '/');
      JoinSplit(k, '/');
      JoinNoDoubleSlash(Split(k, '/'));
    }
    forall i | 0 <= i < |x| - 1 ensures x[i] != '/' || x[i + 1] != '/' {
      if i < |b| {
        assert x[i] == b[i];
      } else if i == |b| {
        assert x[i + 1] == k[0];
      } else {
        assert x[i] == k[i - |b| - 1] && x[i + 1] == k[i - |b|];
      }
    }
    forall i | 0 <= i && i + 5 <= |x| ensures !OccursAt(x, Scheme, i) {
      assert x[i..i + 5][3] == x[i + 3] && x[i..i + 5][4] == x[i + 4];
    }
  }

  /** Formatting a valid bucket and key and parsing the result gives back the
      bucket, the key and the key's last segment. */
  lemma RoundTrip(b: string, k: string)
    requires ValidBucket(b) && ValidKey(k)
    ensures UrlParse(Format(b, k)) == Ok(Location(b, k, LastSegment(k)))
  {
    var url := Format(b, k);
    var x := b + "/" + k;
    assert url == Scheme + x;
    assert url[..5] == Scheme && url[5..] == x;
    assert ReplaceAll(url, Scheme, "") == ReplaceAll(x, Scheme, "");
    SchemeAbsent(b, k);
    ReplaceAbsent(x, Scheme, "");
    SplitFree(b, '/');
    SplitAfter(b, k, '/');
    var parts := Split(x, '/');
    assert parts == [b] + Split(k, '/');
    if k == "" {
      assert parts == [b, ""];
      assert NonEmpty(parts) == [b] + NonEmpty([""]);
    } else {
      JoinSplit(k, '/');
      assert forall p :: p in parts ==> p == b || p in Split(k, '/');
      NonEmptyKeeps(parts);
    }
  }

  /** Parsing normalises: formatting a parsed URL and parsing it again gives
      the same location. */
  lemma ParseIdempotent(url: string)
    requires UrlParse(url).Ok?
    ensures var loc := UrlParse(url).value; UrlParse(Format(loc.bucket, loc.key)) == Ok(loc)
  {
    ParseShape(url);
    var loc := UrlParse(url).value;
    RoundTrip(loc.bucket, loc.key);
  }

  /** `s3_to_https` of a well-formed S3 URL is the virtual-hosted HTTPS URL
      of the same bucket and key, and it fails exactly when `urlparse` does. */
  lemma HttpsOfFormat(b: string, k: string, region: string)
    requires ValidBucket(b) && ValidKey(k)
    ensures S3ToHttps(Format(b, k), region) == Ok("https://" + b + ".s3." + region + ".amazonaws.com/" + k)
  {
    RoundTrip(b, k);
  }
}
