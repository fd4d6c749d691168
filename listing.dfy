/** `find`: the keys under an S3 URL prefix that end with a suffix, read page
    by page from `list_objects_v2`. The S3 client is a function from the
    request's arguments to the page it answers. */
module Listing {
  import opened Wrappers
  import opened Strings
  import opened S3Url

  /** The keyword arguments of one `list_objects_v2` call: `Bucket`,
      `Prefix` and, after the first page, `ContinuationToken`. */
  datatype ListRequest = ListRequest(bucket: string, prefix: string, token: Option<string>)

  /** One response: the `Key` of each entry of `Contents` (None when the
      response has no `Contents`) and `NextContinuationToken`. */
  datatype ListPage = ListPage(contents: Option<seq<string>>, next: Option<string>)

  type ListService = ListRequest -> ListPage

  /** The test `find` applies to each listed key. */
  predicate Matches(key: string, prefix: string, suffix: string) {
    StartsWith(key, prefix) && EndsWith(key, suffix)
  }

  /** The keys of one page that pass the test, in page order. */
  function Matching(keys: seq<string>, prefix: string, suffix: string): (r: seq<string>)
    ensures forall k :: k in r ==> k in keys && Matches(k, prefix, suffix)
  {
    if |keys| == 0 then []
    else
      var last := keys[|keys| - 1];
      assert keys == keys[..|keys| - 1] + [last];
      Matching(keys[..|keys| - 1], prefix, suffix) + if Matches(last, prefix, suffix) then [last] else []
  }

  /** Filtering a page drops no passing key and repeats none: each passing
      key occurs in the result exactly as often as in the page. */
  lemma {:induction false} MatchingCounts(keys: seq<string>, prefix: string, suffix: string, k: string)
    ensures multiset(Matching(keys, prefix, suffix))[k] == if Matches(k, prefix, suffix) then multiset(keys)[k] else 0
  {
    if |keys| > 0 {
      var init := keys[..|keys| - 1];
      assert keys == init + [keys[|keys| - 1]];
      MatchingCounts(init, prefix, suffix, k);
    }
  }

  /** The listing that starts with `token` ends within `n` further pages: some
      page in reach has no `Contents` or no `NextContinuationToken`. */
  predicate Stops(svc: ListService, bucket: string, prefix: string, token: Option<string>, n: nat)
    decreases n
  {
    var page := svc(ListRequest(bucket, prefix, token));
    page.contents.None? || page.next.None? || (n > 0 && Stops(svc, bucket, prefix, page.next, n - 1))
  }

  /** The requests `find` sends, in order, from the one carrying `token` on.
      The first carries `token`; all carry the bucket and the parsed key as
      `Prefix`; each later one carries the previous page's
      `NextContinuationToken`; every page but the last has `Contents` and a
      token, and the last lacks one of them. */
  function Requests(svc: ListService, bucket: string, prefix: string, token: Option<string>, n: nat): (reqs: seq<ListRequest>)
    requires Stops(svc, bucket, prefix, token, n)
    ensures |reqs| >= 1 && reqs[0] == ListRequest(bucket, prefix, token)
    ensures forall i :: 0 <= i < |reqs| ==> reqs[i].bucket == bucket && reqs[i].prefix == prefix
    ensures forall i :: 0 <= i < |reqs| - 1 ==>
      svc(reqs[i]).contents.Some? && svc(reqs[i]).next.Some? && reqs[i + 1].token == svc(reqs[i]).next
    ensures svc(reqs[|reqs| - 1]).contents.None? || svc(reqs[|reqs| - 1]).next.None?
    decreases n
  {
    var req := ListRequest(bucket, prefix, token);
    var page := svc(req);
    if page.contents.None? || page.next.None? then [req]
    else [req] + Requests(svc, bucket, prefix, page.next, n - 1)
  }

  /** What `find` yields from the page for `token` on: the matching keys of
      each page, page after page, stopping after a page without a token and
      yielding nothing from a page without `Contents`. */
  function Listed(svc: ListService, bucket: string, prefix: string, suffix: string, token: Option<string>, n: nat): (keys: seq<string>)
    requires Stops(svc, bucket, prefix, token, n)
    ensures forall k :: k in keys ==> Matches(k, prefix, suffix)
    decreases n
  {
    var page := svc(ListRequest(bucket, prefix, token));
    match page.contents
    case None => []
    case Some(contents) =>
      Matching(contents, prefix, suffix) +
      if page.next.None? then [] else Listed(svc, bucket, prefix, suffix, page.next, n - 1)
  }

  /** The matching keys of the answers to `reqs`, concatenated in request order. */
  function Collected(svc: ListService, reqs: seq<ListRequest>, prefix: string, suffix: string): seq<string> {
    if |reqs| == 0 then []
    else
      var page := svc(reqs[0]);
      (if page.contents.Some? then Matching(page.contents.value, prefix, suffix) else []) +
      Collected(svc, reqs[1..], prefix, suffix)
  }

  /** `find` yields exactly the matching keys of the pages it requests, in
      page order: nothing skipped, re-sorted or repeated. */
  lemma {:induction false} ListedIsCollected(svc: ListService, bucket: string, prefix: string, suffix: string, token: Option<string>, n: nat)
    requires Stops(svc, bucket, prefix, token, n)
    ensures Listed(svc, bucket, prefix, suffix, token, n) == Collected(svc, Requests(svc, bucket, prefix, token, n), prefix, suffix)
    decreases n
  {
    var reqs := Requests(svc, bucket, prefix, token, n);
    var page := svc(ListRequest(bucket, prefix, token));
    if page.contents.Some? && page.next.Some? {
      ListedIsCollected(svc, bucket, prefix, suffix, page.next, n - 1);
      assert reqs[1..] == Requests(svc, bucket, prefix, page.next, n - 1);
    }
  }

  /** A page without `Contents` ends the listing with nothing from it. */
  lemma EmptyPage(svc: ListService, bucket: string, prefix: string, suffix: string, token: Option<string>, n: nat)
    requires Stops(svc, bucket, prefix, token, n)
    requires svc(ListRequest(bucket, prefix, token)).contents.None?
    ensures Listed(svc, bucket, prefix, suffix, token, n) == []
  {
  }

  /** One step of the listing: with `keys` yielded before the page for
      `token`, the page adds its matching keys, after which the listing is
      complete if the page has no token, and otherwise goes on from the
      page's token with one page less in reach. */
  lemma PageStep(svc: ListService, bucket: string, prefix: string, suffix: string, token: Option<string>, n: nat,
                 keys: seq<string>, total: seq<string>)
    requires Stops(svc, bucket, prefix, token, n)
    requires svc(ListRequest(bucket, prefix, token)).contents.Some?
    requires keys + Listed(svc, bucket, prefix, suffix, token, n) == total
    ensures var page := svc(ListRequest(bucket, prefix, token));
      var next := keys + Matching(page.contents.value, prefix, suffix);
      (page.next.None? ==> next == total) &&
      (page.next.Some? ==> n > 0 && Stops(svc, bucket, prefix, page.next, n - 1) &&
                           next + Listed(svc, bucket, prefix, suffix, page.next, n - 1) == total)
  {
    var page := svc(ListRequest(bucket, prefix, token));
    var matched := Matching(page.contents.value, prefix, suffix);
    if page.next.None? {
      assert Listed(svc, bucket, prefix, suffix, token, n) == matched + [];
      assert matched + [] == matched;
    } else {
      assert keys + (matched + Listed(svc, bucket, prefix, suffix, page.next, n - 1)) ==
        (keys + matched) + Listed(svc, bucket, prefix, suffix, page.next, n - 1);
    }
  }

  /** `find` may be asked about `url` with its listing ending within `n` pages. */
  predicate ListingEnds(svc: ListService, url: string, n: nat) {
    UrlParse(url).Ok? ==> Stops(svc, UrlParse(url).value.bucket, UrlParse(url).value.key, None, n)
  }

  /** Everything `find(url, suffix)` yields, or the error `urlparse` raises. */
  function FindSpec(svc: ListService, url: string, suffix: string, n: nat): Result<seq<string>, UrlError>
    requires ListingEnds(svc, url, n)
  {
    match UrlParse(url)
    case Err(e) => Err(e)
    case Ok(loc) => Ok(Listed(svc, loc.bucket, loc.key, suffix, None, n))
  }

  /** The inner loop of `find`: the keys of one page that start with
      `prefix` and end with `suffix`, in page order. */
  method FilterPage(contents: seq<string>, prefix: string, suffix: string) returns (matched: seq<string>)
    ensures matched == Matching(contents, prefix, suffix)
  {
    matched := [];
    for i := 0 to |contents|
      invariant matched == Matching(contents[..i], prefix, suffix)
    {
      var key := contents[i];
      assert contents[..i + 1][..i] == contents[..i];
      if StartsWith(key, prefix) && EndsWith(key, suffix) {
        matched := matched + [key];
      }
    }
    assert contents[..|contents|] == contents;
  }

  /** `find(url, suffix)`: list page after page, forwarding each
      `NextContinuationToken`, and keep the keys that start with the parsed
      key and end with `suffix`. The ghost `bound` is a number of pages
      within which the listing ends. */
  method Find(svc: ListService, url: string, suffix: string, ghost bound: nat) returns (r: Result<seq<string>, UrlError>)
    requires ListingEnds(svc, url, bound)
    ensures r == FindSpec(svc, url, suffix, bound)
  {
    var parts := UrlParse(url);
    if parts.Err? {
      return Err(parts.error);
    }
    var loc := parts.value;
    var request := ListRequest(loc.bucket, loc.key, None);
    var keys: seq<string> := [];
    ghost var total := Listed(svc, loc.bucket, loc.key, suffix, None, bound);
    ghost var fuel := bound;
    while true
      invariant request == ListRequest(loc.bucket, loc.key, request.token)
      invariant Stops(svc, loc.bucket, loc.key, request.token, fuel)
      invariant keys + Listed(svc, loc.bucket, loc.key, suffix, request.token, fuel) == total
      decreases fuel
    {
      var resp := svc(request);
      if resp.contents.None? {
        EmptyPage(svc, loc.bucket, loc.key, suffix, request.token, fuel);
        assert keys + [] == keys;
        return Ok(keys);
      }
      PageStep(svc, loc.bucket, loc.key, suffix, request.token, fuel, keys, total);
      var matched := FilterPage(resp.contents.value, loc.key, suffix);
      keys := keys + matched;
      if resp.next.None? {
        break;
      }
      request := request.(token := resp.next);
      fuel := fuel - 1;
    }
    return Ok(keys);
  }
}
