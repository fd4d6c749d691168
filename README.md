# boto3utils S3 helpers, modelled in Dafny

This project models the core of `boto3utils/s3.py`, a small Python helper
module around the AWS S3 client:

- `urlparse` and `s3_to_https` (module `S3Url`, `url.dfy`): split an
  `s3://bucket/key` URL into bucket, key and file name, and turn it into a
  virtual-hosted HTTPS URL.
- `find` (module `Listing`, `listing.dfy`): list the keys under a URL
  prefix that end with a suffix, page after page of `list_objects_v2`,
  forwarding each `NextContinuationToken`.
- `latest_inventory` (module `Inventory`, `inventory.dfy`): pick the S3
  inventory manifest of today, else of yesterday, then read every data file
  it lists and yield one column -> value record per line that passes the
  date window, prefix and suffix filters, with a derived `url`.
- `get_presigned_url` (module `Presign`, `presign.dfy`): resolve the
  credentials and region from the environment, then sign a request offline
  with AWS Signature Version 4 and return the request URL and its headers.

Supporting modules: `Wrappers` (Option, Result), `Strings` (Python's
`split`, `join`, `replace`, `strip`, `startswith`, `endswith`, zero-padded
numbers), `Order` (Python's string order and `sorted` over a set of
names) and `Dates` (calendar dates, `today - timedelta(1)`, the
`%Y-%m-%d` and `%Y-%m-%dT%H:%M:%S.%fZ` formats).

The S3 client, the object reader, the JSON manifest reader, the clock, the
environment and the cryptographic primitives are parameters: the service
is a function from the request's arguments to the page it answers, the
readers are functions from bucket and key to content, the environment is a
map, and HMAC-SHA256, SHA-256, UTF-8 encoding and hex encoding are function
values about which nothing is assumed. Each imperative piece of the source
(the `while True` loop of `find`, the date loop and the file and line
loops of `latest_inventory`, the header building of `get_presigned_url`)
is a method proved equal to a specification function, and the properties
the module promises are proved about those functions.

The model follows the code as written, including its quirks:
`url.replace('s3://', '')` removes every occurrence of `s3://`; a URL with
nothing but slashes after the scheme raises `IndexError` (`NoBucket`); a
line with more fields than the schema raises `IndexError`
(`TooManyFields`); a line with a `Key` but a missing or malformed
timestamp raises instead of being skipped; `today - timedelta(1)` on
0001-01-01 raises `OverflowError` (`DateOverflow`) before anything is
listed; an empty manifest key counts as none; the canonical URI is
`'/' + key` without URL-encoding; the signing host names no region; and
`Authorization` and `content-type` are added after signing, so neither is
signed. A generator that raises part-way is modelled as the records it
yielded before the exception plus that exception (`Inventory.Scan`).

## Model

| member | source | states |
|---|---|---|
| S3Url.ParseFailure | boto3utils/s3.py:22-36 | `urlparse` raises the explicit exception exactly when the first five characters are not `s3://`, and the `IndexError` exactly when nothing but slashes is left once every `s3://` is removed |
| S3Url.ParseShape | boto3utils/s3.py:27-36 | on success the bucket is one non-empty segment without `/`, the key is empty or made of non-empty `/`-segments, and the file name is the key's last segment |
| S3Url.RoundTrip | boto3utils/s3.py:22-36 | `urlparse('s3://' + b + '/' + k)` gives back `b`, `k` and the last segment of `k` for every bucket and key of that shape |
| S3Url.ParseIdempotent | boto3utils/s3.py:22-36 | writing a parsed URL back as `s3://bucket/key` and parsing it again gives the same bucket, key and file name |
| S3Url.HttpsOfFormat | boto3utils/s3.py:39-42 | `s3_to_https` of `s3://b/k` is `https://b.s3.<region>.amazonaws.com/k` |
| Strings.RemoveChar | boto3utils/s3.py:172 | `line.replace('"', '')` removes every double quote and nothing else |
| Strings.StripInfix | boto3utils/s3.py:161 | `strip()` keeps a contiguous middle part and removes only whitespace, leaving no whitespace at either end |
| Strings.SplitJoin | boto3utils/s3.py:27-34 | splitting a `/`-join of separator-free parts gives the parts back |
| Listing.Matching | boto3utils/s3.py:129-132 | every kept key is a key of the page that starts with the prefix and ends with the suffix |
| Listing.MatchingCounts | boto3utils/s3.py:129-132 | each matching key is kept as often as the page lists it, and no other key is kept |
| Listing.Requests | boto3utils/s3.py:113-140 | the first request has no token; every request carries the bucket and the parsed key as `Prefix`; each later request carries the previous page's `NextContinuationToken`; only the last page lacks `Contents` or a token |
| Listing.Listed | boto3utils/s3.py:120-140 | every key `find` yields starts with the parsed key and ends with the suffix |
| Listing.ListedIsCollected | boto3utils/s3.py:120-140 | `find` yields exactly the matching keys of the pages it requests, concatenated in page order |
| Listing.FilterPage | boto3utils/s3.py:129-132 | the inner `for` loop keeps exactly the page's matching keys, in page order |
| Listing.PageStep | boto3utils/s3.py:120-140 | a page with `Contents` adds its matching keys, then either ends the listing (no token) or forwards its token to a listing that still ends |
| Listing.Find | boto3utils/s3.py:106-140 | the `while True` loop returns exactly what the listing specification gives, or the `urlparse` error |
| Dates.PrevDayIsPrevious | boto3utils/s3.py:149 | `today - timedelta(1)` is the valid date just before `today`, and fails only on 0001-01-01 |
| Dates.ParseFormat | boto3utils/s3.py:176 | every timestamp written as `%Y-%m-%dT%H:%M:%S.%fZ` parses back to itself |
| Inventory.ChooseManifest | boto3utils/s3.py:147-155 | the date loop settles on today's manifest if exactly one is listed, else yesterday's if exactly one is listed there, else none |
| Inventory.ChosenManifestShape | boto3utils/s3.py:149-155 | a chosen manifest key ends with `manifest.json` and lies under today's or yesterday's `%Y-%m-%d` folder |
| Inventory.Schema | boto3utils/s3.py:161 | column `i` is field `i` of the comma-split schema, stripped |
| Inventory.Zip | boto3utils/s3.py:172 | the record's columns are exactly the schema columns that get a field |
| Inventory.ZipAt | boto3utils/s3.py:172 | a column holds the field at its own position unless a later column has the same name |
| Inventory.LineYields | boto3utils/s3.py:172-186 | a line is yielded exactly when its record builds and has a `Key`, a timestamp in the window and a `Key` passing the prefix and suffix filters (and a `Bucket` when a `url` is due), and what is yielded is that record with its `url` |
| Inventory.LineFails | boto3utils/s3.py:172-186 | a line raises exactly when it has too many fields, or has a `Key` but no readable timestamp, or passes the filters without the `Bucket` its `url` needs |
| Inventory.ProcessLine | boto3utils/s3.py:172-186 | the loop body, which mutates `info`, gives the line's outcome |
| Inventory.LineRecordShape | boto3utils/s3.py:172-186 | a yielded record has a `Key` passing the filters, a timestamp in the window, `url = s3://Bucket/Key` when the schema lists both, and no column outside the schema but `url` |
| Inventory.ScanLinesShape | boto3utils/s3.py:168-186 | every record the lines of a file yield has that shape |
| Inventory.HaltsAtFailure | boto3utils/s3.py:168-186 | the scan stops at the first failing line with that line's error, having yielded what the earlier lines yield |
| Inventory.ScanFile | boto3utils/s3.py:168-186 | the line loop yields the records of the lines in order, up to the first failure |
| Inventory.ScanDataFiles | boto3utils/s3.py:165-186 | the file loop reads each listed file at `s3://bucket/key` and scans it, stopping at the first failure |
| Inventory.ScanFilesShape | boto3utils/s3.py:165-186 | every record of every data file has the yielded-record shape |
| Inventory.ScanLinesFrom | boto3utils/s3.py:168-186 | every record the lines of a data file yield is what one of those lines yields |
| Inventory.ScanFilesFrom | boto3utils/s3.py:165-186 | every record the data files yield is what a line of one listed file, read at `s3://bucket/key`, yields |
| Inventory.InventoryProvenance | boto3utils/s3.py:143-186 | whatever `latest_inventory` yields comes from one line of one data file of the chosen manifest, so it is that line's record (schema column `i` mapped to field `i`) with its `url` |
| Inventory.InventoryRecords | boto3utils/s3.py:143-186 | whatever `latest_inventory` yields has a `Key` passing the prefix and suffix filters and a timestamp in the window, has `url = s3://Bucket/Key` when the manifest's schema lists both, and has no column outside that schema but `url`; with no manifest found it yields nothing and raises nothing |
| Inventory.LatestInventory | boto3utils/s3.py:143-186 | the whole scan returns exactly what the specification gives, including the exception that ends it |
| Order.SortedList | boto3utils/s3.py:244-245 | `sorted` over the header names lists each name once, in strictly increasing order, least first |
| Order.SortedUnique | boto3utils/s3.py:244-245 | a set has one strictly increasing listing only |
| Presign.Credential | boto3utils/s3.py:192-193 | each key is its `AWS_BUCKET_*` override slot if set, else its default slot (`AWS_ACCESS_KEY_ID`, `AWS_SECRET_ACCESS_KEY`), and absent exactly when neither is set |
| Presign.Region | boto3utils/s3.py:194-196 | the region is `aws_region` if given, else `AWS_BUCKET_REGION`, else `AWS_REGION`, else `eu-central-1` |
| Presign.Presign | boto3utils/s3.py:189-262 | the URL comes back unchanged and unsigned exactly when a key is missing; the call fails exactly when both keys are set and `urlparse` fails, with its error |
| Presign.AmzDateFields | boto3utils/s3.py:223-225 | `x-amz-date` is sixteen characters: the date stamp, `T`, hour, minute, second, `Z`, each field reading back as the time's own |
| Presign.SignedHeaderKeys | boto3utils/s3.py:232-243 | the signed headers are `host`, `x-amz-content-sha256`, `x-amz-date`, plus `x-amz-request-payer` iff requester pays, `x-amz-acl` iff public, `x-amz-security-token` iff a non-empty session token is set and `AWS_BUCKET_ACCESS_KEY_ID` is not |
| Presign.HostFirst | boto3utils/s3.py:244-245 | `host` comes first among the sorted signed names |
| Presign.HeaderLines | boto3utils/s3.py:244 | one `name:value` line per signed name, in sorted order |
| Presign.SignedHeadersParts | boto3utils/s3.py:245 | the `;`-joined signed-header list splits back into the sorted names |
| Presign.CanonicalRequestLines | boto3utils/s3.py:244-249 | the canonical request's lines are the method, `/key`, the empty query, one line per header, a blank line, the signed-header list and `UNSIGNED-PAYLOAD` |
| Presign.ScopeParts | boto3utils/s3.py:251 | the credential scope splits at `/` into date stamp, region, `s3` and `aws4_request` |
| Presign.AuthorizationParts | boto3utils/s3.py:255-256 | the `Authorization` value splits at spaces into `AWS4-HMAC-SHA256`, `Credential=<access key>/<scope>,`, `SignedHeaders=<list>,` and `Signature=<signature>` |
| Presign.AddUnsigned | boto3utils/s3.py:259-261 | after signing, the headers gain `Authorization` and, when given, `content-type` with its value |
| Presign.AddUnsignedKeeps | boto3utils/s3.py:259-261 | adding those two leaves every signed header's value as it was |
| Presign.NotSigned | boto3utils/s3.py:232-243 | neither `Authorization` nor `content-type` is a signed header name |
| Presign.RequestHeaderKeys | boto3utils/s3.py:232-261 | the returned headers are the signed ones unchanged plus `Authorization` and an optional `content-type`, neither of which is signed |
| Presign.RequestUrlShape | boto3utils/s3.py:258 | the request URL is `https://<bucket>.s3.amazonaws.com/<key>`, with no region in the host |
| Presign.PresignedUrl | boto3utils/s3.py:189-262 | with both keys set, `s3://b/k` is signed and turned into the request URL of `b` and `k` |
| Presign.SignedHeadersOf | boto3utils/s3.py:232-243 | the dict built step by step is the signed header map |
| Presign.SignRequest | boto3utils/s3.py:202-262 | the signing half returns the request URL and the headers the specification gives |
| Presign.GetPresignedUrl | boto3utils/s3.py:189-262 | the whole call returns what the specification gives |

## Left out

- `exists`, `upload`, `download`, `read`, `read_json` and the module-level `boto3.client`: client calls, local files, gzip and JSON decoding. Their results enter as the parameters `ListService`, `ObjectReader` and `ManifestReader`; errors they raise are not modelled.
- HMAC-SHA256, SHA-256, UTF-8 encoding and hex digests: parameters of type `Crypto`, about which nothing is proved; the signing-key chain (`sign`, `getSignatureKey`) and the string to sign are therefore stated only by their definitions `Presign.SigningKey` and `Presign.StringToSign`.
- The clock (`datetime.now()`, `datetime.utcnow()`): the date and time are parameters.
- `os.environ` and the import-time default region of `s3_to_https`: the environment is a map and the region a parameter.
- Logging and the progress counter of `latest_inventory`: operational only.
- Generator laziness: `find` and `latest_inventory` return the whole sequence of what they would yield, with the exception that ends a scan.
- Listing.Find: the model needs a ghost page bound within which the listing ends; against a service that never stops, the source loops forever, which the model does not capture.
- Listing.Find: the `isinstance(parts['key'], str)` test is always true for what `urlparse` returns, so `Prefix` is always sent.
- Inventory.Zip: its contract states only which columns the record has; the value of each column is stated by `Inventory.ZipAt`, for columns without a later duplicate.
- Inventory.LatestInventory: `manifest['fileSchema']` and each `f['key']` are assumed present; a manifest without them raises `KeyError` in the source and is not modelled; a missing `files` entry is an empty list.
- Dates.ParseTimestamp: accepts only full-width fields in ASCII digits with upper-case `T` and `Z`; `strptime` also parses, and the model rejects as `BadTimestamp`, one-digit months, days, hours, minutes and seconds, a space-padded day (`' 1'`), non-ASCII decimal digits in the year, day, hour, minute and second fields, and a lower-case `t` or `z` (the format is matched case-insensitively).
- Dates.FormatDate: `%Y` is taken as four zero-padded digits, as for `x-amz-date` below, so the manifest folder name of a year below 1000 follows this model rather than the platform's `strftime`.
- Presign.AmzDateFields: `%Y` is taken as four zero-padded digits; the zero padding of years below 1000 depends on the platform's `strftime`.
- Presign.GetPresignedUrl: HTTP semantics of the request (whether S3 accepts the signature) are not modelled; only the exact strings and headers are.
