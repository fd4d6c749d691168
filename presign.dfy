/** `get_presigned_url`: an S3 request URL and the headers that authorise it,
    signed offline with AWS Signature Version 4 ("Create a canonical
    request", "Create a string to sign", "Derive a signing key", "Calculate
    the signature"). The environment and the current UTC time are
    parameters; HMAC-SHA256, SHA-256, UTF-8 encoding and hex encoding are
    functions handed in, with nothing assumed about them. */
module Presign {
  import opened Wrappers
  import opened Strings
  import opened S3Url
  import opened Dates
  import opened Order

  /** `os.environ`. */
  type Env = map<string, string>

  type Bytes = seq<bv8>

  /** The primitives the signature is computed with. */
  datatype Crypto = Crypto(
    utf8: string -> Bytes,              // str.encode('utf-8')
    hmac: (Bytes, Bytes) -> Bytes,      // hmac.new(key, msg, hashlib.sha256).digest()
    sha256: Bytes -> Bytes,             // hashlib.sha256(data).digest()
    hex: Bytes -> string)               // .hexdigest() of the same digest

  /** The `(url, headers)` pair returned; `headers` is None for an unsigned URL. */
  datatype Presigned = Presigned(url: string, headers: Option<map<string, string>>)

  const Service: string := "s3"
  const Algorithm: string := "AWS4-HMAC-SHA256"
  const UnsignedPayload: string := "UNSIGNED-PAYLOAD"
  const DefaultRegion: string := "eu-central-1"

  /** `os.environ.get(name)`. */
  function Get(env: Env, name: string): Option<string> {
    if name in env then Some(env[name]) else None
  }

  /** `os.environ.get(name, default)`. */
  function GetOr(env: Env, name: string, default: Option<string>): Option<string> {
    if name in env then Some(env[name]) else default
  }

  /** A credential read from an override slot, else from its default slot;
      absent only when neither is set. */
  function Credential(env: Env, override: string, fallback: string): (r: Option<string>)
    ensures r.None? <==> override !in env && fallback !in env
    ensures override in env ==> r == Some(env[override])
    ensures override !in env && fallback in env ==> r == Some(env[fallback])
  {
    GetOr(env, override, Get(env, fallback))
  }

  /** `access_key`: `AWS_BUCKET_ACCESS_KEY_ID` overrides `AWS_ACCESS_KEY_ID`. */
  function AccessKey(env: Env): Option<string> {
    Credential(env, "AWS_BUCKET_ACCESS_KEY_ID", "AWS_ACCESS_KEY_ID")
  }

  /** `secret_key`: `AWS_BUCKET_SECRET_ACCESS_KEY` overrides `AWS_SECRET_ACCESS_KEY`. */
  function SecretKey(env: Env): Option<string> {
    Credential(env, "AWS_BUCKET_SECRET_ACCESS_KEY", "AWS_SECRET_ACCESS_KEY")
  }

  /** `region`: the environment's `AWS_BUCKET_REGION`, else `AWS_REGION`,
      else `eu-central-1`. */
  function EnvRegion(env: Env): string {
    GetOr(env, "AWS_BUCKET_REGION", GetOr(env, "AWS_REGION", Some(DefaultRegion))).value
  }

  /** The region signed for: the `aws_region` argument, else
      `AWS_BUCKET_REGION`, else `AWS_REGION`, else `eu-central-1`. */
  function Region(env: Env, awsRegion: Option<string>): (r: string)
    ensures awsRegion.Some? ==> r == awsRegion.value
    ensures awsRegion.None? && "AWS_BUCKET_REGION" in env ==> r == env["AWS_BUCKET_REGION"]
    ensures awsRegion.None? && "AWS_BUCKET_REGION" !in env && "AWS_REGION" in env ==> r == env["AWS_REGION"]
    ensures awsRegion.None? && "AWS_BUCKET_REGION" !in env && "AWS_REGION" !in env ==> r == DefaultRegion
  {
    if awsRegion.Some? then awsRegion.value else EnvRegion(env)
  }

  /** The session token that gets signed: a non-empty `AWS_SESSION_TOKEN`,
      and only when no `AWS_BUCKET_ACCESS_KEY_ID` is set. */
  function SessionToken(env: Env): Option<string> {
    if "AWS_SESSION_TOKEN" in env && env["AWS_SESSION_TOKEN"] != "" && "AWS_BUCKET_ACCESS_KEY_ID" !in env
    then Some(env["AWS_SESSION_TOKEN"]) else None
  }

  /** `t.strftime('%Y%m%dT%H%M%SZ')`, the `x-amz-date` value. */
  function AmzDate(t: DateTime): string
    requires ValidTime(t)
  {
    Pad(t.date.year, 4) + Pad(t.date.month, 2) + Pad(t.date.day, 2) + "T" +
    Pad(t.hour, 2) + Pad(t.minute, 2) + Pad(t.second, 2) + "Z"
  }

  /** The `x-amz-date` value is sixteen characters: the date stamp, `T`,
      two digits each of hour, minute and second, and `Z`; each field reads
      back as the time's own. */
  lemma AmzDateFields(t: DateTime)
    requires ValidTime(t)
    ensures var s := AmzDate(t);
      |s| == 16 && s[..8] == DateStamp(t) && s[8] == 'T' && s[15] == 'Z' &&
      AllDigits(s[..4]) && AllDigits(s[4..6]) && AllDigits(s[6..8]) &&
      AllDigits(s[9..11]) && AllDigits(s[11..13]) && AllDigits(s[13..15]) &&
      Value(s[..4]) == t.date.year && Value(s[4..6]) == t.date.month && Value(s[6..8]) == t.date.day &&
      Value(s[9..11]) == t.hour && Value(s[11..13]) == t.minute && Value(s[13..15]) == t.second
  {
    var s := AmzDate(t);
    PadValue(t.date.year, 4);
    PadValue(t.date.month, 2);
    PadValue(t.date.day, 2);
    PadValue(t.hour, 2);
    PadValue(t.minute, 2);
    PadValue(t.second, 2);
    assert s[..4] == Pad(t.date.year, 4);
    assert s[4..6] == Pad(t.date.month, 2);
    assert s[6..8] == Pad(t.date.day, 2);
    assert s[9..11] == Pad(t.hour, 2);
    assert s[11..13] == Pad(t.minute, 2);
    assert s[13..15] == Pad(t.second, 2);
  }

  /** `t.strftime('%Y%m%d')`, the date of the credential scope. */
  function DateStamp(t: DateTime): string
    requires ValidTime(t)
  {
    Pad(t.date.year, 4) + Pad(t.date.month, 2) + Pad(t.date.day, 2)
  }

  function Host(bucket: string): string {
    bucket + "." + Service + ".amazonaws.com"
  }

  /** The headers that are signed. */
  function SignedHeaderMap(host: string, amzDate: string, requesterPays: bool, public: bool, env: Env): map<string, string> {
    var base := map["host" := host, "x-amz-content-sha256" := UnsignedPayload, "x-amz-date" := amzDate];
    var withPayer := if requesterPays then base["x-amz-request-payer" := "requester"] else base;
    var withAcl := if public then withPayer["x-amz-acl" := "public-read"] else withPayer;
    if SessionToken(env).Some? then withAcl["x-amz-security-token" := SessionToken(env).value] else withAcl
  }

  /** One `name:value` line per header, in the order of `names`. */
  function HeaderLines(headers: map<string, string>, names: seq<string>): (lines: seq<string>)
    requires forall n :: n in names ==> n in headers
    ensures |lines| == |names| && forall i :: 0 <= i < |names| ==> lines[i] == names[i] + ":" + headers[names[i]]
  {
    if |names| == 0 then [] else [names[0] + ":" + headers[names[0]]] + HeaderLines(headers, names[1..])
  }

  /** `canonical_headers`: the lines, each ended by a newline. */
  function CanonicalHeaders(headers: map<string, string>, names: seq<string>): string
    requires forall n :: n in names ==> n in headers
  {
    Join(HeaderLines(headers, names), "\n") + "\n"
  }

  /** `signed_headers`. */
  function SignedHeaders(names: seq<string>): string {
    Join(names, ";")
  }

  /** `canonical_request`, with an empty query string. */
  function CanonicalRequest(rtype: string, uri: string, headers: map<string, string>, names: seq<string>): string
    requires forall n :: n in names ==> n in headers
  {
    rtype + "\n" + uri + "\n" + "" + "\n" + CanonicalHeaders(headers, names) + "\n" + SignedHeaders(names) + "\n" + UnsignedPayload
  }

  /** `credential_scope`. */
  function CredentialScope(dateStamp: string, region: string): string {
    dateStamp + "/" + region + "/" + Service + "/" + "aws4_request"
  }

  /** `string_to_sign`. */
  function StringToSign(c: Crypto, amzDate: string, scope: string, canonicalRequest: string): string {
    Algorithm + "\n" + amzDate + "\n" + scope + "\n" + c.hex(c.sha256(c.utf8(canonicalRequest)))
  }

  /** The nested `sign`. */
  function Sign(c: Crypto, key: Bytes, msg: string): Bytes {
    c.hmac(key, c.utf8(msg))
  }

  /** The nested `getSignatureKey`: the four-step HMAC chain over the date,
      the region, the service and `aws4_request`. */
  function SigningKey(c: Crypto, secret: string, dateStamp: string, region: string, service: string): Bytes {
    var kDate := Sign(c, c.utf8("AWS4" + secret), dateStamp);
    var kRegion := Sign(c, kDate, region);
    var kService := Sign(c, kRegion, service);
    Sign(c, kService, "aws4_request")
  }

  /** The `Authorization` header value. */
  function Authorization(accessKey: string, scope: string, signedHeaders: string, signature: string): string {
    Algorithm + " " + "Credential=" + accessKey + "/" + scope + ", " + "SignedHeaders=" + signedHeaders + ", " + "Signature=" + signature
  }

  /** `request_url`: the virtual-hosted URL of the object. */
  function RequestUrl(bucket: string, key: string): string {
    "https://" + Host(bucket) + "/" + key
  }

  /** The headers returned for bucket `bucket` and key `key`: the signed
      ones with `Authorization` and, when given, `content-type` added after
      signing. */
  function RequestHeaders(c: Crypto, env: Env, now: DateTime, bucket: string, key: string, region: string,
                          accessKey: string, secretKey: string, rtype: string,
                          public: bool, requesterPays: bool, contentType: Option<string>): map<string, string>
    requires ValidTime(now)
  {
    var signed := SignedHeaderMap(Host(bucket), AmzDate(now), requesterPays, public, env);
    var names := SortedList(signed.Keys);
    var scope := CredentialScope(DateStamp(now), region);
    var stringToSign := StringToSign(c, AmzDate(now), scope, CanonicalRequest(rtype, "/" + key, signed, names));
    var signature := c.hex(c.hmac(SigningKey(c, secretKey, DateStamp(now), region, Service), c.utf8(stringToSign)));
    AddUnsigned(signed, Authorization(accessKey, scope, SignedHeaders(names), signature), contentType)
  }

  /** The headers set after signing: `Authorization`, then `content-type`
      when one is given. */
  function AddUnsigned(signed: map<string, string>, authorization: string, contentType: Option<string>): (h: map<string, string>)
    ensures h.Keys == signed.Keys + {"Authorization"} + (if contentType.Some? then {"content-type"} else {})
    ensures contentType.Some? ==> h["content-type"] == contentType.value
  {
    var headers := signed["Authorization" := authorization];
    if contentType.Some? then headers["content-type" := contentType.value] else headers
  }

  /** What `get_presigned_url(url, aws_region, rtype, public, requester_pays,
      content_type)` returns at time `now` in environment `env`, or the error
      `urlparse` raises. */
  function Presign(c: Crypto, env: Env, now: DateTime, url: string, awsRegion: Option<string>, rtype: string,
                   public: bool, requesterPays: bool, contentType: Option<string>): (r: Result<Presigned, UrlError>)
    requires ValidTime(now)
    ensures AccessKey(env).None? || SecretKey(env).None? <==> r == Ok(Presigned(url, None))
    ensures r.Err? <==> AccessKey(env).Some? && SecretKey(env).Some? && UrlParse(url).Err?
    ensures r.Err? ==> r.error == UrlParse(url).error
  {
    var accessKey := AccessKey(env);
    var secretKey := SecretKey(env);
    if accessKey.None? || secretKey.None? then Ok(Presigned(url, None))
    else
      match UrlParse(url)
      case Err(e) => Err(e)
      case Ok(loc) =>
        var headers := RequestHeaders(c, env, now, loc.bucket, loc.key, Region(env, awsRegion), accessKey.value,
                                      secretKey.value, rtype, public, requesterPays, contentType);
        Ok(Presigned(RequestUrl(loc.bucket, loc.key), Some(headers)))
  }

  /** The signed headers are `host`, `x-amz-content-sha256` and
      `x-amz-date`, with `x-amz-request-payer` exactly when requester pays,
      `x-amz-acl` exactly when public, and `x-amz-security-token` exactly
      when a session token is to be signed. */
  lemma SignedHeaderKeys(host: string, amzDate: string, requesterPays: bool, public: bool, env: Env)
    ensures SignedHeaderMap(host, amzDate, requesterPays, public, env).Keys ==
      {"host", "x-amz-content-sha256", "x-amz-date"} +
      (if requesterPays then {"x-amz-request-payer"} else {}) +
      (if public then {"x-amz-acl"} else {}) +
      (if SessionToken(env).Some? then {"x-amz-security-token"} else {})
  {
  }

  /** `host` sorts before every other signed header, so it heads both the
      canonical headers and the signed-header list. */
  lemma HostFirst(host: string, amzDate: string, requesterPays: bool, public: bool, env: Env)
    ensures var names := SortedList(SignedHeaderMap(host, amzDate, requesterPays, public, env).Keys);
      |names| >= 1 && names[0] == "host"
  {
    var keys := SignedHeaderMap(host, amzDate, requesterPays, public, env).Keys;
    SignedHeaderKeys(host, amzDate, requesterPays, public, env);
    forall y | y in keys && y != "host" ensures LexLess("host", y) {
      assert y[0] == 'x';
      LexLessAt("host", y, 0);
    }
    assert IsLeast(keys, "host");
    LeastUnique(keys);
  }

  /** The credential scope splits at `/` into the date, the region, the
      service and `aws4_request`, whenever the date and the region hold no
      `/`. */
  lemma ScopeParts(dateStamp: string, region: string)
    requires '/' !in dateStamp && '/' !in region
    ensures Split(CredentialScope(dateStamp, region), '/') == [dateStamp, region, Service, "aws4_request"]
  {
    var parts := [dateStamp, region, Service, "aws4_request"];
    assert Join(parts[1..][1..], "/") == Service + "/" + "aws4_request" by {
      assert parts[1..][1..][1..] == ["aws4_request"];
    }
    assert Join(parts, "/") == CredentialScope(dateStamp, region);
    SplitJoin(parts, '/');
  }

  /** The signed-header list splits at `;` back into the names. */
  lemma SignedHeadersParts(names: seq<string>)
    requires |names| >= 1 && forall n :: n in names ==> ';' !in n
    ensures Split(SignedHeaders(names), ';') == names
  {
    SplitJoin(names, ';');
  }

  /** The canonical request has one line per component: the method, the
      URI, the empty query string, one line per header, a blank line, the
      signed-header list and the payload hash, whenever none of them holds
      a newline. */
  lemma CanonicalRequestLines(rtype: string, uri: string, headers: map<string, string>, names: seq<string>)
    requires forall n :: n in names ==> n in headers
    requires |names| >= 1
    requires '\n' !in rtype && '\n' !in uri
    requires forall n :: n in names ==> '\n' !in n && '\n' !in headers[n]
    ensures Split(CanonicalRequest(rtype, uri, headers, names), '\n') ==
      [rtype, uri, ""] + HeaderLines(headers, names) + ["", SignedHeaders(names), UnsignedPayload]
  {
    var all := CanonicalRequestJoin(rtype, uri, headers, names);
    LinesFree(headers, names);
    JoinFree(names, ";", '\n');
    var lines := HeaderLines(headers, names);
    forall p | p in all ensures '\n' !in p {
      if p !in lines {
        assert p in [rtype, uri, ""] || p in ["", SignedHeaders(names), UnsignedPayload];
      }
    }
    SplitJoin(all, '\n');
  }

  lemma LinesFree(headers: map<string, string>, names: seq<string>)
    requires forall n :: n in names ==> n in headers && '\n' !in n && '\n' !in headers[n]
    ensures forall l :: l in HeaderLines(headers, names) ==> '\n' !in l
  {
    var lines := HeaderLines(headers, names);
    forall l | l in lines ensures '\n' !in l {
      var i :| 0 <= i < |lines| && lines[i] == l;
      assert names[i] in names;
    }
  }

  lemma CanonicalRequestJoin(rtype: string, uri: string, headers: map<string, string>, names: seq<string>)
    returns (all: seq<string>)
    requires forall n :: n in names ==> n in headers
    requires |names| >= 1
    ensures all == [rtype, uri, ""] + HeaderLines(headers, names) + ["", SignedHeaders(names), UnsignedPayload]
    ensures Join(all, "\n") == CanonicalRequest(rtype, uri, headers, names)
  {
    var lines := HeaderLines(headers, names);
    var head := [rtype, uri, ""];
    var tail := ["", SignedHeaders(names), UnsignedPayload];
    all := head + lines + tail;
    JoinAppend(head, lines, "\n");
    JoinAppend(head + lines, tail, "\n");
    assert Join(head, "\n") == rtype + "\n" + uri + "\n" + "" by {
      assert head[1..][1..] == [""];
      assert Join(head[1..], "\n") == uri + "\n" + "";
    }
    assert Join(tail, "\n") == "" + "\n" + SignedHeaders(names) + "\n" + UnsignedPayload by {
      assert tail[1..][1..] == [UnsignedPayload];
      assert Join(tail[1..], "\n") == SignedHeaders(names) + "\n" + UnsignedPayload;
    }
  }

  /** The `Authorization` value splits at spaces into the algorithm, the
      credential, the signed-header list and the signature, whenever the
      access key, the scope, the list and the signature hold no space. */
  lemma AuthorizationParts(accessKey: string, scope: string, signedHeaders: string, signature: string)
    requires ' ' !in accessKey && ' ' !in scope && ' ' !in signedHeaders && ' ' !in signature
    ensures Split(Authorization(accessKey, scope, signedHeaders, signature), ' ') ==
      [Algorithm, "Credential=" + accessKey + "/" + scope + ",", "SignedHeaders=" + signedHeaders + ",", "Signature=" + signature]
  {
    var parts := AuthorizationJoin(accessKey, scope, signedHeaders, signature);
    assert ' ' !in parts[0] && ' ' !in parts[1] && ' ' !in parts[2] && ' ' !in parts[3];
    SplitJoin(parts, ' ');
  }

  lemma AuthorizationJoin(accessKey: string, scope: string, signedHeaders: string, signature: string)
    returns (parts: seq<string>)
    ensures parts == [Algorithm, "Credential=" + accessKey + "/" + scope + ",", "SignedHeaders=" + signedHeaders + ",", "Signature=" + signature]
    ensures Join(parts, " ") == Authorization(accessKey, scope, signedHeaders, signature)
  {
    parts := [Algorithm, "Credential=" + accessKey + "/" + scope + ",", "SignedHeaders=" + signedHeaders + ",", "Signature=" + signature];
    assert Join(parts[1..][1..], " ") == parts[2] + " " + parts[3] by {
      assert parts[1..][1..][1..] == [parts[3]];
    }
  }

  /** The request URL names the bucket in the host and the key in the
      path, and no region, unlike `s3_to_https`. */
  lemma RequestUrlShape(bucket: string, key: string)
    ensures RequestUrl(bucket, key) == "https://" + bucket + ".s3.amazonaws.com/" + key
  {
    assert Host(bucket) + "/" + key == bucket + ".s3.amazonaws.com/" + key;
  }

  /** With both keys set, a well-formed `s3://` URL is signed and turned
      into the request URL of its bucket and key. */
  lemma PresignedUrl(c: Crypto, env: Env, now: DateTime, b: string, k: string, awsRegion: Option<string>, rtype: string,
                     public: bool, requesterPays: bool, contentType: Option<string>)
    requires ValidTime(now) && ValidBucket(b) && ValidKey(k)
    requires AccessKey(env).Some? && SecretKey(env).Some?
    ensures var r := Presign(c, env, now, Format(b, k), awsRegion, rtype, public, requesterPays, contentType);
      r.Ok? && r.value.headers.Some? && r.value.url == "https://" + b + ".s3.amazonaws.com/" + k
  {
    RoundTrip(b, k);
    RequestUrlShape(b, k);
  }

  /** Over headers that name neither `Authorization` nor `content-type`,
      adding those two keeps every signed header as it was. */
  lemma AddUnsignedKeeps(signed: map<string, string>, authorization: string, contentType: Option<string>)
    requires "Authorization" !in signed && "content-type" !in signed
    ensures var h := AddUnsigned(signed, authorization, contentType);
      h["Authorization"] == authorization && forall n :: n in signed ==> h[n] == signed[n]
  {
    assert "Authorization" != "content-type" by {
      assert "Authorization"[0] != "content-type"[0];
    }
  }

  /** The returned headers are the signed ones, unchanged, plus
      `Authorization` and, when a content type is given, `content-type`;
      neither of those two is among the signed names. */
  lemma RequestHeaderKeys(c: Crypto, env: Env, now: DateTime, bucket: string, key: string, region: string,
                          accessKey: string, secretKey: string, rtype: string,
                          public: bool, requesterPays: bool, contentType: Option<string>)
    requires ValidTime(now)
    ensures var signed := SignedHeaderMap(Host(bucket), AmzDate(now), requesterPays, public, env);
      var h := RequestHeaders(c, env, now, bucket, key, region, accessKey, secretKey, rtype, public, requesterPays, contentType);
      "Authorization" !in signed && "content-type" !in signed &&
      h.Keys == signed.Keys + {"Authorization"} + (if contentType.Some? then {"content-type"} else {}) &&
      (forall n :: n in signed ==> h[n] == signed[n]) &&
      (contentType.Some? ==> h["content-type"] == contentType.value)
  {
    var signed := SignedHeaderMap(Host(bucket), AmzDate(now), requesterPays, public, env);
    NotSigned(Host(bucket), AmzDate(now), requesterPays, public, env);
    var names := SortedList(signed.Keys);
    var scope := CredentialScope(DateStamp(now), region);
    var stringToSign := StringToSign(c, AmzDate(now), scope, CanonicalRequest(rtype, "/" + key, signed, names));
    var signature := c.hex(c.hmac(SigningKey(c, secretKey, DateStamp(now), region, Service), c.utf8(stringToSign)));
    AddUnsignedKeeps(signed, Authorization(accessKey, scope, SignedHeaders(names), signature), contentType);
  }

  /** `Authorization` and `content-type` are not names of signed headers. */
  lemma NotSigned(host: string, amzDate: string, requesterPays: bool, public: bool, env: Env)
    ensures var keys := SignedHeaderMap(host, amzDate, requesterPays, public, env).Keys;
      "Authorization" !in keys && "content-type" !in keys
  {
    var keys := SignedHeaderMap(host, amzDate, requesterPays, public, env).Keys;
    SignedHeaderKeys(host, amzDate, requesterPays, public, env);
    forall n | n in keys ensures n[0] == 'h' || n[0] == 'x' {
    }
    assert "Authorization"[0] == 'A' && "content-type"[0] == 'c';
  }

  /** The header dictionary as `get_presigned_url` fills it before signing. */
  method SignedHeadersOf(env: Env, host: string, amzDate: string, requesterPays: bool, public: bool)
    returns (headers: map<string, string>)
    ensures headers == SignedHeaderMap(host, amzDate, requesterPays, public, env)
  {
    headers := map["host" := host, "x-amz-content-sha256" := UnsignedPayload, "x-amz-date" := amzDate];
    if requesterPays {
      headers := headers["x-amz-request-payer" := "requester"];
    }
    if public {
      headers := headers["x-amz-acl" := "public-read"];
    }
    var token := Get(env, "AWS_SESSION_TOKEN");
    if token.Some? && token.value != "" && "AWS_BUCKET_ACCESS_KEY_ID" !in env {
      headers := headers["x-amz-security-token" := token.value];
    }
  }

  /** The signing half of `get_presigned_url`, once the credentials, the
      region and the bucket and key are known. */
  method SignRequest(c: Crypto, env: Env, now: DateTime, bucket: string, key: string, region: string,
                     accessKey: string, secretKey: string, rtype: string,
                     public: bool, requesterPays: bool, contentType: Option<string>)
    returns (requestUrl: string, headers: map<string, string>)
    requires ValidTime(now)
    ensures requestUrl == RequestUrl(bucket, key)
    ensures headers == RequestHeaders(c, env, now, bucket, key, region, accessKey, secretKey, rtype, public, requesterPays, contentType)
  {
    var host := bucket + "." + Service + ".amazonaws.com";
    var amzDate := AmzDate(now);
    var dateStamp := DateStamp(now);
    var canonicalUri := "/" + key;
    headers := SignedHeadersOf(env, host, amzDate, requesterPays, public);
    var names := SortedList(headers.Keys);
    var canonicalRequest := CanonicalRequest(rtype, canonicalUri, headers, names);
    var scope := CredentialScope(dateStamp, region);
    var stringToSign := StringToSign(c, amzDate, scope, canonicalRequest);
    var signingKey := SigningKey(c, secretKey, dateStamp, region, Service);
    var signature := c.hex(c.hmac(signingKey, c.utf8(stringToSign)));
    var authorization := Authorization(accessKey, scope, SignedHeaders(names), signature);
    headers := headers["Authorization" := authorization];
    if contentType.Some? {
      headers := headers["content-type" := contentType.value];
    }
    requestUrl := "https://" + host + canonicalUri;
  }

  /** `get_presigned_url`: resolve the credentials and the region, give up
      signing when a key is missing, else build the headers, sign them and
      add `Authorization` and `content-type` afterwards. */
  method GetPresignedUrl(c: Crypto, env: Env, now: DateTime, url: string, awsRegion: Option<string>, rtype: string,
                         public: bool, requesterPays: bool, contentType: Option<string>) returns (r: Result<Presigned, UrlError>)
    requires ValidTime(now)
    ensures r == Presign(c, env, now, url, awsRegion, rtype, public, requesterPays, contentType)
  {
    var accessKey := AccessKey(env);
    var secretKey := SecretKey(env);
    var region := EnvRegion(env);
    if awsRegion.Some? {
      region := awsRegion.value;
    }
    assert region == Region(env, awsRegion);
    if accessKey.None? || secretKey.None? {
      return Ok(Presigned(url, None));
    }
    var parts := UrlParse(url);
    if parts.Err? {
      return Err(parts.error);
    }
    var requestUrl, headers := SignRequest(c, env, now, parts.value.bucket, parts.value.key, region, accessKey.value,
                                           secretKey.value, rtype, public, requesterPays, contentType);
    r := Ok(Presigned(requestUrl, Some(headers)));
  }
}
