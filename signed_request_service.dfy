/**
 * app/Services/SignedRequestService.php: the arguments of the S3 `putObject` command, the
 * headers and URL handed back for a presigned upload, and the object key for an upload id.
 * Signing itself is done by the AWS SDK and is a parameter here.
 */
module SignedRequestService {
  import opened Wrappers
  import Text
  import opened Php
  import FileUploadConfiguration

  /** The service's only state: the default disk's configuration array. */
  datatype Service = Service(disk: seq<(string, Value)>)

  /**
   * The constructor: the default disk's configuration goes into an `array` property, so any
   * other value is a `TypeError` (`None`).
   */
  function NewService(cfg: FileUploadConfiguration.Config): (r: Option<Service>)
    ensures r.Some? <==> FileUploadConfiguration.DiskNamed(cfg, cfg.default).Arr?
    ensures r.Some? ==> Arr(r.value.disk) == FileUploadConfiguration.DiskNamed(cfg, cfg.default)
  {
    match FileUploadConfiguration.DiskNamed(cfg, cfg.default)
    case Arr(es) => Some(Service(es))
    case _ => None
  }

  /** The parts of a PSR-7 URI that `buildUrl` reads. */
  datatype Uri = Uri(scheme: string, authority: string, path: string, query: string)

  /** `buildUrl`: the "?" is written even for an empty query. */
  function BuildUrl(u: Uri): string
  {
    u.scheme + "://" + u.authority + u.path + "?" + u.query
  }

  predicate NotColon(c: char) { c != ':' }
  predicate NotSlashOrQuestion(c: char) { c != '/' && c != '?' }
  predicate NotQuestion(c: char) { c != '?' }

  /**
   * Reading a URL back: the scheme up to the first ':', "://", the authority up to the first '/'
   * or '?', the path up to the first '?', and the query after it.
   */
  function ParseUrl(s: string): Option<Uri>
  {
    var a := Text.LeadingRun(s, NotColon);
    if !(a + 3 <= |s| && s[a..a + 3] == "://") then None
    else ParseAuthority(s[..a], s[a + 3..])
  }

  /** The authority up to the first '/' or '?', then the rest. */
  function ParseAuthority(scheme: string, rest: string): Option<Uri>
  {
    var b := Text.LeadingRun(rest, NotSlashOrQuestion);
    ParseQuery(scheme, rest[..b], rest[b..])
  }

  /** The path up to the first '?' and the query after it; no '?' means no URL. */
  function ParseQuery(scheme: string, authority: string, tail: string): Option<Uri>
  {
    var c := Text.LeadingRun(tail, NotQuestion);
    if c == |tail| then None else Some(Uri(scheme, authority, tail[..c], tail[c + 1..]))
  }

  /** A URI whose parts cannot be confused with the separators around them. */
  predicate WellFormed(u: Uri)
  {
    && (forall j :: 0 <= j < |u.scheme| ==> NotColon(u.scheme[j]))
    && (forall j :: 0 <= j < |u.authority| ==> NotSlashOrQuestion(u.authority[j]))
    && (forall j :: 0 <= j < |u.path| ==> NotQuestion(u.path[j]))
    && (u.path == "" || u.path[0] == '/')
  }

  /** The built URL gives back every part of a well-formed URI. */
  lemma BuildUrlRoundTrip(u: Uri)
    ensures WellFormed(u) ==> ParseUrl(BuildUrl(u)) == Some(u)
  {
    if WellFormed(u) {
      WellFormedRoundTrip(u);
    }
  }

  lemma WellFormedRoundTrip(u: Uri)
    requires WellFormed(u)
    ensures ParseUrl(BuildUrl(u)) == Some(u)
  {
    var tail := u.path + ("?" + u.query);
    var rest := u.authority + tail;
    var s := u.scheme + ("://" + rest);
    assert BuildUrl(u) == s;
    Cut(u.scheme, "://" + rest, NotColon);
    if u.path != "" {
      assert tail[0] == u.path[0];
    }
    Cut(u.authority, tail, NotSlashOrQuestion);
    Cut(u.path, "?" + u.query, NotQuestion);
    ParseOf(s, u.scheme, rest, u.authority, tail, u.path, u.query);
  }

  /** `ParseUrl` of a string once the three scans are known to stop at the part boundaries. */
  lemma ParseOf(s: string, scheme: string, rest: string, authority: string, tail: string, path: string, query: string)
    requires s == scheme + ("://" + rest) && Text.LeadingRun(s, NotColon) == |scheme|
    requires rest == authority + tail && Text.LeadingRun(rest, NotSlashOrQuestion) == |authority|
    requires tail == path + ("?" + query) && Text.LeadingRun(tail, NotQuestion) == |path|
    ensures ParseUrl(s) == Some(Uri(scheme, authority, path, query))
  {
    var a := |scheme|;
    assert s[a..] == "://" + rest;
    assert s[a..a + 3] == "://" && s[a + 3..] == rest && s[..a] == scheme;
    ParseAuthorityOf(scheme, rest, authority, tail, path, query);
  }

  lemma ParseAuthorityOf(scheme: string, rest: string, authority: string, tail: string, path: string, query: string)
    requires rest == authority + tail && Text.LeadingRun(rest, NotSlashOrQuestion) == |authority|
    requires tail == path + ("?" + query) && Text.LeadingRun(tail, NotQuestion) == |path|
    ensures ParseAuthority(scheme, rest) == Some(Uri(scheme, authority, path, query))
  {
    assert rest[|authority|..] == tail && rest[..|authority|] == authority;
    ParseQueryOf(scheme, authority, tail, path, query);
  }

  lemma ParseQueryOf(scheme: string, authority: string, tail: string, path: string, query: string)
    requires tail == path + ("?" + query) && Text.LeadingRun(tail, NotQuestion) == |path|
    ensures ParseQuery(scheme, authority, tail) == Some(Uri(scheme, authority, path, query))
  {
    var q := "?" + query;
    assert tail[..|path|] == path && tail[|path|..] == q;
    assert q[1..] == query;
    assert tail[|path| + 1..] == q[1..];
  }

  /** Scanning `x + y` with a predicate every character of `x` and not the first of `y` meets. */
  lemma Cut(x: string, y: string, p: char -> bool)
    requires forall j :: 0 <= j < |x| ==> p(x[j])
    requires y != [] && !p(y[0])
    ensures Text.LeadingRun(x + y, p) == |x|
    ensures (x + y)[..|x|] == x && (x + y)[|x|..] == y
  {
    Text.RunStops(x, y, p);
  }

  /** The URL always carries "?", so the query is present even when empty. */
  lemma BuildUrlHasQueryMark(u: Uri)
    ensures var s := BuildUrl(u);
      |s| > |u.query| && s[|s| - |u.query| - 1] == '?' && s[|s| - |u.query|..] == u.query
  {
  }

  const KeyPrefix := "tmp/"

  /** `getKey`: the object key of an upload id. */
  function GetKey(uuid: string): string
  {
    KeyPrefix + uuid
  }

  /** The upload id back from an object key; keys outside "tmp/" have none. */
  function UuidOf(key: string): Option<string>
  {
    if |key| >= |KeyPrefix| && key[..|KeyPrefix|] == KeyPrefix then Some(key[|KeyPrefix|..]) else None
  }

  /** Keys and ids correspond one to one. */
  lemma KeyRoundTrip(uuid: string, key: string)
    ensures UuidOf(GetKey(uuid)) == Some(uuid)
    ensures UuidOf(key) == Some(uuid) <==> key == GetKey(uuid)
  {
    assert GetKey(uuid)[..|KeyPrefix|] == KeyPrefix;
    assert GetKey(uuid)[|KeyPrefix|..] == uuid;
    if UuidOf(key) == Some(uuid) {
      assert key == key[..|KeyPrefix|] + key[|KeyPrefix|..];
    }
  }

  /** `headers()`: the signed headers with a truthy Content-Type and Content-Length merged over them. */
  function Headers(signed: seq<(string, Value)>, contentType: string, contentLength: Value): seq<(string, Value)>
  {
    ArrayMerge(signed, ArrayFilter([("Content-Type", Str(contentType)), ("Content-Length", contentLength)]))
  }

  /**
   * Every signed header is kept in its place; Content-Type and Content-Length take the argument
   * when it is truthy and keep the signed value otherwise; no other header changes.
   */
  lemma HeadersGet(signed: seq<(string, Value)>, contentType: string, contentLength: Value, k: string)
    ensures var r := Headers(signed, contentType, contentLength);
      && |r| >= |signed|
      && (forall i :: 0 <= i < |signed| ==> r[i].0 == signed[i].0)
      && KeySet(signed) <= KeySet(r)
      && Get(r, "Content-Type") == (if Truthy(Str(contentType)) then Some(Str(contentType)) else Get(signed, "Content-Type"))
      && Get(r, "Content-Length") == (if Truthy(contentLength) then Some(contentLength) else Get(signed, "Content-Length"))
      && (k != "Content-Type" && k != "Content-Length" ==> Get(r, k) == Get(signed, k))
  {
    var fields := [("Content-Type", Str(contentType)), ("Content-Length", contentLength)];
    assert DistinctKeys(fields);
    FilterGet(fields, "Content-Type");
    FilterGet(fields, "Content-Length");
    FilterGet(fields, k);
    var added := ArrayFilter(fields);
    MergeGet(signed, added, "Content-Type");
    MergeGet(signed, added, "Content-Length");
    MergeGet(signed, added, k);
  }

  const CommandExpires := "+15 minutes"
  const DefaultAcl := "private"

  /** The entries `createCommand` writes before `array_filter`. */
  function CommandFields(service: Service, key: string, contentType: string, metadata: Value): seq<(string, Value)>
  {
    [ ("Bucket", DataGet(Arr(service.disk), "bucket", Null)),
      ("Key", Str(key)),
      ("ACL", DataGet(Arr(service.disk), "visibility", Str(DefaultAcl))),
      ("ContentType", Str(contentType)),
      ("CacheControl", Null),
      ("Expires", Str(CommandExpires)),
      ("Metadata", metadata) ]
  }

  /** The `putObject` arguments of `createCommand`: the fields without their falsy values. */
  function CommandArgs(service: Service, key: string, contentType: string, metadata: Value): seq<(string, Value)>
  {
    ArrayFilter(CommandFields(service, key, contentType, metadata))
  }

  /** A field of the command survives exactly when its value is truthy. */
  function Kept(v: Value): Option<Value>
  {
    if Truthy(v) then Some(v) else None
  }

  /** The command never carries CacheControl and always expires after 15 minutes. */
  lemma CommandArgsFixed(service: Service, key: string, contentType: string, metadata: Value)
    ensures Get(CommandArgs(service, key, contentType, metadata), "CacheControl") == None
    ensures Get(CommandArgs(service, key, contentType, metadata), "Expires") == Some(Str(CommandExpires))
    ensures |CommandArgs(service, key, contentType, metadata)| <= 6
  {
    var fields := CommandFields(service, key, contentType, metadata);
    assert fields[4] == ("CacheControl", Null) && fields[5] == ("Expires", Str(CommandExpires));
    assert Kept(Str(CommandExpires)) == Some(Str(CommandExpires));
    CommandFieldsDistinct(service, key, contentType, metadata);
    FilteredField(fields, 4);
    FilteredField(fields, 5);
    FilterDropsOne(fields, 4);
  }

  /** The key, the content type and the metadata pass through when truthy. */
  lemma CommandArgsInputs(service: Service, key: string, contentType: string, metadata: Value)
    ensures Get(CommandArgs(service, key, contentType, metadata), "Key") == Kept(Str(key))
    ensures Get(CommandArgs(service, key, contentType, metadata), "ContentType") == Kept(Str(contentType))
    ensures Get(CommandArgs(service, key, contentType, metadata), "Metadata") == Kept(metadata)
  {
    var fields := CommandFields(service, key, contentType, metadata);
    CommandFieldsDistinct(service, key, contentType, metadata);
    FilteredField(fields, 1);
    FilteredField(fields, 3);
    FilteredField(fields, 6);
  }

  /** The bucket and the ACL come from the disk, the ACL defaulting to "private". */
  lemma CommandArgsDisk(service: Service, key: string, contentType: string, metadata: Value)
    ensures Get(CommandArgs(service, key, contentType, metadata), "Bucket") == Kept(DataGet(Arr(service.disk), "bucket", Null))
    ensures Get(CommandArgs(service, key, contentType, metadata), "ACL") == Kept(DataGet(Arr(service.disk), "visibility", Str(DefaultAcl)))
    ensures "visibility" !in KeySet(service.disk) ==> Get(CommandArgs(service, key, contentType, metadata), "ACL") == Some(Str(DefaultAcl))
  {
    var fields := CommandFields(service, key, contentType, metadata);
    CommandFieldsDistinct(service, key, contentType, metadata);
    FilteredField(fields, 0);
    FilteredField(fields, 2);
  }

  lemma CommandFieldsDistinct(service: Service, key: string, contentType: string, metadata: Value)
    ensures DistinctKeys(CommandFields(service, key, contentType, metadata))
  {
  }

  /** After filtering, an entry's key holds its value if that is truthy and is gone otherwise. */
  lemma FilteredField(es: seq<(string, Value)>, i: nat)
    requires DistinctKeys(es) && i < |es|
    ensures Get(ArrayFilter(es), es[i].0) == Kept(es[i].1)
  {
    GetDistinct(es, i);
    FilterGet(es, es[i].0);
  }

  /** Filtering an array with a falsy entry leaves out at least that entry. */
  lemma {:induction false} FilterDropsOne(es: seq<(string, Value)>, i: nat)
    requires i < |es| && !Truthy(es[i].1)
    ensures |ArrayFilter(es)| < |es|
  {
    if i > 0 {
      assert es[1..][i - 1] == es[i];
      FilterDropsOne(es[1..], i - 1);
    }
  }

  /** What the presigning client returns: the request's URI and its headers. */
  datatype PresignedRequest = PresignedRequest(uri: Uri, headers: seq<(string, Value)>)

  /** The array `handle` returns. */
  datatype Signature = Signature(bucket: Value, key: string, url: string, headers: seq<(string, Value)>)

  const DefaultExpiresAfter := 60

  /** The lifetime phrase of the presigned request: `url_expires_after` minutes, 60 by default. */
  function ExpiryPhrase(expiresAfter: Option<nat>): string
  {
    "+" + Text.NatToString(match expiresAfter case Some(m) => m case None => DefaultExpiresAfter) + " minutes"
  }

  /**
   * `handle`: presigns the command and returns the disk's bucket, the key as given, the URL of
   * the signed request and the merged headers.
   */
  function Handle(service: Service, key: string, contentType: string, metadata: Value, contentLength: Value,
                  expiresAfter: Option<nat>, presign: (seq<(string, Value)>, string) -> PresignedRequest): (r: Signature)
    ensures r.key == key
    ensures r.bucket == DataGet(Arr(service.disk), "bucket", Null)
    ensures var signed := presign(CommandArgs(service, key, contentType, metadata), ExpiryPhrase(expiresAfter));
      && r.url == BuildUrl(signed.uri)
      && r.headers == Headers(signed.headers, contentType, contentLength)
      && (WellFormed(signed.uri) ==> ParseUrl(r.url) == Some(signed.uri))
      && Get(r.headers, "Content-Type") == (if Truthy(Str(contentType)) then Some(Str(contentType)) else Get(signed.headers, "Content-Type"))
      && Get(r.headers, "Content-Length") == (if Truthy(contentLength) then Some(contentLength) else Get(signed.headers, "Content-Length"))
      && KeySet(signed.headers) <= KeySet(r.headers)
  {
    var signed := presign(CommandArgs(service, key, contentType, metadata), ExpiryPhrase(expiresAfter));
    HeadersGet(signed.headers, contentType, contentLength, "Content-Type");
    BuildUrlRoundTrip(signed.uri);
    Signature(DataGet(Arr(service.disk), "bucket", Null), key, BuildUrl(signed.uri), Headers(signed.headers, contentType, contentLength))
  }
}
