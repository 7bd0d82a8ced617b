/**
 * The object-store client: the environment it reads, the key it builds for an upload, the public
 * URL of a key, and an in-memory bucket on which upload, head, download, delete and existence
 * checks act. Which calls fail is fixed by a fault plan.
 */
module B2 {

  import opened Wrappers
  import opened Strings

  type Bytes = seq<bv8>

  /** The environment variables the client reads; `None` is an unset variable. */
  datatype Env = Env(
    bucketName: Option<string>,
    basePath: Option<string>,
    publicUrl: Option<string>,
    endpoint: Option<string>)

  const DefaultBasePath := "B2 LuxSync"
  const OctetStream := "application/octet-stream"
  const PublicUrlMissing := "B2_PUBLIC_URL or B2_ENDPOINT must be configured for public URLs"

  /** A JavaScript value is truthy as a string: defined and non-empty. */
  predicate Truthy(o: Option<string>)
  {
    o.Some? && o.value != ""
  }

  /** How a possibly unset variable reads inside a template literal. */
  function Text(o: Option<string>): string
  {
    match o
    case Some(s) => s
    case None => "undefined"
  }

  /** `B2_BASE_PATH || 'B2 LuxSync'`. */
  function BasePath(env: Env): (base: string)
    ensures base != ""
  {
    if Truthy(env.basePath) then env.basePath.value else DefaultBasePath
  }

  /** The key `uploadFile` stores under: base, then "/" and the folder when it is non-empty, then "/" and the name. */
  function UploadKey(env: Env, folderPath: string, fileName: string): string
  {
    BasePath(env) + (if folderPath != "" then "/" + folderPath else "") + "/" + fileName
  }

  /** `contentType || 'application/octet-stream'`. */
  function ContentTypeOr(contentType: Option<string>): (ct: string)
    ensures Truthy(contentType) ==> ct == contentType.value
    ensures !Truthy(contentType) ==> ct == OctetStream
  {
    if Truthy(contentType) then contentType.value else OctetStream
  }

  /** `getPublicUrl`: `<origin>/file/<bucket>/<key>`, the origin being B2_PUBLIC_URL, else B2_ENDPOINT; an error when neither is set. */
  function PublicUrl(env: Env, key: string): (r: Result<string, string>)
    ensures r.Err? <==> !Truthy(env.publicUrl) && !Truthy(env.endpoint)
    ensures r.Err? ==> r.error == PublicUrlMissing
    ensures r.Ok? ==> r.value == UrlOrigin(env) + "/file/" + Text(env.bucketName) + "/" + key
  {
    if Truthy(env.publicUrl) then Ok(env.publicUrl.value + "/file/" + Text(env.bucketName) + "/" + key)
    else if Truthy(env.endpoint) then Ok(env.endpoint.value + "/file/" + Text(env.bucketName) + "/" + key)
    else Err(PublicUrlMissing)
  }

  /** The origin `getPublicUrl` uses when one is configured. */
  function UrlOrigin(env: Env): string
  {
    if Truthy(env.publicUrl) then env.publicUrl.value else Text(env.endpoint)
  }

  /** The URL the gallery parser writes by hand: B2_PUBLIC_URL and B2_BUCKET_NAME read raw, with no fallback. */
  function RawUrl(env: Env, key: string): string
  {
    Text(env.publicUrl) + "/file/" + Text(env.bucketName) + "/" + key
  }

  /** With B2_PUBLIC_URL set, the hand-written URL is the public URL. */
  lemma RawUrlIsPublicUrl(env: Env, key: string)
    requires Truthy(env.publicUrl)
    ensures PublicUrl(env, key) == Ok(RawUrl(env, key))
  {
  }

  /** A public URL determines its key. */
  lemma PublicUrlInjective(env: Env, k1: string, k2: string)
    requires PublicUrl(env, k1).Ok? && PublicUrl(env, k1) == PublicUrl(env, k2)
    ensures k1 == k2
  {
    var p := UrlOrigin(env) + "/file/" + Text(env.bucketName) + "/";
    assert PublicUrl(env, k1).value == p + k1;
    assert PublicUrl(env, k2).value == p + k2;
    assert (p + k1)[|p|..] == k1;
    assert (p + k2)[|p|..] == k2;
  }

  /** A file name without "/" is the last segment of the key built for it, and the key starts with the base path. */
  lemma UploadKeyEndsWithName(env: Env, folderPath: string, fileName: string)
    requires '/' !in fileName
    ensures LastSegment(UploadKey(env, folderPath, fileName), '/') == fileName
    ensures StartsWith(UploadKey(env, folderPath, fileName), BasePath(env) + "/")
  {
    var front := BasePath(env) + (if folderPath != "" then "/" + folderPath else "");
    assert UploadKey(env, folderPath, fileName) == front + ['/'] + fileName;
    SplitAppend(front, fileName, '/');
    SplitOfSeparatorFree(fileName, '/');
    var k := UploadKey(env, folderPath, fileName);
    var b := BasePath(env) + "/";
    assert k[..|b|] == b;
  }

  // ---------------------------------------------------------------- the bucket

  datatype StoredObject = StoredObject(body: Bytes, contentType: Option<string>, lastModified: Option<nat>)

  /** Errors the SDK reports: `NotFound` from a head request, `NoSuchKey` from a get, anything else. */
  datatype StoreError = NotFound | NoSuchKey | Failure(text: string) {
    function Message(): string
    {
      match this
      case NotFound => "NotFound"
      case NoSuchKey => "The specified key does not exist."
      case Failure(t) => t
    }
  }

  /** Keys on which each kind of request fails, and the message it fails with. */
  datatype StoreFaults = StoreFaults(put: set<string>, get: set<string>, head: set<string>, delete: set<string>, message: string)

  /** What a head request returns: each field may be absent. */
  datatype HeadResponse = HeadResponse(contentLength: Option<nat>, contentType: Option<string>, lastModified: Option<nat>)

  datatype FileInfo = FileInfo(size: nat, contentType: string, lastModified: nat)

  datatype UploadResult = UploadResult(fileKey: string, publicUrl: string, size: nat, contentType: string)

  type Bucket = map<string, StoredObject>

  function Head(objects: Bucket, faults: StoreFaults, key: string): (r: Result<HeadResponse, StoreError>)
    ensures r.Ok? <==> key in objects && key !in faults.head
    ensures r.Ok? ==> r.value.contentLength == Some(|objects[key].body|)
    ensures r.Err? && key !in faults.head ==> r.error == NotFound
  {
    if key in faults.head then Err(Failure(faults.message))
    else if key !in objects then Err(NotFound)
    else
      var o := objects[key];
      Ok(HeadResponse(Some(|o.body|), o.contentType, o.lastModified))
  }

  /** `getFileInfo`'s defaults: size 0, octet-stream, and the current time for a missing field. */
  function InfoOf(h: HeadResponse, now: nat): (info: FileInfo)
    ensures h.contentLength.None? ==> info.size == 0
    ensures h.contentLength.Some? ==> info.size == h.contentLength.value
    ensures info.contentType == ContentTypeOr(h.contentType)
    ensures info.lastModified == h.lastModified.GetOr(now)
  {
    FileInfo(h.contentLength.GetOr(0), ContentTypeOr(h.contentType), h.lastModified.GetOr(now))
  }

  function FileInfoOf(objects: Bucket, faults: StoreFaults, key: string, now: nat): Result<FileInfo, StoreError>
  {
    match Head(objects, faults, key)
    case Err(e) => Err(e)
    case Ok(h) => Ok(InfoOf(h, now))
  }

  /**
   * `uploadFile`: put the body under the built key, then compute the public URL, then read the size
   * back with a head request. A failure after the put leaves the object stored.
   */
  function Upload(objects: Bucket, env: Env, faults: StoreFaults, body: Bytes, fileName: string,
                  folderPath: string, contentType: Option<string>, now: nat): (r: (Bucket, Result<UploadResult, StoreError>))
    ensures var key := UploadKey(env, folderPath, fileName);
      && (key in faults.put ==> r.0 == objects && r.1 == Err(Failure(faults.message)))
      && (key !in faults.put ==> r.0 == objects[key := StoredObject(body, Some(ContentTypeOr(contentType)), Some(now))])
      && (r.1.Ok? <==> key !in faults.put && PublicUrl(env, key).Ok? && key !in faults.head)
      && (r.1.Ok? ==> r.1.value == UploadResult(key, PublicUrl(env, key).value, |body|, ContentTypeOr(contentType)))
  {
    var key := UploadKey(env, folderPath, fileName);
    var ct := ContentTypeOr(contentType);
    if key in faults.put then (objects, Err(Failure(faults.message)))
    else
      var stored := objects[key := StoredObject(body, Some(ct), Some(now))];
      match PublicUrl(env, key)
      case Err(m) => (stored, Err(Failure(m)))
      case Ok(url) =>
        match FileInfoOf(stored, faults, key, now)
        case Err(e) => (stored, Err(e))
        case Ok(info) => (stored, Ok(UploadResult(key, url, info.size, ct)))
  }

  function Download(objects: Bucket, faults: StoreFaults, key: string): (r: Result<Bytes, StoreError>)
    ensures r.Ok? <==> key in objects && key !in faults.get
    ensures r.Ok? ==> r.value == objects[key].body
  {
    if key in faults.get then Err(Failure(faults.message))
    else if key !in objects then Err(NoSuchKey)
    else Ok(objects[key].body)
  }

  /** `deleteFile`: the key is gone afterwards, whether or not it was there; a failed request changes nothing. */
  function Delete(objects: Bucket, faults: StoreFaults, key: string): (r: (Bucket, Result<(), StoreError>))
    ensures r.1.Ok? <==> key !in faults.delete
    ensures r.1.Err? ==> r == (objects, Err(Failure(faults.message)))
    ensures r.1.Ok? ==> key !in r.0 && forall k :: k != key ==> (k in r.0 <==> k in objects) && (k in r.0 ==> r.0[k] == objects[k])
  {
    if key in faults.delete then (objects, Err(Failure(faults.message)))
    else (objects - {key}, Ok(()))
  }

  /** The store as the application sees it: a map from key to object, plus the environment and the fault plan. */
  class B2Service {
    var objects: Bucket
    const env: Env
    const faults: StoreFaults

    constructor (objects0: Bucket, env0: Env, faults0: StoreFaults)
      ensures objects == objects0 && env == env0 && faults == faults0
    {
      objects, env, faults := objects0, env0, faults0;
    }

    method UploadFile(body: Bytes, fileName: string, folderPath: string, contentType: Option<string>, now: nat)
      returns (r: Result<UploadResult, StoreError>)
      modifies this
      ensures (objects, r) == Upload(old(objects), env, faults, body, fileName, folderPath, contentType, now)
    {
      var key := UploadKey(env, folderPath, fileName);
      var ct := ContentTypeOr(contentType);
      if key in faults.put {
        return Err(Failure(faults.message));
      }
      objects := objects[key := StoredObject(body, Some(ct), Some(now))];
      var url := GetPublicUrl(key);
      if url.Err? {
        return Err(Failure(url.error));
      }
      var info := GetFileInfo(key, now);
      if info.Err? {
        return Err(info.error);
      }
      r := Ok(UploadResult(key, url.value, info.value.size, ct));
    }

    method GetPublicUrl(key: string) returns (r: Result<string, string>)
      ensures r == PublicUrl(env, key)
    {
      if Truthy(env.publicUrl) {
        return Ok(env.publicUrl.value + "/file/" + Text(env.bucketName) + "/" + key);
      }
      if Truthy(env.endpoint) {
        return Ok(env.endpoint.value + "/file/" + Text(env.bucketName) + "/" + key);
      }
      r := Err(PublicUrlMissing);
    }

    method GetFileInfo(key: string, now: nat) returns (r: Result<FileInfo, StoreError>)
      ensures r == FileInfoOf(objects, faults, key, now)
      ensures r.Ok? ==> r.value.size == |objects[key].body|
    {
      var h := Head(objects, faults, key);
      if h.Err? {
        return Err(h.error);
      }
      r := Ok(InfoOf(h.value, now));
    }

    method DownloadFile(key: string) returns (r: Result<Bytes, StoreError>)
      ensures r == Download(objects, faults, key)
    {
      r := Download(objects, faults, key);
    }

    method DeleteFile(key: string) returns (r: Result<(), StoreError>)
      modifies this
      ensures (objects, r) == Delete(old(objects), faults, key)
    {
      if key in faults.delete {
        return Err(Failure(faults.message));
      }
      objects := objects - {key};
      r := Ok(());
    }

    /** `fileExists`: true after a successful head, false only for `NotFound`; other errors propagate. */
    method FileExists(key: string) returns (r: Result<bool, StoreError>)
      ensures r == Ok(true) <==> key in objects && key !in faults.head
      ensures r == Ok(false) <==> key !in objects && key !in faults.head
      ensures r.Err? ==> key in faults.head && r.error != NotFound
    {
      var info := GetFileInfo(key, 0);
      if info.Ok? {
        return Ok(true);
      }
      if info.error == NotFound {
        return Ok(false);
      }
      r := Err(info.error);
    }
  }
}
