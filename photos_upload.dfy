/**
 * The JSON photo upload: validate the body, store the decoded image under `galleries/<id>`, read the
 * image's dimensions, then insert one photo row that copies the stored key and URL. `GET` lists the
 * rows of one gallery.
 */
module PhotosUpload {

  import opened Wrappers
  import opened Records
  import opened Db
  import B2

  /**
   * The JSON body; `None` is an absent field. Only an absent `contentType` takes the default: a
   * present but empty one is passed on as it is.
   */
  datatype Body = Body(
    imageBuffer: Option<string>,
    fileName: Option<string>,
    galleryId: Option<string>,
    userId: Option<string>,
    contentType: Option<string>)

  /**
   * The request: the parsed body (`None` when it is not JSON), the bytes `imageBuffer` decodes to
   * from base64, and the dimensions the image-size probe reads from them (`None` when it throws).
   */
  datatype Request = Request(body: Option<Body>, decoded: B2.Bytes, dimensions: Option<(nat, nat)>)

  datatype Response = Response(status: nat, success: bool, error: Option<string>, message: Option<string>, photo: Option<Photo>)

  const DefaultContentType := "image/jpeg"
  const FieldsMissing := "Missing required fields: imageBuffer, fileName, galleryId"
  const SaveFailed := "Failed to save photo metadata to database"
  const Internal := "Internal server error"
  const Uploaded := "Photo uploaded successfully"

  function Failure(status: nat, error: string): Response
  {
    Response(status, false, Some(error), None, None)
  }

  /** The destructuring default: `contentType = 'image/jpeg'` applies only when the field is absent. */
  function ContentType(b: Body): string
  {
    b.contentType.GetOr(DefaultContentType)
  }

  /** `galleries/${galleryId}`. */
  function Folder(galleryId: string): string
  {
    "galleries/" + galleryId
  }

  /** The row the insert supplies. */
  function Draft(b: Body, stored: B2.UploadResult, width: nat, height: nat): PhotoDraft
    requires b.galleryId.Some?
  {
    PhotoDraft(b.galleryId.value, if B2.Truthy(b.userId) then b.userId else None,
               stored.fileKey, stored.publicUrl, Some(width), Some(height))
  }

  predicate Valid(b: Body)
  {
    B2.Truthy(b.imageBuffer) && B2.Truthy(b.fileName) && B2.Truthy(b.galleryId)
  }

  /** `POST` as a function of the tables and the bucket. */
  function Post(t: Tables, f: Faults, objects: B2.Bucket, env: B2.Env, sf: B2.StoreFaults, req: Request, now: nat)
    : (Tables, B2.Bucket, Response)
  {
    match req.body
    case None => (t, objects, Failure(500, Internal))
    case Some(b) =>
      if !Valid(b) then (t, objects, Failure(400, FieldsMissing))
      else
        var (o, up) := B2.Upload(objects, env, sf, req.decoded, b.fileName.value, Folder(b.galleryId.value), Some(ContentType(b)), now);
        match up
        case Err(_) => (t, o, Failure(500, Internal))
        case Ok(stored) =>
          match req.dimensions
          case None => (t, o, Failure(500, Internal))
          case Some(d) =>
            var (u, row) := AddPhoto(t, f, Draft(b, stored, d.0, d.1));
            match row
            case Err(_) => (u, o, Failure(500, SaveFailed))
            case Ok(p) => (u, o, Response(200, true, None, Some(Uploaded), Some(p)))
  }

  method HandlePost(db: Database, store: B2.B2Service, req: Request, now: nat) returns (res: Response)
    modifies db, store
    ensures (db.Snapshot(), store.objects, res) == Post(old(db.Snapshot()), db.faults, old(store.objects), store.env, store.faults, req, now)
  {
    if req.body.None? {
      return Failure(500, Internal);
    }
    var b := req.body.value;
    if !Valid(b) {
      return Failure(400, FieldsMissing);
    }
    var up := store.UploadFile(req.decoded, b.fileName.value, Folder(b.galleryId.value), Some(ContentType(b)), now);
    if up.Err? {
      return Failure(500, Internal);
    }
    match req.dimensions {
      case None => return Failure(500, Internal);
      case Some(d) =>
        var row := db.InsertPhoto(Draft(b, up.value, d.0, d.1));
        if row.Err? {
          return Failure(500, SaveFailed);
        }
        res := Response(200, true, None, Some(Uploaded), Some(row.value));
    }
  }

  // ---------------------------------------------------------------- GET

  datatype Listing = Listing(status: nat, error: Option<string>, photos: Option<seq<Photo>>)

  function Get(t: Tables, f: Faults, galleryId: Option<string>): Listing
  {
    if !B2.Truthy(galleryId) then Listing(400, Some("galleryId is required"), None)
    else
      match PhotosOfGallery(t, f, galleryId.value)
      case Err(_) => Listing(500, Some("Failed to fetch photos"), None)
      case Ok(rows) => Listing(200, None, Some(rows))
  }

  method HandleGet(db: Database, galleryId: Option<string>) returns (res: Listing)
    ensures res == Get(db.Snapshot(), db.faults, galleryId)
  {
    if !B2.Truthy(galleryId) {
      return Listing(400, Some("galleryId is required"), None);
    }
    if db.faults.selectPhotos {
      return Listing(500, Some("Failed to fetch photos"), None);
    }
    res := Listing(200, None, Some(Matching(db.photos, GalleryIdOf, galleryId.value)));
  }

  // ---------------------------------------------------------------- what POST guarantees

  /** The key the image is stored under. */
  function StoredKey(env: B2.Env, b: Body): string
    requires Valid(b)
  {
    B2.UploadKey(env, Folder(b.galleryId.value), b.fileName.value)
  }

  /** A body that is not JSON, or that lacks the image, the file name or the gallery id, is refused before anything is stored. */
  lemma PostValidation(t: Tables, f: Faults, objects: B2.Bucket, env: B2.Env, sf: B2.StoreFaults, req: Request, now: nat)
    ensures var (u, o, res) := Post(t, f, objects, env, sf, req, now);
      && (req.body.None? ==> (u, o, res) == (t, objects, Failure(500, Internal)))
      && (req.body.Some? && !Valid(req.body.value) ==> (u, o, res) == (t, objects, Failure(400, FieldsMissing)))
      && (res.status == 400 <==> req.body.Some? && !Valid(req.body.value))
  {
  }

  /**
   * A valid body stores the image under `<base>/galleries/<id>/<fileName>` unless the put fails, with
   * content type 'image/jpeg' when the field is absent, the given one when it is non-empty, and the
   * store's own default when it is empty.
   */
  lemma PostStoresUnderGallery(t: Tables, f: Faults, objects: B2.Bucket, env: B2.Env, sf: B2.StoreFaults, req: Request, now: nat)
    requires req.body.Some? && Valid(req.body.value)
    ensures var (u, o, res) := Post(t, f, objects, env, sf, req, now);
      var b := req.body.value;
      var key := StoredKey(env, b);
      && key == B2.BasePath(env) + "/galleries/" + b.galleryId.value + "/" + b.fileName.value
      && (key in sf.put ==> o == objects && u == t && res == Failure(500, Internal))
      && (key !in sf.put ==> key in o && o == objects[key := o[key]] && o[key].body == req.decoded)
      && (key !in sf.put && b.contentType.None? ==> o[key].contentType == Some(DefaultContentType))
      && (key !in sf.put && B2.Truthy(b.contentType) ==> o[key].contentType == b.contentType)
      && (key !in sf.put && b.contentType == Some("") ==> o[key].contentType == Some(B2.OctetStream))
  {
    var b := req.body.value;
    assert Folder(b.galleryId.value) != "";
    assert B2.UploadKey(env, Folder(b.galleryId.value), b.fileName.value)
        == B2.BasePath(env) + "/" + ("galleries/" + b.galleryId.value) + "/" + b.fileName.value;
  }

  /**
   * POST succeeds exactly when the store, the URL, the size read-back, the dimension probe and the
   * insert all succeed. The one new row then copies the stored key and URL, carries the gallery id,
   * the user id only when it is truthy, and the probed dimensions; the earlier rows are kept.
   */
  lemma PostSucceedsIff(t: Tables, f: Faults, objects: B2.Bucket, env: B2.Env, sf: B2.StoreFaults, req: Request, now: nat)
    requires req.body.Some? && Valid(req.body.value)
    ensures var (u, o, res) := Post(t, f, objects, env, sf, req, now);
      var b := req.body.value;
      var key := StoredKey(env, b);
      && (res.status == 200 <==>
            key !in sf.put && B2.PublicUrl(env, key).Ok? && key !in sf.head && req.dimensions.Some? && key !in f.photoInsert)
      && (res.status == 200 ==>
            && res.success && res.message == Some(Uploaded) && res.photo.Some?
            && u.photos == t.photos + [res.photo.value]
            && var p := res.photo.value;
            && p.b2_file_key == key && p.public_url == B2.PublicUrl(env, key).value
            && p.gallery_id == b.galleryId.value
            && (p.user_tag_id.Some? <==> B2.Truthy(b.userId))
            && (p.user_tag_id.Some? ==> p.user_tag_id == b.userId)
            && p.width == Some(req.dimensions.value.0) && p.height == Some(req.dimensions.value.1))
      && (res.status != 200 ==> res.status == 500 && !res.success && u == t)
  {
  }

  /** A failed insert, or a failed dimension probe, leaves the stored image behind with no row naming it. */
  lemma FailureAfterStoreLeavesObject(t: Tables, f: Faults, objects: B2.Bucket, env: B2.Env, sf: B2.StoreFaults, req: Request, now: nat)
    requires req.body.Some? && Valid(req.body.value)
    requires StoredKey(env, req.body.value) !in sf.put
    ensures var (u, o, res) := Post(t, f, objects, env, sf, req, now);
      res.status != 200 ==> u == t && StoredKey(env, req.body.value) in o
  {
  }

  /**
   * There is no existence check: uploading a file name a row of the gallery already stores replaces
   * the object but adds a second row with the same key.
   */
  lemma ReuploadDuplicatesRow(t: Tables, f: Faults, objects: B2.Bucket, env: B2.Env, sf: B2.StoreFaults, req: Request, now: nat, i: nat)
    requires req.body.Some? && Valid(req.body.value)
    requires i < |t.photos| && t.photos[i].b2_file_key == StoredKey(env, req.body.value)
    ensures var (u, o, res) := Post(t, f, objects, env, sf, req, now);
      res.status == 200 ==>
        && u.photos[i] == t.photos[i] && u.photos[|t.photos|].b2_file_key == t.photos[i].b2_file_key
        && i != |t.photos|
  {
    PostSucceedsIff(t, f, objects, env, sf, req, now);
  }

  // ---------------------------------------------------------------- what GET guarantees

  /**
   * GET needs a gallery id; with one, and a select that does not fail, it answers 200 with exactly
   * the rows of that gallery, in table order (the order `Matching` keeps).
   */
  lemma GetFilters(t: Tables, f: Faults, galleryId: Option<string>)
    ensures var res := Get(t, f, galleryId);
      && (res.status == 400 <==> !B2.Truthy(galleryId))
      && (B2.Truthy(galleryId) && f.selectPhotos ==> res == Listing(500, Some("Failed to fetch photos"), None))
      && (res.status == 200 <==> B2.Truthy(galleryId) && !f.selectPhotos)
      && (res.status == 200 ==>
            && res.photos == Some(Matching(t.photos, GalleryIdOf, galleryId.value))
            && (forall p :: p in res.photos.value ==> p in t.photos && p.gallery_id == galleryId.value)
            && (forall i :: 0 <= i < |t.photos| && t.photos[i].gallery_id == galleryId.value ==> t.photos[i] in res.photos.value))
  {
    if B2.Truthy(galleryId) && !f.selectPhotos {
      forall i | 0 <= i < |t.photos| && t.photos[i].gallery_id == galleryId.value
        ensures t.photos[i] in Matching(t.photos, GalleryIdOf, galleryId.value)
      {
        MatchingComplete(t.photos, GalleryIdOf, galleryId.value, i);
      }
    }
  }
}
