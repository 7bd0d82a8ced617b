/**
 * The three database records (galleries, users, photos) and one entry of an object-store listing.
 * Absent or `null` columns are `Option`s; `width`/`height` are `None` when the row stores `null`.
 */
module Records {

  import opened Wrappers

  datatype User = User(id: string, handle: string, display_name: string, instagram: Option<string>)

  datatype Gallery = Gallery(
    id: string,
    title: string,
    event_date: string,
    folder_name: string,
    cover_image_url: Option<string>)

  datatype Photo = Photo(
    id: string,
    gallery_id: string,
    user_tag_id: Option<string>,
    b2_file_key: string,
    public_url: string,
    optimized_url: Option<string>,
    width: Option<int>,
    height: Option<int>)

  /** One object of a listing: `Key`, `Size` and `LastModified`, each of which the SDK may leave out. */
  datatype ListedObject = ListedObject(key: Option<string>, size: Option<nat>, lastModified: Option<nat>)

  /** A listing response; `objects` is absent when the bucket is empty. */
  datatype ListResponse = ListResponse(objects: Option<seq<ListedObject>>)

  /** `response.objects || []`. */
  function ObjectsOf(r: ListResponse): seq<ListedObject>
  {
    r.objects.GetOr([])
  }

  /** `obj.Key` is truthy: present and non-empty. */
  predicate HasKey(o: ListedObject)
  {
    o.key.Some? && o.key.value != ""
  }
}
