/**
 * The admin file-management endpoint: `move` and `rename` copy an object to a new key, repoint the
 * photo rows that named the old key and then delete the old object; `delete` removes the object and
 * then the rows that name it. The order of the store and table writes decides what a failure leaves
 * behind.
 */
module ManageRoute {

  import opened Wrappers
  import opened Strings
  import opened Db
  import B2

  /** The JSON body's `action`, `sourcePath` and `targetPath`; `None` is a missing field. */
  datatype Body = Body(action: Option<string>, sourcePath: Option<string>, targetPath: Option<string>)

  /** ADMIN_PASSWORD and the parsed body, `None` when the body is not JSON. */
  datatype Request = Request(adminPassword: Option<string>, body: Option<Body>)

  datatype Response = Response(status: nat, success: bool, message: string)

  /**
   * Which reading of a move is meant. The code is `AsWritten`. Under `storedKey` the rows take the
   * key and URL of the copy the upload made, and the source is deleted only when it is not that key.
   */
  datatype Rules = Rules(storedKey: bool)

  const AsWritten := Rules(false)

  const PasswordMissing := "Admin password not configured"
  const OperationFailed := "An error occurred during the operation"
  const FieldsRequired := "Action and sourcePath are required"
  const TargetRequired := "targetPath is required for move/rename actions"
  const InvalidAction := "Invalid action. Use \"move\", \"rename\", or \"delete\"."

  // ---------------------------------------------------------------- where a move puts the copy

  /** `targetPath.split('/').pop() || fileName`, the file name being the source's last segment. */
  function MoveName(source: string, target: string): string
  {
    var last := LastSegment(target, '/');
    if last != "" then last else LastSegment(source, '/')
  }

  /** `targetPath.split('/').slice(0, -1).join('/')`: the target without its last segment. */
  function MoveFolder(target: string): string
  {
    var parts := Split(target, '/');
    Join(parts[..|parts| - 1], '/')
  }

  /** The key the copy is stored under. */
  function MovedKey(env: B2.Env, source: string, target: string): string
  {
    B2.UploadKey(env, MoveFolder(target), MoveName(source, target))
  }

  // ---------------------------------------------------------------- responses

  function DuringFailure(action: string, m: string): Response
  {
    Response(500, false, "Error during " + action + ": " + m)
  }

  function Moved(action: string, source: string, target: string): Response
  {
    Response(200, true, "File successfully " + (if action == "move" then "moved" else "renamed") + " from " + source + " to " + target)
  }

  // ---------------------------------------------------------------- the handler as a function of the state

  /** How a move ends: done, a store step that threw (with its message), or a failed row update. */
  datatype MoveEnd = Done | StoreFailed(message: string) | UpdateFailed(message: string)

  /** Download, upload the copy, repoint the rows, delete the source; each failure stops the move. */
  function MoveSteps(t: Tables, f: Faults, objects: B2.Bucket, env: B2.Env, sf: B2.StoreFaults,
                     source: string, target: string, now: nat, rules: Rules): (Tables, B2.Bucket, MoveEnd)
  {
    match B2.Download(objects, sf, source)
    case Err(e) => (t, objects, StoreFailed(e.Message()))
    case Ok(body) =>
      var (o1, up) := B2.Upload(objects, env, sf, body, MoveName(source, target), MoveFolder(target), None, now);
      match up
      case Err(e) => (t, o1, StoreFailed(e.Message()))
      case Ok(copy) =>
        var key := if rules.storedKey then copy.fileKey else target;
        match B2.PublicUrl(env, key)
        case Err(m) => (t, o1, StoreFailed(m))
        case Ok(url) =>
          var (t1, err) := UpdatePhotoKey(t, f, source, key, url);
          if err.Some? then (t1, o1, UpdateFailed(err.value))
          else if rules.storedKey && key == source then (t1, o1, Done)
          else
            var (o2, d) := B2.Delete(o1, sf, source);
            if d.Err? then (t1, o2, StoreFailed(d.error.Message()))
            else (t1, o2, Done)
  }

  /** The response for how the move ended; `action` only names the verb. */
  function MoveResponse(action: string, source: string, target: string, end: MoveEnd): Response
  {
    match end
    case Done => Moved(action, source, target)
    case StoreFailed(m) => DuringFailure(action, m)
    case UpdateFailed(m) => Response(500, false, "File moved but database update failed: " + m)
  }

  function Move(t: Tables, f: Faults, objects: B2.Bucket, env: B2.Env, sf: B2.StoreFaults, action: string,
                source: string, target: string, now: nat, rules: Rules): (Tables, B2.Bucket, Response)
  {
    var (u, o, end) := MoveSteps(t, f, objects, env, sf, source, target, now, rules);
    (u, o, MoveResponse(action, source, target, end))
  }

  /** Delete the object, then the rows that name it. */
  function Remove(t: Tables, f: Faults, objects: B2.Bucket, sf: B2.StoreFaults, source: string): (Tables, B2.Bucket, Response)
  {
    var (o1, d) := B2.Delete(objects, sf, source);
    if d.Err? then (t, o1, Response(500, false, "Error during delete: " + d.error.Message()))
    else
      var (t1, err) := DeletePhotoKey(t, f, source);
      if err.Some? then (t1, o1, Response(500, false, "File deleted from B2 but database record removal failed: " + err.value))
      else (t1, o1, Response(200, true, "File successfully deleted: " + source))
  }

  /** `POST`: validation, then the action. */
  function Manage(t: Tables, f: Faults, objects: B2.Bucket, env: B2.Env, sf: B2.StoreFaults, req: Request,
                  now: nat, rules: Rules): (Tables, B2.Bucket, Response)
  {
    if !B2.Truthy(req.adminPassword) then (t, objects, Response(500, false, PasswordMissing))
    else if req.body.None? then (t, objects, Response(500, false, OperationFailed))
    else
      var b := req.body.value;
      if !B2.Truthy(b.action) || !B2.Truthy(b.sourcePath) then (t, objects, Response(400, false, FieldsRequired))
      else if b.action.value != "delete" && !B2.Truthy(b.targetPath) then (t, objects, Response(400, false, TargetRequired))
      else if b.action.value == "move" || b.action.value == "rename" then
        Move(t, f, objects, env, sf, b.action.value, b.sourcePath.value, b.targetPath.value, now, rules)
      else if b.action.value == "delete" then Remove(t, f, objects, sf, b.sourcePath.value)
      else (t, objects, Response(400, false, InvalidAction))
  }

  // ---------------------------------------------------------------- the handler over the database and the bucket

  method MoveFile(db: Database, store: B2.B2Service, action: string, source: string, target: string, now: nat, rules: Rules)
    returns (res: Response)
    modifies db, store
    ensures (db.Snapshot(), store.objects, res)
         == Move(old(db.Snapshot()), db.faults, old(store.objects), store.env, store.faults, action, source, target, now, rules)
  {
    var body := store.DownloadFile(source);
    if body.Err? {
      return DuringFailure(action, body.error.Message());
    }
    var copy := store.UploadFile(body.value, MoveName(source, target), MoveFolder(target), None, now);
    if copy.Err? {
      return DuringFailure(action, copy.error.Message());
    }
    var key := if rules.storedKey then copy.value.fileKey else target;
    var url := store.GetPublicUrl(key);
    var u: string;
    match url {
      case Err(m) => return DuringFailure(action, m);
      case Ok(v) => u := v;
    }
    var err := db.UpdatePhotos(source, key, u);
    if err.Some? {
      return Response(500, false, "File moved but database update failed: " + err.value);
    }
    if !(rules.storedKey && key == source) {
      var d := store.DeleteFile(source);
      if d.Err? {
        return DuringFailure(action, d.error.Message());
      }
    }
    res := Moved(action, source, target);
  }

  method RemoveFile(db: Database, store: B2.B2Service, source: string) returns (res: Response)
    modifies db, store
    ensures (db.Snapshot(), store.objects, res) == Remove(old(db.Snapshot()), db.faults, old(store.objects), store.faults, source)
  {
    var d := store.DeleteFile(source);
    if d.Err? {
      return Response(500, false, "Error during delete: " + d.error.Message());
    }
    var err := db.DeletePhotos(source);
    if err.Some? {
      return Response(500, false, "File deleted from B2 but database record removal failed: " + err.value);
    }
    res := Response(200, true, "File successfully deleted: " + source);
  }

  method HandleManage(db: Database, store: B2.B2Service, req: Request, now: nat, rules: Rules) returns (res: Response)
    modifies db, store
    ensures (db.Snapshot(), store.objects, res)
         == Manage(old(db.Snapshot()), db.faults, old(store.objects), store.env, store.faults, req, now, rules)
  {
    if !B2.Truthy(req.adminPassword) {
      return Response(500, false, PasswordMissing);
    }
    if req.body.None? {
      return Response(500, false, OperationFailed);
    }
    var b := req.body.value;
    if !B2.Truthy(b.action) || !B2.Truthy(b.sourcePath) {
      return Response(400, false, FieldsRequired);
    }
    if b.action.value != "delete" && !B2.Truthy(b.targetPath) {
      return Response(400, false, TargetRequired);
    }
    if b.action.value == "move" || b.action.value == "rename" {
      res := MoveFile(db, store, b.action.value, b.sourcePath.value, b.targetPath.value, now, rules);
    } else if b.action.value == "delete" {
      res := RemoveFile(db, store, b.sourcePath.value);
    } else {
      res := Response(400, false, InvalidAction);
    }
  }
}
