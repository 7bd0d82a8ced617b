/**
 * What the file-management endpoint guarantees: validation changes nothing, a move stores its copy
 * under the configured base path, the rows are repointed before the source is deleted, a delete
 * removes the object before the rows, and move and rename differ only in the message. Two places
 * where a move departs from what it evidently means to do sit next to the corrected reading.
 */
module ManageRouteLaws {

  import opened Wrappers
  import opened Strings
  import opened Db
  import opened ManageRoute
  import B2

  // ---------------------------------------------------------------- validation

  /** Every rejected request, and every unknown action, leaves the tables and the bucket as they were. */
  lemma ValidationWritesNothing(t: Tables, f: Faults, objects: B2.Bucket, env: B2.Env, sf: B2.StoreFaults,
                                req: Request, now: nat, rules: Rules)
    ensures var (u, o, res) := Manage(t, f, objects, env, sf, req, now, rules);
      && (!B2.Truthy(req.adminPassword) ==> (u, o, res) == (t, objects, Response(500, false, PasswordMissing)))
      && (B2.Truthy(req.adminPassword) && req.body.Some? ==>
            var b := req.body.value;
            && (!B2.Truthy(b.action) || !B2.Truthy(b.sourcePath) ==>
                  (u, o, res) == (t, objects, Response(400, false, FieldsRequired)))
            && (B2.Truthy(b.action) && B2.Truthy(b.sourcePath) && b.action.value != "delete" && !B2.Truthy(b.targetPath) ==>
                  (u, o, res) == (t, objects, Response(400, false, TargetRequired)))
            && (B2.Truthy(b.action) && B2.Truthy(b.sourcePath) && B2.Truthy(b.targetPath)
                && b.action.value !in {"move", "rename", "delete"} ==>
                  (u, o, res) == (t, objects, Response(400, false, InvalidAction))))
      && (res.status == 400 ==> u == t && o == objects)
  {
  }

  // ---------------------------------------------------------------- where the copy goes

  /** The target is its folder, a '/', and its last segment; the folder is empty when there is no '/'. */
  lemma TargetParts(target: string)
    ensures '/' in target ==> target == MoveFolder(target) + "/" + LastSegment(target, '/')
    ensures '/' !in target ==> MoveFolder(target) == "" && LastSegment(target, '/') == target
  {
    var p := Split(target, '/');
    JoinSplit(target, '/');
    if '/' !in target {
      SplitOfSeparatorFree(target, '/');
    } else {
      if |p| == 1 {
        assert Join(p, '/') == p[0];
        SplitPartsLackSeparator(target, '/');
        assert false;
      }
      assert p[..|p| - 1] + [p[|p| - 1]] == p;
      JoinSnoc(p[..|p| - 1], p[|p| - 1], '/');
    }
  }

  /**
   * The copy is stored under the base path followed by the target (with a '/' between unless the
   * target already starts with one), so its key is always longer than the target and never equal to it.
   */
  lemma MovedKeyShape(env: B2.Env, source: string, target: string)
    ensures |MovedKey(env, source, target)| > |target|
    ensures MovedKey(env, source, target) != target
    ensures LastSegment(target, '/') != "" && MoveFolder(target) != "" ==>
              MovedKey(env, source, target) == B2.BasePath(env) + "/" + target
    ensures '/' !in target && target != "" ==> MovedKey(env, source, target) == B2.BasePath(env) + "/" + target
  {
    TargetParts(target);
  }

  // ---------------------------------------------------------------- a move

  /** The key the rows are repointed to. */
  function RowKey(env: B2.Env, source: string, target: string, rules: Rules): string
  {
    if rules.storedKey then MovedKey(env, source, target) else target
  }

  /** The bucket once the copy is stored. */
  function WithCopy(objects: B2.Bucket, env: B2.Env, source: string, target: string, now: nat): B2.Bucket
    requires source in objects
  {
    objects[MovedKey(env, source, target) := B2.StoredObject(objects[source].body, Some(B2.OctetStream), Some(now))]
  }

  /**
   * A move succeeds exactly when the source can be read, the copy stored, the rows repointed and the
   * source deleted (which the corrected reading skips when the copy landed on the source's own key).
   * It then repoints exactly the rows that named the source, and the bucket holds the copy and no
   * longer the source.
   */
  lemma MoveSucceedsIff(t: Tables, f: Faults, objects: B2.Bucket, env: B2.Env, sf: B2.StoreFaults, action: string,
                        source: string, target: string, now: nat, rules: Rules)
    ensures var (u, o, res) := Move(t, f, objects, env, sf, action, source, target, now, rules);
      var k := MovedKey(env, source, target);
      var key := RowKey(env, source, target, rules);
      var skip := rules.storedKey && k == source;
      && (res.status == 200 <==>
            && source in objects && source !in sf.get && k !in sf.put && B2.PublicUrl(env, k).Ok? && k !in sf.head
            && source !in f.photoUpdate && (skip || source !in sf.delete))
      && (res.status == 200 ==>
            && u == t.(photos := Rekey(t.photos, source, key, B2.PublicUrl(env, key).value))
            && o == (if skip then WithCopy(objects, env, source, target, now) else WithCopy(objects, env, source, target, now) - {source}))
      && (res.status != 200 ==> res.status == 500 && !res.success)
  {
  }

  /** The source object is deleted only after the rows were repointed: a failed update leaves both the source and the copy. */
  lemma MoveDeletesOnlyAfterUpdate(t: Tables, f: Faults, objects: B2.Bucket, env: B2.Env, sf: B2.StoreFaults, action: string,
                                   source: string, target: string, now: nat, rules: Rules)
    ensures var (u, o, res) := Move(t, f, objects, env, sf, action, source, target, now, rules);
      && (source in objects && source !in o ==>
            && source !in f.photoUpdate
            && u == t.(photos := Rekey(t.photos, source, RowKey(env, source, target, rules),
                                       B2.PublicUrl(env, RowKey(env, source, target, rules)).value)))
      && (source in f.photoUpdate ==> u == t && o.Keys >= objects.Keys && (source in objects ==> o[source] == objects[source] || MovedKey(env, source, target) == source))
  {
  }

  /** Move and rename do the same writes and return the same status; only the verb in the message differs. */
  lemma MoveAndRenameAgree(t: Tables, f: Faults, objects: B2.Bucket, env: B2.Env, sf: B2.StoreFaults,
                           source: string, target: string, now: nat, rules: Rules)
    ensures var (u1, o1, r1) := Move(t, f, objects, env, sf, "move", source, target, now, rules);
      var (u2, o2, r2) := Move(t, f, objects, env, sf, "rename", source, target, now, rules);
      && u1 == u2 && o1 == o2 && r1.status == r2.status && r1.success == r2.success
      && (r1.status == 200 ==>
            && r1.message == "File successfully moved from " + source + " to " + target
            && r2.message == "File successfully renamed from " + source + " to " + target)
  {
    var (u, o, end) := MoveSteps(t, f, objects, env, sf, source, target, now, rules);
    assert Move(t, f, objects, env, sf, "move", source, target, now, rules) == (u, o, MoveResponse("move", source, target, end));
    assert Move(t, f, objects, env, sf, "rename", source, target, now, rules) == (u, o, MoveResponse("rename", source, target, end));
    MovedMessages(source, target);
  }

  lemma MovedMessages(source: string, target: string)
    ensures Moved("move", source, target).message == "File successfully moved from " + source + " to " + target
    ensures Moved("rename", source, target).message == "File successfully renamed from " + source + " to " + target
  {
  }

  // ---------------------------------------------------------------- a delete

  /**
   * A delete removes the object first: if that fails nothing changes; if the rows then cannot be
   * removed the object is already gone; otherwise exactly the rows naming the key are removed.
   */
  lemma DeleteOrder(t: Tables, f: Faults, objects: B2.Bucket, sf: B2.StoreFaults, source: string)
    ensures var (u, o, res) := Remove(t, f, objects, sf, source);
      && (source in sf.delete ==> u == t && o == objects && res.status == 500)
      && (source !in sf.delete ==> o == objects - {source})
      && (source !in sf.delete && source in f.photoDelete ==> u == t && res.status == 500 && !res.success)
      && (source !in sf.delete && source !in f.photoDelete ==>
            u == t.(photos := Without(t.photos, source)) && res == Response(200, true, "File successfully deleted: " + source))
  {
  }

  // ---------------------------------------------------------------- finding: the rows are repointed to the target, not to the copy

  /**
   * As written, after a successful move the rows that named the source name the target path, but the
   * copy sits under the base path plus the target; unless something already existed under the
   * target, the rows name no object at all.
   */
  lemma AsWrittenMoveRowsMissObject(t: Tables, f: Faults, objects: B2.Bucket, env: B2.Env, sf: B2.StoreFaults,
                                    action: string, source: string, target: string, now: nat)
    requires target !in objects
    ensures var (u, o, res) := Move(t, f, objects, env, sf, action, source, target, now, AsWritten);
      res.status == 200 ==>
        && target !in o
        && forall i :: 0 <= i < |t.photos| && t.photos[i].b2_file_key == source ==> u.photos[i].b2_file_key == target
  {
    MovedKeyShape(env, source, target);
    MoveSucceedsIff(t, f, objects, env, sf, action, source, target, now, AsWritten);
  }

  /** Corrected: the rows take the copy's key and URL, so after a successful move each of them names the copy. */
  lemma CorrectedMoveRowsNameObject(t: Tables, f: Faults, objects: B2.Bucket, env: B2.Env, sf: B2.StoreFaults,
                                    action: string, source: string, target: string, now: nat, rules: Rules)
    requires rules.storedKey
    ensures var (u, o, res) := Move(t, f, objects, env, sf, action, source, target, now, rules);
      res.status == 200 ==>
        forall i :: 0 <= i < |t.photos| && t.photos[i].b2_file_key == source ==>
          && u.photos[i].b2_file_key in o
          && o[u.photos[i].b2_file_key].body == objects[source].body
          && B2.PublicUrl(env, u.photos[i].b2_file_key) == Ok(u.photos[i].public_url)
  {
    MoveSucceedsIff(t, f, objects, env, sf, action, source, target, now, rules);
  }

  // ---------------------------------------------------------------- finding: a move onto the source's own key loses the file

  /** As written, when the copy lands on the source's own key, the final delete removes it: the bucket no longer has the file. */
  lemma AsWrittenSelfMoveLosesFile(t: Tables, f: Faults, objects: B2.Bucket, env: B2.Env, sf: B2.StoreFaults,
                                   action: string, source: string, target: string, now: nat)
    requires MovedKey(env, source, target) == source
    ensures var (u, o, res) := Move(t, f, objects, env, sf, action, source, target, now, AsWritten);
      res.status == 200 ==> source !in o && MovedKey(env, source, target) !in o
  {
    MoveSucceedsIff(t, f, objects, env, sf, action, source, target, now, AsWritten);
  }

  /** Corrected: a move onto the source's own key keeps the object, with its body. */
  lemma CorrectedSelfMoveKeepsFile(t: Tables, f: Faults, objects: B2.Bucket, env: B2.Env, sf: B2.StoreFaults,
                                   action: string, source: string, target: string, now: nat, rules: Rules)
    requires rules.storedKey
    requires MovedKey(env, source, target) == source
    ensures var (u, o, res) := Move(t, f, objects, env, sf, action, source, target, now, rules);
      res.status == 200 ==> source in o && o[source].body == objects[source].body
  {
    MoveSucceedsIff(t, f, objects, env, sf, action, source, target, now, rules);
  }
}
