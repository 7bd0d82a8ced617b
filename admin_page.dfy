/**
 * The admin page's upload and file-management tabs: the size limits a file selection must meet
 * before it replaces the current one, the guard before an upload is sent, and the validation of a
 * move, rename or delete before its request is built. Each tab is an object whose fields are the
 * React state its handlers set.
 */
module AdminPage {

  import opened Wrappers
  import opened Strings
  import B2

  /** A chosen file as the input reports it. */
  datatype Chosen = Chosen(name: string, size: nat)

  const MiB := 1024 * 1024
  const TotalLimit := 50 * MiB
  const FileLimit := 25 * MiB

  const TotalTooLarge := "Total file size exceeds 50MB limit. Please upload smaller files or fewer files at once."
  const NothingSelected := "Please select files to upload"
  const TooLargeForHost := "Upload failed: File size too large. Please reduce the size or number of files (max 50MB total)."
  const UploadError := "An error occurred during upload"

  function FileTooLarge(name: string): string
  {
    "File " + name + " exceeds 25MB limit. Please resize or compress the image."
  }

  // ---------------------------------------------------------------- the size checks

  /** The summed sizes of a selection. */
  function Total(s: seq<Chosen>): nat
    decreases |s|
  {
    if |s| == 0 then 0 else Total(s[..|s| - 1]) + s[|s| - 1].size
  }

  /** The index of the first file over the per-file limit, if any. */
  function FirstOversize(s: seq<Chosen>): (r: Option<nat>)
    ensures r.None? <==> forall k :: 0 <= k < |s| ==> s[k].size <= FileLimit
    ensures r.Some? ==> r.value < |s| && s[r.value].size > FileLimit && forall k :: 0 <= k < r.value ==> s[k].size <= FileLimit
    decreases |s|
  {
    if |s| == 0 then None
    else if s[0].size > FileLimit then Some(0)
    else
      var r := FirstOversize(s[1..]);
      assert forall k :: 0 < k < |s| ==> s[k] == s[1..][k - 1];
      if r.None? then None else Some(r.value + 1)
  }

  /** The first oversize file is the only index with that property. */
  lemma FirstOversizeUnique(s: seq<Chosen>, i: nat)
    requires i < |s| && s[i].size > FileLimit && forall k :: 0 <= k < i ==> s[k].size <= FileLimit
    ensures FirstOversize(s) == Some(i)
  {
  }

  /** The verdict on a selection: accepted, or the message that rejects it. */
  function Verdict(s: seq<Chosen>): Result<(), string>
  {
    if Total(s) > TotalLimit then Err(TotalTooLarge)
    else match FirstOversize(s)
      case Some(i) => Err(FileTooLarge(s[i].name))
      case None => Ok(())
  }

  // ---------------------------------------------------------------- the upload request

  /** What the upload form posts: the files in order, then the folder path. */
  datatype UploadForm = UploadForm(files: seq<Chosen>, folderPath: string)

  /** How the upload request ended: a reply (status, `message` and `processedFiles` of its JSON), or a throw. */
  datatype UploadOutcome =
    | UploadReplied(status: nat, message: Option<string>, processedFiles: Option<nat>)
    | UploadThrew(typeErrorAboutLoad: bool)

  /** `response.ok`. */
  predicate Ok2xx(status: nat)
  {
    200 <= status < 300
  }

  /** How a possibly absent number reads inside a template literal. */
  function NumberText(n: Option<nat>): string
  {
    match n
    case Some(v) => NatToString(v)
    case None => "undefined"
  }

  /** The message the tab shows once the request has ended, and whether the selection is cleared. */
  function UploadSettled(outcome: UploadOutcome): (string, bool)
  {
    match outcome
    case UploadReplied(status, m, n) =>
      if Ok2xx(status) then (B2.Text(m) + ". " + NumberText(n) + " files processed.", true)
      else if status == 413 then (TooLargeForHost, false)
      else (if B2.Truthy(m) then m.value else "Upload failed", false)
    case UploadThrew(load) => (if load then TooLargeForHost else UploadError, false)
  }

  class UploadTab {
    var files: Option<seq<Chosen>>
    var folderPath: string
    var isLoading: bool
    var message: string

    constructor ()
      ensures files == None && folderPath == "" && !isLoading && message == ""
    {
      files, folderPath, isLoading, message := None, "", false, "";
    }

    /** `handleFileChange`: the selection replaces the current one only when both limits are met. */
    method FileChange(selected: Option<seq<Chosen>>)
      modifies this
      ensures folderPath == old(folderPath) && isLoading == old(isLoading)
      ensures selected.None? ==> files == old(files) && message == old(message)
      ensures selected.Some? && Verdict(selected.value).Ok? ==> files == selected && message == old(message)
      ensures selected.Some? && Verdict(selected.value).Err? ==> files == old(files) && message == Verdict(selected.value).error
    {
      if selected.None? {
        return;
      }
      var s := selected.value;
      var total := 0;
      var i := 0;
      while i < |s|
        invariant 0 <= i <= |s|
        invariant total == Total(s[..i])
      {
        assert s[..i + 1][..i] == s[..i];
        total := total + s[i].size;
        i := i + 1;
      }
      assert s[..i] == s;
      if total > TotalLimit {
        message := TotalTooLarge;
        return;
      }
      i := 0;
      while i < |s|
        invariant 0 <= i <= |s|
        invariant forall k :: 0 <= k < i ==> s[k].size <= FileLimit
      {
        if s[i].size > FileLimit {
          FirstOversizeUnique(s, i);
          message := FileTooLarge(s[i].name);
          return;
        }
        i := i + 1;
      }
      files := selected;
    }

    /**
     * `handleUpload`: with nothing selected only the message is set and no request is sent; otherwise
     * the form carries the selection and the folder, and the outcome decides the message and whether
     * the selection is cleared. The loading flag is off again once the request has ended.
     */
    method Upload(outcome: UploadOutcome) returns (sent: Option<UploadForm>)
      modifies this
      ensures folderPath == old(folderPath)
      ensures old(files).None? || |old(files).value| == 0 ==>
        sent.None? && files == old(files) && message == NothingSelected && isLoading == old(isLoading)
      ensures old(files).Some? && |old(files).value| > 0 ==>
        && sent == Some(UploadForm(old(files).value, old(folderPath)))
        && message == UploadSettled(outcome).0
        && files == (if UploadSettled(outcome).1 then None else old(files))
        && !isLoading
    {
      if files.None? || |files.value| == 0 {
        message := NothingSelected;
        return None;
      }
      isLoading := true;
      message := "";
      var form := [];
      var i := 0;
      while i < |files.value|
        invariant 0 <= i <= |files.value|
        invariant form == files.value[..i]
      {
        form := form + [files.value[i]];
        i := i + 1;
      }
      assert form == files.value;
      sent := Some(UploadForm(form, folderPath));
      var (m, clear) := UploadSettled(outcome);
      message := m;
      if clear {
        files := None;
      }
      isLoading := false;
    }
  }

  // ---------------------------------------------------------------- the manage tab

  datatype Action = MoveAction | RenameAction | DeleteAction {
    function Name(): string
    {
      match this
      case MoveAction => "move"
      case RenameAction => "rename"
      case DeleteAction => "delete"
    }
  }

  /** The JSON the manage request carries; an `undefined` target is left out of it. */
  datatype ManageBody = ManageBody(action: string, sourcePath: string, targetPath: Option<string>)

  /** How the manage request ended: a reply with its `message`, or a throw. */
  datatype ManageOutcome = ManageReplied(status: nat, message: Option<string>) | ManageThrew

  const SourceMissing := "Please enter a source path"
  const TargetMissing := "Please enter a target path"

  /** What a manage request sends for the tab's fields. */
  function BodyFor(action: Action, source: string, target: string): ManageBody
  {
    ManageBody(action.Name(), source, if action != DeleteAction then Some(target) else None)
  }

  /** The message once the request has ended; `None` is the `undefined` a message-less success stores. */
  function ManageSettled(outcome: ManageOutcome): Option<string>
  {
    match outcome
    case ManageReplied(status, m) =>
      if Ok2xx(status) then m
      else Some(if B2.Truthy(m) then m.value else "Action failed")
    case ManageThrew => Some("An error occurred")
  }

  class ManageTab {
    var sourcePath: string
    var targetPath: string
    var action: Action
    var isLoading: bool
    var message: Option<string>

    constructor ()
      ensures sourcePath == "" && targetPath == "" && action == MoveAction && !isLoading && message == Some("")
    {
      sourcePath, targetPath, action, isLoading, message := "", "", MoveAction, false, Some("");
    }

    /**
     * `handleAction`: an empty source, or an empty target for a move or rename, only sets a message;
     * otherwise the body is sent, with no target for a delete, and the outcome sets the message.
     */
    method Act(outcome: ManageOutcome) returns (sent: Option<ManageBody>)
      modifies this
      ensures sourcePath == old(sourcePath) && targetPath == old(targetPath) && action == old(action)
      ensures old(sourcePath) == "" ==> sent.None? && message == Some(SourceMissing) && isLoading == old(isLoading)
      ensures old(sourcePath) != "" && old(action) != DeleteAction && old(targetPath) == "" ==>
        sent.None? && message == Some(TargetMissing) && isLoading == old(isLoading)
      ensures old(sourcePath) != "" && (old(action) == DeleteAction || old(targetPath) != "") ==>
        sent == Some(BodyFor(old(action), old(sourcePath), old(targetPath))) && message == ManageSettled(outcome) && !isLoading
    {
      if sourcePath == "" {
        message := Some(SourceMissing);
        return None;
      }
      if action != DeleteAction && targetPath == "" {
        message := Some(TargetMissing);
        return None;
      }
      isLoading := true;
      message := Some("");
      sent := Some(BodyFor(action, sourcePath, targetPath));
      message := ManageSettled(outcome);
      isLoading := false;
    }
  }
}
