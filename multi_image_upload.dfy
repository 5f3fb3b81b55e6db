/**
 * The upload form with a queue of pending files, each identified by a
 * generated id and carrying its own title, caption and edit flags. The
 * batch is submitted with one request per file; every request is awaited
 * (none aborts the others) before the outcome is reported.
 */
module MultiImageUpload {
  import opened Types
  import opened Seqs
  import opened UploadValidation
  import ImagesRoute

  /** One queued file: `{...file, preview, id, title, caption, isEditingCaption, isEditingTitle}`. */
  datatype PendingFile = PendingFile(
    id: string,
    file: Candidate,
    preview: Preview,
    title: string,
    caption: string,
    editingTitle: bool,
    editingCaption: bool)

  /** The messages the form shows. */
  datatype Notice = SelectOnlyImages | FilesTooLarge | NothingSelected | SomeFailed(count: nat)

  function NoticeText(n: Notice): string
  {
    match n
    case SelectOnlyImages => BatchErrorText(NotAnImage)
    case FilesTooLarge => BatchErrorText(TooLarge)
    case NothingSelected => "Please select at least one image to upload"
    case SomeFailed(count) => "Failed to upload " + NatToString(count) + " image(s). Please try again."
  }

  function NoticeFor(e: BatchError): Notice
  {
    match e
    case NotAnImage => SelectOnlyImages
    case TooLarge => FilesTooLarge
  }

  // ---------------------------------------------------------------------------
  // The per-item transforms (`map` and `filter` over the queue)

  /** The queue entries made for an accepted batch, given the ids and preview URLs generated for it. */
  function NewItems(batch: seq<Candidate>, ids: seq<string>, previews: seq<Preview>): (r: seq<PendingFile>)
    requires |ids| == |batch| && |previews| == |batch|
    ensures |r| == |batch|
    ensures forall i :: 0 <= i < |r| ==>
      && r[i].file == batch[i] && r[i].id == ids[i] && r[i].preview == previews[i]
      && r[i].title == "" && r[i].caption == "" && !r[i].editingTitle && !r[i].editingCaption
  {
    seq(|batch|, i requires 0 <= i < |batch| => PendingFile(ids[i], batch[i], previews[i], "", "", false, false))
  }

  /** `prev.find((file) => file.id === id)`. */
  function FindById(files: seq<PendingFile>, id: string): (r: Option<PendingFile>)
    ensures r.Some? ==> r.value.id == id
    ensures r.Some? ==> exists i :: 0 <= i < |files| && files[i] == r.value && forall j :: 0 <= j < i ==> files[j].id != id
    ensures r.None? ==> forall i :: 0 <= i < |files| ==> files[i].id != id
  {
    if files == [] then None
    else if files[0].id == id then Some(files[0])
    else FindById(files[1..], id)
  }

  /** `prev.filter((file) => file.id !== id)`. */
  function WithoutId(files: seq<PendingFile>, id: string): seq<PendingFile>
  {
    Filter((f: PendingFile) => f.id != id, files)
  }

  /** Removing by id drops exactly the entries with that id and keeps the others in their order. */
  lemma WithoutIdMeaning(files: seq<PendingFile>, id: string)
    ensures forall f :: f in WithoutId(files, id) <==> f in files && f.id != id
    ensures IsSubsequence(WithoutId(files, id), files)
    ensures |WithoutId(files, id)| == |files| - Count((f: PendingFile) => f.id == id, files)
  {
    FilterIsSubsequence((f: PendingFile) => f.id != id, files);
    WithoutIdLength(files, id);
  }

  lemma {:induction false} WithoutIdLength(files: seq<PendingFile>, id: string)
    ensures |WithoutId(files, id)| == |files| - Count((f: PendingFile) => f.id == id, files)
  {
    if files != [] {
      WithoutIdLength(files[1..], id);
    }
  }

  /** `prev.map((file) => (file.id === id ? { ...file, title } : file))`. */
  function SetTitle(files: seq<PendingFile>, id: string, title: string): (r: seq<PendingFile>)
  {
    seq(|files|, i requires 0 <= i < |files| => if files[i].id == id then files[i].(title := title) else files[i])
  }

  /** `prev.map((file) => (file.id === id ? { ...file, caption } : file))`. */
  function SetCaption(files: seq<PendingFile>, id: string, caption: string): (r: seq<PendingFile>)
  {
    seq(|files|, i requires 0 <= i < |files| => if files[i].id == id then files[i].(caption := caption) else files[i])
  }

  /** `isEditingTitle: !file.isEditingTitle` on the entries with that id. */
  function ToggleTitleEditing(files: seq<PendingFile>, id: string): (r: seq<PendingFile>)
  {
    seq(|files|, i requires 0 <= i < |files| =>
      if files[i].id == id then files[i].(editingTitle := !files[i].editingTitle) else files[i])
  }

  /** `isEditingCaption: !file.isEditingCaption` on the entries with that id. */
  function ToggleCaptionEditing(files: seq<PendingFile>, id: string): (r: seq<PendingFile>)
  {
    seq(|files|, i requires 0 <= i < |files| =>
      if files[i].id == id then files[i].(editingCaption := !files[i].editingCaption) else files[i])
  }

  /**
   * A title or caption edit replaces that one field of the entries with
   * the id and leaves every other field and every other entry as it was.
   */
  lemma EditsTouchOneField(files: seq<PendingFile>, id: string, text: string)
    ensures |SetTitle(files, id, text)| == |files| && |SetCaption(files, id, text)| == |files|
    ensures forall i :: 0 <= i < |files| ==>
      && SetTitle(files, id, text)[i].(title := files[i].title) == files[i]
      && SetTitle(files, id, text)[i].title == (if files[i].id == id then text else files[i].title)
      && SetCaption(files, id, text)[i].(caption := files[i].caption) == files[i]
      && SetCaption(files, id, text)[i].caption == (if files[i].id == id then text else files[i].caption)
  {
  }

  /** Toggling an edit flag twice restores the queue. */
  lemma ToggleTwiceIsIdentity(files: seq<PendingFile>, id: string)
    ensures ToggleTitleEditing(ToggleTitleEditing(files, id), id) == files
    ensures ToggleCaptionEditing(ToggleCaptionEditing(files, id), id) == files
  {
    var t := ToggleTitleEditing(ToggleTitleEditing(files, id), id);
    assert forall i :: 0 <= i < |files| ==> t[i] == files[i];
    var c := ToggleCaptionEditing(ToggleCaptionEditing(files, id), id);
    assert forall i :: 0 <= i < |files| ==> c[i] == files[i];
  }

  /** A toggle flips its flag on exactly the entries with the id and changes nothing else. */
  lemma ToggleFlipsOnlyMatching(files: seq<PendingFile>, id: string)
    ensures |ToggleTitleEditing(files, id)| == |files| && |ToggleCaptionEditing(files, id)| == |files|
    ensures forall i :: 0 <= i < |files| ==>
      && ToggleTitleEditing(files, id)[i].(editingTitle := files[i].editingTitle) == files[i]
      && (ToggleTitleEditing(files, id)[i].editingTitle != files[i].editingTitle <==> files[i].id == id)
    ensures forall i :: 0 <= i < |files| ==>
      && ToggleCaptionEditing(files, id)[i].(editingCaption := files[i].editingCaption) == files[i]
      && (ToggleCaptionEditing(files, id)[i].editingCaption != files[i].editingCaption <==> files[i].id == id)
  {
  }

  // ---------------------------------------------------------------------------
  // Submitting

  /** How one file's upload ends. */
  datatype ItemOutcome =
    | Stored            // the response is ok and its body is read
    | StoredUnreadable  // the response is ok but reading its body throws
    | Rejected          // the response is not ok
    | RequestFailed     // reading the preview or sending the request throws

  /** `completedFiles++` runs: the response was ok. */
  predicate Completes(o: ItemOutcome) { o.Stored? || o.StoredUnreadable? }

  /** `failedUploads++` runs: something in the item's `try` threw. */
  predicate Fails(o: ItemOutcome) { !o.Stored? }

  function CompletedCount(outcomes: seq<ItemOutcome>): nat { Count(Completes, outcomes) }

  function FailedCount(outcomes: seq<ItemOutcome>): nat { Count(Fails, outcomes) }

  /** No failure is counted exactly when every file was stored and its reply read. */
  lemma {:induction false} NoFailureIffAllStored(outcomes: seq<ItemOutcome>)
    ensures FailedCount(outcomes) == 0 <==> forall i :: 0 <= i < |outcomes| ==> outcomes[i] == Stored
  {
    if outcomes != [] {
      NoFailureIffAllStored(outcomes[1..]);
      assert forall i :: 1 <= i < |outcomes| ==> outcomes[i] == outcomes[1..][i - 1];
    }
  }

  /**
   * Every file is counted as completed or as failed, and a file whose
   * reply cannot be read is counted as both; so the two counts add up to
   * the number of files plus the number of such files.
   */
  lemma {:induction false} CountsCoverEveryFile(outcomes: seq<ItemOutcome>)
    ensures CompletedCount(outcomes) + FailedCount(outcomes)
         == |outcomes| + Count((o: ItemOutcome) => o.StoredUnreadable?, outcomes)
  {
    if outcomes != [] {
      CountsCoverEveryFile(outcomes[1..]);
    }
  }

  /** One file whose reply cannot be read makes one completed and one failed upload out of one. */
  lemma UnreadableReplyCountsTwice()
    ensures CompletedCount([StoredUnreadable]) == 1 && FailedCount([StoredUnreadable]) == 1
  {
    assert [StoredUnreadable][1..] == [];
  }

  /** The form fields each file is sent with: its name, `file.title || file.name || ""` and `file.caption || ""`. */
  datatype UploadFields = UploadFields(fileName: string, title: string, caption: string)

  function FieldsFor(f: PendingFile): (u: UploadFields)
    ensures u.fileName == f.file.name
    ensures f.title != "" ==> u.title == f.title
    ensures f.title == "" ==> u.title == f.file.name
    ensures u.caption == f.caption
  {
    UploadFields(f.file.name, if f.title != "" then f.title else if f.file.name != "" then f.file.name else "", f.caption)
  }

  /**
   * The fields the code as written sends. The queue entry is made by
   * spreading the selected `File`, which copies none of its `name`, `type`
   * or `size` (they are getters of the `File` prototype, not own
   * properties): `file.name` reads `undefined`, so the blob is sent under
   * the default file name "blob" and an untitled file goes out with an
   * empty title.
   */
  function FieldsAsWritten(f: PendingFile): UploadFields
  {
    UploadFields("blob", f.title, f.caption)
  }

  /**
   * An untitled "cat.png" is stored as "Untitled" by the code as written,
   * while the fallback to the file name it spells out would store
   * "cat.png".
   */
  lemma SpreadLosesFileName()
    ensures var f := PendingFile("k1", Candidate("cat.png", "image/png", 1024), "blob:preview", "", "", false, false);
      && ImagesRoute.FieldOr(Some(FieldsAsWritten(f).title), ImagesRoute.UntitledTitle) == "Untitled"
      && ImagesRoute.FieldOr(Some(FieldsFor(f).title), ImagesRoute.UntitledTitle) == "cat.png"
  {
  }

  /** The preview of each entry of a queue, in order. */
  function Previews(files: seq<PendingFile>): seq<Preview>
  {
    seq(|files|, i requires 0 <= i < |files| => files[i].preview)
  }

  class Uploader {
    var files: seq<PendingFile>
    var uploading: bool
    var completedFiles: nat  // the progress bar shows completedFiles / totalFiles
    var totalFiles: nat
    var error: Option<Notice>
    var success: bool
    const hasCallback: bool  // whether `onUploadComplete` was passed
    ghost var livePreviews: set<Preview>  // object URLs created and not yet revoked

    constructor (hasCallback: bool)
      ensures this.hasCallback == hasCallback
      ensures files == [] && !uploading && completedFiles == 0 && error == None && !success
      ensures livePreviews == {}
    {
      this.hasCallback := hasCallback;
      files, uploading, completedFiles, totalFiles, error, success := [], false, 0, 0, None, false;
      livePreviews := {};
    }

    /**
     * `handleFileChange` and `handleDrop`: validate the whole batch, then
     * append it with fresh ids and previews. An empty selection does nothing.
     */
    method AddFiles(batch: seq<Candidate>, ids: seq<string>, previews: seq<Preview>)
      requires |ids| == |batch| && |previews| == |batch|
      modifies this
      ensures batch == [] ==> files == old(files) && error == old(error) && livePreviews == old(livePreviews)
      ensures batch != [] && ValidateBatch(batch).Some? ==>
        && files == old(files) && livePreviews == old(livePreviews)
        && error == Some(NoticeFor(ValidateBatch(batch).value))
      ensures batch != [] && ValidateBatch(batch).None? ==>
        && files == old(files) + NewItems(batch, ids, previews) && error == None
        && livePreviews == old(livePreviews) + Urls(previews)
      ensures uploading == old(uploading) && success == old(success)
      ensures completedFiles == old(completedFiles) && totalFiles == old(totalFiles)
    {
      if batch == [] {
        return;
      }
      var invalid := ValidateBatch(batch);
      if invalid.Some? {
        error := Some(NoticeFor(invalid.value));
        return;
      }
      livePreviews := livePreviews + Urls(previews);
      files := files + NewItems(batch, ids, previews);
      error := None;
    }

    /** `handleRemoveFile`: revoke the first matching entry's preview, drop every entry with the id. */
    method RemoveFile(id: string)
      modifies this
      ensures files == WithoutId(old(files), id)
      ensures livePreviews == match FindById(old(files), id)
        case Some(f) => if f.preview != "" then old(livePreviews) - {f.preview} else old(livePreviews)
        case None => old(livePreviews)
      ensures uploading == old(uploading) && error == old(error) && success == old(success)
      ensures completedFiles == old(completedFiles) && totalFiles == old(totalFiles)
    {
      var found := FindById(files, id);
      if found.Some? && found.value.preview != "" {
        livePreviews := livePreviews - {found.value.preview};
      }
      files := WithoutId(files, id);
    }

    /** `handleTitleChange`. */
    method ChangeTitle(id: string, title: string)
      modifies this`files
      ensures files == SetTitle(old(files), id, title)
    {
      files := SetTitle(files, id, title);
    }

    /** `handleCaptionChange`. */
    method ChangeCaption(id: string, caption: string)
      modifies this`files
      ensures files == SetCaption(old(files), id, caption)
    {
      files := SetCaption(files, id, caption);
    }

    /** `toggleTitleEdit`. */
    method ToggleTitleEdit(id: string)
      modifies this`files
      ensures files == ToggleTitleEditing(old(files), id)
    {
      files := ToggleTitleEditing(files, id);
    }

    /** `toggleCaptionEdit`. */
    method ToggleCaptionEdit(id: string)
      modifies this`files
      ensures files == ToggleCaptionEditing(old(files), id)
    {
      files := ToggleCaptionEditing(files, id);
    }

    /**
     * `handleUpload`, with `outcomes[i]` the way the upload of `files[i]`
     * ends. Returns the fields sent for each file, as the code is written
     * (`FieldsAsWritten`), and whether `onUploadComplete` was called.
     */
    method Upload(outcomes: seq<ItemOutcome>) returns (sent: seq<UploadFields>, notified: bool)
      requires |outcomes| == |files|
      modifies this
      ensures old(files) == [] ==>
        && error == Some(NothingSelected) && files == old(files) && sent == [] && !notified
        && uploading == old(uploading) && success == old(success) && livePreviews == old(livePreviews)
        && completedFiles == old(completedFiles) && totalFiles == old(totalFiles)
      ensures old(files) != [] ==>
        && |sent| == |old(files)| && (forall i :: 0 <= i < |sent| ==> sent[i] == FieldsAsWritten(old(files)[i]))
        && completedFiles == CompletedCount(outcomes) && totalFiles == |old(files)|
        && livePreviews == old(livePreviews) - Urls(Previews(old(files)))
        && !uploading
      ensures old(files) != [] && FailedCount(outcomes) > 0 ==>
        && files == old(files) && error == Some(SomeFailed(FailedCount(outcomes)))
        && success == old(success) && !notified
      ensures old(files) != [] && FailedCount(outcomes) == 0 ==>
        && files == [] && error == None && success && notified == hasCallback
    {
      if |files| == 0 {
        error := Some(NothingSelected);
        return [], false;
      }
      uploading := true;
      completedFiles := 0;
      error := None;
      totalFiles := |files|;
      var failedUploads := 0;
      sent := [];
      var i := 0;
      while i < |files|
        invariant 0 <= i <= |files| && files == old(files) && totalFiles == |files|
        invariant success == old(success) && livePreviews == old(livePreviews) && error == None
        invariant completedFiles == CompletedCount(outcomes[..i])
        invariant failedUploads == FailedCount(outcomes[..i])
        invariant |sent| == i && forall k :: 0 <= k < i ==> sent[k] == FieldsAsWritten(files[k])
      {
        CountSnoc(Completes, outcomes, i);
        CountSnoc(Fails, outcomes, i);
        sent := sent + [FieldsAsWritten(files[i])];
        match outcomes[i] {
          case Stored =>
            completedFiles := completedFiles + 1;
          case StoredUnreadable =>
            completedFiles := completedFiles + 1;
            failedUploads := failedUploads + 1;
          case Rejected =>
            failedUploads := failedUploads + 1;
          case RequestFailed =>
            failedUploads := failedUploads + 1;
        }
        i := i + 1;
      }
      assert outcomes[..i] == outcomes;
      livePreviews := livePreviews - Urls(Previews(files));
      if failedUploads > 0 {
        error := Some(SomeFailed(failedUploads));
        notified := false;
      } else {
        files := [];
        success := true;
        notified := hasCallback;
      }
      uploading := false;
    }

    /** The Cancel button: revoke every preview and empty the queue. */
    method Cancel()
      modifies this
      ensures files == [] && livePreviews == old(livePreviews) - Urls(Previews(old(files)))
      ensures uploading == old(uploading) && error == old(error) && success == old(success)
      ensures completedFiles == old(completedFiles) && totalFiles == old(totalFiles)
    {
      livePreviews := livePreviews - Urls(Previews(files));
      files := [];
    }

    /** `handleCloseSnackbar`. */
    method CloseSnackbar()
      modifies this`success
      ensures !success
    {
      success := false;
    }
  }

  /** Counting over one more element adds that element's contribution. */
  lemma CountSnoc<T>(keep: T -> bool, s: seq<T>, i: nat)
    requires i < |s|
    ensures Count(keep, s[..i + 1]) == Count(keep, s[..i]) + if keep(s[i]) then 1 else 0
  {
    CountAppend(keep, s[..i], [s[i]]);
    assert s[..i + 1] == s[..i] + [s[i]];
  }

  lemma {:induction false} CountAppend<T>(keep: T -> bool, a: seq<T>, b: seq<T>)
    ensures Count(keep, a + b) == Count(keep, a) + Count(keep, b)
  {
    if a == [] {
      assert a + b == b;
    } else {
      assert (a + b)[0] == a[0] && (a + b)[1..] == a[1..] + b;
      CountAppend(keep, a[1..], b);
    }
  }
}
