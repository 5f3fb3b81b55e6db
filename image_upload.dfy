/**
 * The older single-form uploader: queued files are addressed by their
 * position, and the batch is submitted with all requests awaited together,
 * so the first failure fails the whole submission.
 */
module ImageUpload {
  import opened Types
  import opened UploadValidation
  import opened Stores
  import opened ImagesRoute

  /** One queued file: `{...file, preview, title, caption}`. */
  datatype QueuedFile = QueuedFile(file: Candidate, preview: Preview, title: string, caption: string)

  datatype Notice = SelectOnlyImages | FilesTooLarge | NothingSelected | UploadsFailed

  function NoticeText(n: Notice): string
  {
    match n
    case SelectOnlyImages => BatchErrorText(NotAnImage)
    case FilesTooLarge => BatchErrorText(TooLarge)
    case NothingSelected => "Please select at least one image to upload"
    case UploadsFailed => "Failed to upload one or more images. Please try again."
  }

  /** The queue entries made for an accepted batch, given the preview URLs created for it. */
  function QueuedItems(batch: seq<Candidate>, previews: seq<Preview>): (r: seq<QueuedFile>)
    requires |previews| == |batch|
    ensures |r| == |batch|
    ensures forall i :: 0 <= i < |r| ==>
      r[i].file == batch[i] && r[i].preview == previews[i] && r[i].title == "" && r[i].caption == ""
  {
    seq(|batch|, i requires 0 <= i < |batch| => QueuedFile(batch[i], previews[i], "", ""))
  }

  /** `prev.map((file, i) => (i === index ? { ...file, title: newTitle } : file))`. */
  function SetTitleAt(files: seq<QueuedFile>, index: int, title: string): seq<QueuedFile>
  {
    seq(|files|, i requires 0 <= i < |files| => if i == index then files[i].(title := title) else files[i])
  }

  /** `prev.map((file, i) => (i === index ? { ...file, caption: newCaption } : file))`. */
  function SetCaptionAt(files: seq<QueuedFile>, index: int, caption: string): seq<QueuedFile>
  {
    seq(|files|, i requires 0 <= i < |files| => if i == index then files[i].(caption := caption) else files[i])
  }

  /**
   * An edit by position changes that one field at that one position; an
   * index outside the queue changes nothing.
   */
  lemma EditAtChangesOnePosition(files: seq<QueuedFile>, index: int, text: string)
    ensures |SetTitleAt(files, index, text)| == |files| && |SetCaptionAt(files, index, text)| == |files|
    ensures forall i :: 0 <= i < |files| && i != index ==>
      SetTitleAt(files, index, text)[i] == files[i] && SetCaptionAt(files, index, text)[i] == files[i]
    ensures 0 <= index < |files| ==>
      && SetTitleAt(files, index, text)[index] == files[index].(title := text)
      && SetCaptionAt(files, index, text)[index] == files[index].(caption := text)
    ensures !(0 <= index < |files|) ==> SetTitleAt(files, index, text) == files && SetCaptionAt(files, index, text) == files
  {
  }

  /**
   * The `file` entry the code as written sends. The queue entry is a plain
   * object made by spreading the selected `File`, so it is not a `Blob`,
   * and a form sends such a value as its string conversion.
   */
  function FilePartAsWritten(f: QueuedFile): FilePart
  {
    TextValue("[object Object]")
  }

  /** The `file` entry the upload evidently means to send: the selected file itself. */
  function FilePartFor(f: QueuedFile): (p: FilePart)
    ensures p.FileBlob? && p.name == f.file.name
  {
    FileBlob(f.file.name)
  }

  /** The request for one queued file: the given `file` entry, `file.title || "Untitled"` and `file.caption || ""`. */
  function FormFor(f: QueuedFile, part: FilePart): (form: UploadForm)
    ensures form.file == Some(part) && form.title.Some? && form.caption == Some(f.caption)
    ensures form.title.value != "" && (f.title != "" ==> form.title.value == f.title)
  {
    UploadForm(Some(part), Some(if f.title != "" then f.title else "Untitled"), Some(f.caption))
  }

  /**
   * As written, no request of this form can store an image: whatever the
   * object store and the database would do, the handler answers 500 and
   * neither store changes.
   */
  lemma UploadAsWrittenNeverStores(st: StoreState, f: QueuedFile, upload: UploadReply, insert: InsertReply, now: nat)
    ensures Create(st, FormFor(f, FilePartAsWritten(f)), upload, insert, now)
         == Outcome(st, Failure(500, UploadFailed, Some(NotReadable)))
  {
    CreateWithTextFile(st, FormFor(f, FilePartAsWritten(f)), upload, insert, now);
  }

  /**
   * Sending the file itself, a request whose upload and insert succeed
   * stores one record under the title typed, or "Untitled".
   */
  lemma UploadOfFileStores(st: StoreState, f: QueuedFile, url: string, publicId: string, now: nat)
    requires WellFormed(st)
    ensures var o := Create(st, FormFor(f, FilePartFor(f)), Uploaded(url, publicId), Inserted, now);
      && o.response.Success?
      && |o.state.records| == |st.records| + 1
      && o.state.records[|st.records|].title == (if f.title != "" then f.title else "Untitled")
      && o.state.records[|st.records|].caption == f.caption
  {
    CreateSucceeds(st, FormFor(f, FilePartFor(f)), url, publicId, now);
  }

  /** The preview of each entry of a queue, in order. */
  function Previews(files: seq<QueuedFile>): seq<Preview>
  {
    seq(|files|, i requires 0 <= i < |files| => files[i].preview)
  }

  /**
   * `newFiles.splice(index, 1)` on a fresh copy of the queue: shifts the
   * entries after `index` one place to the left and returns the array
   * without its last slot.
   */
  method SpliceOut(a: array<QueuedFile>, index: nat) returns (rest: seq<QueuedFile>)
    requires index < a.Length
    modifies a
    ensures |rest| == a.Length - 1
    ensures rest == old(a[..index]) + old(a[index + 1..])
  {
    var j := index;
    while j + 1 < a.Length
      invariant index <= j < a.Length
      invariant forall k :: 0 <= k < index ==> a[k] == old(a[k])
      invariant forall k :: index <= k < j ==> a[k] == old(a[k + 1])
      invariant forall k :: j <= k < a.Length ==> a[k] == old(a[k])
    {
      a[j] := a[j + 1];
      j := j + 1;
    }
    rest := a[..a.Length - 1];
    assert forall k :: 0 <= k < |rest| ==> rest[k] == (old(a[..index]) + old(a[index + 1..]))[k];
  }

  class LegacyUploader {
    var files: seq<QueuedFile>
    var loading: bool
    var error: Option<Notice>
    var success: bool
    ghost var livePreviews: set<Preview>  // object URLs created and not yet revoked

    constructor ()
      ensures files == [] && !loading && error == None && !success && livePreviews == {}
    {
      files, loading, error, success := [], false, None, false;
      livePreviews := {};
    }

    /** `handleFileChange` and `handleDrop`: all-or-nothing validation, then append. */
    method AddFiles(batch: seq<Candidate>, previews: seq<Preview>)
      requires |previews| == |batch|
      modifies this
      ensures batch == [] ==> files == old(files) && error == old(error) && livePreviews == old(livePreviews)
      ensures batch != [] && ValidateBatch(batch) == Some(NotAnImage) ==>
        files == old(files) && livePreviews == old(livePreviews) && error == Some(SelectOnlyImages)
      ensures batch != [] && ValidateBatch(batch) == Some(TooLarge) ==>
        files == old(files) && livePreviews == old(livePreviews) && error == Some(FilesTooLarge)
      ensures batch != [] && ValidateBatch(batch).None? ==>
        && files == old(files) + QueuedItems(batch, previews) && error == None
        && livePreviews == old(livePreviews) + Urls(previews)
      ensures loading == old(loading) && success == old(success)
    {
      if batch == [] {
        return;
      }
      match ValidateBatch(batch) {
        case Some(NotAnImage) =>
          error := Some(SelectOnlyImages);
        case Some(TooLarge) =>
          error := Some(FilesTooLarge);
        case None =>
          livePreviews := livePreviews + Urls(previews);
          files := files + QueuedItems(batch, previews);
          error := None;
      }
    }

    /** `handleTitleChange`. */
    method ChangeTitle(index: int, title: string)
      modifies this`files
      ensures files == SetTitleAt(old(files), index, title)
    {
      files := SetTitleAt(files, index, title);
    }

    /** `handleCaptionChange`. */
    method ChangeCaption(index: int, caption: string)
      modifies this`files
      ensures files == SetCaptionAt(old(files), index, caption)
    {
      files := SetCaptionAt(files, index, caption);
    }

    /**
     * `handleRemoveFile`: revoke the preview at `index` and remove that
     * position. An index past the end makes the source read a property of
     * `undefined`, so callers pass an index of the queue.
     */
    method RemoveFile(index: nat)
      requires index < |files|
      modifies this
      ensures |files| == |old(files)| - 1
      ensures files == old(files)[..index] + old(files)[index + 1..]
      ensures livePreviews == if old(files)[index].preview != "" then old(livePreviews) - {old(files)[index].preview} else old(livePreviews)
      ensures loading == old(loading) && error == old(error) && success == old(success)
    {
      var snapshot := files;
      var copy := new QueuedFile[|snapshot|](i requires 0 <= i < |snapshot| => snapshot[i]);
      assert copy[..] == snapshot;
      if copy[index].preview != "" {
        livePreviews := livePreviews - {copy[index].preview};
      }
      files := SpliceOut(copy, index);
    }

    /**
     * `handleUpload`, with `oks[i]` whether the request for `files[i]`
     * succeeds and its reply is read. Returns the form sent for each file,
     * as the code is written, and whether the page is reloaded. Against
     * the `POST` handler every such form answers 500
     * (`UploadAsWrittenNeverStores`), so `oks` is all false there.
     */
    method Upload(oks: seq<bool>) returns (sent: seq<UploadForm>, reloaded: bool)
      requires |oks| == |files|
      modifies this
      ensures old(files) == [] ==>
        && error == Some(NothingSelected) && files == old(files) && sent == [] && !reloaded
        && loading == old(loading) && success == old(success)
      ensures old(files) != [] ==>
        && |sent| == |old(files)| && (forall i :: 0 <= i < |sent| ==> sent[i] == FormFor(old(files)[i], FilePartAsWritten(old(files)[i])))
        && !loading
      ensures old(files) != [] && (exists i :: 0 <= i < |oks| && !oks[i]) ==>
        files == old(files) && error == Some(UploadsFailed) && success == old(success) && !reloaded
      ensures old(files) != [] && (forall i :: 0 <= i < |oks| ==> oks[i]) ==>
        files == [] && error == None && success && reloaded
      ensures livePreviews == old(livePreviews)
    {
      if |files| == 0 {
        error := Some(NothingSelected);
        return [], false;
      }
      loading := true;
      error := None;
      var queued := files;
      sent := seq(|queued|, i requires 0 <= i < |queued| => FormFor(queued[i], FilePartAsWritten(queued[i])));
      if forall i :: 0 <= i < |oks| ==> oks[i] {
        files := [];
        success := true;
        reloaded := true;
      } else {
        error := Some(UploadsFailed);
        reloaded := false;
      }
      loading := false;
    }

    /** The Cancel button: revoke every preview and empty the queue. */
    method Cancel()
      modifies this
      ensures files == [] && livePreviews == old(livePreviews) - Urls(Previews(old(files)))
      ensures loading == old(loading) && error == old(error) && success == old(success)
    {
      livePreviews := livePreviews - Urls(Previews(files));
      files := [];
    }

    /** `handleCloseSnackbar`. */
    method CloseSnackbar()
      modifies this`success
      ensures !success
    {
      success := false;
    }
  }
}
