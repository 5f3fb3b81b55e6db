/**
 * The check both upload forms run on a batch of picked or dropped files
 * before adding any of them: every file must declare an image type, and
 * then every file must be at most 5 MiB. One bad file rejects the batch.
 */
module UploadValidation {
  import opened Types
  import opened Text
  import opened Seqs

  /** The per-file ceiling, 5 * 1024 * 1024 bytes. */
  const MaxFileSize: nat := 5 * 1024 * 1024

  /** A file offered by the picker or by a drop: its name, declared MIME type and size in bytes. */
  datatype Candidate = Candidate(name: string, mimeType: string, size: nat)

  /** The object URL of a file's local preview. */
  type Preview = string

  /**
   * The object URLs among some previews: `if (file.preview)` skips an
   * empty one, both when the URLs are made live and when they are revoked.
   */
  function Urls(previews: seq<Preview>): (urls: set<Preview>)
    ensures "" !in urls
    ensures forall p :: p in urls <==> p != "" && p in previews
  {
    set i | 0 <= i < |previews| && previews[i] != "" :: previews[i]
  }

  /** Why a batch was refused. */
  datatype BatchError = NotAnImage | TooLarge

  function BatchErrorText(e: BatchError): string
  {
    match e
    case NotAnImage => "Please select only image files"
    case TooLarge => "All files must be less than 5MB"
  }

  /** `file.type.match("image.*")`: the unanchored pattern matches wherever "image" occurs. */
  predicate IsImageType(mimeType: string)
  {
    Includes(mimeType, "image")
  }

  /** The two `filter`s of the handlers: files that are not images, then files that are too large. */
  function ValidateBatch(batch: seq<Candidate>): (r: Option<BatchError>)
  {
    if |Filter((c: Candidate) => !IsImageType(c.mimeType), batch)| > 0 then Some(NotAnImage)
    else if |Filter((c: Candidate) => c.size > MaxFileSize, batch)| > 0 then Some(TooLarge)
    else None
  }

  /**
   * A batch is accepted exactly when every file is an image of at most
   * 5 MiB; a non-image anywhere reports the type error even when another
   * file is also too large.
   */
  lemma ValidateBatchMeaning(batch: seq<Candidate>)
    ensures ValidateBatch(batch) == None <==>
      forall i :: 0 <= i < |batch| ==> IsImageType(batch[i].mimeType) && batch[i].size <= MaxFileSize
    ensures ValidateBatch(batch) == Some(NotAnImage) <==>
      exists i :: 0 <= i < |batch| && !IsImageType(batch[i].mimeType)
    ensures ValidateBatch(batch) == Some(TooLarge) <==>
      (forall i :: 0 <= i < |batch| ==> IsImageType(batch[i].mimeType))
      && exists i :: 0 <= i < |batch| && batch[i].size > MaxFileSize
  {
    var notImages := Filter((c: Candidate) => !IsImageType(c.mimeType), batch);
    var oversized := Filter((c: Candidate) => c.size > MaxFileSize, batch);
    if |notImages| > 0 {
      assert notImages[0] in batch;
    }
    if |oversized| > 0 {
      assert oversized[0] in batch;
    }
  }

  /** A file of exactly 5 MiB passes, one byte more does not: the test is a strict `>`. */
  lemma SizeLimitIsInclusive(name: string, mimeType: string)
    requires IsImageType(mimeType)
    ensures ValidateBatch([Candidate(name, mimeType, MaxFileSize)]) == None
    ensures ValidateBatch([Candidate(name, mimeType, MaxFileSize + 1)]) == Some(TooLarge)
  {
    ValidateBatchMeaning([Candidate(name, mimeType, MaxFileSize)]);
    ValidateBatchMeaning([Candidate(name, mimeType, MaxFileSize + 1)]);
  }

  /** An image of 6 MiB makes a batch of images fail with the size error. */
  lemma SixMebibyteImageRejected(batch: seq<Candidate>, k: nat)
    requires k < |batch| && batch[k].size == 6 * 1024 * 1024
    requires forall i :: 0 <= i < |batch| ==> IsImageType(batch[i].mimeType)
    ensures ValidateBatch(batch) == Some(TooLarge)
  {
    ValidateBatchMeaning(batch);
  }

  /** Any declared type that mentions "image" passes the type test, for instance "image/png". */
  lemma PngIsAnImage()
    ensures IsImageType("image/png")
  {
    assert "image/png"[..5] == "image";
  }
}
