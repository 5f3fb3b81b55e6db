/**
 * `GET /api/images` (one page of records, newest first) and
 * `POST /api/images` (upload the binary, then insert its metadata record).
 */
module ImagesRoute {
  import opened Types
  import opened Stores

  const DefaultPage: int := 1
  const DefaultLimit: int := 12
  const UntitledTitle := "Untitled"

  /** The JSON bodies and statuses the two handlers (and `DELETE`) answer with. */
  datatype Response =
    | ImageList(images: seq<ImageRecord>)               // 200 {images}
    | Success(message: string, imageId: Option<Id>)     // 200 {message[, imageId]}
    | Failure(status: nat, error: string, details: Option<string>)

  // ---------------------------------------------------------------------------
  // GET: sorting and paging

  /** Records ordered by `createdAt`, newest first (`sort({ createdAt: -1 })`). */
  predicate NewestFirst(s: seq<ImageRecord>)
  {
    forall i, j :: 0 <= i < j < |s| ==> s[i].createdAt >= s[j].createdAt
  }

  function InsertByDate(r: ImageRecord, s: seq<ImageRecord>): (t: seq<ImageRecord>)
    requires NewestFirst(s)
    ensures |t| == |s| + 1
    ensures t[0] == r || (s != [] && t[0] == s[0])
    ensures NewestFirst(t)
    ensures multiset(t) == multiset(s) + multiset{r}
  {
    if s == [] || r.createdAt >= s[0].createdAt then [r] + s
    else
      assert s == [s[0]] + s[1..];
      var rest := InsertByDate(r, s[1..]);
      assert s[0].createdAt >= rest[0].createdAt;
      [s[0]] + rest
  }

  /**
   * The collection in the order the database's sort returns it. Records
   * with the same `createdAt` are left in an order the model fixes; the
   * database leaves it unspecified.
   */
  function SortNewestFirst(s: seq<ImageRecord>): (t: seq<ImageRecord>)
    ensures |t| == |s|
    ensures NewestFirst(t)
    ensures multiset(t) == multiset(s)
  {
    if s == [] then []
    else
      assert s == [s[0]] + s[1..];
      InsertByDate(s[0], SortNewestFirst(s[1..]))
  }

  /** A record occurs at most once in a sequence whose `_id`s are unique. */
  lemma {:induction false} UniqueIdsOccurOnce(s: seq<ImageRecord>, x: ImageRecord)
    requires UniqueIds(s)
    ensures multiset(s)[x] <= 1
  {
    if s != [] {
      assert s == [s[0]] + s[1..];
      UniqueIdsOccurOnce(s[1..], x);
      if s[0] == x {
        assert x !in s[1..] by {
          forall k | 1 <= k < |s| ensures s[k] != x {
            assert s[k].id != s[0].id;
          }
        }
      }
    }
  }

  /** Reordering a sequence keeps its `_id`s unique. */
  lemma PermutationKeepsUniqueIds(s: seq<ImageRecord>, t: seq<ImageRecord>)
    requires multiset(s) == multiset(t) && UniqueIds(s)
    ensures UniqueIds(t)
  {
    forall i, j | 0 <= i < j < |t| ensures t[i].id != t[j].id {
      assert t[i] in multiset(s) && t[j] in multiset(s);
      var a :| 0 <= a < |s| && s[a] == t[i];
      var b :| 0 <= b < |s| && s[b] == t[j];
      if a == b {
        assert t == t[..j] + t[j..];
        assert t[i] in t[..j] && t[j] in t[j..];
        assert multiset(t)[t[i]] >= 2;
        UniqueIdsOccurOnce(s, t[i]);
      }
    }
  }

  function Min(a: int, b: int): int { if a <= b then a else b }

  /**
   * `cursor.skip(skip).limit(limit)` on an ordered result. A limit of 0
   * means no limit, and a negative limit returns at most `-limit` records
   * in a single batch.
   */
  function SkipLimit(ordered: seq<ImageRecord>, skip: nat, limit: int): (r: seq<ImageRecord>)
  {
    var start := Min(skip, |ordered|);
    var count := if limit == 0 then |ordered| - start
                 else Min(if limit < 0 then -limit else limit, |ordered| - start);
    ordered[start..start + count]
  }

  /** What `skip`/`limit` return keeps the order of, and is drawn from, the sorted collection. */
  lemma SkipLimitFacts(ordered: seq<ImageRecord>, skip: nat, limit: int)
    ensures NewestFirst(ordered) ==> NewestFirst(SkipLimit(ordered, skip, limit))
    ensures multiset(SkipLimit(ordered, skip, limit)) <= multiset(ordered)
  {
    var start := Min(skip, |ordered|);
    var count := |SkipLimit(ordered, skip, limit)|;
    assert SkipLimit(ordered, skip, limit) == ordered[start..start + count];
    assert ordered == ordered[..start] + ordered[start..start + count] + ordered[start + count..];
  }

  /** Page `page` of size `limit` of an ordered collection: positions `[(page-1)*limit, page*limit)`. */
  function Page(ordered: seq<ImageRecord>, page: int, limit: nat): (r: seq<ImageRecord>)
    requires page >= 1
  {
    var skip := (page - 1) * limit;
    ordered[Min(skip, |ordered|)..Min(skip + limit, |ordered|)]
  }

  /** `Number.parseInt(searchParams.get(name) || fallback)`; `None` stands for a missing or empty parameter. */
  function ParamOr(param: Option<int>, fallback: int): int
  {
    match param
    case None => fallback
    case Some(v) => v
  }

  /**
   * The `GET` handler. `reachable` is false when the database call fails;
   * a negative skip (a page below 1 with a positive limit) is rejected by
   * the database and so ends in the same error.
   */
  function Get(records: seq<ImageRecord>, page: Option<int>, limit: Option<int>, reachable: bool): (r: Response)
    ensures r.ImageList? || r == Failure(500, "Failed to fetch images", None)
    ensures r.ImageList? ==> NewestFirst(r.images) && multiset(r.images) <= multiset(records)
  {
    var p := ParamOr(page, DefaultPage);
    var n := ParamOr(limit, DefaultLimit);
    var skip := (p - 1) * n;
    if !reachable || skip < 0 then Failure(500, "Failed to fetch images", None)
    else
      var ordered := SortNewestFirst(records);
      SkipLimitFacts(ordered, skip, n);
      ImageList(SkipLimit(ordered, skip, n))
  }

  lemma MulStep(p: int, n: int)
    ensures (p - 1) * n + n == p * n
  {
  }

  lemma MulMonotone(p: int, q: int, n: nat)
    requires p <= q
    ensures p * n <= q * n
  {
  }

  /** Page `p` occupies the positions from `(p-1)*n` up to, not including, `p*n`. */
  lemma PageBounds(ordered: seq<ImageRecord>, p: int, n: nat)
    requires p >= 1
    ensures 0 <= (p - 1) * n <= p * n
    ensures Page(ordered, p, n) == ordered[Min((p - 1) * n, |ordered|)..Min(p * n, |ordered|)]
  {
    MulStep(p, n);
    MulMonotone(0, p - 1, n);
  }

  lemma SkipLimitIsPage(ordered: seq<ImageRecord>, page: int, limit: int)
    requires page >= 1 && limit >= 1
    ensures (page - 1) * limit >= 0
    ensures SkipLimit(ordered, (page - 1) * limit, limit) == Page(ordered, page, limit)
  {
    PageBounds(ordered, page, limit);
    var skip := (page - 1) * limit;
    var N := |ordered|;
    var start := Min(skip, N);
    assert Min(limit, N - start) + start == Min(skip + limit, N);
  }

  /** With `page >= 1` and `limit >= 1` the handler returns exactly that page of the sorted collection. */
  lemma GetReturnsPage(records: seq<ImageRecord>, page: int, limit: int)
    requires page >= 1 && limit >= 1
    ensures Get(records, Some(page), Some(limit), true) == ImageList(Page(SortNewestFirst(records), page, limit))
  {
    SkipLimitIsPage(SortNewestFirst(records), page, limit);
  }

  /** A page never holds more than `limit` records. */
  lemma PageAtMostLimit(ordered: seq<ImageRecord>, page: int, limit: nat)
    requires page >= 1
    ensures |Page(ordered, page, limit)| <= limit
  {
    PageBounds(ordered, page, limit);
  }

  /** A request without `page` and `limit` is page 1 of size 12: skip 0, the 12 newest records. */
  lemma DefaultQueryIsNewestTwelve(records: seq<ImageRecord>)
    ensures Get(records, None, None, true)
         == ImageList(SortNewestFirst(records)[..Min(DefaultLimit, |records|)])
  {
    GetReturnsPage(records, DefaultPage, DefaultLimit);
  }

  /** Page `p` followed by page `p + 1` is the contiguous run of positions `[(p-1)*n, (p+1)*n)`: no gap between them. */
  lemma PagesAreAdjacent(ordered: seq<ImageRecord>, p: int, n: nat)
    requires p >= 1
    ensures Page(ordered, p, n) + Page(ordered, p + 1, n)
         == ordered[Min((p - 1) * n, |ordered|)..Min((p + 1) * n, |ordered|)]
  {
    PageBounds(ordered, p, n);
    PageBounds(ordered, p + 1, n);
    var N := |ordered|;
    var a, b, c := (p - 1) * n, p * n, (p + 1) * n;
    assert ordered[Min(a, N)..Min(c, N)] == ordered[Min(a, N)..Min(b, N)] + ordered[Min(b, N)..Min(c, N)];
  }

  /** Different pages of a collection with unique `_id`s share no record. */
  lemma PagesAreDisjoint(ordered: seq<ImageRecord>, p: int, q: int, n: nat)
    requires 1 <= p < q && UniqueIds(ordered)
    ensures forall x :: x in Page(ordered, p, n) ==> x !in Page(ordered, q, n)
  {
    var N := |ordered|;
    PageBounds(ordered, p, n);
    PageBounds(ordered, q, n);
    MulMonotone(p, q - 1, n);
    var pageP, pageQ := Page(ordered, p, n), Page(ordered, q, n);
    var startP, endP, startQ := Min((p - 1) * n, N), Min(p * n, N), Min((q - 1) * n, N);
    assert endP <= startQ;
    forall x | x in pageP ensures x !in pageQ {
      var i :| 0 <= i < |pageP| && pageP[i] == x;
      assert ordered[startP + i] == x;
    }
  }

  /** Pages `1..k` one after the other. */
  function FirstPages(ordered: seq<ImageRecord>, k: nat, n: nat): seq<ImageRecord>
  {
    if k == 0 then [] else FirstPages(ordered, k - 1, n) + Page(ordered, k, n)
  }

  /** Concatenating pages `1..k` of size `n` yields the first `k*n` records. */
  lemma {:induction false} FirstPagesArePrefix(ordered: seq<ImageRecord>, k: nat, n: nat)
    ensures FirstPages(ordered, k, n) == ordered[..Min(k * n, |ordered|)]
  {
    if k > 0 {
      FirstPagesArePrefix(ordered, k - 1, n);
      PageBounds(ordered, k, n);
      var N := |ordered|;
      var a, b := (k - 1) * n, k * n;
      assert ordered[..Min(b, N)] == ordered[..Min(a, N)] + ordered[Min(a, N)..Min(b, N)];
    }
  }

  /** With 25 records and pages of 12, pages 1 to 4 hold 12, 12, 1 and 0 records. */
  lemma TwentyFiveRecordsInPagesOfTwelve(records: seq<ImageRecord>)
    requires |records| == 25
    ensures |Page(SortNewestFirst(records), 1, 12)| == 12
    ensures |Page(SortNewestFirst(records), 2, 12)| == 12
    ensures |Page(SortNewestFirst(records), 3, 12)| == 1
    ensures Page(SortNewestFirst(records), 4, 12) == []
  {
  }

  // ---------------------------------------------------------------------------
  // POST: upload, then insert

  /**
   * The `file` entry of the form: a `File` (which has a name), a bare
   * `Blob`, or a plain text value (a non-Blob appended to a form is sent
   * as its string conversion). The bytes of a blob are not modelled.
   */
  datatype FilePart = FileBlob(name: string) | BareBlob | TextValue(text: string)

  /** A `file` entry that is missing or the empty string fails `if (!file)`. */
  predicate MissingFile(file: Option<FilePart>)
  {
    file.None? || file == Some(TextValue(""))
  }

  /**
   * The message of the `TypeError` thrown by `(file as any).text()` on a
   * string entry, which is not a `Blob` and has no `text` method.
   */
  const NotReadable := "file.text is not a function"

  /** The multipart form: `file`, `title` and `caption`, each possibly missing. */
  datatype UploadForm = UploadForm(file: Option<FilePart>, title: Option<string>, caption: Option<string>)

  /** What the object store reports for an upload into the `gallery` folder. */
  datatype UploadReply = Uploaded(secureUrl: string, publicId: string) | UploadError(message: string)

  /** What the database reports for `insertOne` (or for connecting to it). */
  datatype InsertReply = Inserted | InsertError(message: string)

  /** The state of both stores after a request, and the response. */
  datatype Outcome = Outcome(state: StoreState, response: Response)

  /** `(formData.get(name) as string) || fallback`: a missing or empty field gives the fallback. */
  function FieldOr(field: Option<string>, fallback: string): (v: string)
    ensures fallback != "" ==> v != ""
    ensures field.Some? && field.value != "" ==> v == field.value
  {
    match field
    case None => fallback
    case Some(v) => if v != "" then v else fallback
  }

  /** The title written to the record: `title || (file instanceof File ? file.name : "Image")`. */
  function StoredTitle(title: string, file: FilePart): string
  {
    if title != "" then title else if file.FileBlob? then file.name else "Image"
  }

  const UploadFailed := "Failed to upload image"

  /** The `POST` handler, as a function of the stores before the request. */
  function Create(st: StoreState, form: UploadForm, upload: UploadReply, insert: InsertReply, now: nat): (o: Outcome)
    ensures WellFormed(st) ==> WellFormed(o.state)
  {
    var title := FieldOr(form.title, UntitledTitle);
    var caption := FieldOr(form.caption, "");
    if MissingFile(form.file) then Outcome(st, Failure(400, "No file provided", None))
    else if form.file.value.TextValue? then Outcome(st, Failure(500, UploadFailed, Some(NotReadable)))
    else match upload
      case UploadError(m) => Outcome(st, Failure(500, UploadFailed, Some(m)))
      case Uploaded(url, publicId) =>
        var uploaded := st.(blobs := st.blobs + {publicId});
        match insert
        case InsertError(m) => Outcome(uploaded, Failure(500, UploadFailed, Some(m)))
        case Inserted =>
          var record := ImageRecord(st.nextId, url, publicId, StoredTitle(title, form.file.value),
                                    FieldOr(Some(caption), ""), now);
          Outcome(uploaded.(records := st.records + [record], nextId := st.nextId + 1),
                  Success("Image uploaded successfully", Some(st.nextId)))
  }

  /** Without a file the request is refused with 400 and neither store is touched. */
  lemma CreateWithoutFile(st: StoreState, form: UploadForm, upload: UploadReply, insert: InsertReply, now: nat)
    requires MissingFile(form.file)
    ensures Create(st, form, upload, insert, now) == Outcome(st, Failure(400, "No file provided", None))
  {
  }

  /**
   * A `file` entry that is a non-empty string is never uploaded: reading
   * it throws, and the request answers 500 with the store unchanged.
   */
  lemma CreateWithTextFile(st: StoreState, form: UploadForm, upload: UploadReply, insert: InsertReply, now: nat)
    requires form.file.Some? && form.file.value.TextValue? && form.file.value.text != ""
    ensures Create(st, form, upload, insert, now) == Outcome(st, Failure(500, UploadFailed, Some(NotReadable)))
  {
  }

  /** A failed upload inserts nothing, stores nothing and answers 500 with the reason in `details`. */
  lemma CreateUploadFails(st: StoreState, form: UploadForm, message: string, insert: InsertReply, now: nat)
    requires form.file.Some? && !form.file.value.TextValue?
    ensures Create(st, form, UploadError(message), insert, now) == Outcome(st, Failure(500, UploadFailed, Some(message)))
  {
  }

  /**
   * A successful request appends exactly one record with a fresh `_id`,
   * the upload's URL and public id, and answers with that `_id`.
   */
  lemma CreateSucceeds(st: StoreState, form: UploadForm, url: string, publicId: string, now: nat)
    requires WellFormed(st) && form.file.Some? && !form.file.value.TextValue?
    ensures var o := Create(st, form, Uploaded(url, publicId), Inserted, now);
      && |o.state.records| == |st.records| + 1
      && o.state.records[..|st.records|] == st.records
      && var r := o.state.records[|st.records|];
      && r.id !in IdsOf(st.records)
      && r.url == url && r.publicId == publicId && r.createdAt == now
      && r.title == FieldOr(form.title, UntitledTitle)
      && r.caption == FieldOr(form.caption, "")
      && o.state.blobs == st.blobs + {publicId}
      && o.response == Success("Image uploaded successfully", Some(r.id))
  {
    var o := Create(st, form, Uploaded(url, publicId), Inserted, now);
    assert o.state.records == st.records + [o.state.records[|st.records|]];
  }

  /** A failed insert after a successful upload leaves the binary in the object store with no record pointing at it. */
  lemma CreateInsertFailsLeavesOrphan(st: StoreState, form: UploadForm, url: string, publicId: string, message: string, now: nat)
    requires form.file.Some? && !form.file.value.TextValue?
    ensures var o := Create(st, form, Uploaded(url, publicId), InsertError(message), now);
      && o.state.records == st.records
      && publicId in o.state.blobs
      && o.response == Failure(500, UploadFailed, Some(message))
  {
  }

  /** The stored title is never empty, so the file-name fallback is never taken; a missing or empty title becomes "Untitled". */
  lemma StoredTitleNeverFallsBack(title: Option<string>, file: FilePart)
    ensures StoredTitle(FieldOr(title, UntitledTitle), file) == FieldOr(title, UntitledTitle) != ""
    ensures title.None? || title == Some("") ==> FieldOr(title, UntitledTitle) == "Untitled"
  {
  }

  /** The `POST` handler on the stores: upload first, then insert. */
  method Post(db: Stores, form: UploadForm, upload: UploadReply, insert: InsertReply, now: nat) returns (response: Response)
    requires db.Valid()
    modifies db
    ensures db.Valid()
    ensures Outcome(db.State(), response) == Create(old(db.State()), form, upload, insert, now)
  {
    var title := FieldOr(form.title, UntitledTitle);
    var caption := FieldOr(form.caption, "");
    if MissingFile(form.file) {
      return Failure(400, "No file provided", None);
    }
    if form.file.value.TextValue? {
      return Failure(500, UploadFailed, Some(NotReadable));
    }
    match upload {
      case UploadError(m) =>
        return Failure(500, UploadFailed, Some(m));
      case Uploaded(url, publicId) =>
        db.blobs := db.blobs + {publicId};
        match insert {
          case InsertError(m) =>
            return Failure(500, UploadFailed, Some(m));
          case Inserted =>
            var id := db.nextId;
            db.records := db.records + [ImageRecord(id, url, publicId, StoredTitle(title, form.file.value),
                                                    FieldOr(Some(caption), ""), now)];
            db.nextId := id + 1;
            return Success("Image uploaded successfully", Some(id));
        }
    }
  }
}
