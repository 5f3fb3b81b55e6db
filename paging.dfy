/**
 * The list state shared by the two infinite-scroll grids: how a fetched
 * page is merged into the images shown so far, and how a confirmed delete
 * filters them.
 */
module Paging {
  import opened Types
  import opened Seqs
  import opened ImagesRoute

  /** Both grids ask for `/api/images?page=N&limit=12`. */
  const PageSize: nat := 12

  /** How one request for a page ends: the `images` of the reply, or an error (a thrown exception, a non-ok status, an unreadable body). */
  datatype FetchReply = Fetched(images: seq<ImageRecord>) | FetchFailed

  /** `pageNum === 1 ? data.images : [...prev, ...data.images]`. */
  function MergePage(prev: seq<ImageRecord>, pageNum: int, fetched: seq<ImageRecord>): seq<ImageRecord>
  {
    if pageNum == 1 then fetched else prev + fetched
  }

  /** The images shown and the `hasMore` flag after one request for page `pageNum` ends. */
  datatype ListState = ListState(images: seq<ImageRecord>, hasMore: bool)

  function AfterFetch(st: ListState, pageNum: int, reply: FetchReply): (r: ListState)
    ensures !st.hasMore ==> !r.hasMore
    ensures reply.FetchFailed? ==> r == st
    ensures reply == Fetched([]) ==> r == ListState(st.images, false)
  {
    match reply
    case FetchFailed => st
    case Fetched(fetched) =>
      if |fetched| == 0 then st.(hasMore := false)
      else st.(images := MergePage(st.images, pageNum, fetched))
  }

  /**
   * A non-empty first page replaces what is shown; a non-empty later page
   * is appended after it, both in the order the server sent them; the
   * flag is untouched.
   */
  lemma NonEmptyPageMerges(st: ListState, pageNum: int, fetched: seq<ImageRecord>)
    requires fetched != []
    ensures AfterFetch(st, pageNum, Fetched(fetched)).hasMore == st.hasMore
    ensures pageNum == 1 ==> AfterFetch(st, pageNum, Fetched(fetched)).images == fetched
    ensures pageNum != 1 ==>
      var images := AfterFetch(st, pageNum, Fetched(fetched)).images;
      |images| == |st.images| + |fetched| && images[..|st.images|] == st.images && images[|st.images|..] == fetched
  {
  }

  /** `images.filter((img) => img._id !== deleteImage._id)`. */
  function WithoutImage(images: seq<ImageRecord>, id: Id): seq<ImageRecord>
  {
    Filter((img: ImageRecord) => img.id != id, images)
  }

  /** The delete filter removes exactly the images with that `_id` and keeps the rest in order. */
  lemma WithoutImageMeaning(images: seq<ImageRecord>, id: Id)
    ensures forall r :: r in WithoutImage(images, id) <==> r in images && r.id != id
    ensures id !in IdsOf(WithoutImage(images, id))
    ensures IsSubsequence(WithoutImage(images, id), images)
    ensures id !in IdsOf(images) ==> WithoutImage(images, id) == images
  {
    FilterIsSubsequence((img: ImageRecord) => img.id != id, images);
    if id !in IdsOf(images) {
      FilterAll((img: ImageRecord) => img.id != id, images);
    }
  }

  // ---------------------------------------------------------------------------
  // Scrolling through a fixed collection

  /** The replies the server gives for pages `1..k` of `ordered` while the collection does not change. */
  function ServerPages(ordered: seq<ImageRecord>, k: nat): (replies: seq<FetchReply>)
    ensures |replies| == k
    ensures forall i :: 0 <= i < k ==> replies[i] == Fetched(Page(ordered, i + 1, PageSize))
  {
    seq(k, i requires 0 <= i < k => Fetched(Page(ordered, i + 1, PageSize)))
  }

  /** The list state after the requests for pages `first`, `first + 1`, ... end in turn with `replies`. */
  function LoadPages(st: ListState, first: int, replies: seq<FetchReply>): ListState
  {
    if replies == [] then st
    else AfterFetch(LoadPages(st, first, replies[..|replies| - 1]), first + |replies| - 1, replies[|replies| - 1])
  }

  /**
   * Starting empty and loading pages `1..k` of a collection that does not
   * change shows exactly its first `12k` records, newest first, with no
   * record twice; `hasMore` is still set exactly when page `k` was not empty.
   */
  lemma {:induction false} ScrollingShowsPrefix(ordered: seq<ImageRecord>, k: nat)
    ensures LoadPages(ListState([], true), 1, ServerPages(ordered, k)).images == ordered[..Min(k * PageSize, |ordered|)]
    ensures k >= 1 ==> (LoadPages(ListState([], true), 1, ServerPages(ordered, k)).hasMore <==> Page(ordered, k, PageSize) != [])
  {
    LoadsFirstPages(ordered, k);
    FirstPagesArePrefix(ordered, k, PageSize);
  }

  lemma {:induction false} LoadsFirstPages(ordered: seq<ImageRecord>, k: nat)
    ensures LoadPages(ListState([], true), 1, ServerPages(ordered, k)).images == FirstPages(ordered, k, PageSize)
    ensures k >= 1 ==> (LoadPages(ListState([], true), 1, ServerPages(ordered, k)).hasMore <==> Page(ordered, k, PageSize) != [])
  {
    if k > 0 {
      var replies := ServerPages(ordered, k);
      assert replies[..k - 1] == ServerPages(ordered, k - 1);
      LoadsFirstPages(ordered, k - 1);
      var page := Page(ordered, k, PageSize);
      if page == [] {
        assert FirstPages(ordered, k, PageSize) == FirstPages(ordered, k - 1, PageSize);
      } else if k > 1 {
        EarlierPageNonEmpty(ordered, k);
      }
    }
  }

  /** If page `k > 1` has records, so does page `k - 1`. */
  lemma EarlierPageNonEmpty(ordered: seq<ImageRecord>, k: int)
    requires k > 1 && Page(ordered, k, PageSize) != []
    ensures Page(ordered, k - 1, PageSize) != []
  {
    PageBounds(ordered, k, PageSize);
    PageBounds(ordered, k - 1, PageSize);
    MulStep(k - 1, PageSize);
  }

  /** In a store whose `_id`s are unique, scrolling never shows the same image twice. */
  lemma ScrollingShowsNoDuplicates(ordered: seq<ImageRecord>, k: nat)
    requires UniqueIds(ordered)
    ensures UniqueIds(LoadPages(ListState([], true), 1, ServerPages(ordered, k)).images)
  {
    ScrollingShowsPrefix(ordered, k);
  }

  /** The position whose element carries the scroll sentinel: the last one (`index === list.length - 1`). */
  predicate IsLastElement(index: nat, len: nat)
  {
    index == len - 1
  }

  /** Exactly one element of a non-empty list carries the sentinel, and none of an empty one. */
  lemma OneSentinel(len: nat)
    ensures len > 0 ==> exists index: nat :: index < len && IsLastElement(index, len)
    ensures forall i: nat, j: nat :: i < len && j < len && IsLastElement(i, len) && IsLastElement(j, len) ==> i == j
    ensures len == 0 ==> forall index: nat :: !IsLastElement(index, len)
  {
    if len > 0 {
      assert IsLastElement(len - 1, len);
    }
  }
}
