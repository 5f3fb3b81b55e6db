/**
 * The masonry grid on the gallery page: loads pages of twelve images as
 * the user scrolls or presses "Load More", opens the viewer on an image,
 * and deletes an image after confirmation.
 */
module ImagePreviewGrid {
  import opened Types
  import opened Paging

  /**
   * `handleNavigateImage` on the selected index: one step back or forward,
   * kept inside the list; nothing when no image is selected.
   */
  function Navigate(selected: Option<int>, dir: Direction, len: nat): (r: Option<int>)
    ensures selected.None? <==> r.None?
    ensures selected.Some? && 0 <= selected.value < len ==> 0 <= r.value < len
    ensures selected.Some? ==> -1 <= r.value - selected.value <= 1
    ensures selected == Some(0) && dir == Prev ==> r == selected
    ensures selected == Some(len - 1) && dir == Next ==> r == selected
  {
    match selected
    case None => None
    case Some(i) =>
      if dir == Prev && i > 0 then Some(i - 1)
      else if dir == Next && i < len - 1 then Some(i + 1)
      else selected
  }

  /** Within a list of two or more images, a step forward then back (or back then forward) returns to an inner index. */
  lemma NavigateThereAndBack(i: int, len: nat)
    requires 0 < i < len - 1
    ensures Navigate(Navigate(Some(i), Next, len), Prev, len) == Some(i)
    ensures Navigate(Navigate(Some(i), Prev, len), Next, len) == Some(i)
  {
  }

  class PreviewGrid {
    var images: seq<ImageRecord>
    var loading: bool
    var hasMore: bool
    var page: int
    var selectedImageIndex: Option<int>
    var deleteImage: Option<ImageRecord>
    var openModal: bool
    var openDeleteDialog: bool
    var initialLoad: bool
    const hasCallback: bool  // whether `onImageDeleted` was passed

    /** The grid is mounted: nothing loaded, the first page about to be requested. */
    constructor (hasCallback: bool)
      ensures this.hasCallback == hasCallback
      ensures images == [] && loading && hasMore && page == 1 && initialLoad
      ensures selectedImageIndex == None && deleteImage == None && !openModal && !openDeleteDialog
    {
      this.hasCallback := hasCallback;
      images, loading, hasMore, page := [], true, true, 1;
      selectedImageIndex, deleteImage, openModal, openDeleteDialog, initialLoad := None, None, false, false, true;
    }

    /** The list state the fetch logic works on. */
    function List(): ListState
      reads this
    {
      ListState(images, hasMore)
    }

    /** "No images found": the list is empty after the first request ended and none is running. */
    predicate ShowsEmptyState(): (shown: bool)
      reads this
      ensures shown ==> !ShowsLoadMore() && !ShowsViewer()
    {
      |images| == 0 && !loading && !initialLoad
    }

    /** The "Load More Images" button is shown. */
    predicate ShowsLoadMore()
      reads this
    {
      hasMore && !loading && |images| > 0
    }

    /** The viewer is mounted. */
    predicate ShowsViewer()
      reads this
    {
      selectedImageIndex.Some? && |images| > 0
    }

    /** `fetchImages` starts: the spinner is shown. */
    method StartFetch()
      modifies this`loading
      ensures loading
    {
      loading := true;
    }

    /** `fetchImages(pageNum)` ends with `reply`. */
    method FinishFetch(pageNum: int, reply: FetchReply)
      modifies this`images, this`hasMore, this`loading, this`initialLoad
      ensures List() == AfterFetch(old(List()), pageNum, reply)
      ensures !loading && !initialLoad
      ensures !old(hasMore) ==> !hasMore
    {
      match reply {
        case FetchFailed =>
        case Fetched(fetched) =>
          if |fetched| == 0 {
            hasMore := false;
          } else {
            images := MergePage(images, pageNum, fetched);
          }
      }
      loading := false;
      initialLoad := false;
    }

    /** `handleLoadMore`: ask for the next page unless there is none or a request is running. */
    method LoadMore()
      modifies this`page
      ensures page == if old(hasMore) && !loading then old(page) + 1 else old(page)
    {
      if hasMore && !loading {
        page := page + 1;
      }
    }

    /** The sentinel after the last image scrolls into view (`isIntersecting`). */
    method ObserverFires(isIntersecting: bool)
      modifies this`page
      ensures page == if isIntersecting && hasMore then old(page) + 1 else old(page)
    {
      if isIntersecting && hasMore {
        page := page + 1;
      }
    }

    /** `handleOpenModal`. */
    method OpenModal(index: int)
      modifies this`selectedImageIndex, this`openModal
      ensures selectedImageIndex == Some(index) && openModal
    {
      selectedImageIndex := Some(index);
      openModal := true;
    }

    /** `handleCloseModal`. */
    method CloseModal()
      modifies this`selectedImageIndex, this`openModal
      ensures selectedImageIndex == None && !openModal
    {
      openModal := false;
      selectedImageIndex := None;
    }

    /** `handleDeleteClick`. */
    method DeleteClick(image: ImageRecord)
      modifies this`deleteImage, this`openDeleteDialog
      ensures deleteImage == Some(image) && openDeleteDialog
    {
      deleteImage := Some(image);
      openDeleteDialog := true;
    }

    /**
     * `handleDeleteConfirm`, with `ok` whether the `DELETE` request
     * answered with a success status. Returns whether `onImageDeleted` was
     * called.
     */
    method DeleteConfirm(ok: bool) returns (notified: bool)
      modifies this`images, this`deleteImage, this`openDeleteDialog
      ensures old(deleteImage).None? ==>
        images == old(images) && deleteImage == None && openDeleteDialog == old(openDeleteDialog) && !notified
      ensures old(deleteImage).Some? ==>
        && images == (if ok then WithoutImage(old(images), old(deleteImage).value.id) else old(images))
        && notified == (ok && hasCallback)
        && deleteImage == None && !openDeleteDialog
    {
      notified := false;
      if deleteImage.None? {
        return;
      }
      if ok {
        images := WithoutImage(images, deleteImage.value.id);
        notified := hasCallback;
      }
      openDeleteDialog := false;
      deleteImage := None;
    }

    /** `handleDeleteCancel`. */
    method DeleteCancel()
      modifies this`deleteImage, this`openDeleteDialog
      ensures deleteImage == None && !openDeleteDialog
    {
      openDeleteDialog := false;
      deleteImage := None;
    }

    /** `handleNavigateImage`. */
    method NavigateImage(dir: Direction)
      modifies this`selectedImageIndex
      ensures selectedImageIndex == Navigate(old(selectedImageIndex), dir, |images|)
    {
      if selectedImageIndex.None? {
        return;
      }
      var i := selectedImageIndex.value;
      if dir == Prev && i > 0 {
        selectedImageIndex := Some(i - 1);
      } else if dir == Next && i < |images| - 1 {
        selectedImageIndex := Some(i + 1);
      }
    }
  }
}
