/**
 * The older card grid: loads pages of twelve images as the last card
 * scrolls into view, opens a modal on an image, and deletes an image after
 * confirmation.
 */
module ImageGallery {
  import opened Types
  import opened Paging

  /** The caption under a card: `image.title || \`Image ${index + 1}\``. */
  datatype CardCaption = Titled(title: string) | Numbered(n: nat)

  function Caption(image: ImageRecord, index: nat): (c: CardCaption)
    ensures c.Titled? <==> image.title != ""
    ensures c.Titled? ==> c.title == image.title
    ensures c.Numbered? ==> c.n == index + 1 && c.n >= 1
  {
    if image.title != "" then Titled(image.title) else Numbered(index + 1)
  }

  class Gallery {
    var images: seq<ImageRecord>
    var loading: bool
    var hasMore: bool
    var page: int
    var selectedImage: Option<ImageRecord>
    var deleteImage: Option<ImageRecord>
    var openModal: bool
    var openDeleteDialog: bool

    constructor ()
      ensures images == [] && loading && hasMore && page == 1
      ensures selectedImage == None && deleteImage == None && !openModal && !openDeleteDialog
    {
      images, loading, hasMore, page := [], true, true, 1;
      selectedImage, deleteImage, openModal, openDeleteDialog := None, None, false, false;
    }

    function List(): ListState
      reads this
    {
      ListState(images, hasMore)
    }

    /** "No images found": the list is empty and no request is running (this grid has no first-load flag). */
    predicate ShowsEmptyState(): (shown: bool)
      reads this
      ensures shown ==> forall index: nat :: !IsLastElement(index, |images|)
    {
      |images| == 0 && !loading
    }

    /** `fetchImages` starts. */
    method StartFetch()
      modifies this`loading
      ensures loading
    {
      loading := true;
    }

    /**
     * `fetchImages(pageNum)` ends with `reply`. The reply's status is not
     * checked: an error body has no `images`, reading its length throws,
     * and that is caught like a network error, so it arrives here as
     * `FetchFailed`.
     */
    method FinishFetch(pageNum: int, reply: FetchReply)
      modifies this`images, this`hasMore, this`loading
      ensures List() == AfterFetch(old(List()), pageNum, reply)
      ensures !loading
      ensures !old(hasMore) ==> !hasMore
    {
      match reply {
        case FetchFailed =>
        case Fetched(fetched) =>
          if |fetched| == 0 {
            hasMore := false;
          } else {
            images := MergePage(images, pageNum, fetched);
          }
      }
      loading := false;
    }

    /** The last card scrolls into view (`isIntersecting`): ask for the next page if there may be one. */
    method ObserverFires(isIntersecting: bool)
      modifies this`page
      ensures page == if isIntersecting && hasMore then old(page) + 1 else old(page)
    {
      if isIntersecting && hasMore {
        page := page + 1;
      }
    }

    /** `handleOpenModal`. */
    method OpenModal(image: ImageRecord)
      modifies this`selectedImage, this`openModal
      ensures selectedImage == Some(image) && openModal
    {
      selectedImage := Some(image);
      openModal := true;
    }

    /** `handleCloseModal`. */
    method CloseModal()
      modifies this`selectedImage, this`openModal
      ensures selectedImage == None && !openModal
    {
      openModal := false;
      selectedImage := None;
    }

    /** `handleDeleteClick`. */
    method DeleteClick(image: ImageRecord)
      modifies this`deleteImage, this`openDeleteDialog
      ensures deleteImage == Some(image) && openDeleteDialog
    {
      deleteImage := Some(image);
      openDeleteDialog := true;
    }

    /** `handleDeleteConfirm`, with `ok` whether the `DELETE` request answered with a success status. */
    method DeleteConfirm(ok: bool)
      modifies this`images, this`deleteImage, this`openDeleteDialog
      ensures old(deleteImage).None? ==>
        images == old(images) && deleteImage == None && openDeleteDialog == old(openDeleteDialog)
      ensures old(deleteImage).Some? ==>
        && images == (if ok then WithoutImage(old(images), old(deleteImage).value.id) else old(images))
        && deleteImage == None && !openDeleteDialog
    {
      if deleteImage.None? {
        return;
      }
      if ok {
        images := WithoutImage(images, deleteImage.value.id);
      }
      openDeleteDialog := false;
      deleteImage := None;
    }

    /** `handleDeleteCancel`. */
    method DeleteCancel()
      modifies this`deleteImage, this`openDeleteDialog
      ensures deleteImage == None && !openDeleteDialog
    {
      openDeleteDialog := false;
      deleteImage := None;
    }
  }
}
