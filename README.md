# Image gallery — a Dafny model

This project models the core of a Next.js image gallery. The gallery has
two server handlers for the image collection and the single-image delete
handler. It also has the client components that pick, validate, queue and
upload files, and the components that page through the stored images,
search and display them, and delete them.

The model has three layers.

- **Stores** holds the two external services the server writes to. These
  are the document database's `images` collection, a sequence of records
  with unique `_id`s, and the object store's set of binaries, keyed by
  public id. A `Stores` object owns both.
- **Server handlers.** `GET /api/images` is a function of the records and
  the query. `POST /api/images` and `DELETE /api/images/{id}` are each a
  pure function (`Create`, `Remove`) of the store state and of the replies
  from the external services. Each also has a method (`Post`, `Delete`) on
  the `Stores` object, proved to move the stores exactly as the function
  says.
- **Client components.** Each stateful component is a class. Its fields
  are the component's `useState` variables and its methods are the event
  handlers. The pure parts are functions with lemmas about them: batch
  validation, merging fetched pages, the title search, the tile titles,
  navigation, swipes and key dispatch.

External replies are parameters of the operations. These cover the object
store's upload and destroy results, the database's insert and delete
results, whether the database is reachable, `fetch` outcomes, random draws,
generated ids and preview URLs, and the clock.

## Model

| member | source | states |
|---|---|---|
| ImagesRoute.InsertByDate | app/api/images/route.ts:16 | inserting a record into a newest-first list keeps it newest-first and adds exactly that record (multiset) |
| ImagesRoute.SortNewestFirst | app/api/images/route.ts:16 | `sort({createdAt: -1})` returns a newest-first permutation of the collection |
| ImagesRoute.UniqueIdsOccurOnce | app/api/images/route.ts:16 | in a collection with unique `_id`s every record occurs at most once |
| ImagesRoute.PermutationKeepsUniqueIds | app/api/images/route.ts:16 | reordering the collection for the sort keeps `_id`s unique |
| ImagesRoute.SkipLimitFacts | app/api/images/route.ts:16 | `skip`/`limit` on the sorted cursor keeps newest-first order and only returns records of the collection |
| ImagesRoute.SkipLimit | app/api/images/route.ts:16 | `skip(skip).limit(limit)`: 0 means no limit, a negative limit its absolute value; its order and origin are stated by `SkipLimitFacts` |
| ImagesRoute.Page | app/api/images/route.ts:10-16 | positions `(page-1)*limit` up to `page*limit`, clipped; `SkipLimitIsPage` ties it to `SkipLimit` |
| ImagesRoute.ParamOr | app/api/images/route.ts:8-9 | a missing or empty query parameter gives the default; `DefaultQueryIsNewestTwelve` gives its effect |
| ImagesRoute.FirstPages | app/api/images/route.ts:10 | pages `1..k` one after the other; `FirstPagesArePrefix` proves them a prefix |
| ImagesRoute.Get | app/api/images/route.ts:6-23 | the handler answers either 500 "Failed to fetch images" or a newest-first list drawn from the collection |
| ImagesRoute.MulStep | app/api/images/route.ts:10 | the skip of page `p` plus one page is the skip of page `p + 1` |
| ImagesRoute.MulMonotone | app/api/images/route.ts:10 | a later page never has a smaller skip |
| ImagesRoute.PageBounds | app/api/images/route.ts:10 | page `p` occupies positions `(p-1)*n` to `p*n` of the sorted collection |
| ImagesRoute.SkipLimitIsPage | app/api/images/route.ts:10-16 | for positive page and limit, skip `(page-1)*limit` then limit gives exactly that page |
| ImagesRoute.GetReturnsPage | app/api/images/route.ts:6-18 | with `page >= 1` and `limit >= 1` the response is exactly that page of the newest-first collection |
| ImagesRoute.PageAtMostLimit | app/api/images/route.ts:16 | no response holds more than `limit` records |
| ImagesRoute.DefaultQueryIsNewestTwelve | app/api/images/route.ts:8-9 | without parameters the handler returns the 12 newest records |
| ImagesRoute.PagesAreAdjacent | app/api/images/route.ts:10 | consecutive pages leave no gap between them |
| ImagesRoute.PagesAreDisjoint | app/api/images/route.ts:10 | two different pages share no record when `_id`s are unique |
| ImagesRoute.FirstPagesArePrefix | app/api/images/route.ts:10 | pages `1..k` of size `n` together are the first `k*n` records |
| ImagesRoute.TwentyFiveRecordsInPagesOfTwelve | app/api/images/route.ts:8-16 | 25 records come back in pages of 12, 12, 1 and 0 |
| ImagesRoute.FieldOr | app/api/images/route.ts:29-30 | a missing or empty field gives the fallback; a non-empty field is kept |
| ImagesRoute.MissingFile | app/api/images/route.ts:32 | `!file`: no entry, or the empty string; `CreateWithoutFile` gives the outcome |
| ImagesRoute.StoredTitle | app/api/images/route.ts:72 | `title \|\| (file instanceof File ? file.name : "Image")`; `StoredTitleNeverFallsBack` proves the fallback dead |
| ImagesRoute.Create | app/api/images/route.ts:25-96 | the upload handler never breaks store well-formedness (unique `_id`s below the next id) |
| ImagesRoute.CreateWithoutFile | app/api/images/route.ts:32-34 | a missing or empty `file` entry answers 400 "No file provided" and changes neither store |
| ImagesRoute.CreateWithTextFile | app/api/images/route.ts:39-47 | a string `file` entry cannot be read: 500 with the TypeError as details, nothing uploaded |
| ImagesRoute.CreateUploadFails | app/api/images/route.ts:50-63 | a failed upload answers 500 "Failed to upload image" with the reason and changes neither store |
| ImagesRoute.CreateSucceeds | app/api/images/route.ts:50-80 | a successful request appends one record with a fresh `_id`, the upload's URL and public id, the title and caption, adds the binary, and answers with the new `_id` |
| ImagesRoute.CreateInsertFailsLeavesOrphan | app/api/images/route.ts:66-95 | a failed insert after a successful upload leaves the binary stored with no record pointing to it |
| ImagesRoute.StoredTitleNeverFallsBack | app/api/images/route.ts:29-72 | the stored title is never empty and the file-name fallback on line 72 is never taken; no title means "Untitled" |
| ImagesRoute.Post | app/api/images/route.ts:25-96 | the handler on the stores moves them exactly as `Create` says and keeps them valid |
| UploadValidation.ValidateBatchMeaning | components/multi-image-upload.tsx:71-86 | a batch is accepted iff every file is an image of at most 5 MiB; a non-image anywhere gives the type error; otherwise an oversized file gives the size error |
| UploadValidation.SizeLimitIsInclusive | components/image-upload.tsx:45-50 | exactly 5 MiB passes and one byte more is refused |
| UploadValidation.SixMebibyteImageRejected | components/multi-image-upload.tsx:80-86 | a 6 MiB image makes a batch of images fail with "All files must be less than 5MB" |
| UploadValidation.PngIsAnImage | components/image-upload.tsx:39-44 | "image/png" passes the unanchored `image.*` type test |
| UploadValidation.IsImageType | components/image-upload.tsx:39 | `type.match("image.*")` holds iff "image" occurs in the type; `PngIsAnImage` is an instance |
| UploadValidation.ValidateBatch | components/image-upload.tsx:39-50 | the type filter, then the size filter; `ValidateBatchMeaning` states exactly when each error is reported |
| UploadValidation.BatchErrorText | components/image-upload.tsx:41-48 | the two messages of a refused batch |
| UploadValidation.Urls | components/multi-image-upload.tsx:249-251 | the non-empty preview URLs of a queue, exactly those `if (file.preview)` revokes |
| MultiImageUpload.NewItems | components/multi-image-upload.tsx:88-99 | each accepted file becomes one entry with its id and preview, empty title and caption, not editing |
| MultiImageUpload.FindById | components/multi-image-upload.tsx:153 | `find` gives the first entry with the id, or reports that none has it |
| MultiImageUpload.WithoutIdMeaning | components/multi-image-upload.tsx:151-159 | removing by id drops exactly the entries with that id, keeps the others in order, and shrinks the queue by their count |
| MultiImageUpload.WithoutIdLength | components/multi-image-upload.tsx:158 | the queue shrinks by the number of entries with the id |
| MultiImageUpload.WithoutId | components/multi-image-upload.tsx:157 | `filter((file) => file.id !== id)`; `WithoutIdMeaning` states what it keeps |
| MultiImageUpload.SetTitle | components/multi-image-upload.tsx:161-165 | the title of the entries with the id replaced; `EditsTouchOneField` states it |
| MultiImageUpload.SetCaption | components/multi-image-upload.tsx:177-181 | the caption of the entries with the id replaced; `EditsTouchOneField` states it |
| MultiImageUpload.ToggleTitleEditing | components/multi-image-upload.tsx:167-175 | the title edit flag of the entries with the id flipped; `ToggleFlipsOnlyMatching` and `ToggleTwiceIsIdentity` state it |
| MultiImageUpload.ToggleCaptionEditing | components/multi-image-upload.tsx:183-191 | the caption edit flag of the entries with the id flipped; `ToggleFlipsOnlyMatching` and `ToggleTwiceIsIdentity` state it |
| MultiImageUpload.NoticeFor | components/multi-image-upload.tsx:74-85 | a refused batch shows the type message or the size message |
| MultiImageUpload.NoticeText | components/multi-image-upload.tsx:195-256 | the texts of the form's messages, the failure count included |
| MultiImageUpload.EditsTouchOneField | components/multi-image-upload.tsx:161-181 | a title or caption edit changes that field of the matching entries and nothing else |
| MultiImageUpload.ToggleTwiceIsIdentity | components/multi-image-upload.tsx:167-191 | toggling an edit flag twice restores the queue |
| MultiImageUpload.ToggleFlipsOnlyMatching | components/multi-image-upload.tsx:167-191 | the title toggle and the caption toggle each flip their flag on exactly the entries with the id and change nothing else |
| MultiImageUpload.NoFailureIffAllStored | components/multi-image-upload.tsx:227-256 | no failure is counted iff every file was stored and its reply read |
| MultiImageUpload.CountsCoverEveryFile | components/multi-image-upload.tsx:234-240 | completed plus failed equals the file count plus the files whose reply cannot be read |
| MultiImageUpload.UnreadableReplyCountsTwice | components/multi-image-upload.tsx:234-240 | one file whose reply cannot be read counts as one completed and one failed upload |
| MultiImageUpload.CountAppend | components/multi-image-upload.tsx:234-240 | counts over a concatenation add up |
| MultiImageUpload.CountSnoc | components/multi-image-upload.tsx:234-240 | one more outcome adds its own contribution to a count |
| MultiImageUpload.FieldsFor | components/multi-image-upload.tsx:218-220 | each file is sent under its name, with its title or else its file name, and its caption |
| MultiImageUpload.FieldsAsWritten | components/multi-image-upload.tsx:218-219 | the fields as written: file name "blob" and the typed title, since the spread entry has no `name`; `SpreadLosesFileName` shows the effect |
| MultiImageUpload.SpreadLosesFileName | components/multi-image-upload.tsx:88-96 | as written, an untitled "cat.png" is stored as "Untitled"; with the file name kept it is stored as "cat.png" |
| MultiImageUpload.Previews | components/multi-image-upload.tsx:249-251 | the preview of each queued entry, in order (the URLs revoked are `Urls` of these) |
| MultiImageUpload.Uploader.AddFiles | components/multi-image-upload.tsx:65-149 | an empty pick does nothing; a refused batch sets the message and keeps the queue; an accepted batch is appended and its previews become live |
| MultiImageUpload.Uploader.RemoveFile | components/multi-image-upload.tsx:151-159 | revokes the first matching preview and drops every entry with the id |
| MultiImageUpload.Uploader.ChangeTitle | components/multi-image-upload.tsx:161-165 | the queue becomes `SetTitle` of the old queue |
| MultiImageUpload.Uploader.ChangeCaption | components/multi-image-upload.tsx:177-181 | the queue becomes `SetCaption` of the old queue |
| MultiImageUpload.Uploader.ToggleTitleEdit | components/multi-image-upload.tsx:167-175 | the queue becomes `ToggleTitleEditing` of the old queue |
| MultiImageUpload.Uploader.ToggleCaptionEdit | components/multi-image-upload.tsx:183-191 | the queue becomes `ToggleCaptionEditing` of the old queue |
| MultiImageUpload.Uploader.Upload | components/multi-image-upload.tsx:193-272 | an empty queue reports "select at least one" and changes nothing else; otherwise one request per file with the fields as written (`FieldsAsWritten`), completed count, every non-empty preview revoked, then either the failure count with the queue kept, or success with the queue emptied and the callback called |
| MultiImageUpload.Uploader.Cancel | components/multi-image-upload.tsx:790-796 | revokes every preview and empties the queue |
| MultiImageUpload.Uploader.CloseSnackbar | components/multi-image-upload.tsx:280-282 | hides the success message |
| ImageUpload.QueuedItems | components/image-upload.tsx:52-62 | each accepted file becomes one entry with its preview and empty title and caption |
| ImageUpload.EditAtChangesOnePosition | components/image-upload.tsx:104-110 | a positional edit changes that field at that position only; an out-of-range index changes nothing |
| ImageUpload.SetTitleAt | components/image-upload.tsx:104-106 | the title at one position replaced; `EditAtChangesOnePosition` states it |
| ImageUpload.SetCaptionAt | components/image-upload.tsx:108-110 | the caption at one position replaced; `EditAtChangesOnePosition` states it |
| ImageUpload.FilePartAsWritten | components/image-upload.tsx:137 | the spread entry is not a Blob, so the form sends the text "[object Object]"; `UploadAsWrittenNeverStores` shows the effect |
| ImageUpload.NoticeText | components/image-upload.tsx:41-164 | the texts of the form's messages |
| ImageUpload.FilePartFor | components/image-upload.tsx:137 | the evidently intended `file` entry is the selected file itself |
| ImageUpload.FormFor | components/image-upload.tsx:137-139 | the request carries the file entry, a non-empty title (the typed one, else "Untitled") and the caption |
| ImageUpload.UploadAsWrittenNeverStores | components/image-upload.tsx:52-59 | as written, every request answers 500 and neither store changes, whatever the services would do |
| ImageUpload.UploadOfFileStores | components/image-upload.tsx:130-152 | sending the file itself, a successful request stores one record with the typed title or "Untitled" and the caption |
| ImageUpload.Previews | components/image-upload.tsx:309-311 | the preview of each queued entry, in order (the URLs revoked are `Urls` of these) |
| ImageUpload.SpliceOut | components/image-upload.tsx:112-122 | `splice(index, 1)` shifts the later entries left: the result is the queue without position `index` |
| ImageUpload.LegacyUploader.AddFiles | components/image-upload.tsx:34-102 | an empty pick does nothing; a refused batch sets the message and keeps the queue; an accepted batch is appended with live previews |
| ImageUpload.LegacyUploader.ChangeTitle | components/image-upload.tsx:104-106 | the queue becomes `SetTitleAt` of the old queue |
| ImageUpload.LegacyUploader.ChangeCaption | components/image-upload.tsx:108-110 | the queue becomes `SetCaptionAt` of the old queue |
| ImageUpload.LegacyUploader.RemoveFile | components/image-upload.tsx:112-122 | revokes that entry's preview and removes exactly that position |
| ImageUpload.LegacyUploader.Upload | components/image-upload.tsx:124-168 | an empty queue reports "select at least one" and keeps the queue; otherwise one request per file, whose `file` entry is the spread object as written (`FilePartAsWritten`); any failure keeps the queue and reports the error; all succeeding empties it and reloads; previews stay live |
| ImageUpload.LegacyUploader.Cancel | components/image-upload.tsx:307-313 | revokes every preview and empties the queue |
| ImageUpload.LegacyUploader.CloseSnackbar | components/image-upload.tsx:176-178 | hides the success message |
| Paging.AfterFetch | components/image-preview-grid.tsx:75-99 | a failed fetch changes nothing, an empty page clears `hasMore`, and `hasMore` never comes back once cleared |
| Paging.MergePage | components/image-preview-grid.tsx:89-91 | page 1 replaces the list, a later page is appended; `NonEmptyPageMerges` states it |
| Paging.NonEmptyPageMerges | components/image-preview-grid.tsx:88-91 | a non-empty page 1 replaces the list; a later page is appended after it in server order |
| Paging.WithoutImageMeaning | components/image-preview-grid.tsx:121-141 | the delete filter removes exactly the images with that `_id` and keeps the rest in order |
| Paging.WithoutImage | components/image-preview-grid.tsx:130 | `images.filter((img) => img._id !== id)`; `WithoutImageMeaning` states what it keeps |
| Paging.ServerPages | components/image-preview-grid.tsx:78 | the replies for pages `1..k` are the server's pages of 12 |
| Paging.LoadPages | components/image-preview-grid.tsx:75-99 | the requests for consecutive pages ending in turn; `ScrollingShowsPrefix` states the result |
| Paging.ScrollingShowsPrefix | components/image-preview-grid.tsx:61-99 | loading pages `1..k` of an unchanged collection shows exactly its first `12k` records, and `hasMore` stays set iff page `k` was non-empty |
| Paging.LoadsFirstPages | components/image-preview-grid.tsx:86-91 | loading pages `1..k` shows their concatenation |
| Paging.EarlierPageNonEmpty | app/api/images/route.ts:10 | if page `k > 1` has records, so does page `k - 1` |
| Paging.ScrollingShowsNoDuplicates | components/image-preview-grid.tsx:86-91 | with unique `_id`s, scrolling never shows an image twice |
| Paging.OneSentinel | components/image-gallery.tsx:113 | exactly one element of a non-empty list carries the scroll sentinel, and none of an empty one |
| Paging.IsLastElement | components/image-gallery.tsx:113 | `index === list.length - 1`, the element that carries the scroll sentinel |
| ImagePreviewGrid.Navigate | components/image-preview-grid.tsx:148-156 | one step at most, staying inside the list; no step past either end; nothing without a selection |
| ImagePreviewGrid.NavigateThereAndBack | components/image-preview-grid.tsx:148-156 | from an inner index, forward then back (or back then forward) returns to it |
| ImagePreviewGrid.PreviewGrid.ShowsEmptyState | components/image-preview-grid.tsx:164 | when "No images found" shows, neither the load-more button nor the viewer does |
| ImagePreviewGrid.PreviewGrid.ShowsLoadMore | components/image-preview-grid.tsx:265 | the "Load More Images" button is shown when more may exist, nothing is loading and the list is not empty |
| ImagePreviewGrid.PreviewGrid.ShowsViewer | components/image-preview-grid.tsx:337 | the viewer is mounted when an index is selected and the list is not empty |
| ImagePreviewGrid.PreviewGrid.StartFetch | components/image-preview-grid.tsx:77 | a fetch shows the spinner |
| ImagePreviewGrid.PreviewGrid.FinishFetch | components/image-preview-grid.tsx:75-99 | the list becomes `AfterFetch` of the old one, loading and first-load flags cleared |
| ImagePreviewGrid.PreviewGrid.LoadMore | components/image-preview-grid.tsx:158-162 | the page advances iff more may exist and no request is running |
| ImagePreviewGrid.PreviewGrid.ObserverFires | components/image-preview-grid.tsx:61-73 | the page advances iff the sentinel is visible and more may exist |
| ImagePreviewGrid.PreviewGrid.OpenModal | components/image-preview-grid.tsx:105-108 | selects the index and opens the viewer |
| ImagePreviewGrid.PreviewGrid.CloseModal | components/image-preview-grid.tsx:110-113 | clears the selection and closes the viewer |
| ImagePreviewGrid.PreviewGrid.DeleteClick | components/image-preview-grid.tsx:115-119 | remembers the image and opens the confirmation |
| ImagePreviewGrid.PreviewGrid.DeleteConfirm | components/image-preview-grid.tsx:121-141 | on success removes the image and notifies; either way closes the dialog; without a pending image does nothing |
| ImagePreviewGrid.PreviewGrid.DeleteCancel | components/image-preview-grid.tsx:143-146 | forgets the image and closes the dialog |
| ImagePreviewGrid.PreviewGrid.NavigateImage | components/image-preview-grid.tsx:148-156 | the selection becomes `Navigate` of the old one |
| ImageGallery.Caption | components/image-gallery.tsx:145 | the card shows the title, or "Image n" numbered from one |
| ImageGallery.Gallery.ShowsEmptyState | components/image-gallery.tsx:99 | when "No images found" shows, no card carries the sentinel |
| ImageGallery.Gallery.StartFetch | components/image-gallery.tsx:39 | a fetch shows the spinner |
| ImageGallery.Gallery.FinishFetch | components/image-gallery.tsx:37-53 | the list becomes `AfterFetch` of the old one and loading ends |
| ImageGallery.Gallery.ObserverFires | components/image-gallery.tsx:23-35 | the page advances iff the last card is visible and more may exist |
| ImageGallery.Gallery.OpenModal | components/image-gallery.tsx:59-62 | selects the image and opens the modal |
| ImageGallery.Gallery.CloseModal | components/image-gallery.tsx:64-67 | clears the selection and closes the modal |
| ImageGallery.Gallery.DeleteClick | components/image-gallery.tsx:69-73 | remembers the image and opens the confirmation |
| ImageGallery.Gallery.DeleteConfirm | components/image-gallery.tsx:75-92 | on success removes the image; closes the dialog; without a pending image does nothing |
| ImageGallery.Gallery.DeleteCancel | components/image-gallery.tsx:94-97 | forgets the image and closes the dialog |
| ImageCard.FilterByTitleMeaning | components/image-card.tsx:57-59 | the search keeps exactly the images whose lowercased title contains the lowercased term, in order, never more than all |
| ImageCard.TitleMatches | components/image-card.tsx:58 | the lowercased title (or "") contains the lowercased term |
| ImageCard.FilterByTitle | components/image-card.tsx:57-59 | the images whose title matches, in order; `FilterByTitleMeaning` states it |
| ImageCard.EmptySearchShowsAll | components/image-card.tsx:57-59 | an empty search shows every image |
| ImageCard.SearchIgnoresCase | components/image-card.tsx:57-59 | lowercasing the term first changes nothing |
| ImageCard.FindIndex | components/image-card.tsx:316-318 | `findIndex` by `_id` gives the first matching position, or -1 iff none matches |
| ImageCard.OriginalIndexOfTile | components/image-card.tsx:316-359 | every tile finds its position in the full list, which with unique `_id`s holds that very image |
| ImageCard.DisplayTitle | components/image-card.tsx:499-501 | the tile shows the title unless it is empty or "Untitled", else "Photo n" |
| ImageCard.TileTitleIsNeverPlaceholder | components/image-card.tsx:499-501 | no tile shows "Untitled" or an empty title, and "Photo n" has `1 <= n <= length` |
| ImageCard.RandomHeight | components/image-card.tsx:31-34 | a random height is one of 200, 240, 280, 320 |
| ImageCard.RenderHeight | components/image-card.tsx:315 | a rendered tile always has a positive height, the stored one when set |
| ImageCard.NeedsHeight | components/image-card.tsx:65 | `!imageHeights[id]`: no height yet, or the falsy 0 |
| ImageCard.NewHeights | components/image-card.tsx:62-73 | the heights the effect adds; `NewHeightsMeaning` and `FillKeepsAndCompletes` state them |
| ImageCard.NewHeightsMeaning | components/image-card.tsx:62-73 | the effect adds a height exactly for loaded images without one, each one of the four heights |
| ImageCard.FillKeepsAndCompletes | components/image-card.tsx:62-73 | after the effect, existing heights are kept, every loaded image has one, and a second run adds nothing |
| ImageCard.NewHeightsStep | components/image-card.tsx:64-68 | one more image adds its height when it needs one |
| ImageCard.Tiles.SearchChange | components/image-card.tsx:75-77 | stores the typed term |
| ImageCard.Tiles.ClearSearch | components/image-card.tsx:79-81 | clears the term, after which every image is shown |
| ImageCard.Tiles.FillHeights | components/image-card.tsx:62-73 | the heights become the old ones plus `NewHeights`, updated only when something was added |
| ImageViewerModal.ImageAt | components/image-viewer-modal.tsx:59-88 | an image is shown iff the index is inside the list, and it is the image at that index |
| ImageViewerModal.HeaderTitle | components/image-viewer-modal.tsx:209 | the title, or "Image n" counted from one, the rule of `ImageGallery.Caption` |
| ImageViewerModal.Counter | components/image-viewer-modal.tsx:215 | the position chip `n / total`, counted from one |
| ImageViewerModal.ShowPrevArrow | components/image-viewer-modal.tsx:348 | the previous arrow is shown when the index is above 0; `ArrowsMatchNavigation` ties it to navigation |
| ImageViewerModal.ShowNextArrow | components/image-viewer-modal.tsx:375 | the next arrow is shown below the last index; `ArrowsMatchNavigation` ties it to navigation |
| ImageViewerModal.ArrowsMatchNavigation | components/image-viewer-modal.tsx:348-375 | an arrow is shown iff pressing it moves the selection; a single image shows none |
| ImageViewerModal.Swipe | components/image-viewer-modal.tsx:94-112 | a swipe navigates iff the finger moved more than 50px; leftward means next |
| ImageViewerModal.SwipeIsSymmetric | components/image-viewer-modal.tsx:94-112 | reversing a gesture reverses its direction; exactly 50px does nothing, 51px does |
| ImageViewerModal.Opposite | components/image-viewer-modal.tsx:102-108 | the reverse direction of a swipe |
| ImageViewerModal.KeyActionFor | components/image-viewer-modal.tsx:67-82 | a closed viewer ignores keys; ArrowLeft, ArrowRight, Escape, "f" and "i" each do exactly their action |
| ImageViewerModal.ToggleFullscreened | components/image-viewer-modal.tsx:114-116 | flips full screen and nothing else |
| ImageViewerModal.ToggleInfo | components/image-viewer-modal.tsx:80 | flips the info panel and nothing else |
| ImageViewerModal.ToggleLiked | components/image-viewer-modal.tsx:118-120 | flips the like and nothing else |
| ImageViewerModal.ResetForIndex | components/image-viewer-modal.tsx:62-65 | a new index clears the info panel and the like, keeping full screen |
| ImageViewerModal.AfterKey | components/image-viewer-modal.tsx:67-82 | "f" flips full screen, "i" flips the info panel, other keys change no flag |
| ImageViewerModal.TogglesAreInvolutions | components/image-viewer-modal.tsx:62-120 | each toggle, by button or key, is undone by repeating it; the reset is idempotent |
| ImageViewerModal.KeyEffect | components/image-viewer-modal.tsx:67-86 | the listener as written: "f" sets full screen to the negation of the captured flag; "i" flips the info panel and captures the current flag; other keys change no flag |
| ImageViewerModal.KeyEffectWhenCurrent | components/image-viewer-modal.tsx:67-116 | while the listener saw the current flag, a key does what `AfterKey` says |
| ImageViewerModal.StaleListenerPressedTwice | components/image-viewer-modal.tsx:67-116 | as written, "f" twice from the normal view stays full screen, where reading the current flag returns to normal; after the full-screen button, "f" stays full screen |
| ImageViewerModal.Viewer.IndexChanged | components/image-viewer-modal.tsx:62-65 | the flags become `ResetForIndex` of the old ones |
| ImageViewerModal.Viewer.KeyDown | components/image-viewer-modal.tsx:67-86 | the flags and the captured flag become `KeyEffect` of the old ones, the listener as written; navigates iff an arrow key, closes iff Escape |
| ImageViewerModal.Viewer.ListenerReinstalled | components/image-viewer-modal.tsx:84-86 | after a render that changes a dependency of the listener, it captures the current `isFullscreen` |
| ImageViewerModal.Viewer.InfoClick | components/image-viewer-modal.tsx:265 | the info button flips `showInfo` and so installs the listener again with the current flag |
| ImageViewerModal.Viewer.TouchStart | components/image-viewer-modal.tsx:90-92 | remembers the start position |
| ImageViewerModal.Viewer.TouchEnd | components/image-viewer-modal.tsx:94-112 | navigates as `Swipe` of the start and end says, then forgets the start |
| ImageViewerModal.Viewer.ToggleFullscreen | components/image-viewer-modal.tsx:114-116 | the flags become `ToggleFullscreened` of the old ones |
| ImageViewerModal.Viewer.ToggleLike | components/image-viewer-modal.tsx:118-120 | the flags become `ToggleLiked` of the old ones |
| Text.IncludesIffOccurs | components/image-card.tsx:58 | `includes` holds iff the term occurs at some position |
| Text.LowerIdempotent | components/image-card.tsx:58 | lowercasing twice is lowercasing once |
| Text.Lower | components/image-card.tsx:58 | `toLowerCase` on ASCII letters |
| Text.Includes | components/image-card.tsx:58 | `includes`; `IncludesIffOccurs` states it |
| Seqs.FilterIsSubsequence | components/image-preview-grid.tsx:130 | `filter` keeps elements in their order |
| Seqs.FilterSameTest | components/image-card.tsx:57-59 | filters with tests that agree on every element are equal |

## Delete handler

The members modelling the `DELETE` handler in `app/api/images/[id]/route.ts`, one per line with the lines they model:

- `ImageByIdRoute.Remove` — `app/api/images/[id]/route.ts:6-41`: the handler as a function of the stores and the replies; the lemmas below state its outcomes
- `ImageByIdRoute.RemoveKeepsWellFormed` — `app/api/images/[id]/route.ts:6-41`: whatever the replies, a delete keeps the stores well formed
- `ImageByIdRoute.RemoveMissing` — `app/api/images/[id]/route.ts:18-24`: deleting an `_id` without a record answers 404 "Image not found" and changes nothing
- `ImageByIdRoute.RemoveExisting` — `app/api/images/[id]/route.ts:26-36`: a successful delete removes exactly that record and its binary, and no later listing contains it
- `ImageByIdRoute.RemoveTwice` — `app/api/images/[id]/route.ts:18-36`: deleting the same `_id` twice: success, then 404 with nothing changed
- `ImageByIdRoute.RemoveLeavesDanglingRecord` — `app/api/images/[id]/route.ts:27-40`: if `deleteOne` fails after `destroy`, the record remains and points to a missing binary; 500
- `ImageByIdRoute.Delete` — `app/api/images/[id]/route.ts:6-41`: the handler on the stores moves them exactly as `Remove` says (400 invalid id, 500 lookup failure, 404, destroy, delete) and keeps them valid
- `Stores.FindRecord` — `app/api/images/[id]/route.ts:18-20`: `findOne` by `_id` finds a record with that `_id`, or reports that none has it
- `Stores.RemoveAtWellFormed` — `app/api/images/[id]/route.ts:30-32`: `deleteOne` keeps `_id`s unique and leaves no record with the deleted `_id`

## Left out

- Unicode lowercasing: `toLowerCase` is modelled on ASCII letters only.
- `Number.parseInt` of a non-numeric parameter (NaN) is not modelled. `page` and `limit` are a number, or missing or empty.
- Tie order among records with equal `createdAt`: the database leaves it unspecified and the model fixes one. For that reason the collection is a sequence, not a map.
- `createdAt` is an instant as a number. The ISO timestamp string and the clock are parameters.
- ObjectId parsing and validity: a path parameter is either a well-formed `_id` or `None`.
- The image bytes and the base64 decoding of a text entry are not modelled, nor are the upload stream and the object store's and database's clients. Their replies are parameters.
- ImagesRoute.CreateWithTextFile: the `details` text of the TypeError depends on the JavaScript runtime. The model uses one fixed message.
- Concurrency: requests, effects and renders happen one at a time in the order given. The multi-file upload handles the per-file outcomes in turn. `Promise.allSettled` and `Promise.all` wait for every request, so only the count of outcomes matters.
- The multi-file upload's outer `catch` (multi-image-upload.tsx:266-268) is unreachable, because every per-item error is caught. It is not modelled.
- The progress bar's floating-point percentage: only `completedFiles` and `totalFiles` are kept.
- `Date.now()`/`Math.random()` ids, `URL.createObjectURL` previews and the random height draws are parameters. Preview revocation is ghost bookkeeping of which object URLs are live.
- `window.location.reload()`, `onUploadComplete` and `onImageDeleted` are returned as booleans saying whether they were called.
- The IntersectionObserver's lifecycle: which element it watches and when it is disconnected. It is modelled only by whether the sentinel is visible when it fires.
- Touch coordinates are integers, not floating-point `clientX` values.
- Rendering, layout, theming, animations, the snackbar timer and the share/download buttons of the viewer.
- MultiImageUpload.NewItems: the entry keeps the picked file (name, type, size), which the spread `{...file}` loses. Only the corrected `FieldsFor` reads it; what is sent, `FieldsAsWritten`, does not.
- ImageUpload.QueuedItems: the entry keeps the picked file, which the spread loses. Only the corrected `FilePartFor` reads it; what is sent, `FilePartAsWritten`, does not.
- ImageViewerModal.Viewer.ListenerReinstalled: when the grid re-renders is left to the caller. A navigation that moves or a close re-renders it; a press of an arrow at either end does not.
- Display of a queued file's name and size in the upload forms.
- The delete dialog component, the older `image-modal`, the page components and `lib/theme.ts` are not part of this model. `lib/types.ts` is not part of this model: the record's fields follow the insert at app/api/images/route.ts:69-75.

## Findings

The component classes do what the code as written does: `Uploader.Upload` sends `FieldsAsWritten`, `LegacyUploader.Upload` sends `FilePartAsWritten` and `Viewer.KeyDown` follows `KeyEffect`, the listener with its captured flag. Beside each stands the evidently intended definition, with the intended property proved about it.

| source | as written | input that shows it | evidently intended | confidence | as-written member | corrected member |
|---|---|---|---|---|---|---|
| components/multi-image-upload.tsx:88-96,218-219 | queue entries are made with `{...file}`, which copies none of the `File` getters, so `file.name` is undefined: the blob goes out as "blob" and an untitled file is sent with an empty title | an untitled "cat.png" | send the file under its name and fall back to that name as title | not executed | MultiImageUpload.SpreadLosesFileName | MultiImageUpload.FieldsFor |
| components/image-upload.tsx:52-59,137 with app/api/images/route.ts:39-47 | the queue entry, a spread plain object, is appended as `file`; a form sends a non-Blob as the string "[object Object]"; the server calls `text()` on that string and throws, so every upload answers 500 | any queued file, e.g. "cat.png" with any title | append the selected `File` itself | not executed | ImageUpload.UploadAsWrittenNeverStores | ImageUpload.UploadOfFileStores |
| components/image-viewer-modal.tsx:67-86,114-116 | the key listener's effect omits `isFullscreen` from its dependencies, so "f" calls a `toggleFullscreen` that reads the flag of the render that installed the listener | press "f" twice from the normal view: the viewer stays full screen | "f" toggles the current flag | not executed | ImageViewerModal.StaleListenerPressedTwice | ImageViewerModal.KeyEffectWhenCurrent |
