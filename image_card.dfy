/**
 * The masonry body of the preview grid: a title search over the loaded
 * images, a random height per image kept across renders, and the title
 * shown on each tile.
 */
module ImageCard {
  import opened Types
  import opened Text
  import opened Seqs

  // ---------------------------------------------------------------------------
  // Search

  /** `(image.title || "").toLowerCase().includes(searchTerm.toLowerCase())`; a missing title is the empty string. */
  predicate TitleMatches(image: ImageRecord, term: string)
  {
    Includes(Lower(image.title), Lower(term))
  }

  /** `filteredImages`. */
  function FilterByTitle(images: seq<ImageRecord>, term: string): seq<ImageRecord>
  {
    Filter((image: ImageRecord) => TitleMatches(image, term), images)
  }

  /**
   * The filtered list holds exactly the images whose lowercased title
   * contains the lowercased term somewhere, in their original order, and
   * is never longer than the list; the count badge shows its length.
   */
  lemma FilterByTitleMeaning(images: seq<ImageRecord>, term: string)
    ensures IsSubsequence(FilterByTitle(images, term), images)
    ensures |FilterByTitle(images, term)| <= |images|
    ensures forall image :: image in FilterByTitle(images, term) <==>
      image in images && exists i :: OccursAt(Lower(term), Lower(image.title), i)
  {
    FilterIsSubsequence((image: ImageRecord) => TitleMatches(image, term), images);
    forall image: ImageRecord
      ensures TitleMatches(image, term) <==> exists i :: OccursAt(Lower(term), Lower(image.title), i)
    {
      IncludesIffOccurs(Lower(image.title), Lower(term));
    }
  }

  /** An empty search shows every image. */
  lemma EmptySearchShowsAll(images: seq<ImageRecord>)
    ensures FilterByTitle(images, "") == images
  {
    forall image: ImageRecord ensures TitleMatches(image, "") {
      IncludesEmpty(Lower(image.title));
    }
    FilterAll((image: ImageRecord) => TitleMatches(image, ""), images);
  }

  /** The search ignores the case of the term: lowercasing it first changes nothing. */
  lemma SearchIgnoresCase(images: seq<ImageRecord>, term: string)
    ensures FilterByTitle(images, Lower(term)) == FilterByTitle(images, term)
  {
    LowerIdempotent(term);
    FilterSameTest((image: ImageRecord) => TitleMatches(image, Lower(term)), (image: ImageRecord) => TitleMatches(image, term), images);
  }

  // ---------------------------------------------------------------------------
  // Positions and titles

  /** `images.findIndex((img) => img._id === id)`: the first position with that `_id`, or -1. */
  function FindIndex(images: seq<ImageRecord>, id: Id): (r: int)
    ensures -1 <= r < |images|
    ensures r == -1 <==> forall i :: 0 <= i < |images| ==> images[i].id != id
    ensures r >= 0 ==> images[r].id == id && forall i :: 0 <= i < r ==> images[i].id != id
  {
    if images == [] then -1
    else if images[0].id == id then 0
    else var k := FindIndex(images[1..], id); if k == -1 then -1 else k + 1
  }

  /**
   * Every tile of the filtered list finds its own position in the full
   * list (`originalIndex`); with unique `_id`s that position holds exactly
   * the tile's image, so the viewer opens on the image clicked.
   */
  lemma OriginalIndexOfTile(images: seq<ImageRecord>, term: string, image: ImageRecord)
    requires image in FilterByTitle(images, term)
    ensures 0 <= FindIndex(images, image.id) < |images|
    ensures UniqueIds(images) ==> images[FindIndex(images, image.id)] == image
  {
    FilterByTitleMeaning(images, term);
    var j :| 0 <= j < |images| && images[j] == image;
    assert FindIndex(images, image.id) != -1;
  }

  /** The title on a tile: the record's title, or `Photo n` with `n` the image's position plus one. */
  datatype TileTitle = Titled(title: string) | Photo(n: int)

  /** `image.title && image.title !== "Untitled" ? image.title : \`Photo ${originalIndex + 1}\``. */
  function DisplayTitle(image: ImageRecord, originalIndex: int): (t: TileTitle)
    ensures t.Titled? <==> image.title != "" && image.title != "Untitled"
    ensures t.Titled? ==> t.title == image.title
    ensures t.Photo? ==> t.n == originalIndex + 1
  {
    if image.title != "" && image.title != "Untitled" then Titled(image.title) else Photo(originalIndex + 1)
  }

  /** No tile shows "Untitled" or an empty title, and a numbered tile counts from one. */
  lemma TileTitleIsNeverPlaceholder(images: seq<ImageRecord>, term: string, image: ImageRecord)
    requires image in FilterByTitle(images, term)
    ensures var t := DisplayTitle(image, FindIndex(images, image.id));
      (t.Titled? ==> t.title != "" && t.title != "Untitled") && (t.Photo? ==> 1 <= t.n <= |images|)
  {
    OriginalIndexOfTile(images, term, image);
  }

  // ---------------------------------------------------------------------------
  // Tile heights

  /** `getRandomHeight`: one of four heights, chosen by a random draw `k < 4`. */
  function RandomHeight(k: nat): (h: nat)
    requires k < 4
    ensures h in {200, 240, 280, 320}
  {
    [200, 240, 280, 320][k]
  }

  /** A tile without a height (missing, or falsy 0) gets one; `|| 240` on render. */
  predicate NeedsHeight(heights: map<Id, nat>, id: Id)
  {
    id !in heights || heights[id] == 0
  }

  function RenderHeight(heights: map<Id, nat>, id: Id): (h: nat)
    ensures h > 0
    ensures !NeedsHeight(heights, id) ==> h == heights[id]
  {
    if NeedsHeight(heights, id) then 240 else heights[id]
  }

  /** The random draws are each below 4. */
  predicate ValidDraws(draws: seq<nat>)
  {
    forall i :: 0 <= i < |draws| ==> draws[i] < 4
  }

  /** The heights the effect computes for the images without one, the draw `draws[i]` being used for `images[i]`. */
  function NewHeights(images: seq<ImageRecord>, heights: map<Id, nat>, draws: seq<nat>): map<Id, nat>
    requires |draws| == |images| && ValidDraws(draws)
  {
    if images == [] then map[]
    else
      var n := |images| - 1;
      var earlier := NewHeights(images[..n], heights, draws[..n]);
      if NeedsHeight(heights, images[n].id) then earlier[images[n].id := RandomHeight(draws[n])] else earlier
  }

  /** The effect adds a height exactly for the loaded images that need one, each one of the four heights. */
  lemma {:induction false} NewHeightsMeaning(images: seq<ImageRecord>, heights: map<Id, nat>, draws: seq<nat>)
    requires |draws| == |images| && ValidDraws(draws)
    ensures forall id :: id in NewHeights(images, heights, draws) <==> id in IdsOf(images) && NeedsHeight(heights, id)
    ensures forall id :: id in NewHeights(images, heights, draws) ==> NewHeights(images, heights, draws)[id] in {200, 240, 280, 320}
  {
    if images != [] {
      var n := |images| - 1;
      NewHeightsMeaning(images[..n], heights, draws[..n]);
      assert IdsOf(images) == IdsOf(images[..n]) + {images[n].id};
    }
  }

  /**
   * After the heights are merged in, every loaded image has a height, the
   * heights already set are kept, and running the effect again adds
   * nothing (so it does not update the state again).
   */
  lemma FillKeepsAndCompletes(images: seq<ImageRecord>, heights: map<Id, nat>, draws: seq<nat>, again: seq<nat>)
    requires |draws| == |images| && ValidDraws(draws)
    requires |again| == |images| && ValidDraws(again)
    ensures var filled := heights + NewHeights(images, heights, draws);
      && (forall id :: id in heights && !NeedsHeight(heights, id) ==> id in filled && filled[id] == heights[id])
      && (forall i :: 0 <= i < |images| ==> !NeedsHeight(filled, images[i].id))
      && NewHeights(images, filled, again) == map[]
  {
    var filled := heights + NewHeights(images, heights, draws);
    var added := NewHeights(images, filled, again);
    NewHeightsMeaning(images, heights, draws);
    NewHeightsMeaning(images, filled, again);
    forall i | 0 <= i < |images| ensures !NeedsHeight(filled, images[i].id) {
      assert images[i].id in IdsOf(images);
    }
    assert added.Keys == {};
  }

  /** One more image: its height is added when it needs one. */
  lemma NewHeightsStep(images: seq<ImageRecord>, heights: map<Id, nat>, draws: seq<nat>, i: nat)
    requires |draws| == |images| && ValidDraws(draws) && i < |images|
    ensures NewHeights(images[..i + 1], heights, draws[..i + 1])
         == if NeedsHeight(heights, images[i].id)
            then NewHeights(images[..i], heights, draws[..i])[images[i].id := RandomHeight(draws[i])]
            else NewHeights(images[..i], heights, draws[..i])
  {
    assert images[..i + 1][..i] == images[..i] && draws[..i + 1][..i] == draws[..i];
  }

  class Tiles {
    var heights: map<Id, nat>  // `imageHeights`
    var searchTerm: string

    constructor ()
      ensures heights == map[] && searchTerm == ""
    {
      heights, searchTerm := map[], "";
    }

    /** The tiles shown. */
    function Filtered(images: seq<ImageRecord>): seq<ImageRecord>
      reads this
    {
      FilterByTitle(images, searchTerm)
    }

    /** `handleSearchChange`. */
    method SearchChange(value: string)
      modifies this`searchTerm
      ensures searchTerm == value
    {
      searchTerm := value;
    }

    /** `clearSearch`: afterwards every loaded image is shown. */
    method ClearSearch(images: seq<ImageRecord>)
      modifies this`searchTerm
      ensures searchTerm == ""
      ensures Filtered(images) == images
    {
      searchTerm := "";
      EmptySearchShowsAll(images);
    }

    /**
     * The height effect: give each loaded image without a height a random
     * one, and update the map only when something was added.
     */
    method FillHeights(images: seq<ImageRecord>, draws: seq<nat>)
      requires |draws| == |images| && ValidDraws(draws)
      modifies this`heights
      ensures heights == old(heights) + NewHeights(images, old(heights), draws)
    {
      var current := heights;
      var added: map<Id, nat> := map[];
      var i := 0;
      while i < |images|
        invariant 0 <= i <= |images|
        invariant added == NewHeights(images[..i], current, draws[..i]) && heights == current
      {
        NewHeightsStep(images, current, draws, i);
        if NeedsHeight(current, images[i].id) {
          added := added[images[i].id := RandomHeight(draws[i])];
        }
        i := i + 1;
      }
      assert images[..i] == images && draws[..i] == draws;
      if |added| > 0 {
        heights := current + added;
      } else {
        assert added == map[];
        assert current + added == current;
      }
    }
  }
}
