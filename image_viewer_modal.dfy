/**
 * The full-screen viewer opened from the preview grid: shows the image at
 * `currentIndex`, steps through the list by arrows, keys and swipes, and
 * keeps a few display flags of its own.
 */
module ImageViewerModal {
  import opened Types
  import ImagePreviewGrid
  import ImageGallery

  // ---------------------------------------------------------------------------
  // What is shown

  /** `images[currentIndex]`: `undefined` (nothing is rendered) outside the list. */
  function ImageAt(images: seq<ImageRecord>, currentIndex: int): (r: Option<ImageRecord>)
    ensures r.Some? <==> 0 <= currentIndex < |images|
    ensures r.Some? ==> r.value == images[currentIndex]
  {
    if 0 <= currentIndex < |images| then Some(images[currentIndex]) else None
  }

  /** The header title, `image.title || \`Image ${currentIndex + 1}\``, the same rule as the older grid's card caption. */
  function HeaderTitle(image: ImageRecord, currentIndex: nat): ImageGallery.CardCaption
  {
    ImageGallery.Caption(image, currentIndex)
  }

  /** The position chip, `${currentIndex + 1} / ${images.length}`. */
  function Counter(currentIndex: nat, len: nat): string
  {
    NatToString(currentIndex + 1) + " / " + NatToString(len)
  }

  predicate ShowPrevArrow(currentIndex: int)
  {
    currentIndex > 0
  }

  predicate ShowNextArrow(currentIndex: int, len: nat)
  {
    currentIndex < len - 1
  }

  /**
   * An arrow is shown exactly when pressing it moves the selection in the
   * grid's `handleNavigateImage`; at either end of the list it is hidden.
   */
  lemma ArrowsMatchNavigation(currentIndex: int, len: nat)
    requires 0 <= currentIndex < len
    ensures ShowPrevArrow(currentIndex) <==> ImagePreviewGrid.Navigate(Some(currentIndex), Prev, len) != Some(currentIndex)
    ensures ShowNextArrow(currentIndex, len) <==> ImagePreviewGrid.Navigate(Some(currentIndex), Next, len) != Some(currentIndex)
    ensures len == 1 ==> !ShowPrevArrow(currentIndex) && !ShowNextArrow(currentIndex, len)
  {
  }

  // ---------------------------------------------------------------------------
  // Gestures and keys

  /** A swipe moves only when the finger travels more than this many pixels. */
  const SwipeThreshold: int := 50

  /** `handleTouchEnd`: a leftward swipe shows the next image, a rightward one the previous. */
  function Swipe(touchStart: Option<int>, touchEnd: int): (r: Option<Direction>)
    ensures r.Some? <==> touchStart.Some? && (touchStart.value - touchEnd > SwipeThreshold || touchEnd - touchStart.value > SwipeThreshold)
    ensures r == Some(Next) <==> touchStart.Some? && touchStart.value - touchEnd > SwipeThreshold
  {
    match touchStart
    case None => None
    case Some(start) =>
      var diff := start - touchEnd;
      if (if diff < 0 then -diff else diff) > SwipeThreshold then
        if diff > 0 then Some(Next) else Some(Prev)
      else None
  }

  function Opposite(d: Direction): Direction
  {
    if d == Next then Prev else Next
  }

  /** Reversing a gesture reverses its effect, and a move of exactly 50 pixels does nothing. */
  lemma SwipeIsSymmetric(start: int, end: int)
    ensures Swipe(Some(start), end).Some? ==> Swipe(Some(end), start) == Some(Opposite(Swipe(Some(start), end).value))
    ensures Swipe(Some(start), end).None? ==> Swipe(Some(end), start).None?
    ensures Swipe(Some(start), start + SwipeThreshold) == None && Swipe(Some(start), start + SwipeThreshold + 1) == Some(Prev)
  {
  }

  /** What a key press asks for. */
  datatype KeyAction = NoAction | Go(dir: Direction) | Close | FlipFullscreen | FlipInfo

  /** `handleKeyDown`: nothing while the viewer is closed; otherwise the five keys it knows. */
  function KeyActionFor(open: bool, key: string): (a: KeyAction)
    ensures !open ==> a == NoAction
    ensures a == Go(Prev) <==> open && key == "ArrowLeft"
    ensures a == Go(Next) <==> open && key == "ArrowRight"
    ensures a == Close <==> open && key == "Escape"
    ensures a == FlipFullscreen <==> open && key == "f"
    ensures a == FlipInfo <==> open && key == "i"
  {
    if !open then NoAction
    else if key == "ArrowLeft" then Go(Prev)
    else if key == "ArrowRight" then Go(Next)
    else if key == "Escape" then Close
    else if key == "f" then FlipFullscreen
    else if key == "i" then FlipInfo
    else NoAction
  }

  // ---------------------------------------------------------------------------
  // The viewer's own flags

  datatype Flags = Flags(showInfo: bool, isFullscreen: bool, isLiked: bool)

  /** `toggleFullscreen`, `setShowInfo(!showInfo)` and `toggleLike`: each flips one flag. */
  function ToggleFullscreened(f: Flags): (g: Flags)
    ensures g.isFullscreen != f.isFullscreen && g.showInfo == f.showInfo && g.isLiked == f.isLiked
  {
    f.(isFullscreen := !f.isFullscreen)
  }

  function ToggleInfo(f: Flags): (g: Flags)
    ensures g.showInfo != f.showInfo && g.isFullscreen == f.isFullscreen && g.isLiked == f.isLiked
  {
    f.(showInfo := !f.showInfo)
  }

  function ToggleLiked(f: Flags): (g: Flags)
    ensures g.isLiked != f.isLiked && g.showInfo == f.showInfo && g.isFullscreen == f.isFullscreen
  {
    f.(isLiked := !f.isLiked)
  }

  /** The effect on a new `currentIndex`: the info panel and the like are cleared. */
  function ResetForIndex(f: Flags): (g: Flags)
    ensures !g.showInfo && !g.isLiked && g.isFullscreen == f.isFullscreen
  {
    f.(showInfo := false, isLiked := false)
  }

  /** The change a key press makes to the flags, `toggleFullscreen` reading the current `isFullscreen`. */
  function AfterKey(f: Flags, a: KeyAction): (g: Flags)
    ensures a == FlipFullscreen ==> g.isFullscreen != f.isFullscreen && g.showInfo == f.showInfo
    ensures a == FlipInfo ==> g.showInfo != f.showInfo && g.isFullscreen == f.isFullscreen
    ensures g.isLiked == f.isLiked
    ensures !a.FlipFullscreen? && !a.FlipInfo? ==> g == f
  {
    match a
    case FlipFullscreen => ToggleFullscreened(f)
    case FlipInfo => ToggleInfo(f)
    case _ => f
  }

  /**
   * Every toggle, by button or by key, is undone by repeating it; the
   * reset is idempotent.
   */
  lemma TogglesAreInvolutions(f: Flags)
    ensures ToggleFullscreened(ToggleFullscreened(f)) == f
    ensures ToggleInfo(ToggleInfo(f)) == f
    ensures ToggleLiked(ToggleLiked(f)) == f
    ensures AfterKey(AfterKey(f, FlipFullscreen), FlipFullscreen) == f
    ensures AfterKey(AfterKey(f, FlipInfo), FlipInfo) == f
    ensures ResetForIndex(ResetForIndex(f)) == ResetForIndex(f)
  {
  }

  /**
   * The flags together with the `isFullscreen` seen by the key listener now
   * installed (`captured`). The listener is installed again only after a
   * render in which `open`, `onNavigate`, `onClose` or `showInfo` changed,
   * so the `toggleFullscreen` it calls reads the flag of the render that
   * installed it, not the current one.
   */
  datatype Listening = Listening(flags: Flags, captured: bool)

  /**
   * A key press as the listener is written: "f" sets full screen to the
   * negation of the captured flag; "i" flips `showInfo`, which installs the
   * listener again with the current flag; other keys change no flag.
   */
  function KeyEffect(s: Listening, a: KeyAction): (t: Listening)
    ensures t.flags.isLiked == s.flags.isLiked
    ensures a == FlipFullscreen ==> t.flags.isFullscreen == !s.captured && t.flags.showInfo == s.flags.showInfo && t.captured == s.captured
    ensures a == FlipInfo ==> t.flags == ToggleInfo(s.flags) && t.captured == t.flags.isFullscreen
    ensures !a.FlipFullscreen? && !a.FlipInfo? ==> t == s
  {
    match a
    case FlipFullscreen => s.(flags := s.flags.(isFullscreen := !s.captured))
    case FlipInfo => Listening(ToggleInfo(s.flags), s.flags.isFullscreen)
    case _ => s
  }

  /** While the installed listener saw the current flag, a key press does what `AfterKey` says. */
  lemma KeyEffectWhenCurrent(s: Listening, a: KeyAction)
    requires s.captured == s.flags.isFullscreen
    ensures KeyEffect(s, a).flags == AfterKey(s.flags, a)
  {
  }

  /**
   * With the listener as written, pressing "f" twice from the normal view
   * leaves the viewer full screen, where reading the current flag returns
   * to the normal view; and after the full-screen button was clicked,
   * "f" does not leave full screen.
   */
  lemma StaleListenerPressedTwice()
    ensures var start := Listening(Flags(false, false, false), false);
      KeyEffect(KeyEffect(start, FlipFullscreen), FlipFullscreen).flags.isFullscreen
    ensures !AfterKey(AfterKey(Flags(false, false, false), FlipFullscreen), FlipFullscreen).isFullscreen
    ensures var clicked := Listening(ToggleFullscreened(Flags(false, false, false)), false);
      KeyEffect(clicked, FlipFullscreen).flags.isFullscreen
  {
  }

  class Viewer {
    var showInfo: bool
    var isFullscreen: bool
    var isLiked: bool
    var touchStart: Option<int>
    var captured: bool  // the `isFullscreen` of the render that installed the key listener

    constructor ()
      ensures Listener() == Listening(Flags(false, false, false), false) && touchStart == None
    {
      showInfo, isFullscreen, isLiked, touchStart, captured := false, false, false, None, false;
    }

    function State(): Flags
      reads this
    {
      Flags(showInfo, isFullscreen, isLiked)
    }

    function Listener(): Listening
      reads this
    {
      Listening(State(), captured)
    }

    /**
     * The reset effect, run when `currentIndex` changes. A new index comes
     * with a new render of the grid and so new `onNavigate` and `onClose`
     * callbacks, which install the listener again.
     */
    method IndexChanged()
      modifies this`showInfo, this`isLiked, this`captured
      ensures State() == ResetForIndex(old(State()))
      ensures captured == isFullscreen
    {
      showInfo := false;
      isLiked := false;
      captured := isFullscreen;
    }

    /**
     * The listener is installed again after a render in which `open`,
     * `onNavigate` or `onClose` changed (the grid re-rendered).
     */
    method ListenerReinstalled()
      modifies this`captured
      ensures captured == isFullscreen
    {
      captured := isFullscreen;
    }

    /**
     * A key press, handled by the listener installed. Returns the
     * `onNavigate` call made, if any, and whether `onClose` was called.
     */
    method KeyDown(open: bool, key: string) returns (navigate: Option<Direction>, closed: bool)
      modifies this`showInfo, this`isFullscreen, this`captured
      ensures Listener() == KeyEffect(old(Listener()), KeyActionFor(open, key))
      ensures navigate.Some? <==> KeyActionFor(open, key).Go?
      ensures navigate.Some? ==> navigate.value == KeyActionFor(open, key).dir
      ensures closed <==> KeyActionFor(open, key) == Close
    {
      navigate, closed := None, false;
      var action := KeyActionFor(open, key);
      match action {
        case NoAction =>
        case Go(dir) => navigate := Some(dir);
        case Close => closed := true;
        case FlipFullscreen => isFullscreen := !captured;
        case FlipInfo =>
          showInfo := !showInfo;
          captured := isFullscreen;
      }
    }

    /** `handleTouchStart`. */
    method TouchStart(x: int)
      modifies this`touchStart
      ensures touchStart == Some(x)
    {
      touchStart := Some(x);
    }

    /** `handleTouchEnd`: returns the `onNavigate` call made, if any; the start is forgotten. */
    method TouchEnd(x: int) returns (navigate: Option<Direction>)
      modifies this`touchStart
      ensures navigate == Swipe(old(touchStart), x)
      ensures touchStart == None
    {
      if touchStart.None? {
        return None;
      }
      var diff := touchStart.value - x;
      navigate := None;
      if (if diff < 0 then -diff else diff) > SwipeThreshold {
        navigate := if diff > 0 then Some(Next) else Some(Prev);
      }
      touchStart := None;
    }

    /** The info button: flips `showInfo`, which installs the listener again. */
    method InfoClick()
      modifies this`showInfo, this`captured
      ensures State() == ToggleInfo(old(State()))
      ensures captured == isFullscreen
    {
      showInfo := !showInfo;
      captured := isFullscreen;
    }

    /**
     * The full-screen button, `toggleFullscreen` of the current render. No
     * dependency of the key listener changes, so it keeps its captured flag.
     */
    method ToggleFullscreen()
      modifies this`isFullscreen
      ensures State() == ToggleFullscreened(old(State()))
    {
      isFullscreen := !isFullscreen;
    }

    /** `toggleLike`. */
    method ToggleLike()
      modifies this`isLiked
      ensures State() == ToggleLiked(old(State()))
    {
      isLiked := !isLiked;
    }
  }
}
