/** The full-screen image viewer (src/components/messages/ImageViewerModal.js). */
module ImageViewerModal {
  import opened Wrappers
  import opened Documents

  /** `handleNext`'s update: one forward, back to 0 after the last image. */
  function NextIndex(i: int, n: int): (r: int)
    ensures 0 <= i < n ==> 0 <= r < n
  {
    if i < n - 1 then i + 1 else 0
  }

  /** `handlePrevious`'s update: one back, around to the last image before the first. */
  function PrevIndex(i: int, n: int): (r: int)
    ensures 0 <= i < n ==> 0 <= r < n
  {
    if i > 0 then i - 1 else n - 1
  }

  /** `Crashed` is the render that reads `url` of a missing image when the index lies outside the list. */
  datatype ModalView = Closed | Open(current: Attachment, counter: Option<int>, arrows: bool) | Crashed

  /** What a key press does while the listener is installed. */
  datatype KeyOutcome = CloseRequested | Moved | Ignored | Raised

  class ImageViewerModal {
    var currentIndex: int
    var isOpen: bool
    var images: Option<seq<Attachment>>

    constructor (isOpen: bool, images: Option<seq<Attachment>>, initialIndex: int)
      ensures this.isOpen == isOpen && this.images == images && currentIndex == initialIndex
    {
      this.isOpen := isOpen;
      this.images := images;
      currentIndex := initialIndex;
    }

    /** The effect on a new `initialIndex`. */
    method InitialIndexChanged(initialIndex: int)
      modifies this`currentIndex
      ensures currentIndex == initialIndex
    {
      currentIndex := initialIndex;
    }

    /** The parent passes a new `images` array; the index is kept as it is. */
    method ImagesChanged(imgs: Option<seq<Attachment>>)
      modifies this`images
      ensures images == imgs
    {
      images := imgs;
    }

    /** Nothing renders while closed or without images; the counter and arrows only for several images. */
    function View(): (v: ModalView)
      reads this
      ensures v.Closed? <==> !isOpen || images.None? || |images.value| == 0
      ensures v.Crashed? <==> isOpen && images.Some? && |images.value| > 0 && !(0 <= currentIndex < |images.value|)
      ensures v.Open? ==> 0 <= currentIndex < |images.value| && v.current == images.value[currentIndex] && (v.arrows <==> |images.value| > 1)
      ensures v.Open? ==> v.counter == if |images.value| > 1 then Some(currentIndex + 1) else None
    {
      if !isOpen || images.None? || |images.value| == 0 then Closed
      else if !(0 <= currentIndex < |images.value|) then Crashed
      else
        var n := |images.value|;
        Open(images.value[currentIndex], if n > 1 then Some(currentIndex + 1) else None, n > 1)
    }

    method HandleNext()
      requires images.Some?
      modifies this`currentIndex
      ensures currentIndex == NextIndex(old(currentIndex), |images.value|)
    {
      currentIndex := if currentIndex < |images.value| - 1 then currentIndex + 1 else 0;
    }

    method HandlePrevious()
      requires images.Some?
      modifies this`currentIndex
      ensures currentIndex == PrevIndex(old(currentIndex), |images.value|)
    {
      currentIndex := if currentIndex > 0 then currentIndex - 1 else |images.value| - 1;
    }

    /**
     * The `keydown` listener, installed only while open: Escape asks to close, the arrows move;
     * an arrow without an `images` array raises when the update reads its length.
     */
    method KeyDown(key: string) returns (outcome: KeyOutcome)
      modifies this`currentIndex
      ensures !isOpen ==> outcome == Ignored && currentIndex == old(currentIndex)
      ensures isOpen && key == "Escape" ==> outcome == CloseRequested && currentIndex == old(currentIndex)
      ensures isOpen && (key == "ArrowLeft" || key == "ArrowRight") && images.None? ==> outcome == Raised && currentIndex == old(currentIndex)
      ensures isOpen && key == "ArrowLeft" && images.Some? ==> outcome == Moved && currentIndex == PrevIndex(old(currentIndex), |images.value|)
      ensures isOpen && key == "ArrowRight" && images.Some? ==> outcome == Moved && currentIndex == NextIndex(old(currentIndex), |images.value|)
      ensures isOpen && key != "Escape" && key != "ArrowLeft" && key != "ArrowRight" ==> outcome == Ignored && currentIndex == old(currentIndex)
    {
      if !isOpen {
        return Ignored;
      }
      if key == "Escape" {
        outcome := CloseRequested;
      } else if key == "ArrowLeft" || key == "ArrowRight" {
        if images.None? {
          return Raised;
        }
        if key == "ArrowLeft" {
          HandlePrevious();
        } else {
          HandleNext();
        }
        outcome := Moved;
      } else {
        outcome := Ignored;
      }
    }
  }

  /** The crash is reachable: viewing the second of two images when the parent drops to one image. */
  method ShrinkPastIndexCrashes(a: Attachment, b: Attachment) returns (v: ModalView)
    ensures v == Crashed
  {
    var viewer := new ImageViewerModal(true, Some([a, b]), 1);
    viewer.ImagesChanged(Some([a]));
    v := viewer.View();
  }

  // ----- Properties -----

  /** Next and previous undo each other and keep the index among the images. */
  lemma NextPrevAreInverse(i: int, n: int)
    requires 0 <= i < n
    ensures 0 <= NextIndex(i, n) < n && 0 <= PrevIndex(i, n) < n
    ensures PrevIndex(NextIndex(i, n), n) == i && NextIndex(PrevIndex(i, n), n) == i
  {
  }

  /** Next from the last image wraps to the first, previous from the first wraps to the last. */
  lemma EndsWrapAround(n: int)
    requires n > 0
    ensures NextIndex(n - 1, n) == 0 && PrevIndex(0, n) == n - 1
  {
  }
}
