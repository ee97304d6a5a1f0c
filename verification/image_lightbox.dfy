/**
 * The full-screen image viewer: the shown image's index and the zoom
 * factor, with wrap-around navigation. The zoom factor moves in steps of
 * 0.25 between 0.5 and 3, so it is kept exactly as a count of quarters.
 */
module ImageLightbox {
  import opened Wrappers

  const DefaultZoom := 4    // 1.0
  const MaxZoom := 12       // 3.0
  const MinZoom := 2        // 0.5

  /** `currentIndex || 0` */
  function StartIndex(currentIndex: Option<int>): (i: int)
    ensures currentIndex.Some? ==> i == currentIndex.value
    ensures currentIndex.None? ==> i == 0
  {
    match currentIndex
    case Some(i) => i
    case None => 0
  }

  /** The previous image, wrapping from the first to the last. */
  function PrevIndex(i: int, count: int): (j: int)
    ensures 0 < i < count ==> j == i - 1
    ensures i <= 0 ==> j == count - 1
  {
    if i > 0 then i - 1 else count - 1
  }

  /** The next image, wrapping from the last to the first. */
  function NextIndex(i: int, count: int): (j: int)
    ensures i < count - 1 ==> j == i + 1
    ensures i >= count - 1 ==> j == 0
  {
    if i < count - 1 then i + 1 else 0
  }

  /** `Math.min(prev + 0.25, 3)`: one quarter up, held at the cap. */
  function ZoomIn(z: int): (r: int)
    ensures z < MaxZoom ==> r == z + 1
    ensures z >= MaxZoom ==> r == MaxZoom
  {
    if z + 1 < MaxZoom then z + 1 else MaxZoom
  }

  /** `Math.max(prev - 0.25, 0.5)`: one quarter down, held at the floor. */
  function ZoomOut(z: int): (r: int)
    ensures z > MinZoom ==> r == z - 1
    ensures z <= MinZoom ==> r == MinZoom
  {
    if z - 1 > MinZoom then z - 1 else MinZoom
  }

  /** The zoom factor a count of quarters stands for. */
  function ZoomFactor(z: int): real {
    z as real / 4.0
  }

  /**
   * The zoom label, `Math.round(zoom * 100)` percent. `Math.round(x)` is
   * the floor of `x + 0.5`; on quarter steps it never has to round.
   */
  function ZoomPercent(z: int): (percent: int)
    ensures percent == (ZoomFactor(z) * 100.0 + 0.5).Floor
    ensures percent as real == ZoomFactor(z) * 100.0
    ensures z == DefaultZoom ==> percent == 100
    ensures MinZoom <= z <= MaxZoom ==> 50 <= percent <= 300
  {
    z * 25
  }

  /** Navigation stays on an existing image. */
  lemma NavigationInRange(i: int, count: int)
    requires 0 <= i < count
    ensures 0 <= PrevIndex(i, count) < count && 0 <= NextIndex(i, count) < count
  {
  }

  /** Previous undoes next, and next undoes previous. */
  lemma PrevNextInverse(i: int, count: int)
    requires 0 <= i < count
    ensures PrevIndex(NextIndex(i, count), count) == i
    ensures NextIndex(PrevIndex(i, count), count) == i
  {
  }

  /** `k` presses of the next arrow. */
  function NextTimes(i: int, count: int, k: nat): int {
    if k == 0 then i else NextIndex(NextTimes(i, count, k - 1), count)
  }

  /** Pressing next `k` times before the last image moves exactly `k` images forward. */
  lemma {:induction false} NextTimesAdvances(i: int, count: int, k: nat)
    requires 0 <= i && i + k < count
    ensures NextTimes(i, count, k) == i + k
  {
    if k > 0 {
      NextTimesAdvances(i, count, k - 1);
    }
  }

  /** Presses compose: `a` presses followed by `b` presses are `a + b` presses. */
  lemma {:induction false} NextTimesCompose(i: int, count: int, a: nat, b: nat)
    ensures NextTimes(i, count, a + b) == NextTimes(NextTimes(i, count, a), count, b)
  {
    if b > 0 {
      NextTimesCompose(i, count, a, b - 1);
      assert NextTimes(i, count, a + b) == NextIndex(NextTimes(i, count, a + b - 1), count);
    }
  }

  /** A full round of next presses comes back to the starting image. */
  lemma FullCycleReturns(i: int, count: int)
    requires 0 <= i < count
    ensures NextTimes(i, count, count) == i
  {
    var toLast := count - 1 - i;
    NextTimesAdvances(i, count, toLast);
    NextTimesCompose(i, count, toLast, 1);
    assert NextTimes(i, count, toLast + 1) == 0;
    NextTimesCompose(i, count, toLast + 1, i);
    NextTimesAdvances(0, count, i);
    assert toLast + 1 + i == count;
  }

  /** Zooming stays within 0.5 and 3, and a zoom-in is undone by a zoom-out below the cap. */
  lemma ZoomBounded(z: int)
    requires MinZoom <= z <= MaxZoom
    ensures MinZoom <= ZoomIn(z) <= MaxZoom && MinZoom <= ZoomOut(z) <= MaxZoom
    ensures z < MaxZoom ==> ZoomOut(ZoomIn(z)) == z
    ensures z > MinZoom ==> ZoomIn(ZoomOut(z)) == z
  {
  }

  /** The cap and the floor are fixed points, reached from 1.0 in eight and two steps. */
  lemma ZoomLimits()
    ensures ZoomIn(MaxZoom) == MaxZoom && ZoomOut(MinZoom) == MinZoom
    ensures ZoomIn(ZoomIn(ZoomIn(ZoomIn(ZoomIn(ZoomIn(ZoomIn(ZoomIn(DefaultZoom)))))))) == MaxZoom
    ensures ZoomOut(ZoomOut(DefaultZoom)) == MinZoom
    ensures ZoomPercent(MaxZoom) == 300 && ZoomPercent(MinZoom) == 50
  {
  }

  /** Which controls render for `count` images at zoom `z`: nothing at all without images. */
  datatype Controls = Controls(visible: bool, arrows: bool, resetButton: bool)

  function ControlsFor(count: int, z: int): (c: Controls)
    ensures c.visible <==> count > 0
    ensures c.arrows ==> c.visible
    ensures c.arrows <==> count > 1
    ensures c.resetButton <==> (count > 0 && z != DefaultZoom)
  {
    if count <= 0 then Controls(false, false, false)
    else Controls(true, count > 1, z != DefaultZoom)
  }

  datatype Key = Escape | ArrowLeft | ArrowRight | OtherKey

  class Lightbox {
    var index: int
    var zoom: int

    constructor (currentIndex: Option<int>)
      ensures index == StartIndex(currentIndex) && zoom == DefaultZoom
    {
      index := StartIndex(currentIndex);
      zoom := DefaultZoom;
    }

    /** The effect on a new `currentIndex` prop. */
    method SyncIndex(currentIndex: Option<int>)
      modifies this
      ensures index == StartIndex(currentIndex) && zoom == DefaultZoom
    {
      index := StartIndex(currentIndex);
      zoom := DefaultZoom;
    }

    method Prev(count: int)
      modifies this
      ensures index == PrevIndex(old(index), count) && zoom == DefaultZoom
    {
      index := if index > 0 then index - 1 else count - 1;
      zoom := DefaultZoom;
    }

    method Next(count: int)
      modifies this
      ensures index == NextIndex(old(index), count) && zoom == DefaultZoom
    {
      index := if index < count - 1 then index + 1 else 0;
      zoom := DefaultZoom;
    }

    method ZoomInStep()
      modifies this
      ensures zoom == ZoomIn(old(zoom)) && index == old(index)
    {
      zoom := if zoom + 1 < MaxZoom then zoom + 1 else MaxZoom;
    }

    method ZoomOutStep()
      modifies this
      ensures zoom == ZoomOut(old(zoom)) && index == old(index)
    {
      zoom := if zoom - 1 > MinZoom then zoom - 1 else MinZoom;
    }

    method ResetZoom()
      modifies this
      ensures zoom == DefaultZoom && index == old(index)
    {
      zoom := DefaultZoom;
    }

    /** The keyboard handler: Escape asks to close, the arrows navigate. */
    method HandleKey(key: Key, count: int) returns (close: bool)
      modifies this
      ensures close <==> key == Escape
      ensures key == ArrowLeft ==> index == PrevIndex(old(index), count) && zoom == DefaultZoom
      ensures key == ArrowRight ==> index == NextIndex(old(index), count) && zoom == DefaultZoom
      ensures key == Escape || key == OtherKey ==> index == old(index) && zoom == old(zoom)
    {
      close := false;
      match key
      case Escape => close := true;
      case ArrowLeft => Prev(count);
      case ArrowRight => Next(count);
      case OtherKey =>
    }
  }
}
