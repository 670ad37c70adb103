/**
 * The photo view's module-level `state` record and its slideshow: one image element whose
 * source cycles through the bundled images on a single interval timer.
 *
 * Timers are handles: `armed` is the set of intervals the browser would still fire, and a
 * tick is an input event for one of them. The image list is what the build-time glob found.
 */
module Photo {
  import opened Wrappers
  import Decimal

  const DEFAULT_INTERVAL_SEC := 30

  /** `String(window.PHOTO_INTERVAL_SEC)`; an unset setting reads as "undefined". */
  function SettingText(setting: Option<string>): string {
    if setting.Some? then setting.value else "undefined"
  }

  /** `(parseInt(window.PHOTO_INTERVAL_SEC, 10) || 30) * 1000`: NaN and 0 fall back to 30 seconds. */
  function IntervalMs(setting: Option<string>): (ms: int)
    ensures ms != 0 && ms % 1000 == 0
    ensures setting.None? ==> ms == DEFAULT_INTERVAL_SEC * 1000
    ensures Decimal.ParseInt(SettingText(setting)).None? ==> ms == DEFAULT_INTERVAL_SEC * 1000
    ensures Decimal.ParseInt(SettingText(setting)) == Some(0) ==> ms == DEFAULT_INTERVAL_SEC * 1000
    ensures Decimal.ParseInt(SettingText(setting)).Some? && Decimal.ParseInt(SettingText(setting)).value != 0 ==>
      ms == Decimal.ParseInt(SettingText(setting)).value * 1000
  {
    var seconds := Decimal.ParseInt(SettingText(setting));
    if seconds.None? || seconds.value == 0 then DEFAULT_INTERVAL_SEC * 1000 else seconds.value * 1000
  }

  /** A setting written as a non-zero integer gives that many seconds. */
  lemma IntervalOfDecimal(n: int)
    requires n != 0
    ensures IntervalMs(Some(Decimal.ToDecimal(n))) == n * 1000
  {
    Decimal.ParseIntToDecimal(n);
  }

  /**
   * A setting that reads as zero falls back to 30 seconds, whatever whitespace precedes the
   * "0" and whatever non-digit text follows it (" 0", "0x", "0.5 s").
   */
  lemma IntervalOfZero(ws: string, tail: string)
    requires forall i :: 0 <= i < |ws| ==> Decimal.IsJsWhitespace(ws[i])
    requires tail == [] || !Decimal.IsDigit(tail[0])
    ensures IntervalMs(Some(ws + "0" + tail)) == DEFAULT_INTERVAL_SEC * 1000
  {
    Decimal.ParseIntReadsDecimal(ws, 0, tail);
    assert Decimal.ToDecimal(0) == "0";
  }

  /** The interval step of the slideshow: `show(state.idx + 1)`, which wraps with `% imgs.length`. */
  function NextIndex(idx: nat, count: nat): (r: nat)
    requires count > 0
    ensures r < count
    ensures idx + 1 < count ==> r == idx + 1
    ensures idx + 1 == count ==> r == 0
  {
    (idx + 1) % count
  }

  /** The index after `k` interval steps from a fresh start at image 0. */
  function IndexAfter(k: nat, count: nat): nat
    requires count > 0
  {
    if k == 0 then 0 else NextIndex(IndexAfter(k - 1, count), count)
  }

  /** In the first round the slideshow shows the images in order: image `j` after `j` steps. */
  lemma {:induction false} FirstRoundInOrder(j: nat, count: nat)
    requires j < count
    ensures IndexAfter(j, count) == j
  {
    if j > 0 {
      FirstRoundInOrder(j - 1, count);
    }
  }

  /** The slideshow is periodic: `count` steps later it shows the same image again. */
  lemma {:induction false} IndexAfterPeriodic(k: nat, count: nat)
    requires count > 0
    ensures IndexAfter(k + count, count) == IndexAfter(k, count)
  {
    if k == 0 {
      FirstRoundInOrder(count - 1, count);
    } else {
      IndexAfterPeriodic(k - 1, count);
      assert k + count - 1 == (k - 1) + count;
    }
  }

  type Image = string

  class Slideshow {
    /** The images the glob found, in the order `Object.values` gives them. */
    const images: seq<Image>
    const intervalMs: int
    /** `state.root !== null`, and whether it is displayed. */
    var root: bool
    var rootShown: bool
    /** `state.img !== null`, and its `src`. */
    var img: bool
    var src: Option<Image>
    var timer: Option<nat>
    var idx: nat
    /** The interval handles the browser would still fire. */
    var armed: set<nat>
    /** The handle the next `setInterval` returns (handles are positive). */
    var nextHandle: nat

    /**
     * At most one timer exists and it is the one in `state.timer`; the index stays in range;
     * a running timer has an image element and images to show.
     */
    ghost predicate Valid()
      reads this
    {
      && armed == (if timer.Some? then {timer.value} else {})
      && nextHandle > 0
      && (timer.Some? ==> 0 < timer.value < nextHandle && img && images != [])
      && (images != [] ==> idx < |images|)
      && (images == [] ==> idx == 0)
    }

    /** The module just evaluated: nothing built, no timer, index 0. */
    constructor (images: seq<Image>, setting: Option<string>)
      ensures Valid()
      ensures this.images == images && intervalMs == IntervalMs(setting)
      ensures !root && !rootShown && !img && src.None? && timer.None? && idx == 0 && armed == {}
    {
      this.images := images;
      intervalMs := IntervalMs(setting);
      root, rootShown, img, src := false, false, false, None;
      timer, idx := None, 0;
      armed, nextHandle := {}, 1;
    }

    /** `stop()`: clear the interval if there is one. */
    method Stop()
      requires Valid()
      modifies this`timer, this`armed
      ensures Valid()
      ensures timer.None? && armed == {}
    {
      if timer.Some? {
        armed := armed - {timer.value};
        timer := None;
      }
    }

    /**
     * `start()`: without an image element or without images nothing happens. Otherwise show
     * image 0, cancel any prior timer, and arm a fresh one, so exactly one timer runs.
     */
    method Start()
      requires Valid()
      modifies this`timer, this`armed, this`nextHandle, this`idx, this`src
      ensures Valid()
      ensures !old(img) || images == [] ==> unchanged(this)
      ensures old(img) && images != [] ==>
        && idx == 0 && src == Some(images[0])
        && timer == Some(old(nextHandle)) && armed == {old(nextHandle)}
        && old(nextHandle) !in old(armed)
        && nextHandle == old(nextHandle) + 1
    {
      if !img {
        return;
      }
      if |images| == 0 {
        return;
      }
      ShowImage(0);
      Stop();
      timer := Some(nextHandle);
      armed := {nextHandle};
      nextHandle := nextHandle + 1;
    }

    /** The inner `show(i)` of `start`: `idx = i % imgs.length` and the image shows it. */
    method ShowImage(i: nat)
      requires Valid() && img && images != []
      modifies this`idx, this`src
      ensures Valid()
      ensures idx == i % |images| && src == Some(images[idx])
    {
      idx := i % |images|;
      src := Some(images[idx]);
    }

    /** A tick of the running interval: step to the next image. */
    method OnTick(handle: nat)
      requires Valid() && handle in armed
      modifies this`idx, this`src
      ensures Valid()
      ensures idx == NextIndex(old(idx), |images|) && src == Some(images[idx])
    {
      ShowImage(idx + 1);
    }

    /** `mount(el)`: build a fresh root holding a fresh image element, then `start()`. */
    method Mount()
      requires Valid()
      modifies this
      ensures Valid()
      ensures root && rootShown && img
      ensures images == [] ==> src.None? && timer == old(timer) && armed == old(armed) && idx == old(idx)
      ensures images != [] ==>
        && idx == 0 && src == Some(images[0])
        && timer == Some(old(nextHandle)) && armed == {old(nextHandle)}
    {
      root, rootShown := true, true;
      img, src := true, None;
      Start();
    }

    /** The exported `show()`: display the root, and restart from image 0 only when no timer is pending. */
    method Show()
      requires Valid()
      modifies this
      ensures Valid()
      ensures rootShown == (old(rootShown) || root) && root == old(root) && img == old(img)
      ensures old(timer).Some? ==> timer == old(timer) && idx == old(idx) && src == old(src) && armed == old(armed)
      ensures old(timer).None? && img && images != [] ==>
        idx == 0 && src == Some(images[0]) && timer == Some(old(nextHandle)) && armed == {old(nextHandle)}
      ensures old(timer).None? && !(img && images != []) ==>
        timer.None? && idx == old(idx) && src == old(src) && armed == old(armed)
    {
      if root {
        rootShown := true;
      }
      if timer.None? {
        Start();
      }
    }

    /** The exported `hide()`: hide the root and stop the slideshow. */
    method Hide()
      requires Valid()
      modifies this
      ensures Valid()
      ensures rootShown == (old(rootShown) && !root) && root == old(root) && img == old(img)
      ensures timer.None? && armed == {}
      ensures idx == old(idx) && src == old(src)
    {
      if root {
        rootShown := false;
      }
      Stop();
    }
  }
}
