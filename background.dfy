/**
 * The background screen (screens/background.rs): a ring of downloaded
 * images the knob rotates through, and a sensor line that scrolls across
 * the top of the panel. Images are opaque values of type `B`. Sensor
 * readings arrive through a mailbox. A reading is a validity flag (the CO2
 * value is not NaN) and the text the screen would format from it.
 */
module Background {
  import opened Options
  import Mailbox
  import IndexMath

  /** The text of the sensor line is never empty: "Loading..." or a formatted reading. */
  type SensorText = s: string | |s| > 0 witness "Loading..."

  /** What the sensor thread puts into the mailbox. */
  datatype Reading = Reading(co2IsNumber: bool, text: SensorText)

  /** The picture drawn under the text: the front buffer, or the built-in default. */
  datatype Backdrop<B> = Buffer(image: B) | DefaultImage

  /** Pixel columns the scroll position advances per character of the sensor line. */
  const CharWidth: nat := 8
  /** Frames per one-pixel step of the scroll. */
  const FramesPerStep: int := 7
  /** Width of the panel; the sensor line is drawn at `PanelWidth - x`. */
  const PanelWidth: int := 64

  /** The ring rotated one step forward: the front buffer goes to the back. */
  function Rotated<B>(s: seq<B>): (r: seq<B>)
    ensures |r| == |s| && multiset(r) == multiset(s)
  {
    if |s| == 0 then s
    else
      assert s == [s[0]] + s[1..];
      s[1..] + [s[0]]
  }

  /** The ring rotated one step backward: the back buffer comes to the front. */
  function RotatedBack<B>(s: seq<B>): (r: seq<B>)
    ensures |r| == |s| && multiset(r) == multiset(s)
  {
    if |s| == 0 then s
    else
      assert s == s[..|s| - 1] + [s[|s| - 1]];
      [s[|s| - 1]] + s[..|s| - 1]
  }

  /** Forward then back, or back then forward, is no rotation at all. */
  lemma RotationsCancel<B>(s: seq<B>)
    ensures RotatedBack(Rotated(s)) == s
    ensures Rotated(RotatedBack(s)) == s
  {
    if |s| > 0 {
      var f := Rotated(s);
      assert f[..|f| - 1] == s[1..];
      assert [s[0]] + s[1..] == s;
      var b := RotatedBack(s);
      assert b[1..] == s[..|s| - 1];
      assert s[..|s| - 1] + [s[|s| - 1]] == s;
    }
  }

  /** The ring after `k` forward rotations. */
  function RotatedBy<B>(s: seq<B>, k: nat): seq<B>
  {
    if k == 0 then s else Rotated(RotatedBy(s, k - 1))
  }

  /** Rotating the ring that starts at image `m` gives the ring that starts at image `m + 1`. */
  lemma RotatedStart<B>(s: seq<B>, m: nat)
    requires m < |s|
    ensures Rotated(s[m..] + s[..m]) == if m + 1 < |s| then s[m + 1..] + s[..m + 1] else s
  {
    var p := s[m..] + s[..m];
    assert p[1..] == s[m + 1..] + s[..m];
    assert s[..m] + [s[m]] == s[..m + 1];
  }

  /** `k` forward rotations of a ring of `|s|` images start it at image `k % |s|`. */
  lemma {:induction false} RotationsStartAt<B>(s: seq<B>, k: nat)
    requires |s| > 0
    ensures RotatedBy(s, k) == s[k % |s|..] + s[..k % |s|]
  {
    if k > 0 {
      RotationsStartAt(s, k - 1);
      NextStart(s, k - 1, (k - 1) % |s|);
    } else {
      assert s[0..] + s[..0] == s;
    }
  }

  /** The step of the induction above, with the start image `m` named. */
  lemma NextStart<B>(s: seq<B>, j: nat, m: nat)
    requires m < |s| && m == j % |s|
    requires RotatedBy(s, j) == s[m..] + s[..m]
    ensures RotatedBy(s, j + 1) == s[(j + 1) % |s|..] + s[..(j + 1) % |s|]
  {
    IndexMath.ModSucc(j, |s|);
    var m' := (j + 1) % |s|;
    assert RotatedBy(s, j + 1) == Rotated(s[m..] + s[..m]);
    RotatedStart(s, m);
    if m + 1 == |s| {
      assert m' == 0;
      assert s[0..] + s[..0] == s;
    } else {
      assert m' == m + 1;
    }
  }

  /**
   * The scroll state `(x, dx)` after one frame, for a sensor line of `len`
   * characters: `dx` counts frames and every seventh frame moves the text
   * one pixel, back to the start once it has moved `len * CharWidth` pixels.
   */
  function Scroll(x: int, dx: int, len: nat): (r: (int, int))
    requires len > 0 && x >= 0 && 0 <= dx < FramesPerStep
    ensures 0 <= r.1 < FramesPerStep && r.0 >= 0
    ensures r.1 == (dx + 1) % FramesPerStep
    ensures dx + 1 < FramesPerStep ==> r.0 == x
    ensures dx + 1 == FramesPerStep ==> r.0 == (if (x + 1) % (len * CharWidth) == 0 then 0 else x + 1)
    ensures 0 <= x < len * CharWidth ==> 0 <= r.0 < len * CharWidth
  {
    var dx' := dx + 1;
    if dx' == FramesPerStep then
      var x' := x + 1;
      (if x' % (len * CharWidth) == 0 then 0 else x', 0)
    else
      (x, dx')
  }

  /** The scroll state after `frames` frames. */
  function ScrollFor(x: int, dx: int, len: nat, frames: nat): (r: (int, int))
    requires len > 0 && x >= 0 && 0 <= dx < FramesPerStep
    ensures 0 <= r.1 < FramesPerStep && r.0 >= 0
  {
    if frames == 0 then (x, dx)
    else
      var p := ScrollFor(x, dx, len, frames - 1);
      Scroll(p.0, p.1, len)
  }

  /** With the sensor line's length fixed, the text never scrolls further than its own width. */
  lemma {:induction false} ScrollStaysWithinText(len: nat, frames: nat)
    requires len > 0
    ensures 0 <= ScrollFor(0, 0, len, frames).0 < len * CharWidth
  {
    if frames > 0 {
      ScrollStaysWithinText(len, frames - 1);
    }
  }

  /** Seven frames move the text exactly one pixel, wrapping at the end of the line. */
  lemma SevenFramesOnePixel(x: int, len: nat)
    requires len > 0 && 0 <= x < len * CharWidth
    ensures ScrollFor(x, 0, len, 7) == (if x + 1 == len * CharWidth then 0 else x + 1, 0)
  {
    assert ScrollFor(x, 0, len, 1) == (x, 1);
    assert ScrollFor(x, 0, len, 2) == (x, 2);
    assert ScrollFor(x, 0, len, 3) == (x, 3);
    assert ScrollFor(x, 0, len, 4) == (x, 4);
    assert ScrollFor(x, 0, len, 5) == (x, 5);
    assert ScrollFor(x, 0, len, 6) == (x, 6);
    IndexMath.ModUnique(x + 1, len * CharWidth, if x + 1 == len * CharWidth then 1 else 0, if x + 1 == len * CharWidth then 0 else x + 1);
  }

  class BackgroundScreen<B> {
    var buffers: seq<B>
    const rx: Mailbox.Mailbox<Reading>
    var sensorString: SensorText
    var x: int
    var dx: int

    ghost predicate Valid()
      reads this
    {
      x >= 0 && 0 <= dx < FramesPerStep
    }

    /** The images that downloaded, in order; nothing received yet; the scroll at its start. */
    constructor (images: seq<B>)
      ensures Valid() && buffers == images && sensorString == "Loading..." && x == 0 && dx == 0
      ensures fresh(rx) && fresh(rx.inner) && rx.inner.value == None
    {
      buffers := images;
      rx := new Mailbox.Mailbox();
      sensorString := "Loading...";
      x, dx := 0, 0;
    }

    method Next()
      modifies this
      ensures buffers == Rotated(old(buffers))
      ensures sensorString == old(sensorString) && x == old(x) && dx == old(dx)
    {
      if |buffers| > 0 {
        var value := buffers[0];
        buffers := buffers[1..];
        buffers := buffers + [value];
      }
    }

    method Prev()
      modifies this
      ensures buffers == RotatedBack(old(buffers))
      ensures sensorString == old(sensorString) && x == old(x) && dx == old(dx)
    {
      if |buffers| > 0 {
        var value := buffers[|buffers| - 1];
        buffers := buffers[..|buffers| - 1];
        buffers := [value] + buffers;
      }
    }

    /** Turning the knob left shows the previous image. */
    method Left()
      modifies this
      ensures buffers == RotatedBack(old(buffers))
      ensures sensorString == old(sensorString) && x == old(x) && dx == old(dx)
    {
      Prev();
    }

    /** Turning the knob right shows the next image. */
    method Right()
      modifies this
      ensures buffers == Rotated(old(buffers))
      ensures sensorString == old(sensorString) && x == old(x) && dx == old(dx)
    {
      Next();
    }

    /** A click does nothing on this screen. */
    method Click()
      ensures buffers == old(buffers) && sensorString == old(sensorString) && x == old(x) && dx == old(dx)
    {
    }

    /**
     * One frame: pick the backdrop, take a new reading if one arrived, and
     * advance the scroll. Returns the backdrop and the column the sensor line
     * starts at.
     */
    method Draw() returns (backdrop: Backdrop<B>, textX: int)
      requires Valid()
      modifies this, rx.inner
      ensures Valid() && buffers == old(buffers)
      ensures backdrop == if |buffers| > 0 then Buffer(buffers[0]) else DefaultImage
      ensures rx.inner.value == None
      ensures sensorString ==
        match old(rx.inner.value)
        case Some(m) => if m.co2IsNumber then m.text else old(sensorString)
        case None => old(sensorString)
      ensures (x, dx) == Scroll(old(x), old(dx), |sensorString|)
      ensures textX == PanelWidth - x
    {
      if |buffers| > 0 {
        backdrop := Buffer(buffers[0]);
      } else {
        backdrop := DefaultImage;
      }

      var taken := rx.IfNew();
      if taken.Some? {
        var m := taken.value;
        if m.co2IsNumber {
          sensorString := m.text;
        }
      }

      var x', dx' := x, dx;
      dx' := dx' + 1;
      if dx' == FramesPerStep {
        x' := x' + 1;
        dx' := 0;
        if x' % (|sensorString| * CharWidth) == 0 {
          x' := 0;
        }
      }
      textX := PanelWidth - x';
      x, dx := x', dx';
    }
  }

  /** A reading put by the sensor thread shows up on the next frame, and the mailbox is then empty. */
  method SensorReadingReachesScreen<B>(images: seq<B>, text: SensorText) returns (shown: string, left: Option<Reading>)
    ensures shown == text && left == None
  {
    var screen := new BackgroundScreen<B>(images);
    var tx := screen.rx.Clone();
    tx.Put(Reading(true, text));
    var _, _ := screen.Draw();
    shown := screen.sensorString;
    left := screen.rx.inner.value;
  }
}
