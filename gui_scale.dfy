/**
 * The C++ port's HUD `Gui`: the GUI scale factor chosen from the window size
 * and the scale option, and the tick counter.
 */
module GuiScale {
  import Mth

  const MinWidth := 320
  const MinHeight := 240
  const MaxAutoScale := 4

  /** A scale fits when the window, divided by it, still holds 320x240. */
  predicate Fits(width: int, height: int, scale: int)
    requires scale != 0
  {
    Mth.CDiv(width, scale) >= MinWidth && Mth.CDiv(height, scale) >= MinHeight
  }

  class Gui {
    var screenWidth: int
    var screenHeight: int
    var scaledWidth: int
    var scaledHeight: int
    var guiScale: int
    var tickCount: int

    /** The window starts at 854x480 with scale 1. */
    constructor ()
      ensures screenWidth == 854 && screenHeight == 480
      ensures scaledWidth == 854 && scaledHeight == 480
      ensures guiScale == 1 && tickCount == 0
    {
      screenWidth, screenHeight := 854, 480;
      scaledWidth, scaledHeight := 854, 480;
      guiScale, tickCount := 1, 0;
    }

    /** `tick`: counts frames of the HUD. */
    method Tick()
      modifies this
      ensures tickCount == old(tickCount) + 1
      ensures screenWidth == old(screenWidth) && screenHeight == old(screenHeight)
      ensures guiScale == old(guiScale)
      ensures scaledWidth == old(scaledWidth) && scaledHeight == old(scaledHeight)
    {
      tickCount := tickCount + 1;
    }

    /**
     * `calculateScale`: setting 0 picks the largest scale up to 4 at which
     * the window still fits 320x240; any other setting is taken as asked,
     * then stepped down while it does not fit and is above 1.
     */
    method CalculateScale(width: int, height: int, scaleSetting: int)
      modifies this
      ensures screenWidth == width && screenHeight == height && tickCount == old(tickCount)
      ensures guiScale != 0
      ensures scaleSetting >= 0 ==> guiScale >= 1
      // Automatic mode: the largest scale up to 4 that fits, every smaller one fitting too.
      ensures scaleSetting == 0 ==> guiScale <= MaxAutoScale
      ensures scaleSetting == 0 ==> forall k :: 2 <= k <= guiScale ==> Fits(width, height, k)
      ensures scaleSetting == 0 && guiScale < MaxAutoScale ==> !Fits(width, height, guiScale + 1)
      // Explicit setting: the largest scale not above it that fits, or 1.
      ensures scaleSetting > 0 ==> guiScale <= scaleSetting
      ensures scaleSetting > 0 ==> guiScale == 1 || Fits(width, height, guiScale)
      ensures scaleSetting > 0 ==> forall k :: guiScale < k <= scaleSetting ==> !Fits(width, height, k)
      // A negative setting is kept, because the step-down loop stops at or below 1.
      ensures scaleSetting < 0 ==> guiScale == scaleSetting
      ensures guiScale > 1 ==> Fits(width, height, guiScale)
      ensures scaledWidth == Mth.CDiv(width, guiScale) && scaledHeight == Mth.CDiv(height, guiScale)
    {
      screenWidth := width;
      screenHeight := height;
      guiScale := 1;
      if scaleSetting == 0 {
        while guiScale < MaxAutoScale && Mth.CDiv(screenWidth, guiScale + 1) >= MinWidth
          && Mth.CDiv(screenHeight, guiScale + 1) >= MinHeight
          invariant 1 <= guiScale <= MaxAutoScale
          invariant screenWidth == width && screenHeight == height && tickCount == old(tickCount)
          invariant forall k :: 2 <= k <= guiScale ==> Fits(width, height, k)
          decreases MaxAutoScale - guiScale
        {
          guiScale := guiScale + 1;
        }
      } else {
        guiScale := scaleSetting;
      }
      ghost var chosen := guiScale;
      assert scaleSetting == 0 && chosen < MaxAutoScale ==> !Fits(width, height, chosen + 1);
      while !Fits(screenWidth, screenHeight, guiScale)
        invariant guiScale != 0 && tickCount == old(tickCount)
        invariant screenWidth == width && screenHeight == height
        invariant scaleSetting < 0 ==> guiScale == scaleSetting
        invariant scaleSetting >= 0 ==> 1 <= guiScale <= chosen
        invariant scaleSetting == 0 ==> guiScale == chosen && chosen <= MaxAutoScale
        invariant scaleSetting == 0 ==> forall k :: 2 <= k <= chosen ==> Fits(width, height, k)
        invariant scaleSetting == 0 && chosen < MaxAutoScale ==> !Fits(width, height, chosen + 1)
        invariant scaleSetting > 0 ==> chosen == scaleSetting
        invariant scaleSetting > 0 ==> forall k :: guiScale < k <= scaleSetting ==> !Fits(width, height, k)
        decreases if guiScale > 0 then guiScale else 0
      {
        if guiScale <= 1 {
          break;
        }
        guiScale := guiScale - 1;
      }
      scaledWidth := Mth.CDiv(screenWidth, guiScale);
      scaledHeight := Mth.CDiv(screenHeight, guiScale);
    }
  }
}
