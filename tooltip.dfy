// Placement of a hover tooltip image next to its trigger icon
// (tooltip-position.js). The DOM reads become parameters: the icon's
// bounding rectangle, the viewport size and the image's natural size.

module Tooltip {
  import opened Geometry

  /** The icon's bounding client rectangle. */
  datatype Rect = Rect(x: real, y: real, left: real, right: real, top: real, height: real)

  /** The gap between the icon and the tooltip, and the margin kept to the
      viewport's edges. */
  const Gap: real := 10.0
  const Margin: real := 20.0

  /** `positionTooltip`: the image's fitted width and height, its left and
      top in the viewport, and the style offsets written relative to the
      rectangle. The natural size is "present" when both dimensions are
      non-zero. */
  method PositionTooltip(rect: Rect, viewportWidth: real, viewportHeight: real, naturalWidth: nat, naturalHeight: nat)
    returns (imgWidth: real, imgHeight: real, left: real, top: real, styleLeft: real, styleTop: real)
    // The size never exceeds min(350, 40% of the viewport) on either axis
    // and, for a natural size, keeps its aspect ratio and fills one of the
    // two limits; without one the limits themselves are the size.
    ensures var maxW, maxH := Min(350.0, viewportWidth * 0.4), Min(350.0, viewportHeight * 0.4);
      if naturalWidth != 0 && naturalHeight != 0 then
        imgHeight == imgWidth * (naturalHeight as real / naturalWidth as real) &&
        imgWidth <= maxW && imgHeight <= maxH && (imgWidth == maxW || imgHeight == maxH)
      else
        imgWidth == maxW && imgHeight == maxH
    // Right of the icon when that fits inside the right margin; otherwise
    // left of the icon, or, when that crosses the left margin, centred in
    // the viewport (wherever the viewport leaves the margin on both sides)
    // but never left of the margin.
    ensures rect.right + Gap + imgWidth <= viewportWidth - Margin ==> left == rect.right + Gap
    ensures rect.right + Gap + imgWidth > viewportWidth - Margin ==>
      if rect.left - imgWidth - Gap >= Margin then left + imgWidth + Gap == rect.left
      else (left >= Margin && left == Max(Margin, (viewportWidth - imgWidth) / 2.0) &&
            (2.0 * Margin + imgWidth <= viewportWidth ==> left + left + imgWidth == viewportWidth))
    // Vertically centred on the icon unless that crosses the bottom margin;
    // never above the top margin, and inside the bottom margin whenever the
    // viewport is tall enough.
    ensures top >= Margin
    ensures var centre := rect.top + rect.height / 2.0;
      if centre + imgHeight > viewportHeight - Margin then top == Max(Margin, viewportHeight - imgHeight - Margin)
      else top == Max(Margin, centre)
    ensures imgHeight <= viewportHeight - 2.0 * Margin ==> top + imgHeight <= viewportHeight - Margin
    ensures styleLeft == left - rect.x && styleTop == top - rect.y
  {
    imgWidth, imgHeight := FitImage(Min(350.0, viewportWidth * 0.4), Min(350.0, viewportHeight * 0.4), naturalWidth, naturalHeight);

    left := rect.right + Gap;
    top := rect.top + rect.height / 2.0;

    if left + imgWidth > viewportWidth - Margin {
      left := rect.left - imgWidth - Gap;
      if left < Margin {
        left := Max(Margin, (viewportWidth - imgWidth) / 2.0);
      }
    }

    if top + imgHeight > viewportHeight - Margin {
      top := viewportHeight - imgHeight - Margin;
    }

    if top < Margin {
      top := Margin;
    }

    styleLeft := left - rect.x;
    styleTop := top - rect.y;
  }

  /** The image's size inside the limits maxW by maxH. */
  method FitImage(maxW: real, maxH: real, naturalWidth: nat, naturalHeight: nat) returns (imgWidth: real, imgHeight: real)
    ensures if naturalWidth != 0 && naturalHeight != 0 then
        imgHeight == imgWidth * (naturalHeight as real / naturalWidth as real) &&
        imgWidth <= maxW && imgHeight <= maxH && (imgWidth == maxW || imgHeight == maxH)
      else
        imgWidth == maxW && imgHeight == maxH
  {
    imgWidth := maxW;
    imgHeight := maxH;
    if naturalWidth != 0 && naturalHeight != 0 {
      var aspectRatio := naturalHeight as real / naturalWidth as real;
      if aspectRatio > 1.0 {
        // A portrait image is limited by the height first.
        imgHeight := maxH;
        imgWidth := imgHeight / aspectRatio;
        if imgWidth > maxW {
          imgWidth := maxW;
          imgHeight := imgWidth * aspectRatio;
          TimesBelow(maxW, maxH, aspectRatio);
        }
      } else {
        // A landscape or square image is limited by the width first.
        imgWidth := maxW;
        imgHeight := imgWidth * aspectRatio;
        if imgHeight > maxH {
          imgHeight := maxH;
          imgWidth := imgHeight / aspectRatio;
          DividedBelow(maxW, maxH, aspectRatio);
        }
      }
    }
  }

  /** For a positive ratio k, h < w * k gives h / k < w. */
  lemma DividedBelow(w: real, h: real, k: real)
    requires k > 0.0 && h < w * k
    ensures h / k < w && h / k * k == h
  {
    assert h / k * k == h;
  }

  /** For a positive ratio k, w < h / k gives w * k < h. */
  lemma TimesBelow(w: real, h: real, k: real)
    requires k > 0.0 && w < h / k
    ensures w * k < h
  {
    assert h / k * k == h;
  }
}
