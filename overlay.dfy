/** What the front end draws on its two canvases: the preview of a freshly
    decoded image, and the result canvas with the analysis box and label.
    Canvas calls are recorded as drawing operations in the order they are
    issued; `measureText(label).width` is an input. */
module Overlay {
  import opened Options
  import opened AspectFit
  import LabelFormat

  /** The analysis service's answer; coordinates are in natural pixels.
      `xmin <= xmax` and `ymin <= ymax` are not enforced. */
  datatype Detection = Detection(
    rawLabel: Option<string>, score: real,
    xmin: real, ymin: real, xmax: real, ymax: real)

  datatype Point = Point(x: real, y: real)

  /** A canvas rectangle: top-left corner and (possibly negative) extent. */
  datatype Rect = Rect(x: real, y: real, width: real, height: real)

  datatype Op =
    | ClearRect(area: Rect)
    | DrawImage(dest: Rect)
    | StrokeRect(area: Rect, lineWidth: real, color: string)
    | FillRect(area: Rect, color: string)
    | FillText(text: string, at: Point, font: string, color: string)

  /** The canvas size that was set and the operations drawn after it. */
  datatype Frame = Frame(canvas: Size, ops: seq<Op>)

  const BoxLineWidth: real := 3.0
  const BoxColor: string := "#00FF00"
  const HighlightColor: string := "rgba(0, 255, 0, 0.2)"
  const BackdropColor: string := "rgba(0, 0, 0, 0.7)"
  const TextColor: string := "#FFFFFF"
  const LabelFont: string := "bold 14px Arial"
  const TextPadding: real := 4.0
  const BackdropHeight: real := 20.0
  const BaselineLift: real := 6.0

  /** The rectangle of the whole canvas. */
  function Full(c: Size): Rect { Rect(0.0, 0.0, c.width, c.height) }

  /** A natural-pixel point carried to the canvas. */
  function MapPoint(p: Point, g: Geometry): Point {
    Point(p.x * g.scaleX, p.y * g.scaleY)
  }

  function Corner(r: Rect): Point { Point(r.x + r.width, r.y + r.height) }

  /** The detection box in canvas coordinates. */
  function ScaledBox(d: Detection, g: Geometry): Rect {
    Rect(d.xmin * g.scaleX, d.ymin * g.scaleY,
         (d.xmax - d.xmin) * g.scaleX, (d.ymax - d.ymin) * g.scaleY)
  }

  /** The dark backdrop directly above the box, as wide as the text plus one
      padding on each side. */
  function Backdrop(box: Rect, textWidth: real): (bg: Rect)
    ensures bg.x == box.x && bg.y + bg.height == box.y
    ensures bg.height == BackdropHeight && bg.width == textWidth + 2.0 * TextPadding
  {
    Rect(box.x, box.y - BackdropHeight, textWidth + 2.0 * TextPadding, BackdropHeight)
  }

  /** Where the label text is drawn: inset by the padding, a little above
      the box's top edge. */
  function TextOrigin(box: Rect): (at: Point)
    ensures at.x == box.x + TextPadding
    ensures box.y - BackdropHeight < at.y < box.y
  {
    Point(box.x + TextPadding, box.y - BaselineLift)
  }

  /** The preview canvas: resized to the fitted size, cleared and filled by
      the image. */
  function PreviewFrame(n: Size): (f: Frame)
    ensures f.canvas == Fit(n, PreviewBound)
    ensures ValidSize(n) ==> f.canvas.width * n.height == f.canvas.height * n.width
    ensures ValidSize(n) && !Overflows(n, PreviewBound) ==> f.canvas == n
    ensures f.ops == [ClearRect(Full(f.canvas)), DrawImage(Full(f.canvas))]
  {
    var c := Fit(n, PreviewBound);
    var f := Frame(c, [ClearRect(Full(c)), DrawImage(Full(c))]);
    if ValidSize(n) then
      FitPreservesAspect(n, PreviewBound);
      FitIdentityIff(n, PreviewBound);
      f
    else f
  }

  /** The result canvas. Nothing is drawn while no image has been decoded. */
  function ResultFrame(image: Option<Size>, d: Detection, textWidth: real): (f: Option<Frame>)
    requires image.Some? ==> ValidSize(image.value)
    ensures f.Some? <==> image.Some?
  {
    if image.None? then None
    else
      var g := ComputeGeometry(image.value, ResultBound);
      var c := Size(g.width, g.height);
      var box := ScaledBox(d, g);
      var text := LabelFormat.FormatLabel(d.rawLabel);
      Some(Frame(c, [
        ClearRect(Full(c)),
        DrawImage(Full(c)),
        StrokeRect(box, BoxLineWidth, BoxColor),
        FillRect(box, HighlightColor),
        FillRect(Backdrop(box, textWidth), BackdropColor),
        FillText(text, TextOrigin(box), LabelFont, TextColor)]))
  }

  /** The box is the linear image of the detection: its two corners are the
      detection's corners carried by the scale factors. */
  lemma ScaledBoxCorners(d: Detection, g: Geometry)
    ensures Point(ScaledBox(d, g).x, ScaledBox(d, g).y) == MapPoint(Point(d.xmin, d.ymin), g)
    ensures Corner(ScaledBox(d, g)) == MapPoint(Point(d.xmax, d.ymax), g)
  {
    assert d.xmin * g.scaleX + (d.xmax - d.xmin) * g.scaleX == d.xmax * g.scaleX;
    assert d.ymin * g.scaleY + (d.ymax - d.ymin) * g.scaleY == d.ymax * g.scaleY;
  }

  /** An inverted detection is not reordered: the box extent turns negative. */
  lemma InvertedBoxKeepsSign(d: Detection, g: Geometry)
    requires g.scaleX > 0.0 && g.scaleY > 0.0
    ensures ScaledBox(d, g).width < 0.0 <==> d.xmax < d.xmin
    ensures ScaledBox(d, g).height < 0.0 <==> d.ymax < d.ymin
  {
    if d.xmax < d.xmin {
      assert (d.xmax - d.xmin) * g.scaleX < 0.0;
    } else {
      assert (d.xmax - d.xmin) * g.scaleX >= 0.0;
    }
    if d.ymax < d.ymin {
      assert (d.ymax - d.ymin) * g.scaleY < 0.0;
    } else {
      assert (d.ymax - d.ymin) * g.scaleY >= 0.0;
    }
  }

  /** A detection inside the natural image is drawn inside the canvas. */
  lemma BoxInsideCanvas(n: Size, d: Detection)
    requires ValidSize(n)
    requires 0.0 <= d.xmin <= d.xmax <= n.width && 0.0 <= d.ymin <= d.ymax <= n.height
    ensures var g := ComputeGeometry(n, ResultBound);
      var box := ScaledBox(d, g);
      0.0 <= box.x && box.x + box.width <= g.width &&
      0.0 <= box.y && box.y + box.height <= g.height
  {
    var g := ComputeGeometry(n, ResultBound);
    var s := FitScale(n, ResultBound);
    ScaledBoxCorners(d, g);
    assert g.width == n.width * s && g.height == n.height * s;
    assert n.width * s - d.xmax * s == (n.width - d.xmax) * s >= 0.0;
    assert n.height * s - d.ymax * s == (n.height - d.ymax) * s >= 0.0;
    assert d.xmin * s >= 0.0 && d.ymin * s >= 0.0;
  }

  /** The backdrop rests on the box's top edge, starts at its left edge, and
      holds the text between its paddings; near the top of the canvas it
      is not clamped and reaches above it. */
  lemma LabelPlacement(box: Rect, textWidth: real)
    requires textWidth >= 0.0
    ensures var bg, at := Backdrop(box, textWidth), TextOrigin(box);
      && bg.x == box.x && bg.y + bg.height == box.y
      && bg.x < at.x && at.x + textWidth + TextPadding == bg.x + bg.width
      && bg.y < at.y < bg.y + bg.height
      && (box.y < BackdropHeight ==> bg.y < 0.0)
  {
  }

  /** The result canvas has the fitted size, the image covers it, the box is
      stroked and highlighted at the detection scaled by the fit's factor,
      and the formatted label sits on its backdrop above the box. */
  lemma ResultFrameContents(n: Size, d: Detection, textWidth: real)
    requires ValidSize(n)
    ensures var f := ResultFrame(Some(n), d, textWidth).value;
      var s := FitScale(n, ResultBound);
      var box := Rect(d.xmin * s, d.ymin * s, (d.xmax - d.xmin) * s, (d.ymax - d.ymin) * s);
      && f.canvas == Fit(n, ResultBound)
      && |f.ops| == 6
      && f.ops[0] == ClearRect(Full(f.canvas)) && f.ops[1] == DrawImage(Full(f.canvas))
      && f.ops[2] == StrokeRect(box, 3.0, "#00FF00")
      && f.ops[3] == FillRect(box, "rgba(0, 255, 0, 0.2)")
      && f.ops[4] == FillRect(Rect(d.xmin * s, d.ymin * s - 20.0, textWidth + 8.0, 20.0), "rgba(0, 0, 0, 0.7)")
      && f.ops[5] == FillText(LabelFormat.FormatLabel(d.rawLabel), Point(d.xmin * s + 4.0, d.ymin * s - 6.0),
                              "bold 14px Arial", "#FFFFFF")
  {
    var g := ComputeGeometry(n, ResultBound);
    var s := FitScale(n, ResultBound);
    var box := ScaledBox(d, g);
    var f := ResultFrame(Some(n), d, textWidth).value;
    assert f == Frame(Size(g.width, g.height), [
      ClearRect(Full(Size(g.width, g.height))),
      DrawImage(Full(Size(g.width, g.height))),
      StrokeRect(box, BoxLineWidth, BoxColor),
      FillRect(box, HighlightColor),
      FillRect(Backdrop(box, textWidth), BackdropColor),
      FillText(LabelFormat.FormatLabel(d.rawLabel), TextOrigin(box), LabelFont, TextColor)]);
    assert g.scaleX == s && g.scaleY == s;
    assert box == Rect(d.xmin * s, d.ymin * s, (d.xmax - d.xmin) * s, (d.ymax - d.ymin) * s);
  }

  /** Both canvases get the same size for the same image, so the box lines
      up with the preview. */
  lemma CanvasesAgree(n: Size, d: Detection, textWidth: real)
    requires ValidSize(n)
    ensures ResultFrame(Some(n), d, textWidth).value.canvas == PreviewFrame(n).canvas
  {
  }

  /** The worked example: a box from (100, 50) to (300, 250) at scale 0.25 is
      drawn at (25, 12.5) with size 50 x 50. */
  lemma ScaledBoxExample()
    ensures ScaledBox(Detection(None, 0.9, 100.0, 50.0, 300.0, 250.0), Geometry(400.0, 200.0, 0.25, 0.25))
            == Rect(25.0, 12.5, 50.0, 50.0)
    ensures ResultFrame(Some(Size(1600.0, 800.0)), Detection(None, 0.9, 100.0, 50.0, 300.0, 250.0), 0.0)
              .value.ops[2] == StrokeRect(Rect(25.0, 12.5, 50.0, 50.0), 3.0, "#00FF00")
  {
    var n, d := Size(1600.0, 800.0), Detection(None, 0.9, 100.0, 50.0, 300.0, 250.0);
    assert FitScale(n, ResultBound) == 0.25;
    ResultFrameContents(n, d, 0.0);
  }
}
