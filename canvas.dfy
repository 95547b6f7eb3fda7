/** The drawing surface the controller paints on (a JavaFX GraphicsContext and
    its canvas), modelled as a record: the raster as an opaque image value, the
    stroke and fill colours, the line width, the path under construction and a
    trace of every path command issued. Pixels are never inspected: an image is
    only ever compared with, stored and restored as a whole. */
module Canvas {

  /** A colour; only its identity matters to the controller. */
  datatype Color = Color(red: real, green: real, blue: real, opacity: real)

  const White: Color := Color(1.0, 1.0, 1.0, 1.0)
  const Black: Color := Color(0.0, 0.0, 0.0, 1.0)

  /** A path command as the controller issues it. */
  datatype PathCmd =
    | Begin
    | Move(x: real, y: real)
    | Line(x: real, y: real)
    | Stroke
    | Close

  /** The raster content of the canvas: what a snapshot captures. */
  datatype Image =
    | Blank                                                         // a cleared canvas
    | Picture(id: nat)                                              // an image read from a file
    | Stroked(under: Image, path: seq<PathCmd>, color: Color, width: real)
    | Overlaid(under: Image, top: Image)                            // an image drawn at (0, 0)

  datatype Surface = Surface(
    canvas: Image,
    stroke: Color,
    fill: Color,
    lineWidth: real,
    path: seq<PathCmd>,
    trace: seq<PathCmd>)

  function BeginPath(s: Surface): Surface
  {
    s.(path := [], trace := s.trace + [PathCmd.Begin])
  }

  function MoveTo(s: Surface, x: real, y: real): Surface
  {
    s.(path := s.path + [PathCmd.Move(x, y)], trace := s.trace + [PathCmd.Move(x, y)])
  }

  function LineTo(s: Surface, x: real, y: real): Surface
  {
    s.(path := s.path + [PathCmd.Line(x, y)], trace := s.trace + [PathCmd.Line(x, y)])
  }

  function ClosePath(s: Surface): Surface
  {
    s.(path := s.path + [PathCmd.Close], trace := s.trace + [PathCmd.Close])
  }

  /** Paints the current path with the current stroke colour and line width. */
  function StrokePath(s: Surface): Surface
  {
    s.(canvas := Stroked(s.canvas, s.path, s.stroke, s.lineWidth), trace := s.trace + [PathCmd.Stroke])
  }

  /** `clearRect` over the whole canvas. */
  function ClearRect(s: Surface): Surface
  {
    s.(canvas := Blank)
  }

  /** `drawImage(img, 0, 0)`. An image drawn onto a cleared canvas is taken to
      make the canvas equal to that image; over anything else it is layered. */
  function DrawImage(s: Surface, img: Image): Surface
  {
    s.(canvas := if s.canvas == Blank then img else Overlaid(s.canvas, img))
  }

  /** `canvas.snapshot(null, null)`: a capture of the current raster. */
  function Snapshot(s: Surface): Image
  {
    s.canvas
  }

  /** Clearing the canvas and drawing a snapshot back restores exactly that
      snapshot, and touches neither the styles nor the path. */
  lemma ClearThenDrawRestores(s: Surface, img: Image)
    ensures Snapshot(DrawImage(ClearRect(s), img)) == img
    ensures DrawImage(ClearRect(s), img) == s.(canvas := img)
  {
  }
}
