/** Tool and brush state: how the active tool, the chosen colour and the brush
    size determine the stroke colour, fill colour and line width of the
    surface (`updateToolSettings`). The tool is a free string; the controller
    recognises "pen", "eraser" and "text", and any other string matches none
    of them. */
module Tools {
  import opened Canvas

  const Pen: string := "pen"
  const Eraser: string := "eraser"
  const Text: string := "text"

  /** Line width a tool draws with: the eraser doubles the brush. */
  function EffectiveWidth(tool: string, brushSize: real): (w: real)
    ensures tool == Eraser ==> w == 2.0 * brushSize
    ensures tool != Eraser ==> w == brushSize
  {
    if tool == Eraser then brushSize * 2.0 else brushSize
  }

  /** `updateToolSettings`: pen and text paint with the chosen colour (stroke
      and fill); the eraser paints white and leaves the fill alone; any other
      tool leaves both colours alone. Only the line width is always set. */
  function ApplyToolSettings(s: Surface, tool: string, color: Color, brushSize: real): (r: Surface)
    ensures r.canvas == s.canvas && r.path == s.path && r.trace == s.trace
    ensures r.lineWidth == EffectiveWidth(tool, brushSize)
  {
    var styled :=
      if tool == Pen || tool == Text then s.(stroke := color, fill := color)
      else if tool == Eraser then s.(stroke := White)
      else s;
    styled.(lineWidth := EffectiveWidth(tool, brushSize))
  }

  /** What the surface's style must be while `tool`, `color` and `brushSize`
      are in force: the state `ApplyToolSettings` leaves behind. An
      unrecognised tool constrains only the width. */
  predicate StyleConsistent(s: Surface, tool: string, color: Color, brushSize: real)
  {
    && ((tool == Pen || tool == Text) ==> s.stroke == color && s.fill == color)
    && (tool == Eraser ==> s.stroke == White)
    && s.lineWidth == EffectiveWidth(tool, brushSize)
  }

  /** The three cases of the derived style, stated against the surface before
      the call: pen/text take the colour for stroke and fill, the eraser
      forces a white stroke and keeps the fill, an unknown tool keeps both. */
  lemma ApplyToolSettingsCases(s: Surface, tool: string, color: Color, brushSize: real)
    ensures var r := ApplyToolSettings(s, tool, color, brushSize);
      && ((tool == Pen || tool == Text) ==> r.stroke == color && r.fill == color && r.lineWidth == brushSize)
      && (tool == Eraser ==> r.stroke == White && r.fill == s.fill && r.lineWidth == 2.0 * brushSize)
      && (tool != Pen && tool != Text && tool != Eraser ==>
            r.stroke == s.stroke && r.fill == s.fill && r.lineWidth == brushSize)
      && StyleConsistent(r, tool, color, brushSize)
  {
  }

  /** Re-deriving the style with the same settings changes nothing. */
  lemma ApplyToolSettingsIdempotent(s: Surface, tool: string, color: Color, brushSize: real)
    ensures var r := ApplyToolSettings(s, tool, color, brushSize);
      ApplyToolSettings(r, tool, color, brushSize) == r
  {
  }

  /** Selecting the eraser, picking a colour while erasing, then going back to
      the pen: the eraser painted white throughout and never overwrote the
      chosen colour, so the pen strokes with the last colour set. */
  lemma EraserThenPen(s: Surface, before: Color, during: Color, brushSize: real)
    ensures var erasing := ApplyToolSettings(s, Eraser, before, brushSize);
      var recoloured := ApplyToolSettings(erasing, Eraser, during, brushSize);
      var drawing := ApplyToolSettings(recoloured, Pen, during, brushSize);
      && erasing.stroke == White && recoloured.stroke == White
      && drawing.stroke == during && drawing.fill == during && drawing.lineWidth == brushSize
  {
  }
}
