/** The whiteboard's canvas state engine: tool and brush state, the stroke
    gesture handlers, the undo/redo snapshot stacks and the media drag session,
    as one object whose methods update its fields in place. */
module Whiteboard {
  import opened Canvas
  import opened Tools
  import opened Media
  import H = UndoHistory

  class WhiteboardController {
    var gc: Surface
    var currentColor: Color
    var brushSize: real
    var currentTool: string
    var isTextMode: bool
    /** Snapshot stacks; the top of each is its last element. */
    var undoStack: seq<Image>
    var redoStack: seq<Image>
    var lastX: real
    var lastY: real
    var mediaElements: seq<MediaElement>
    var selectedMediaElement: MediaElement?
    var dragStartX: real
    var dragStartY: real

    /** The text-mode flag mirrors the tool, and the surface's style is the one
        the tool settings derive. */
    ghost predicate Valid()
      reads this
    {
      && isTextMode == (currentTool == Text)
      && StyleConsistent(gc, currentTool, currentColor, brushSize)
    }

    /** The canvas and the two snapshot stacks, as an undo history value. */
    function History(): H.History
      reads this
    {
      H.History(gc.canvas, undoStack, redoStack)
    }

    /** Only the selected element may carry the drag flag. */
    ghost predicate DragConsistent()
      reads this, mediaElements
    {
      forall e :: e in mediaElements && e.isDragging ==> e == selectedMediaElement
    }

    /** Index of the element a drag starting at (x, y) would grab. */
    function Hit(x: real, y: real): Option<nat>
      reads this, mediaElements
    {
      FirstHit(BoundsOf(mediaElements), x, y)
    }

    /** A new controller given its surface (`setGraphicsContext`): pen, black,
        brush size 5, empty history, no media. */
    constructor (surface: Surface)
      ensures Valid() && DragConsistent()
      ensures currentTool == Pen && currentColor == Black && brushSize == 5.0 && !isTextMode
      ensures gc == ApplyToolSettings(surface, Pen, Black, 5.0)
      ensures undoStack == [] && redoStack == []
      ensures mediaElements == [] && selectedMediaElement == null
    {
      gc := surface;
      currentColor := Black;
      brushSize := 5.0;
      currentTool := Pen;
      isTextMode := false;
      undoStack, redoStack := [], [];
      lastX, lastY := 0.0, 0.0;
      mediaElements := [];
      selectedMediaElement := null;
      dragStartX, dragStartY := 0.0, 0.0;
      new;
      UpdateToolSettings();
    }

    /** `setGraphicsContext`: adopt a surface and style it for the current tool. */
    method SetGraphicsContext(surface: Surface)
      requires Valid()
      modifies this`gc
      ensures Valid()
      ensures gc == ApplyToolSettings(surface, currentTool, currentColor, brushSize)
    {
      gc := surface;
      UpdateToolSettings();
    }

    /** `updateToolSettings`: re-derive stroke, fill and width from the tool
        state; the canvas, the path and the trace are untouched. */
    method UpdateToolSettings()
      modifies this`gc
      ensures gc == ApplyToolSettings(old(gc), currentTool, currentColor, brushSize)
      ensures StyleConsistent(gc, currentTool, currentColor, brushSize)
    {
      var styled := gc;
      if currentTool == Pen || currentTool == Text {
        styled := styled.(stroke := currentColor);
        styled := styled.(fill := currentColor);
      } else if currentTool == Eraser {
        styled := styled.(stroke := White);
      }
      gc := styled.(lineWidth := if currentTool == Eraser then brushSize * 2.0 else brushSize);
    }

    /** `setTool`: text mode is on exactly for the text tool. */
    method SetTool(tool: string)
      modifies this`currentTool, this`isTextMode, this`gc
      ensures Valid()
      ensures currentTool == tool && (isTextMode <==> tool == Text)
      ensures gc == ApplyToolSettings(old(gc), tool, currentColor, brushSize)
    {
      currentTool := tool;
      isTextMode := tool == Text;
      UpdateToolSettings();
    }

    /** `setColor`: remembered whatever the tool; the eraser keeps painting white. */
    method SetColor(color: Color)
      requires Valid()
      modifies this`currentColor, this`gc
      ensures Valid()
      ensures currentColor == color
      ensures gc == ApplyToolSettings(old(gc), currentTool, color, brushSize)
    {
      currentColor := color;
      UpdateToolSettings();
    }

    /** `setBrushSize`: no clamping; the width is re-derived (doubled for the eraser). */
    method SetBrushSize(size: real)
      requires Valid()
      modifies this`brushSize, this`gc
      ensures Valid()
      ensures brushSize == size
      ensures gc == ApplyToolSettings(old(gc), currentTool, currentColor, size)
    {
      brushSize := size;
      UpdateToolSettings();
    }

    function IsTextMode(): (b: bool)
      reads this
      requires Valid()
      ensures b <==> currentTool == Text
    {
      isTextMode
    }

    /** The size reported is the one the surface's line width is derived from. */
    function GetBrushSize(): (size: real)
      reads this
      requires Valid()
      ensures gc.lineWidth == EffectiveWidth(currentTool, size)
    {
      brushSize
    }

    /** The colour reported is the one pen and text paint with. */
    function GetCurrentColor(): (c: Color)
      reads this
      requires Valid()
      ensures (currentTool == Pen || currentTool == Text) ==> gc.stroke == c && gc.fill == c
    {
      currentColor
    }

    /** The tool reported is the text tool exactly when text mode is on. */
    function GetCurrentTool(): (t: string)
      reads this
      requires Valid()
      ensures t == Text <==> isTextMode
    {
      currentTool
    }

    /** `saveCurrentState`: push a snapshot of the canvas onto the undo stack
        and empty the redo stack. */
    method SaveCurrentState()
      modifies this`undoStack, this`redoStack
      ensures History() == H.Record(old(History()))
      ensures undoStack == old(undoStack) + [Snapshot(gc)] && redoStack == []
    {
      undoStack := undoStack + [Snapshot(gc)];
      redoStack := [];
    }

    /** `handleMousePressed`: remember the point; outside text mode open a
        path there, stroke it, and only then record one history entry, so the
        snapshot pushed is the canvas after that first stroke. */
    method HandleMousePressed(x: real, y: real)
      requires Valid()
      modifies this`lastX, this`lastY, this`gc, this`undoStack, this`redoStack
      ensures Valid()
      ensures lastX == x && lastY == y
      ensures old(isTextMode) ==>
        gc == old(gc) && undoStack == old(undoStack) && redoStack == old(redoStack)
      ensures !old(isTextMode) ==>
        && gc == StrokePath(MoveTo(BeginPath(old(gc)), x, y))
        && gc.trace == old(gc.trace) + [PathCmd.Begin, PathCmd.Move(x, y), PathCmd.Stroke]
        && History() == H.Record(H.History(gc.canvas, old(undoStack), old(redoStack)))
        && |undoStack| == |old(undoStack)| + 1 && redoStack == []
    {
      lastX := x;
      lastY := y;

      if isTextMode {
        return;
      }

      gc := BeginPath(gc);
      gc := MoveTo(gc, x, y);
      gc := StrokePath(gc);
      SaveCurrentState();
    }

    /** `handleMouseDragged`: pen and eraser extend the path to the point and
        stroke it; text mode or another tool emit nothing. Never records. */
    method HandleMouseDragged(x: real, y: real)
      requires Valid()
      modifies this`gc
      ensures Valid()
      ensures !isTextMode && (currentTool == Pen || currentTool == Eraser) ==>
        && gc == StrokePath(LineTo(old(gc), x, y))
        && gc.trace == old(gc.trace) + [PathCmd.Line(x, y), PathCmd.Stroke]
      ensures isTextMode || (currentTool != Pen && currentTool != Eraser) ==> gc == old(gc)
    {
      if !isTextMode && (currentTool == Pen || currentTool == Eraser) {
        gc := LineTo(gc, x, y);
        gc := StrokePath(gc);
      }
    }

    /** `handleMouseReleased`: close the path unless in text mode. Never records. */
    method HandleMouseReleased()
      requires Valid()
      modifies this`gc
      ensures Valid()
      ensures !isTextMode ==> gc == ClosePath(old(gc))
      ensures isTextMode ==> gc == old(gc)
    {
      if !isTextMode {
        gc := ClosePath(gc);
      }
    }

    /** `handleMediaDragStart`: grab the first element, in list order, whose
        bounds contain the point: select it, flag it as dragging and remember
        the point's offset from its layout position. A miss changes nothing. */
    method HandleMediaDragStart(x: real, y: real)
      modifies this`selectedMediaElement, this`dragStartX, this`dragStartY, mediaElements
      ensures old(Hit(x, y)).None? ==>
        && selectedMediaElement == old(selectedMediaElement)
        && dragStartX == old(dragStartX) && dragStartY == old(dragStartY)
      ensures old(Hit(x, y)).Some? ==>
        var e := mediaElements[old(Hit(x, y)).value];
        && selectedMediaElement == e && e.isDragging
        && dragStartX == x - e.layoutX && dragStartY == y - e.layoutY
      ensures forall e :: e in mediaElements ==>
        && e.layoutX == old(e.layoutX) && e.layoutY == old(e.layoutY)
        && e.stopIssued == old(e.stopIssued)
        && e.isDragging == (old(e.isDragging) || (e == selectedMediaElement && old(Hit(x, y)).Some?))
      ensures old(selectedMediaElement == null && DragConsistent()) ==> DragConsistent()
    {
      ghost var bounds := BoundsOf(mediaElements);
      ghost var hit := FirstHit(bounds, x, y);
      var i := 0;
      while i < |mediaElements|
        invariant 0 <= i <= |mediaElements|
        invariant unchanged(this) && forall e :: e in mediaElements ==> unchanged(e)
        invariant forall j :: 0 <= j < i ==> !Contains(bounds[j], x, y)
        invariant hit.None? || i <= hit.value
      {
        var element := mediaElements[i];
        if Contains(element.Bounds(), x, y) {
          assert bounds[i] == element.Bounds();
          assert hit == Some(i);
          selectedMediaElement := element;
          dragStartX := x - element.layoutX;
          dragStartY := y - element.layoutY;
          element.isDragging := true;
          return;
        }
        i := i + 1;
      }
    }

    /** `handleMediaDrag`: move the selected element, if any, so that the
        grab offset is kept: its layout becomes the point minus the offset. */
    method HandleMediaDrag(x: real, y: real)
      modifies selectedMediaElement
      ensures selectedMediaElement != null ==>
        && selectedMediaElement.layoutX == x - dragStartX
        && selectedMediaElement.layoutY == y - dragStartY
        && selectedMediaElement.isDragging == old(selectedMediaElement.isDragging)
        && selectedMediaElement.stopIssued == old(selectedMediaElement.stopIssued)
    {
      if selectedMediaElement != null {
        selectedMediaElement.layoutX := x - dragStartX;
        selectedMediaElement.layoutY := y - dragStartY;
      }
    }

    /** `handleMediaDragEnd`: drop the selection and clear its drag flag; a
        no-op when nothing is selected. */
    method HandleMediaDragEnd()
      modifies this`selectedMediaElement, selectedMediaElement
      ensures selectedMediaElement == null
      ensures old(selectedMediaElement) != null ==>
        && !old(selectedMediaElement).isDragging
        && old(selectedMediaElement).layoutX == old(selectedMediaElement.layoutX)
        && old(selectedMediaElement).layoutY == old(selectedMediaElement.layoutY)
        && old(selectedMediaElement).stopIssued == old(selectedMediaElement.stopIssued)
      ensures old(DragConsistent()) ==> DragConsistent()
    {
      if selectedMediaElement != null {
        selectedMediaElement.isDragging := false;
        selectedMediaElement := null;
      }
    }

    /** `addMediaElement`: append to the list. */
    method AddMediaElement(element: MediaElement)
      modifies this`mediaElements
      ensures mediaElements == old(mediaElements) + [element]
      ensures old(DragConsistent()) && (!element.isDragging || element == selectedMediaElement) ==>
        DragConsistent()
    {
      mediaElements := mediaElements + [element];
    }

    /** `clearMediaElements`: issue a stop to every attached player, then
        empty the list. */
    method ClearMediaElements()
      modifies this`mediaElements, mediaElements
      ensures mediaElements == []
      ensures forall e :: e in old(mediaElements) ==>
        && e.stopIssued == (old(e.stopIssued) || e.hasPlayer)
        && e.layoutX == old(e.layoutX) && e.layoutY == old(e.layoutY)
        && e.isDragging == old(e.isDragging)
    {
      var i := 0;
      while i < |mediaElements|
        invariant 0 <= i <= |mediaElements|
        invariant mediaElements == old(mediaElements)
        invariant forall e :: e in mediaElements ==>
          && e.stopIssued == (old(e.stopIssued) || (e.hasPlayer && e in mediaElements[..i]))
          && e.layoutX == old(e.layoutX) && e.layoutY == old(e.layoutY)
          && e.isDragging == old(e.isDragging)
      {
        var element := mediaElements[i];
        if element.hasPlayer {
          element.stopIssued := true;
        }
        i := i + 1;
      }
      mediaElements := [];
    }

    /** `clearCanvas`: record one history entry, blank the canvas, and clear
        the media elements. */
    method ClearCanvas()
      requires Valid()
      modifies this`gc, this`undoStack, this`redoStack, this`mediaElements, mediaElements
      ensures Valid()
      ensures gc == ClearRect(old(gc))
      ensures History() == H.Edit(old(History()), Blank)
      ensures mediaElements == []
      ensures forall e :: e in old(mediaElements) ==>
        && e.stopIssued == (old(e.stopIssued) || e.hasPlayer)
        && e.layoutX == old(e.layoutX) && e.layoutY == old(e.layoutY)
        && e.isDragging == old(e.isDragging)
    {
      SaveCurrentState();
      gc := ClearRect(gc);
      ClearMediaElements();
    }

    /** `openFile`, after its file dialog: with no image chosen nothing
        happens; otherwise one history entry is recorded and the image is
        drawn at the origin. */
    method OpenFile(image: Option<Image>)
      requires Valid()
      modifies this`gc, this`undoStack, this`redoStack
      ensures Valid()
      ensures image.None? ==> gc == old(gc) && History() == old(History())
      ensures image.Some? ==>
        && gc == DrawImage(old(gc), image.value)
        && History() == H.Edit(old(History()), gc.canvas)
    {
      if image.Some? {
        SaveCurrentState();
        gc := DrawImage(gc, image.value);
      }
    }

    /** `undo`: with snapshots to undo, the current canvas goes onto the redo
        stack and the top undo snapshot replaces the canvas; otherwise nothing
        changes. Only the canvas of the surface is affected. */
    method Undo()
      requires Valid()
      modifies this`gc, this`undoStack, this`redoStack
      ensures Valid()
      ensures History() == H.Undo(old(History()))
      ensures gc == old(gc).(canvas := gc.canvas)
    {
      if undoStack != [] {
        redoStack := redoStack + [Snapshot(gc)];
        gc := ClearRect(gc);
        var n := |undoStack| - 1;
        var top := undoStack[n];
        undoStack := undoStack[..n];
        gc := DrawImage(gc, top);
      }
    }

    /** `redo`: the mirror of `Undo`, with the two stacks swapped. */
    method Redo()
      requires Valid()
      modifies this`gc, this`undoStack, this`redoStack
      ensures Valid()
      ensures History() == H.Redo(old(History()))
      ensures gc == old(gc).(canvas := gc.canvas)
    {
      if redoStack != [] {
        undoStack := undoStack + [Snapshot(gc)];
        gc := ClearRect(gc);
        var n := |redoStack| - 1;
        var top := redoStack[n];
        redoStack := redoStack[..n];
        gc := DrawImage(gc, top);
      }
    }
  }

  /** Undo followed immediately by redo, on the controller: the surface and
      both stacks are exactly as before. */
  method UndoThenRedo(c: WhiteboardController)
    requires c.Valid() && c.undoStack != []
    modifies c`gc, c`undoStack, c`redoStack
    ensures c.Valid()
    ensures c.gc == old(c.gc) && c.undoStack == old(c.undoStack) && c.redoStack == old(c.redoStack)
  {
    ghost var before := c.History();
    c.Undo();
    c.Redo();
    H.UndoThenRedo(before);
  }

  /** A complete media drag with nothing selected beforehand: press at
      (x0, y0), drag to (x, y), release. The element hit, if any, ends up
      shifted by (x - x0, y - y0) with its drag flag cleared and every other
      element stays where it was; a miss leaves every element where it was. */
  method DragAndDrop(c: WhiteboardController, x0: real, y0: real, x: real, y: real) returns (hit: Option<nat>)
    requires c.selectedMediaElement == null && c.DragConsistent()
    modifies c`selectedMediaElement, c`dragStartX, c`dragStartY, c.mediaElements
    ensures hit == old(c.Hit(x0, y0))
    ensures c.selectedMediaElement == null && c.DragConsistent()
    ensures hit.Some? ==>
      var e := c.mediaElements[hit.value];
      && e.layoutX == old(e.layoutX) + (x - x0) && e.layoutY == old(e.layoutY) + (y - y0)
      && !e.isDragging
    ensures hit.Some? ==> forall e :: e in c.mediaElements && e != c.mediaElements[hit.value] ==>
      e.layoutX == old(e.layoutX) && e.layoutY == old(e.layoutY) && e.isDragging == old(e.isDragging)
    ensures hit.None? ==> forall e :: e in c.mediaElements ==>
      e.layoutX == old(e.layoutX) && e.layoutY == old(e.layoutY) && e.isDragging == old(e.isDragging)
    ensures forall e :: e in c.mediaElements ==> e.stopIssued == old(e.stopIssued)
  {
    hit := c.Hit(x0, y0);
    c.HandleMediaDragStart(x0, y0);
    c.HandleMediaDrag(x, y);
    c.HandleMediaDragEnd();
  }

  /** One whole stroke gesture: press at (x0, y0), one drag to (x, y),
      release. Outside text mode exactly one history entry is recorded, the
      canvas after the press's dot, and the redo branch is gone; in text mode
      no stack changes and no path command is issued. */
  method StrokeGesture(c: WhiteboardController, x0: real, y0: real, x: real, y: real)
    requires c.Valid()
    modifies c`lastX, c`lastY, c`gc, c`undoStack, c`redoStack
    ensures c.Valid()
    ensures c.isTextMode ==>
      c.undoStack == old(c.undoStack) && c.redoStack == old(c.redoStack) && c.gc == old(c.gc)
    ensures !c.isTextMode ==>
      && c.undoStack == old(c.undoStack) + [Stroked(old(c.gc.canvas), [PathCmd.Move(x0, y0)], old(c.gc.stroke), old(c.gc.lineWidth))]
      && c.redoStack == []
    ensures !c.isTextMode && (c.currentTool == Pen || c.currentTool == Eraser) ==>
      c.gc.trace == old(c.gc.trace) + [PathCmd.Begin, PathCmd.Move(x0, y0), PathCmd.Stroke, PathCmd.Line(x, y), PathCmd.Stroke, PathCmd.Close]
  {
    c.HandleMousePressed(x0, y0);
    assert [] + [PathCmd.Move(x0, y0)] == [PathCmd.Move(x0, y0)];
    c.HandleMouseDragged(x, y);
    c.HandleMouseReleased();
  }

  /** Eraser, then a colour picked while erasing, then the pen: the eraser
      paints white and doubles the width, and the pen then strokes and fills
      with the colour picked last. */
  method EraseThenDraw(c: WhiteboardController, color: Color)
    requires c.Valid()
    modifies c`currentTool, c`isTextMode, c`currentColor, c`gc
    ensures c.Valid()
    ensures c.currentTool == Pen && c.currentColor == color
    ensures c.gc.stroke == color && c.gc.fill == color && c.gc.lineWidth == c.brushSize
  {
    c.SetTool(Eraser);
    assert c.gc.stroke == White && c.gc.lineWidth == 2.0 * c.brushSize;
    c.SetColor(color);
    assert c.gc.stroke == White;
    c.SetTool(Pen);
  }
}
