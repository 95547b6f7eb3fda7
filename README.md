# Whiteboard canvas state engine, in Dafny

This project models the canvas state engine of a JavaFX desktop whiteboard: the
`WhiteboardController` class. It covers four parts:

- **Undo/redo history.** Two snapshot stacks form a linear history. Recording
  an entry throws the redo branch away.
- **Tool and brush state.** The active tool, colour and brush size determine the
  stroke colour, fill colour and line width of the drawing surface.
- **Stroke gestures.** Press, drag and release decide what path commands are
  issued and when a history entry is recorded.
- **Media drag session.** Media elements are nodes registered with the
  controller through `addMediaElement`. A drag grabs the first registered
  element whose bounds contain the point, moves it and lets it go. Nothing in
  this repository registers an element, so the drag session can only be
  reached through the controller's own methods.

The model is imperative where the controller is. `Whiteboard.WhiteboardController`
is a class with the controller's fields, and its methods update them in place.
Media elements are objects (`Media.MediaElement`), so the selected element is a
reference, as in the source. Most methods are proved against pure
specifications. `HandleMediaDrag`, `HandleMediaDragEnd` and `ClearMediaElements`
state their field updates on the elements directly. The specifications are:

- `canvas.dfy`: the drawing surface as a record. A snapshot is an opaque
  `Image` value. The surface also holds the stroke and fill colours, the line
  width, the open path and a trace of path commands.
- `history.dfy`: undo, redo and recording on a `History` value, plus lemmas
  about sequences of them.
- `tools.dfy`: how the tool settings derive the surface's style.
- `media.dfy`: element bounds and first-hit search.

Each snapshot stack is a `seq` whose LAST element is the top. The source uses a
`Deque` whose head is the top. Only the order of the representation differs.

Two modelling assumptions:

- Clearing the canvas and then drawing a snapshot at the origin makes the canvas
  equal to that snapshot (`Canvas.DrawImage` on a `Blank` canvas).
- A press takes its snapshot after `beginPath`, `moveTo` and `stroke`. The
  recorded entry is the canvas after the press's `stroke()`, kept as a value
  of its own, and undo returns to that value.

The model follows the code in these places:

- An unrecognised tool is not an error. It keeps both colours and only sets
  the line width to the brush size.
- `setColor` re-derives the style for every tool. For the eraser the effect is
  the same as ignoring the colour: the stroke stays white.
- A drag is not ignored when no press came first. With the pen or the eraser,
  a drag always issues `lineTo` and `stroke`.
- Nothing enforces a single dragging element. A second drag start without an
  end leaves the first element flagged. `HandleMediaDragStart` keeps "only the
  selected element is dragging" only when nothing was selected before.
- `clearMediaElements` does not drop the selection, so a later media drag
  still moves the removed element. The model keeps that.
- History depth is unbounded.

## Model

| member | source | states |
|---|---|---|
| `Canvas.ClearThenDrawRestores` | src/main/java/com/example/whiteboard/WhiteboardController.java:183-184 | clearing the canvas and drawing a snapshot at the origin yields exactly that snapshot and leaves style, path and trace alone |
| `UndoHistory.Record` | src/main/java/com/example/whiteboard/WhiteboardController.java:210-213 | recording keeps the canvas, pushes exactly one entry (the current canvas) on top of the unchanged undo stack, and empties the redo stack |
| `UndoHistory.Undo` | src/main/java/com/example/whiteboard/WhiteboardController.java:180-186 | empty undo stack: no change; otherwise the canvas becomes the former undo top, the undo stack loses its top, the former canvas goes on top of the redo stack; total depth is preserved |
| `UndoHistory.Redo` | src/main/java/com/example/whiteboard/WhiteboardController.java:188-194 | the mirror of undo with the stacks swapped, a no-op on an empty redo stack, total depth preserved |
| `UndoHistory.UndoThenRedo` | src/main/java/com/example/whiteboard/WhiteboardController.java:180-194 | undo followed immediately by redo restores canvas and both stacks exactly |
| `UndoHistory.RedoThenUndo` | src/main/java/com/example/whiteboard/WhiteboardController.java:180-194 | redo followed immediately by undo restores canvas and both stacks exactly |
| `UndoHistory.UndoAfterEdit` | src/main/java/com/example/whiteboard/WhiteboardController.java:180-186 | undo right after a recorded edit brings back the pre-edit canvas and undo stack, with only the edited canvas on the redo stack |
| `UndoHistory.EditInvalidatesRedo` | src/main/java/com/example/whiteboard/WhiteboardController.java:210-213 | a recording (with or without a canvas change) between an undo and a redo makes that redo a no-op |
| `UndoHistory.UndoNPops` | src/main/java/com/example/whiteboard/WhiteboardController.java:180-186 | n undos pop the top n snapshots; the n-th from the top becomes the canvas; total depth is unchanged |
| `UndoHistory.UndoNSize` | src/main/java/com/example/whiteboard/WhiteboardController.java:180-186 | n undos shorten the undo stack by exactly n |
| `UndoHistory.UndoNThenRedoN` | src/main/java/com/example/whiteboard/WhiteboardController.java:180-194 | n undos followed by n redos restore the history exactly |
| `UndoHistory.EditsShape` | src/main/java/com/example/whiteboard/WhiteboardController.java:210-213 | after a run of edits the undo stack is the old stack, then the pre-edit canvas, then every edited canvas but the last; the redo stack is empty |
| `UndoHistory.EditsThenUndos` | src/main/java/com/example/whiteboard/WhiteboardController.java:180-186 | as many undos as there were edits return the canvas and undo stack to their state before the edits |
| `Tools.EffectiveWidth` | src/main/java/com/example/whiteboard/WhiteboardController.java:116 | the eraser draws at twice the brush size, every other tool at the brush size |
| `Tools.ApplyToolSettings` | src/main/java/com/example/whiteboard/WhiteboardController.java:109-117 | re-deriving the style leaves canvas, path and trace untouched and always sets the effective width |
| `Tools.ApplyToolSettingsCases` | src/main/java/com/example/whiteboard/WhiteboardController.java:109-117 | pen/text: stroke = fill = colour, width = size; eraser: stroke white, fill kept, width = 2 × size; any other tool: both colours kept, width = size |
| `Tools.ApplyToolSettingsIdempotent` | src/main/java/com/example/whiteboard/WhiteboardController.java:109-117 | re-deriving the style twice with the same settings is the same as once |
| `Tools.EraserThenPen` | src/main/java/com/example/whiteboard/WhiteboardController.java:103-127 | eraser, a colour picked while erasing, then pen: white throughout erasing, then the pen strokes and fills with the last colour picked |
| `Media.FirstHit` | src/main/java/com/example/whiteboard/WhiteboardController.java:78-86 | returns the first index in list order whose rectangle contains the point, and none only when no rectangle contains it |
| `Media.MediaElement.constructor` | src/main/java/com/example/whiteboard/WhiteboardController.java:40-46 | a new element keeps the given node extent, start position and player, and is not being dragged |
| `Whiteboard.WhiteboardController.constructor` | src/main/java/com/example/whiteboard/WhiteboardController.java:22-52 | initial state: pen, black, size 5, not text mode, empty stacks, no media, no selection, surface styled for the pen |
| `Whiteboard.WhiteboardController.SetGraphicsContext` | src/main/java/com/example/whiteboard/WhiteboardController.java:49-52 | adopts the surface and styles it for the current tool state |
| `Whiteboard.WhiteboardController.UpdateToolSettings` | src/main/java/com/example/whiteboard/WhiteboardController.java:109-117 | the surface becomes the derived style of the old surface and the style invariant holds |
| `Whiteboard.WhiteboardController.SetTool` | src/main/java/com/example/whiteboard/WhiteboardController.java:103-107 | the tool is set, text mode holds exactly when the tool is "text", and the style is re-derived |
| `Whiteboard.WhiteboardController.SetColor` | src/main/java/com/example/whiteboard/WhiteboardController.java:124-127 | the colour is remembered whatever the tool and the style is re-derived |
| `Whiteboard.WhiteboardController.SetBrushSize` | src/main/java/com/example/whiteboard/WhiteboardController.java:129-132 | the size is set unclamped and the width is re-derived |
| `Whiteboard.WhiteboardController.IsTextMode` | src/main/java/com/example/whiteboard/WhiteboardController.java:119 | true exactly when the current tool is "text" |
| `Whiteboard.WhiteboardController.GetBrushSize` | src/main/java/com/example/whiteboard/WhiteboardController.java:120 | the reported size is the one the surface's line width is derived from |
| `Whiteboard.WhiteboardController.GetCurrentColor` | src/main/java/com/example/whiteboard/WhiteboardController.java:121 | under pen or text the reported colour is the surface's stroke and fill |
| `Whiteboard.WhiteboardController.GetCurrentTool` | src/main/java/com/example/whiteboard/WhiteboardController.java:122 | the reported tool is "text" exactly in text mode |
| `Whiteboard.WhiteboardController.SaveCurrentState` | src/main/java/com/example/whiteboard/WhiteboardController.java:210-213 | the history becomes its recording: one entry, the current canvas, pushed; redo stack emptied |
| `Whiteboard.WhiteboardController.HandleMousePressed` | src/main/java/com/example/whiteboard/WhiteboardController.java:54-64 | the point is remembered; in text mode nothing else changes; otherwise begin/move/stroke are issued and then exactly one entry (the canvas after that stroke) is recorded, emptying the redo stack |
| `Whiteboard.WhiteboardController.HandleMouseDragged` | src/main/java/com/example/whiteboard/WhiteboardController.java:66-71 | pen or eraser outside text mode: lineTo and stroke are issued; otherwise the surface is unchanged; the stacks are never touched |
| `Whiteboard.WhiteboardController.HandleMouseReleased` | src/main/java/com/example/whiteboard/WhiteboardController.java:73-75 | the path is closed outside text mode and nothing changes in text mode; the stacks are never touched |
| `Whiteboard.WhiteboardController.HandleMediaDragStart` | src/main/java/com/example/whiteboard/WhiteboardController.java:77-87 | the first element hit becomes the selection, is flagged as dragging and gives offset = point − layout; a miss changes nothing; no element moves |
| `Whiteboard.WhiteboardController.HandleMediaDrag` | src/main/java/com/example/whiteboard/WhiteboardController.java:89-94 | only the selected element moves, to point − offset |
| `Whiteboard.WhiteboardController.HandleMediaDragEnd` | src/main/java/com/example/whiteboard/WhiteboardController.java:96-101 | the selected element's flag is cleared and the selection dropped; a no-op with no selection; afterwards no element is dragging, provided only the selected element was dragging before |
| `Whiteboard.WhiteboardController.AddMediaElement` | src/main/java/com/example/whiteboard/WhiteboardController.java:168-170 | the element is appended to the list |
| `Whiteboard.WhiteboardController.ClearMediaElements` | src/main/java/com/example/whiteboard/WhiteboardController.java:140-147 | every element with a player has a stop issued, nothing else about the elements changes, and the list is emptied |
| `Whiteboard.WhiteboardController.ClearCanvas` | src/main/java/com/example/whiteboard/WhiteboardController.java:134-138 | one history entry is recorded, the canvas becomes blank, players are stopped, the removed elements keep their position and drag flag, and the media list is emptied |
| `Whiteboard.WhiteboardController.OpenFile` | src/main/java/com/example/whiteboard/WhiteboardController.java:172-178 | no image chosen: nothing changes; otherwise one entry is recorded and the image is drawn at the origin |
| `Whiteboard.WhiteboardController.Undo` | src/main/java/com/example/whiteboard/WhiteboardController.java:180-186 | the history becomes its undo and only the canvas of the surface changes |
| `Whiteboard.WhiteboardController.Redo` | src/main/java/com/example/whiteboard/WhiteboardController.java:188-194 | the history becomes its redo and only the canvas of the surface changes |
| `Whiteboard.UndoThenRedo` | src/main/java/com/example/whiteboard/WhiteboardController.java:180-194 | on a controller with something to undo, undo then redo leaves surface and both stacks exactly as before |
| `Whiteboard.StrokeGesture` | src/main/java/com/example/whiteboard/WhiteboardController.java:54-75 | press, drag, release record exactly one entry outside text mode (the canvas after the press's `stroke()`) and none in text mode, where no path command is issued |
| `Whiteboard.EraseThenDraw` | src/main/java/com/example/whiteboard/WhiteboardController.java:103-127 | eraser, then a colour picked while erasing, then pen: the pen strokes and fills with that colour at the brush size |
| `Whiteboard.DragAndDrop` | src/main/java/com/example/whiteboard/WhiteboardController.java:77-101 | with nothing selected, a drag from (x0,y0) to (x,y) shifts the first element hit by (x−x0, y−y0) and clears its flag, while every other element stays put; a miss moves nothing; no player is stopped |

## Left out

- Loading an image or media file (`loadImage`, `loadMedia`), the file dialog of
  `openFile`, and saving the canvas (`saveCanvas`) are left out. They are file
  dialogs, media decoding and image encoding. `OpenFile` takes the chosen image,
  or none, as a parameter.
- Pixel rendering is left out. `beginPath`, `moveTo`, `lineTo`, `stroke`,
  `closePath`, `clearRect`, `drawImage` and `snapshot` act on an abstract
  surface. Images are opaque values, and path commands are kept as a trace.
- Media playback runs on other threads and is left out. A stop issued to a
  player is recorded as a flag on its element.
- `WhiteboardUI.java` is left out. It builds widgets and wires events, and has no
  logic of its own.
- `WhiteboardApp.java` is left out. It launches the application.
- Coordinates, sizes and colour channels are reals, not IEEE doubles. The
  controller only doubles the brush size and subtracts coordinates.
- `Whiteboard.WhiteboardController.HandleMediaDragStart`: the drag-flag
  invariant is proved only for a start with no element selected. A second start
  without an end can leave two elements flagged, as the source allows.
- `Whiteboard.WhiteboardController.HandleMousePressed`: the press's one-point
  stroke is kept as a canvas value distinct from the canvas before it, although
  a single-point path paints no pixels. The model therefore cannot show that
  undo after a stroke gesture restores the canvas from before the gesture, and
  the `UndoHistory.EditsThenUndos` round trip covers clearing the canvas and
  opening an image, not strokes.
- The window between construction and `setGraphicsContext` is left out. The
  source starts with no surface, and every method that touches it would fail
  until the UI sets one; the model's constructor takes the surface and styles
  it at once.
