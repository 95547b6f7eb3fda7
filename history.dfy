/** The undo/redo history of the whiteboard as a value: the current canvas and
    two stacks of snapshots. The top of each stack is its LAST element. This is
    the specification the controller's `saveCurrentState`, `undo` and `redo`
    are proved against. */
module UndoHistory {
  import opened Canvas

  datatype History = History(canvas: Image, undo: seq<Image>, redo: seq<Image>)

  /** Total number of snapshots held by both stacks. */
  function Depth(h: History): nat
  {
    |h.undo| + |h.redo|
  }

  /** `saveCurrentState`: push the current canvas onto the undo stack and
      throw the redo branch away. */
  function Record(h: History): (r: History)
    ensures r.canvas == h.canvas && r.redo == []
    ensures |r.undo| == |h.undo| + 1 && r.undo[..|h.undo|] == h.undo
    ensures r.undo[|h.undo|] == h.canvas
  {
    History(h.canvas, h.undo + [h.canvas], [])
  }

  /** A mutating action: record the history, then change the canvas to `img`. */
  function Edit(h: History, img: Image): History
  {
    Record(h).(canvas := img)
  }

  /** `undo`: a no-op on an empty undo stack; otherwise the current canvas goes
      on top of the redo stack and the former top of the undo stack becomes
      the canvas. */
  function Undo(h: History): (r: History)
    ensures h.undo == [] ==> r == h
    ensures h.undo != [] ==>
      && r.canvas == h.undo[|h.undo| - 1]
      && |r.undo| == |h.undo| - 1 && r.undo == h.undo[..|r.undo|]
      && |r.redo| == |h.redo| + 1 && r.redo[..|h.redo|] == h.redo
      && r.redo[|h.redo|] == h.canvas
    ensures Depth(r) == Depth(h)
  {
    if h.undo == [] then h
    else
      var n := |h.undo| - 1;
      History(h.undo[n], h.undo[..n], h.redo + [h.canvas])
  }

  /** `redo`: the mirror of `Undo`, with the two stacks swapped. */
  function Redo(h: History): (r: History)
    ensures h.redo == [] ==> r == h
    ensures h.redo != [] ==>
      && r.canvas == h.redo[|h.redo| - 1]
      && |r.redo| == |h.redo| - 1 && r.redo == h.redo[..|r.redo|]
      && |r.undo| == |h.undo| + 1 && r.undo[..|h.undo|] == h.undo
      && r.undo[|h.undo|] == h.canvas
    ensures Depth(r) == Depth(h)
  {
    if h.redo == [] then h
    else
      var n := |h.redo| - 1;
      History(h.redo[n], h.undo + [h.canvas], h.redo[..n])
  }

  /** `n` consecutive undos. */
  function UndoN(h: History, n: nat): History
  {
    if n == 0 then h else Undo(UndoN(h, n - 1))
  }

  /** `n` consecutive redos. */
  function RedoN(h: History, n: nat): History
    decreases n
  {
    if n == 0 then h else RedoN(Redo(h), n - 1)
  }

  /** A sequence of mutating actions, the i-th leaving `es[i]` on the canvas. */
  function Edits(h: History, es: seq<Image>): History
  {
    if es == [] then h else Edit(Edits(h, es[..|es| - 1]), es[|es| - 1])
  }

  /** Undo followed immediately by redo restores canvas and both stacks. */
  lemma UndoThenRedo(h: History)
    requires h.undo != []
    ensures Redo(Undo(h)) == h
  {
  }

  /** Redo followed immediately by undo restores canvas and both stacks. */
  lemma RedoThenUndo(h: History)
    requires h.redo != []
    ensures Undo(Redo(h)) == h
  {
  }

  /** Undo right after a mutating action brings back the canvas from before
      it, and the stacks from before it apart from the one redo entry. */
  lemma UndoAfterEdit(h: History, img: Image)
    ensures Undo(Edit(h, img)) == History(h.canvas, h.undo, [img])
  {
  }

  /** Any recording between an undo and a redo makes that redo a no-op: the
      history is linear and a new edit discards the redo branch. */
  lemma EditInvalidatesRedo(h: History, img: Image)
    ensures Redo(Edit(Undo(h), img)) == Edit(Undo(h), img)
    ensures Redo(Record(Undo(h))) == Record(Undo(h))
  {
  }

  /** `n` undos pop the top `n` snapshots of the undo stack, the last one popped
      becoming the canvas; the total depth does not change. */
  lemma {:induction false} UndoNPops(h: History, n: nat)
    requires 0 < n <= |h.undo|
    ensures UndoN(h, n).canvas == h.undo[|h.undo| - n]
    ensures UndoN(h, n).undo == h.undo[..|h.undo| - n]
    ensures Depth(UndoN(h, n)) == Depth(h)
  {
    if n > 1 {
      UndoNPops(h, n - 1);
      var g := UndoN(h, n - 1);
      assert g.undo[..|h.undo| - n] == h.undo[..|h.undo| - n];
    }
  }

  /** After `n` undos the undo stack is `n` entries shorter. */
  lemma {:induction false} UndoNSize(h: History, n: nat)
    requires n <= |h.undo|
    ensures |UndoN(h, n).undo| == |h.undo| - n
  {
    if n > 0 {
      UndoNSize(h, n - 1);
    }
  }

  /** `n` undos followed by `n` redos restore the history exactly. */
  lemma {:induction false} UndoNThenRedoN(h: History, n: nat)
    requires n <= |h.undo|
    ensures RedoN(UndoN(h, n), n) == h
  {
    if n > 0 {
      var g := UndoN(h, n - 1);
      UndoNSize(h, n - 1);
      UndoThenRedo(g);
      assert RedoN(UndoN(h, n), n) == RedoN(g, n - 1);
      UndoNThenRedoN(h, n - 1);
    }
  }

  /** After the edits `es` the undo stack holds the old stack, then the canvas
      from before the first edit, then every edited canvas but the last, which
      is on the canvas; the redo branch is gone once anything was edited. */
  lemma {:induction false} EditsShape(h: History, es: seq<Image>)
    ensures Edits(h, es).undo == h.undo + ([h.canvas] + es)[..|es|]
    ensures Edits(h, es).canvas == ([h.canvas] + es)[|es|]
    ensures es != [] ==> Edits(h, es).redo == []
  {
    if es != [] {
      var init := es[..|es| - 1];
      EditsShape(h, init);
      assert ([h.canvas] + init)[..|init|] + [([h.canvas] + init)[|init|]] == ([h.canvas] + es)[..|es|];
    }
  }

  /** Undoing as many times as there were edits returns to the canvas and the
      undo stack from before the edits. */
  lemma EditsThenUndos(h: History, es: seq<Image>)
    ensures UndoN(Edits(h, es), |es|).canvas == h.canvas
    ensures UndoN(Edits(h, es), |es|).undo == h.undo
  {
    if es == [] {
      return;
    }
    EditsShape(h, es);
    var g := Edits(h, es);
    UndoNPops(g, |es|);
    assert g.undo[..|g.undo| - |es|] == h.undo;
  }
}
