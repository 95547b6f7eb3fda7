/** Media elements as the controller knows them: nodes registered with it
    through `addMediaElement`, and the geometry its drag session needs. An
    element's bounds are the axis-aligned rectangle at its node's layout
    position with the node's extent; a drag grabs the first registered element
    whose bounds contain the point. */
module Media {

  datatype Option<T> = None | Some(value: T)

  datatype Rect = Rect(x: real, y: real, width: real, height: real)

  /** Point containment, closed on every edge as for JavaFX bounds. */
  predicate Contains(r: Rect, px: real, py: real)
  {
    r.x <= px <= r.x + r.width && r.y <= py <= r.y + r.height
  }

  /** Index of the first rectangle, in list order, that contains the point. */
  function FirstHit(rs: seq<Rect>, px: real, py: real): (k: Option<nat>)
    ensures k.Some? ==>
      && k.value < |rs| && Contains(rs[k.value], px, py)
      && forall j :: 0 <= j < k.value ==> !Contains(rs[j], px, py)
    ensures k.None? ==> forall j :: 0 <= j < |rs| ==> !Contains(rs[j], px, py)
  {
    if rs == [] then None
    else if Contains(rs[0], px, py) then Some(0)
    else match FirstHit(rs[1..], px, py)
      case None => None
      case Some(k) => Some(k + 1)
  }

  /** A registered media element: a visual node with a layout position and an
      extent, the start position it was created with, whether a media player is attached
      (and whether that player has been told to stop), and the drag flag. */
  class MediaElement {
    var layoutX: real
    var layoutY: real
    const width: real
    const height: real
    const startX: real
    const startY: real
    const hasPlayer: bool
    var stopIssued: bool
    var isDragging: bool

    function Bounds(): (r: Rect)
      reads this
      ensures r.x == layoutX && r.y == layoutY && r.width == width && r.height == height
    {
      Rect(layoutX, layoutY, width, height)
    }

    /** A new element is not being dragged, and its player has not been stopped. */
    constructor (layoutX: real, layoutY: real, width: real, height: real, startX: real, startY: real, hasPlayer: bool)
      ensures this.layoutX == layoutX && this.layoutY == layoutY
      ensures this.width == width && this.height == height
      ensures this.startX == startX && this.startY == startY
      ensures this.hasPlayer == hasPlayer
      ensures !isDragging && !stopIssued
    {
      this.layoutX, this.layoutY := layoutX, layoutY;
      this.width, this.height := width, height;
      this.startX, this.startY := startX, startY;
      this.hasPlayer := hasPlayer;
      stopIssued := false;
      isDragging := false;
    }
  }

  /** The bounds of each element, in list order. */
  function BoundsOf(es: seq<MediaElement>): (rs: seq<Rect>)
    reads set e | e in es
    ensures |rs| == |es|
    ensures forall i :: 0 <= i < |es| ==> rs[i] == es[i].Bounds()
  {
    if es == [] then [] else [es[0].Bounds()] + BoundsOf(es[1..])
  }
}
