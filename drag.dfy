/**
 * The repositioning controller of one placed plant: idle until the footprint
 * is pressed, then every pointer move re-anchors the plant under the grab
 * point, clamped onto the canvas, until the pointer is released.
 */
module Drag {
  import opened Wrappers
  import opened Canvas
  import opened Placement

  /**
   * The anchor a pointer at `pointer` asks for, given `content`, the on-screen
   * corner of the design content the plants are drawn in, and the grab offset
   * captured on press, clamped onto the canvas for a footprint of diameter
   * `spacing`.
   */
  function DragTarget(pointer: Point, content: Point, offset: Point, spacing: nat): (r: Point)
    ensures spacing as real <= Height ==> Fits(r.x, r.y, spacing)
    ensures var wanted := Point(pointer.x - content.x - offset.x, pointer.y - content.y - offset.y);
      Fits(wanted.x, wanted.y, spacing) ==> r == wanted
  {
    ClampedFits(pointer.x - content.x - offset.x, pointer.y - content.y - offset.y, spacing);
    Point(ClampX(pointer.x - content.x - offset.x, spacing), ClampY(pointer.y - content.y - offset.y, spacing))
  }

  /** The drag state of the placed plant `id`, whose footprint has diameter `spacing`. */
  class Handle {
    const id: string
    const spacing: nat
    var dragging: bool
    /** Where inside the footprint the pointer grabbed it. */
    var offset: Point

    constructor (id: string, spacing: nat)
      ensures this.id == id && this.spacing == spacing
      ensures !dragging && offset == Point(0.0, 0.0)
    {
      this.id := id;
      this.spacing := spacing;
      dragging := false;
      offset := Point(0.0, 0.0);
    }

    /**
     * A press on the footprint, whose on-screen corner is `corner`: unless it
     * lands on the remove button, dragging starts and the grab offset is
     * captured.
     */
    method MouseDown(onRemoveButton: bool, pointer: Point, corner: Point)
      modifies this`dragging, this`offset
      ensures onRemoveButton ==> dragging == old(dragging) && offset == old(offset)
      ensures !onRemoveButton ==> dragging && offset == Point(pointer.x - corner.x, pointer.y - corner.y)
    {
      if onRemoveButton {
        return;
      }
      dragging := true;
      offset := Point(pointer.x - corner.x, pointer.y - corner.y);
    }

    /**
     * A pointer move anywhere on the page. While dragging, and when the design
     * content is found, with on-screen corner `content`, every entry with this
     * id is moved to the clamped drag target; otherwise nothing changes.
     */
    method MouseMove(store: Store, pointer: Point, content: Option<Point>)
      modifies store`placed
      ensures !dragging || content.None? ==> store.placed == old(store.placed)
      ensures dragging && content.Some? ==>
        var target := DragTarget(pointer, content.value, offset, spacing);
        store.placed == MoveAll(old(store.placed), id, target.x, target.y)
      ensures old(AllFit(store.placed)) && spacing as real <= Height &&
        (forall e :: e in old(store.placed) && e.id == id ==> e.plant.spacing == spacing)
        ==> AllFit(store.placed)
      ensures old(UniqueIds(store.placed)) ==> UniqueIds(store.placed)
    {
      if !dragging || content.None? {
        return;
      }
      var target := DragTarget(pointer, content.value, offset, spacing);
      if AllFit(store.placed) && spacing as real <= Height &&
        (forall e :: e in store.placed && e.id == id ==> e.plant.spacing == spacing)
      {
        MoveAllKeepsFit(store.placed, id, target.x, target.y);
      }
      store.Move(id, target.x, target.y);
    }

    /** A release anywhere ends the drag; the last position stays. */
    method MouseUp()
      modifies this`dragging
      ensures !dragging
    {
      dragging := false;
    }
  }

  /**
   * The grab point stays under the pointer: pressing a footprint whose corner
   * is at the design content's corner plus its anchor, then moving the
   * pointer by (dx, dy), asks for the anchor shifted by (dx, dy).
   */
  lemma GrabPointStable(anchor: Point, content: Point, press: Point, dx: real, dy: real, spacing: nat)
    requires Fits(anchor.x + dx, anchor.y + dy, spacing)
    ensures var corner := Point(content.x + anchor.x, content.y + anchor.y);
      var offset := Point(press.x - corner.x, press.y - corner.y);
      DragTarget(Point(press.x + dx, press.y + dy), content, offset, spacing) == Point(anchor.x + dx, anchor.y + dy)
  {
  }
}
