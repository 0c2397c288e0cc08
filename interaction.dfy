/**
 * The hover handlers on the group arcs (app.js lines 115-140): ribbon
 * opacities and the metadata tooltip, updated in place by mouse events.
 */
module Interaction {
  import opened Wrappers
  import opened Rows

  /** Opacity of the ribbons that do not touch the hovered group. */
  const Dimmed: real := 0.1
  /** Opacity of every ribbon when nothing is hovered, and of the touching ones when something is. */
  const Full: real := 1.0
  /** The tooltip sits this many pixels right of and below the mouse cursor. */
  const TooltipOffset: real := 10.0

  /** A chord ribbon; only the indices of the two groups it connects matter here. */
  datatype Ribbon = Ribbon(source: nat, target: nat)

  predicate Touches(r: Ribbon, i: nat)
  {
    r.source == i || r.target == i
  }

  /** The four fields the tooltip shows; `None` is printed as "undefined". */
  datatype Metadata = Metadata(bodysite: Option<string>, disease: Option<string>,
                               age: Option<string>, gender: Option<string>)

  function MetadataOf(r: Record): Metadata
  {
    Metadata(Field(r, "bodysite"), Field(r, "disease"), Field(r, "age"), Field(r, "gender"))
  }

  /** A page position (`event.pageX`, `event.pageY`), in pixels. */
  datatype Point = Point(x: real, y: real)

  /**
   * The interactive state of one drawn diagram: the opacity style of each
   * ribbon (`.chord` path) and the tooltip's visibility, content and position.
   * `rows` is the filtered data the handlers read the tooltip from.
   */
  class Hover {
    const ribbons: seq<Ribbon>
    const rows: seq<Record>
    const opacity: array<real>
    var tooltipVisible: bool
    var tooltipContent: Option<Metadata>
    var tooltipAt: Option<Point>

    ghost predicate Valid()
      reads this
    {
      opacity.Length == |ribbons|
    }

    /** Every ribbon touching group `i` is at full opacity and every other one dimmed. */
    ghost predicate Highlighted(i: nat)
      reads this, opacity
      requires Valid()
    {
      forall k :: 0 <= k < |ribbons| ==> opacity[k] == (if Touches(ribbons[k], i) then Full else Dimmed)
    }

    /** No highlight: every ribbon at full opacity, tooltip hidden. */
    ghost predicate Idle()
      reads this, opacity
      requires Valid()
    {
      !tooltipVisible && forall k :: 0 <= k < |ribbons| ==> opacity[k] == Full
    }

    /** The state right after drawing: ribbons carry no opacity style (full), the tooltip is hidden and empty. */
    constructor (ribbons: seq<Ribbon>, rows: seq<Record>)
      ensures Valid() && Idle() && fresh(opacity)
      ensures this.ribbons == ribbons && this.rows == rows
      ensures tooltipContent == None && tooltipAt == None
    {
      this.ribbons := ribbons;
      this.rows := rows;
      opacity := new real[|ribbons|](_ => Full);
      tooltipVisible := false;
      tooltipContent := None;
      tooltipAt := None;
    }

    /**
     * `mouseover` on group `i`: dim every ribbon, restore those touching `i`,
     * then show `rows[i]`'s metadata at the cursor. When `rows` has no row
     * `i`, reading `metadata.bodysite` throws after the ribbons were restyled
     * and the tooltip is left as it was (`shown` is false).
     */
    method MouseOver(i: nat, pageX: real, pageY: real) returns (shown: bool)
      requires Valid()
      modifies opacity, this`tooltipVisible, this`tooltipContent, this`tooltipAt
      ensures Valid() && Highlighted(i)
      ensures shown <==> i < |rows|
      ensures shown ==> tooltipVisible && tooltipContent == Some(MetadataOf(rows[i])) &&
                        tooltipAt == Some(Point(pageX + TooltipOffset, pageY + TooltipOffset))
      ensures !shown ==> tooltipVisible == old(tooltipVisible) && tooltipContent == old(tooltipContent) &&
                         tooltipAt == old(tooltipAt)
    {
      var k := 0;
      while k < opacity.Length
        invariant 0 <= k <= opacity.Length
        invariant forall q :: 0 <= q < k ==> opacity[q] == Dimmed
        modifies opacity
      {
        opacity[k] := Dimmed;
        k := k + 1;
      }
      k := 0;
      while k < opacity.Length
        invariant 0 <= k <= opacity.Length
        invariant forall q :: 0 <= q < k ==> opacity[q] == (if Touches(ribbons[q], i) then Full else Dimmed)
        invariant forall q :: k <= q < opacity.Length ==> opacity[q] == Dimmed
        modifies opacity
      {
        if Touches(ribbons[k], i) {
          opacity[k] := Full;
        }
        k := k + 1;
      }
      shown := i < |rows|;
      if shown {
        tooltipContent := Some(MetadataOf(rows[i]));
        tooltipVisible := true;
        tooltipAt := Some(Point(pageX + TooltipOffset, pageY + TooltipOffset));
      }
    }

    /** `mousemove`: only the tooltip moves; opacities, visibility and content are outside its frame. */
    method MouseMove(pageX: real, pageY: real)
      modifies this`tooltipAt
      ensures tooltipAt == Some(Point(pageX + TooltipOffset, pageY + TooltipOffset))
    {
      tooltipAt := Some(Point(pageX + TooltipOffset, pageY + TooltipOffset));
    }

    /** `mouseout`: every ribbon back to full opacity and the tooltip hidden. */
    method MouseOut()
      requires Valid()
      modifies opacity, this`tooltipVisible
      ensures Valid() && Idle()
    {
      var k := 0;
      while k < opacity.Length
        invariant 0 <= k <= opacity.Length
        invariant forall q :: 0 <= q < k ==> opacity[q] == Full
      {
        opacity[k] := Full;
        k := k + 1;
      }
      tooltipVisible := false;
    }
  }

  /**
   * A hover session: entering a second group replaces the first highlight
   * outright, and leaving restores the idle state without touching the content.
   */
  method HoverSession(ribbons: seq<Ribbon>, rows: seq<Record>, x: real, y: real)
    requires |rows| >= 2
  {
    var h := new Hover(ribbons, rows);
    var shown := h.MouseOver(0, x, y);
    assert shown && h.tooltipContent == Some(MetadataOf(rows[0]));
    shown := h.MouseOver(1, x + 1.0, y);
    assert h.Highlighted(1) && h.tooltipContent == Some(MetadataOf(rows[1]));
    h.MouseMove(x + 2.0, y);
    assert h.Highlighted(1) && h.tooltipVisible && h.tooltipAt == Some(Point(x + 12.0, y + 10.0));
    h.MouseOut();
    assert h.Idle() && h.tooltipContent == Some(MetadataOf(rows[1]));
  }
}
