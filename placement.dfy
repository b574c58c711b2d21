/** The placement decisions the callout modal makes before and after the
    positioning engine runs: the initial placement, the middleware pipeline,
    the resolved side, the arrow's static side, and centred versus anchored layout. */
module Placement {
  import opened Maybe

  const Sides: set<string> := {"top", "right", "bottom", "left"}

  /** `s.split('-')[0]`: the text before the first '-', or all of it. */
  function BeforeDash(s: string): (r: string)
    ensures r <= s
    ensures '-' !in r
    ensures |r| < |s| ==> s[|r|] == '-'
  {
    if s == [] || s[0] == '-' then "" else [s[0]] + BeforeDash(s[1..])
  }

  /** `finalPlacement?.split('-')[0] || 'top'`. */
  function Side(finalPlacement: Option<string>): (r: string)
    ensures r != ""
    ensures finalPlacement.Some? && finalPlacement.value != [] && finalPlacement.value[0] != '-' ==>
      var p := finalPlacement.value;
      r <= p && '-' !in r && (|r| < |p| ==> p[|r|] == '-')
    ensures finalPlacement.None? || finalPlacement.value == [] || finalPlacement.value[0] == '-' ==>
      r == "top"
  {
    if finalPlacement.None? then "top"
    else
      var prefix := BeforeDash(finalPlacement.value);
      if prefix == "" then "top" else prefix
  }

  /** The side an aligned placement such as 'bottom-start' resolves to. */
  lemma {:induction false} BeforeDashOfAligned(side: string, alignment: string)
    requires '-' !in side
    ensures BeforeDash(side) == side
    ensures BeforeDash(side + "-" + alignment) == side
  {
    if side != [] {
      assert side[0] != '-';
      assert (side + "-" + alignment)[1..] == side[1..] + "-" + alignment;
      BeforeDashOfAligned(side[1..], alignment);
    }
  }

  lemma SideOfPlacement(side: string, alignment: string)
    requires side in Sides
    ensures Side(Some(side)) == side
    ensures Side(Some(side + "-" + alignment)) == side
  {
    BeforeDashOfAligned(side, alignment);
  }

  /** The `staticSide` table: the edge of the panel the arrow is pinned to;
      a side outside the table has no entry. */
  function StaticSide(side: string): (r: Option<string>)
    ensures r.Some? ==> r.value in Sides && r.value != side
  {
    if side == "top" then Some("bottom")
    else if side == "right" then Some("left")
    else if side == "bottom" then Some("top")
    else if side == "left" then Some("right")
    else None
  }

  /** The table is an involution on the four sides without a fixed point. */
  lemma StaticSideInvolution(side: string)
    requires side in Sides
    ensures StaticSide(side).Some? && StaticSide(side).value in Sides
    ensures StaticSide(side).value != side
    ensures StaticSide(StaticSide(side).value) == Some(side)
  {
  }

  /** The table is defined exactly on the four sides. */
  lemma StaticSideDomain(side: string)
    ensures StaticSide(side).Some? <==> side in Sides
  {
  }

  /** The placement handed to the engine: 'auto' starts from 'top'. */
  function InitialPlacement(placement: string): (r: string)
    ensures placement != "auto" ==> r == placement
    ensures placement == "auto" ==> r == "top"
  {
    if placement == "auto" then "top" else placement
  }

  /** Stages of the engine's pipeline, with their options. `Shift(padding)`
      is `shift({padding, limiter: limitShift()})`: the limiter is always the
      engine's default one. */
  datatype Middleware = Offset(px: int) | AutoPlacement(alignment: string) | Flip | Shift(padding: int) | Arrow

  /** The middleware list, in order. */
  function Middlewares(placement: string, offsetPx: int, shiftPadding: int, showArrow: bool): (r: seq<Middleware>)
    ensures |r| == (if showArrow then 4 else 3)
    ensures r[0] == Offset(offsetPx) && r[2] == Shift(shiftPadding)
    ensures r[1] == (if placement == "auto" then AutoPlacement("start") else Flip)
  {
    var base := [Offset(offsetPx), if placement == "auto" then AutoPlacement("start") else Flip, Shift(shiftPadding)];
    if showArrow then base + [Arrow] else base
  }

  /** Exactly one collision strategy runs: auto-placement for 'auto', flip
      otherwise; the arrow stage is present iff asked for, and last. */
  lemma MiddlewareStrategy(placement: string, offsetPx: int, shiftPadding: int, showArrow: bool)
    ensures var r := Middlewares(placement, offsetPx, shiftPadding, showArrow);
      (AutoPlacement("start") in r <==> placement == "auto") &&
      (Flip in r <==> placement != "auto") &&
      (Arrow in r <==> showArrow) &&
      (showArrow ==> r[|r| - 1] == Arrow)
  {
  }

  /** How the panel is laid out: centred in the viewport without the engine
      (no anchor and free float allowed: the floating element is never
      registered with the engine), or at the engine's coordinates. */
  datatype Layout = Centered | Anchored

  function PanelLayout(hasReference: bool, allowFreeFloatIfNoRef: bool): (r: Layout)
    ensures r == Centered <==> !hasReference && allowFreeFloatIfNoRef
  {
    if !hasReference && allowFreeFloatIfNoRef then Centered else Anchored
  }

  /** The arrow element is drawn exactly with `showArrow` and an anchor; the
      engine then has an arrow stage to position it. */
  function ArrowShown(showArrow: bool, hasReference: bool): (r: bool)
    ensures r <==> showArrow && hasReference
    ensures r ==> forall placement, offsetPx, shiftPadding ::
      Arrow in Middlewares(placement, offsetPx, shiftPadding, showArrow)
  {
    showArrow && hasReference
  }

  /** A centred panel never carries an arrow. */
  lemma CenteredHasNoArrow(hasReference: bool, allowFreeFloatIfNoRef: bool, showArrow: bool)
    requires PanelLayout(hasReference, allowFreeFloatIfNoRef) == Centered
    ensures !ArrowShown(showArrow, hasReference)
  {
  }
}
