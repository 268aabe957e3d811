/** The corner-detector adapter `computeOne`: it runs the external chessboard
    detector on one image and hands back its corners only when the detector
    reports the pattern as found. The detector itself is external; what it
    reports for an image is an input of this model. */
module Detector {
  import opened Geometry

  /** What the external collaborators report for one image: the detector's
      found flag and corner list, and the sub-pixel refinement of a COPY of
      that list, which only the on-screen overlay uses. */
  datatype Detection = Detection(found: bool, corners: seq<Point2>, refined: seq<Point2>)

  /** The debug overlay drawn when display is on. */
  datatype Overlay = Hidden | Shown(window: string, points: seq<Point2>, found: bool)

  /** The returned corner list together with what was shown on screen. */
  datatype CornerResult = CornerResult(corners: seq<Point2>, overlay: Overlay)

  /** A detection that `compute` accepts: found, with at least one corner. */
  predicate Detected(d: Detection)
  {
    d.found && d.corners != []
  }

  function ComputeOne(d: Detection, display: bool, window: string): (r: CornerResult)
    ensures r.corners != [] <==> Detected(d)
    ensures r.corners == [] || r.corners == d.corners
    ensures r.overlay != Hidden <==> display
  {
    var shown := if display then Shown(window, d.refined, d.found) else Hidden;
    if d.found then CornerResult(d.corners, shown) else CornerResult([], shown)
  }

  /** The returned corners are the detector's list when it reports found and
      the empty list otherwise, whatever the display setting and whatever the
      refinement of the copy produced. */
  lemma ReturnedCorners(d: Detection, display: bool, window: string, refined: seq<Point2>)
    ensures d.found ==> ComputeOne(d, display, window).corners == d.corners
    ensures !d.found ==> ComputeOne(d, display, window).corners == []
    ensures ComputeOne(d.(refined := refined), !display, window).corners
         == ComputeOne(d, display, window).corners
  {
  }

  /** With display on, the overlay shows the refined copy and the found flag
      under the given window name; the returned list is still the raw one. */
  lemma OverlayShowsRefinedCopy(d: Detection, window: string)
    ensures ComputeOne(d, true, window).overlay == Shown(window, d.refined, d.found)
    ensures d.found ==> ComputeOne(d, true, window).corners == d.corners
  {
  }
}
