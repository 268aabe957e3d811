/** The calibration object `CalibCam`: a session is opened by `Start`, fed
    image pairs by `Compute`, and the parameter record it holds is written and
    read by `Save` and `Load`. Solving and rectification (`end`) and the
    rectify/disparity runtime (`transform`) are external library calls and
    are not part of this model. */
module Calib {
  import opened Geometry
  import opened Detector
  import Storage

  /** One call of compute: what the detector reported for the left and for
      the right image. */
  datatype Observation = Observation(left: Detection, right: Detection)

  /** A call that compute accepts: both corner lists came back non-empty. */
  predicate Accepts(o: Observation)
  {
    Detected(o.left) && Detected(o.right)
  }

  /** The accepted calls of a history, in call order. */
  function Accepted(h: seq<Observation>): seq<Observation>
  {
    if h == [] then []
    else
      var rest := Accepted(h[..|h| - 1]);
      if Accepts(h[|h| - 1]) then rest + [h[|h| - 1]] else rest
  }

  /** The left corner lists of a sequence of calls. */
  function Lefts(s: seq<Observation>): (r: seq<seq<Point2>>)
    ensures |r| == |s|
  {
    seq(|s|, k requires 0 <= k < |s| => s[k].left.corners)
  }

  /** The right corner lists of a sequence of calls. */
  function Rights(s: seq<Observation>): (r: seq<seq<Point2>>)
    ensures |r| == |s|
  {
    seq(|s|, k requires 0 <= k < |s| => s[k].right.corners)
  }

  /** Accepted is a filter: every accepted call was made and accepted, and
      there are never more accepted calls than calls. */
  lemma {:induction false} AcceptedFilters(h: seq<Observation>)
    ensures |Accepted(h)| <= |h|
    ensures forall k :: 0 <= k < |Accepted(h)| ==> Accepts(Accepted(h)[k]) && Accepted(h)[k] in h
  {
    if h != [] {
      var init := h[..|h| - 1];
      AcceptedFilters(init);
      assert forall o :: o in init ==> o in h;
    }
  }

  /** When every call is accepted, the accepted calls are all the calls. */
  lemma {:induction false} AcceptedAll(h: seq<Observation>)
    requires forall k :: 0 <= k < |h| ==> Accepts(h[k])
    ensures Accepted(h) == h
  {
    if h != [] {
      var init := h[..|h| - 1];
      AcceptedAll(init);
      assert init + [h[|h| - 1]] == h;
    }
  }

  /** Call order is kept: the k-th accepted observation is some call j of the
      history that was accepted and had exactly k accepted calls before it. */
  lemma {:induction false} AcceptedInOrder(h: seq<Observation>, k: nat)
    requires k < |Accepted(h)|
    ensures exists j :: 0 <= j < |h| && h[j] == Accepted(h)[k] && Accepts(h[j]) && |Accepted(h[..j])| == k
  {
    var n := |h| - 1;
    var init := h[..n];
    assert h[..n][..n] == init;
    if k < |Accepted(init)| {
      AcceptedInOrder(init, k);
      var j :| 0 <= j < |init| && init[j] == Accepted(init)[k] && Accepts(init[j]) && |Accepted(init[..j])| == k;
      assert h[..j] == init[..j];
      assert h[j] == Accepted(h)[k];
    } else {
      assert h[..n] == init;
      assert Accepts(h[n]) && Accepted(h)[k] == h[n];
    }
  }

  /** A rejected call leaves the accepted calls unchanged; an accepted one
      adds itself at the end. */
  lemma AcceptedSnoc(h: seq<Observation>, o: Observation)
    ensures Accepted(h + [o]) == if Accepts(o) then Accepted(h) + [o] else Accepted(h)
  {
    assert (h + [o])[..|h|] == h;
  }

  /** Accepting is batch-wise: the accepted calls of two runs of calls,
      one after the other, are those of the first followed by the second's. */
  lemma {:induction false} AcceptedAppend(h1: seq<Observation>, h2: seq<Observation>)
    ensures Accepted(h1 + h2) == Accepted(h1) + Accepted(h2)
  {
    if h2 != [] {
      var init := h2[..|h2| - 1];
      var last := h2[|h2| - 1];
      AcceptedAppend(h1, init);
      assert h2 == init + [last];
      assert h1 + h2 == (h1 + init) + [last];
      AcceptedSnoc(h1 + init, last);
      AcceptedSnoc(init, last);
    } else {
      assert h1 + h2 == h1;
    }
  }

  /** The positions of the calls in a history that compute rejected. */
  function Rejected(h: seq<Observation>): set<int>
  {
    set j | 0 <= j < |h| && !Accepts(h[j])
  }

  /** Every call is either accepted or rejected: the accepted calls number
      the calls made less the rejected ones. */
  lemma {:induction false} AcceptedCount(h: seq<Observation>)
    ensures |Accepted(h)| == |h| - |Rejected(h)|
  {
    if h != [] {
      var n := |h| - 1;
      var init := h[..n];
      AcceptedCount(init);
      if Accepts(h[n]) {
        assert Rejected(h) == Rejected(init);
      } else {
        assert Rejected(h) == Rejected(init) + {n};
        assert n !in Rejected(init);
      }
    }
  }

  /** Ten image pairs, three of which have an image without a detectable
      pattern: seven are accepted, whichever three they are. */
  lemma SevenOfTen(h: seq<Observation>)
    requires |h| == 10 && |Rejected(h)| == 3
    ensures |Accepted(h)| == 7
  {
    AcceptedCount(h);
  }

  class CalibCam {
    var display: bool
    var nx: int
    var ny: int
    var size: real
    var imgSize: Storage.Size
    var success: int
    var objectPoints: seq<seq<Point3>>
    var imagePoints1: seq<seq<Point2>>
    var imagePoints2: seq<seq<Point2>>
    var params: Storage.Params
    /** Every compute call since the last start, in order. */
    ghost var history: seq<Observation>

    /** The session invariant: the counter equals the length of all three
        vectors; the image-point vectors are the left and right corners of
        the accepted calls in call order; every object-point list is the
        grid of the current pattern. */
    ghost predicate Valid()
      reads this
    {
      && success == |objectPoints| == |imagePoints1| == |imagePoints2|
      && imagePoints1 == Lefts(Accepted(history))
      && imagePoints2 == Rights(Accepted(history))
      && forall k :: 0 <= k < |objectPoints| ==> objectPoints[k] == ObjectGrid(nx, ny)
    }

    /** The parameter record that save writes and load fills. */
    function Record(): Storage.Calibration
      reads this
    {
      Storage.Calibration(params, imgSize)
    }

    /** Display is on; the counter and the pattern are left undefined until
        start, so Valid() need not hold yet. */
    constructor ()
      ensures display
      ensures objectPoints == [] && imagePoints1 == [] && imagePoints2 == []
      ensures imgSize == Storage.Size(0, 0)
      ensures params == Storage.Params(
        Storage.EmptyMat, Storage.EmptyMat, Storage.EmptyMat, Storage.EmptyMat,
        Storage.EmptyMat, Storage.EmptyMat, Storage.EmptyMat, Storage.EmptyMat,
        Storage.EmptyMat, Storage.EmptyMat, Storage.EmptyMat, Storage.EmptyMat,
        Storage.EmptyMat, Storage.EmptyMat, Storage.EmptyMat, Storage.EmptyMat,
        Storage.EmptyMat)
    {
      display := true;
      imgSize := Storage.Size(0, 0);
      objectPoints, imagePoints1, imagePoints2 := [], [], [];
      var m := Storage.EmptyMat;
      params := Storage.Params(m, m, m, m, m, m, m, m, m, m, m, m, m, m, m, m, m);
      history := [];
    }

    method Start(nx: int, ny: int, size: real, img: Storage.Size)
      modifies this
      ensures Valid()
      ensures this.nx == nx && this.ny == ny && this.size == size && imgSize == img
      ensures success == 0 && objectPoints == [] && imagePoints1 == [] && imagePoints2 == []
      ensures history == []
      ensures display == old(display) && params == old(params)
    {
      this.nx := nx;
      this.ny := ny;
      this.size := size;
      imgSize := img;
      success := 0;
      objectPoints := [];
      imagePoints1 := [];
      imagePoints2 := [];
      history := [];
    }

    method Compute(left: Detection, right: Detection) returns (ok: bool)
      requires nx * ny >= 0
      modifies this
      ensures ok <==> Detected(left) && Detected(right)
      ensures history == old(history) + [Observation(left, right)]
      ensures ok ==> && imagePoints1 == old(imagePoints1) + [left.corners]
                     && imagePoints2 == old(imagePoints2) + [right.corners]
                     && objectPoints == old(objectPoints) + [ObjectGrid(nx, ny)]
                     && success == old(success) + 1
      ensures !ok ==> && imagePoints1 == old(imagePoints1)
                      && imagePoints2 == old(imagePoints2)
                      && objectPoints == old(objectPoints)
                      && success == old(success)
      ensures nx == old(nx) && ny == old(ny) && size == old(size) && imgSize == old(imgSize)
      ensures display == old(display) && params == old(params)
      ensures old(Valid()) ==> Valid()
    {
      ghost var o := Observation(left, right);
      AcceptedSnoc(history, o);
      history := history + [o];
      var l := ComputeOne(left, display, "Left").corners;
      var r := ComputeOne(right, display, "Right").corners;
      if l != [] && r != [] {
        ReturnedCorners(left, display, "Left", left.refined);
        ReturnedCorners(right, display, "Right", right.refined);
        imagePoints1 := imagePoints1 + [l];
        imagePoints2 := imagePoints2 + [r];
        var obj := BuildObjectPoints(nx, ny);
        objectPoints := objectPoints + [obj];
        success := success + 1;
        ok := true;
      } else {
        ok := false;
      }
    }

    /** save writes the record under the keys of the schema, and it always
        reports success. */
    method Save() returns (fs: Storage.Document, ok: bool)
      ensures fs == Storage.Save(Record())
      ensures ok
    {
      fs := Storage.Save(Record());
      ok := true;
    }

    /** load replaces the record by what is read from the document, and it
        always reports success, even when keys are missing. The session is
        untouched, except that the image size is shared with it. */
    method Load(fs: Storage.Document) returns (ok: bool)
      modifies this
      ensures Record() == Storage.Load(fs)
      ensures ok
      ensures nx == old(nx) && ny == old(ny) && size == old(size) && success == old(success)
      ensures objectPoints == old(objectPoints) && imagePoints1 == old(imagePoints1)
      ensures imagePoints2 == old(imagePoints2) && history == old(history)
      ensures display == old(display)
      ensures old(Valid()) ==> Valid()
    {
      var c := Storage.Load(fs);
      params := c.params;
      imgSize := c.imgSize;
      ok := true;
    }
  }

  /** In a valid session the k-th stored left and right corner lists are the
      detections of the k-th accepted compute call since start. */
  lemma SessionOrder(cam: CalibCam, k: nat)
    requires cam.Valid() && k < cam.success
    ensures exists j :: && 0 <= j < |cam.history|
                        && cam.imagePoints1[k] == cam.history[j].left.corners
                        && cam.imagePoints2[k] == cam.history[j].right.corners
                        && Accepts(cam.history[j])
                        && |Accepted(cam.history[..j])| == k
  {
    AcceptedInOrder(cam.history, k);
  }

  /** In a valid session the success counter is the number of accepted
      compute calls since start. */
  lemma SessionCount(cam: CalibCam)
    requires cam.Valid()
    ensures cam.success == |Accepted(cam.history)|
  {
  }
}
