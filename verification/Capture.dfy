/** Which GPS points are captured while a ride is being timed.

The repository's README describes a capture interval that grows with speed, cut
short by a turn or a change of speed (internal/recorder/adaptive.go has both).  The
recorder asks only for the distance from the last captured place. */
module Capture {
  import opened Prelude
  import opened Trips
  import opened Recorders

  const HEADING_TRIGGER := 15.0
  const SPEED_TRIGGER := 10.0

  // ----- the documented rule -----

  function IntervalMs(speed: real): nat {
    if speed < 5.0 then 0 else if speed < 20.0 then 5000 else if speed < 45.0 then 8000 else 15000
  }

  function Apart(a: real, b: real): real { if a >= b then a - b else b - a }

  function HeadingDelta(a: real, b: real): real {
    var d := Apart(a, b);
    if d > 180.0 then 360.0 - d else d
  }

  // A turn or a change of speed is captured at once.
  predicate Triggered(last: Point, p: Point) {
    HeadingDelta(last.course, p.course) > HEADING_TRIGGER || Apart(last.speed, p.speed) > SPEED_TRIGGER
  }

  predicate Due(last: Point, p: Point) {
    Triggered(last, p) || IntervalMs(p.speed) == 0 || p.at - last.at >= IntervalMs(p.speed)
  }

  // Each captured point was due after the one before it.
  predicate Adaptive(ps: seq<Point>) { forall k :: 0 < k < |ps| ==> Due(ps[k - 1], ps[k]) }

  // ----- what the recorder captures -----

  datatype Offer = Offer(point: Point, insertOk: bool)

  function Offered(r: Rec, os: seq<Offer>, dist: Metric): Rec {
    if os == [] then r
    else
      var n := |os| - 1;
      AddPlan(Offered(r, os[..n], dist), os[n].point, os[n].insertOk, dist).rec
  }

  function Captured(r: Rec, os: seq<Offer>, dist: Metric): seq<Point> {
    if os == [] then []
    else
      var n := |os| - 1;
      var s := Offered(r, os[..n], dist);
      Captured(r, os[..n], dist) + if Accepts(s, os[n].point, dist) then [Tagged(s, os[n].point)] else []
  }

  // The same offers at other times, and with other answers of the database.
  predicate Retimed(a: seq<Offer>, b: seq<Offer>) {
    |a| == |b| && forall k :: 0 <= k < |a| ==> SameButTime(a[k].point, b[k].point)
  }

  predicate SameButTime(p: Point, q: Point) { p == q.(at := p.at) }

  predicate SamePoints(ps: seq<Point>, qs: seq<Point>) {
    |ps| == |qs| && forall k :: 0 <= k < |ps| ==> SameButTime(ps[k], qs[k])
  }

  // Neither the times of the offers nor failing inserts change which are captured.
  lemma {:induction false} CaptureIgnoresTime(r: Rec, a: seq<Offer>, b: seq<Offer>, dist: Metric)
    requires Retimed(a, b)
    ensures SamePoints(Captured(r, a, dist), Captured(r, b, dist))
    ensures
      var s, t := Offered(r, a, dist), Offered(r, b, dist);
      s.current == t.current && s.lastPlace == t.lastPlace
  {
    if a != [] {
      var n := |a| - 1;
      CaptureIgnoresTime(r, a[..n], b[..n], dist);
      assert SameButTime(a[n].point, b[n].point);
    }
  }

  function LastPlace(r: Rec, ps: seq<Point>): Option<Place> {
    if ps == [] then r.lastPlace else Some(ps[|ps| - 1].place)
  }

  lemma {:induction false} MeasuredFromLast(r: Rec, os: seq<Offer>, dist: Metric)
    requires Timing(r)
    ensures
      var s := Offered(r, os, dist);
      s.current == r.current && s.lastPlace == LastPlace(r, Captured(r, os, dist))
  {
    if os != [] {
      MeasuredFromLast(r, os[..|os| - 1], dist);
    }
  }

  // The next point is captured exactly if it is at least 5 m from the last one captured.
  lemma CaptureIsFilter(r: Rec, os: seq<Offer>, o: Offer, dist: Metric)
    requires Timing(r)
    ensures
      var ps := Captured(r, os, dist);
      var last := LastPlace(r, ps);
      Captured(r, os + [o], dist) ==
        ps + if last.Some? && dist(last.value, o.point.place) < MIN_POINT_DISTANCE then []
             else [o.point.(trip := r.current.value.id)]
  {
    MeasuredFromLast(r, os, dist);
    assert (os + [o])[..|os|] == os;
  }

  // ----- when captures are adaptive -----

  function AtOnce(os: seq<Offer>): (all: seq<Offer>)
    ensures Retimed(os, all) && forall o :: o in all ==> o.point.at == 0
  {
    seq(|os|, k requires 0 <= k < |os| => os[k].(point := os[k].point.(at := 0)))
  }

  lemma {:induction false} CapturedAtOnce(r: Rec, os: seq<Offer>, dist: Metric)
    requires forall o :: o in os ==> o.point.at == 0
    ensures forall p :: p in Captured(r, os, dist) ==> p.at == 0
  {
    if os != [] {
      assert os[|os| - 1] in os && forall o :: o in os[..|os| - 1] ==> o in os;
      CapturedAtOnce(r, os[..|os| - 1], dist);
    }
  }

  // The neighbours among the captured points are due whenever they are offered.
  predicate NeverTooSoon(ps: seq<Point>) {
    forall k :: 0 < k < |ps| ==> Triggered(ps[k - 1], ps[k]) || IntervalMs(ps[k].speed) == 0
  }

  // Whatever the timing, captures keep the documented rule if and only if no two
  // neighbours at least 5 m apart go without a turn or a change of speed: only then
  // would the rule have to wait, and the recorder never does.
  lemma AdaptiveExactly(r: Rec, os: seq<Offer>, dist: Metric)
    ensures (forall b :: Retimed(os, b) ==> Adaptive(Captured(r, b, dist))) <==> NeverTooSoon(Captured(r, os, dist))
  {
    var ps := Captured(r, os, dist);
    if NeverTooSoon(ps) {
      forall b | Retimed(os, b) ensures Adaptive(Captured(r, b, dist)) {
        CaptureIgnoresTime(r, os, b, dist);
        StillDue(ps, Captured(r, b, dist));
      }
    }
    if forall b :: Retimed(os, b) ==> Adaptive(Captured(r, b, dist)) {
      var all := AtOnce(os);
      var qs := Captured(r, all, dist);
      assert Adaptive(qs);
      CaptureIgnoresTime(r, os, all, dist);
      CapturedAtOnce(r, all, dist);
      forall k | 0 < k < |ps| ensures Triggered(ps[k - 1], ps[k]) || IntervalMs(ps[k].speed) == 0 {
        assert Due(qs[k - 1], qs[k]) && qs[k - 1] in qs && qs[k] in qs;
        assert SameButTime(ps[k - 1], qs[k - 1]) && SameButTime(ps[k], qs[k]);
      }
    }
  }

  lemma StillDue(ps: seq<Point>, qs: seq<Point>)
    requires NeverTooSoon(ps) && SamePoints(ps, qs)
    ensures Adaptive(qs)
  {
    forall k | 0 < k < |qs| ensures Due(qs[k - 1], qs[k]) {
      assert SameButTime(ps[k - 1], qs[k - 1]) && SameButTime(ps[k], qs[k]);
    }
  }

  // So at a steady 30 km/h on a straight road two points of the same instant are both
  // captured, where the documented interval is 8 s.
  lemma SameInstantCaptured(r: Rec, first: Place, second: Place, dist: Metric)
    requires Timing(r) && r.lastPlace.None? && dist(first, second) >= MIN_POINT_DISTANCE
    ensures
      var p, q := Point("", 0, first, 30.0, 90.0, 0), Point("", 0, second, 30.0, 90.0, 0);
      var ps := Captured(r, [Offer(p, true), Offer(q, true)], dist);
      |ps| == 2 && ps[1].at - ps[0].at == 0 && IntervalMs(30.0) == 8000 && !Adaptive(ps)
  {
    var p, q := Point("", 0, first, 30.0, 90.0, 0), Point("", 0, second, 30.0, 90.0, 0);
    CaptureIsFilter(r, [], Offer(p, true), dist);
    CaptureIsFilter(r, [Offer(p, true)], Offer(q, true), dist);
    assert [] + [Offer(p, true)] == [Offer(p, true)];
    assert [Offer(p, true)] + [Offer(q, true)] == [Offer(p, true), Offer(q, true)];
    var ps := Captured(r, [Offer(p, true), Offer(q, true)], dist);
    assert !Due(ps[0], ps[1]);
  }
}
