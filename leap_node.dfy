/** LeapListener from src/leap_node/src/Sample.cpp: on every tracking frame
    that passes the 20 Hz gate it turns each right hand into one
    MarkerArray of nineteen arrows (sixteen finger bones, then the three
    palm axes) and publishes it. The publisher is modelled by returning the
    published arrays in order; the ROS clock by the `now` parameter. */
module LeapNode {
  import opened Leap
  import opened Visualization
  import opened RateGate

  /** The reference frame every marker is expressed in. */
  const FrameId: string := "leap_frame"

  /** Sixteen bone arrows and three axis arrows. */
  const MarkersPerHand: nat := 19

  /** Shaft diameter, head diameter and head length of a bone arrow. */
  const BoneScale: Vector3 := Vector3(0.005, 0.01, 0.02)

  /** Scale of an axis arrow. */
  const AxisScale: Vector3 := Vector3(0.1, 0.1, 0.1)

  // ---------------------------------------------------------------------
  // Pure pieces of one marker
  // ---------------------------------------------------------------------

  /** The decimal digit for d. */
  function DigitChar(d: nat): (c: char)
    requires d < 10
    ensures '0' <= c <= '9'
  {
    ('0' as int + d) as char
  }

  /** std::to_string on a non-negative int: its decimal digits, most
      significant first, without leading zeros. */
  function NatToString(n: nat): (s: string)
    ensures 1 <= |s|
    ensures forall k :: 0 <= k < |s| ==> '0' <= s[k] <= '9'
    ensures n < 10 <==> |s| == 1
    ensures s[|s| - 1] == DigitChar(n % 10)
  {
    if n < 10 then [DigitChar(n)] else NatToString(n / 10) + [DigitChar(n % 10)]
  }

  /** The namespace of finger i's arrows. */
  function FingerNamespace(i: nat): (ns: string)
    ensures |ns| > 13 && ns[..13] == "finger_arrow_"
  {
    "finger_arrow_" + NatToString(i)
  }

  /** Finger i's colour: red fixed, green rising and blue falling with i. */
  function FingerColor(i: nat): (c: ColorRGBA)
    ensures c.r == 0.9 && c.a == 1.0
    ensures c.g + c.b == 1.3
    ensures i <= 3 ==> 0.3 <= c.g <= 0.9 && 0.4 <= c.b <= 1.0
  {
    ColorRGBA(0.9, 0.3 + 0.2 * i as real, 1.0 - 0.2 * i as real, 1.0)
  }

  /** Sensor millimetres to marker metres. */
  function ToMeters(v: Vector): (p: Point)
    ensures p.x * 1000.0 == v.x && p.y * 1000.0 == v.y && p.z * 1000.0 == v.z
  {
    Point(v.x / 1000.0, v.y / 1000.0, v.z / 1000.0)
  }

  /** The head of an axis arrow: the tail moved by a hundredth of the
      direction (10 cm for a unit basis vector). */
  function AxisTip(origin: Point, dir: Vector): (p: Point)
    ensures (p.x - origin.x) * 100.0 == dir.x
    ensures (p.y - origin.y) * 100.0 == dir.y
    ensures (p.z - origin.z) * 100.0 == dir.z
  {
    Point(origin.x + dir.x / 100.0, origin.y + dir.y / 100.0, origin.z + dir.z / 100.0)
  }

  /** The local AxisSpec record: a direction, a namespace and a colour. */
  datatype AxisSpec = AxisSpec(dir: Vector, ns: string, color: ColorRGBA)

  /** The AxisSpec table built for a hand's basis. */
  function Axes(basis: Matrix): (r: seq<AxisSpec>)
    ensures |r| == 3
  {
    [ AxisSpec(basis.xBasis, "x_axis", ColorRGBA(1.0, 0.0, 0.0, 1.0)),
      AxisSpec(basis.yBasis, "y_axis", ColorRGBA(0.0, 1.0, 0.0, 1.0)),
      AxisSpec(basis.zBasis, "z_axis", ColorRGBA(0.0, 0.0, 1.0, 1.0)) ]
  }

  /** The arrow for bone type b of finger i, stamped `now`; it is the
      (4 * i + b)-th marker of its array. */
  function BoneMarker(i: nat, b: nat, bone: Bone, now: int): Marker
  {
    Marker(Header(now, FrameId), FingerNamespace(i), 4 * i + b, ARROW, ADD,
           BoneScale, FingerColor(i), [ToMeters(bone.prevJoint), ToMeters(bone.nextJoint)])
  }

  /** The arrow for axis k of the table, from the palm `origin`, stamped
      `now`; it follows the sixteen bone arrows. */
  function AxisMarker(k: nat, axis: AxisSpec, origin: Point, now: int): Marker
  {
    Marker(Header(now, FrameId), axis.ns, 16 + k, ARROW, ADD,
           AxisScale, axis.color, [origin, AxisTip(origin, axis.dir)])
  }

  /** The marker at position p of a hand's array: bone arrows finger by
      finger, bone type by bone type, then the x, y and z axes. */
  function MarkerAt(hand: Hand, now: int, p: nat): Marker
    requires WellFormedHand(hand)
    requires p < MarkersPerHand
  {
    if p < 16 then BoneMarker(p / 4, p % 4, hand.fingers[p / 4].bones[p % 4], now)
    else AxisMarker(p - 16, Axes(hand.basis)[p - 16], ToMeters(hand.palmPosition), now)
  }

  /** The MarkerArray published for one right hand. */
  function HandMarkers(hand: Hand, now: int): (r: MarkerArray)
    requires WellFormedHand(hand)
    ensures |r| == MarkersPerHand
    ensures forall p :: 0 <= p < |r| ==> r[p].id == p
    ensures forall p :: 0 <= p < |r| ==>
      r[p].header == Header(now, FrameId) && r[p].markerType == ARROW && r[p].action == ADD
    ensures forall p :: 0 <= p < |r| ==> |r[p].points| == 2
  {
    seq(MarkersPerHand, p requires 0 <= p < MarkersPerHand => MarkerAt(hand, now, p))
  }

  // ---------------------------------------------------------------------
  // The hands of a frame
  // ---------------------------------------------------------------------

  /** The right hands of `hands`, in order. */
  function RightHands(hands: seq<Hand>): (r: seq<Hand>)
    ensures |r| <= |hands|
    ensures forall n :: 0 <= n < |r| ==> r[n].isRight && r[n] in hands
    ensures forall n :: 0 <= n < |hands| && hands[n].isRight ==> hands[n] in r
  {
    if hands == [] then []
    else
      var init := hands[..|hands| - 1];
      var last := hands[|hands| - 1];
      assert forall h :: h in init ==> h in hands;
      RightHands(init) + (if last.isRight then [last] else [])
  }

  /** The arrays one accepted frame publishes: one per right hand, in the
      order the frame lists the hands. */
  function Publishes(hands: seq<Hand>, now: int): (r: seq<MarkerArray>)
    requires RightHandsWellFormed(hands)
    ensures |r| == |RightHands(hands)|
    ensures forall n :: 0 <= n < |r| ==> r[n] == HandMarkers(RightHands(hands)[n], now)
  {
    if hands == [] then []
    else
      var init := hands[..|hands| - 1];
      var last := hands[|hands| - 1];
      assert RightHandsWellFormed(init) by {
        forall n | 0 <= n < |init| && init[n].isRight ensures WellFormedHand(init[n]) {
          assert init[n] == hands[n];
        }
      }
      Publishes(init, now) + (if last.isRight then [HandMarkers(last, now)] else [])
  }

  // ---------------------------------------------------------------------
  // One right hand, as the callback builds it
  // ---------------------------------------------------------------------

  /** Growing a prefix of s by one element appends that element. */
  lemma PrefixExtend(s: MarkerArray, m: nat)
    requires m < |s|
    ensures s[..m + 1] == s[..m] + [s[m]]
  {
  }

  /** The body of the per-hand loop of onFrame: fills a fresh MarkerArray
      for one right hand with a marker id counter that starts at 0. */
  method BuildMarkerArray(hand: Hand, now: int) returns (markerArray: MarkerArray)
    requires WellFormedHand(hand)
    ensures markerArray == HandMarkers(hand, now)
  {
    ghost var want := HandMarkers(hand, now);
    markerArray := [];
    var markerId := 0;

    // Fingers as arrows.
    for i := 0 to 4
      invariant markerId == 4 * i
      invariant markerArray == want[..markerId]
    {
      var finger := hand.fingers[i];
      for boneType := 0 to 4
        invariant markerId == 4 * i + boneType
        invariant markerArray == want[..markerId]
      {
        var bone := finger.bones[boneType];
        var start := Point(bone.prevJoint.x / 1000.0, bone.prevJoint.y / 1000.0, bone.prevJoint.z / 1000.0);
        var end := Point(bone.nextJoint.x / 1000.0, bone.nextJoint.y / 1000.0, bone.nextJoint.z / 1000.0);
        var arrow := Marker(
          Header(now, FrameId), "finger_arrow_" + NatToString(i), markerId, ARROW, ADD,
          Vector3(0.005, 0.01, 0.02),
          ColorRGBA(0.9, 0.3 + 0.2 * i as real, 1.0 - 0.2 * i as real, 1.0),
          [start, end]);
        assert start == ToMeters(bone.prevJoint) && end == ToMeters(bone.nextJoint);
        assert arrow == BoneMarker(i, boneType, bone, now);
        BoneMarkerAt(hand, now, i, boneType);
        PrefixExtend(want, markerId);
        markerId := markerId + 1;
        markerArray := markerArray + [arrow];
      }
    }

    // Hand axes as arrows from the palm.
    var palm := hand.palmPosition;
    var origin := Point(palm.x / 1000.0, palm.y / 1000.0, palm.z / 1000.0);
    var axes := Axes(hand.basis);
    assert origin == ToMeters(hand.palmPosition);
    for k := 0 to |axes|
      invariant markerId == 16 + k
      invariant markerArray == want[..markerId]
    {
      var axis := axes[k];
      var end := Point(origin.x + axis.dir.x / 100.0, origin.y + axis.dir.y / 100.0, origin.z + axis.dir.z / 100.0);
      var arrow := Marker(
        Header(now, FrameId), axis.ns, markerId, ARROW, ADD,
        Vector3(0.1, 0.1, 0.1), axis.color, [origin, end]);
      assert end == AxisTip(origin, axis.dir);
      assert arrow == AxisMarker(k, axis, origin, now);
      AxisMarkerAt(hand, now, k);
      PrefixExtend(want, markerId);
      markerId := markerId + 1;
      markerArray := markerArray + [arrow];
    }
  }

  // ---------------------------------------------------------------------
  // What one published array holds
  // ---------------------------------------------------------------------

  /** finger_arrow_0 .. finger_arrow_3 (indeed up to 9) are the namespace
      followed by the single digit of the finger index, and no two fingers
      share a namespace. */
  lemma FingerNamespacesDistinct(i: nat, j: nat)
    requires i < 10 && j < 10
    ensures FingerNamespace(i) == "finger_arrow_" + [DigitChar(i)]
    ensures |FingerNamespace(i)| == 14
    ensures i != j ==> FingerNamespace(i) != FingerNamespace(j)
  {
    if i != j {
      assert FingerNamespace(i)[13] == DigitChar(i);
      assert FingerNamespace(j)[13] == DigitChar(j);
    }
  }

  /** The bone arrow at position 4 * i + b: namespace of finger i, id
      4 * i + b, the fixed bone scale, a colour that depends on the finger
      only, and the two joints converted to metres. */
  lemma BoneMarkerAt(hand: Hand, now: int, i: nat, b: nat)
    requires WellFormedHand(hand)
    requires i < 4 && b < 4
    ensures 4 * i + b < |HandMarkers(hand, now)|
    ensures var m := HandMarkers(hand, now)[4 * i + b];
      var bone := hand.fingers[i].bones[b];
      m == BoneMarker(i, b, bone, now) &&
      m.ns == "finger_arrow_" + [DigitChar(i)] &&
      m.id == 4 * i + b &&
      m.scale == Vector3(0.005, 0.01, 0.02) &&
      m.color == ColorRGBA(0.9, 0.3 + 0.2 * i as real, 1.0 - 0.2 * i as real, 1.0) &&
      m.points == [ToMeters(bone.prevJoint), ToMeters(bone.nextJoint)]
  {
    var p := 4 * i + b;
    assert p / 4 == i && p % 4 == b;
    FingerNamespacesDistinct(i, i);
  }

  /** The axis arrows at positions 16, 17, 18: x, y and z in turn, pure
      red, green and blue, the fixed axis scale, from the palm in metres to
      a hundredth of the basis vector beyond it. */
  lemma AxisMarkerAt(hand: Hand, now: int, k: nat)
    requires WellFormedHand(hand)
    requires k < 3
    ensures 16 + k < |HandMarkers(hand, now)|
    ensures var m := HandMarkers(hand, now)[16 + k];
      var dir := [hand.basis.xBasis, hand.basis.yBasis, hand.basis.zBasis][k];
      var origin := ToMeters(hand.palmPosition);
      m == AxisMarker(k, Axes(hand.basis)[k], origin, now) &&
      m.ns == ["x_axis", "y_axis", "z_axis"][k] &&
      m.id == 16 + k &&
      m.scale == Vector3(0.1, 0.1, 0.1) &&
      m.color == [ColorRGBA(1.0, 0.0, 0.0, 1.0), ColorRGBA(0.0, 1.0, 0.0, 1.0), ColorRGBA(0.0, 0.0, 1.0, 1.0)][k] &&
      m.points == [origin, Point(origin.x + dir.x / 100.0, origin.y + dir.y / 100.0, origin.z + dir.z / 100.0)]
  {
  }

  /** Handling the same hand at two times gives arrays that differ only in
      their stamps. */
  lemma OnlyStampDependsOnTime(hand: Hand, t1: int, t2: int)
    requires WellFormedHand(hand)
    ensures forall p :: 0 <= p < MarkersPerHand ==>
      HandMarkers(hand, t1)[p].(header := Header(t2, FrameId)) == HandMarkers(hand, t2)[p]
  {
  }

  /** The bone from (10, 20, 30) mm to (40, 50, 60) mm is drawn from
      (0.01, 0.02, 0.03) m to (0.04, 0.05, 0.06) m. */
  lemma BoneExample(now: int)
    ensures BoneMarker(0, 0, Bone(Vector(10.0, 20.0, 30.0), Vector(40.0, 50.0, 60.0)), now).points
      == [Point(0.01, 0.02, 0.03), Point(0.04, 0.05, 0.06)]
  {
  }

  /** A palm at (100, 200, 300) mm with x basis (1, 0, 0) gives an x axis
      arrow from (0.1, 0.2, 0.3) m to (0.11, 0.2, 0.3) m. */
  lemma AxisExample(basis: Matrix, now: int)
    requires basis.xBasis == Vector(1.0, 0.0, 0.0)
    ensures AxisMarker(0, Axes(basis)[0], ToMeters(Vector(100.0, 200.0, 300.0)), now).points
      == [Point(0.1, 0.2, 0.3), Point(0.11, 0.2, 0.3)]
  {
  }

  /** The colour of finger 2 is (0.9, 0.7, 0.6, 1.0). */
  lemma FingerTwoColor()
    ensures FingerColor(2) == ColorRGBA(0.9, 0.7, 0.6, 1.0)
  {
  }

  // ---------------------------------------------------------------------
  // What one accepted frame publishes
  // ---------------------------------------------------------------------

  /** An accepted frame publishes nothing exactly when it has no right hand
      (in particular when it has no hand at all). */
  lemma NothingPublishedIffNoRightHand(hands: seq<Hand>, now: int)
    requires RightHandsWellFormed(hands)
    ensures Publishes(hands, now) == [] <==> forall n :: 0 <= n < |hands| ==> !hands[n].isRight
  {
    if n :| 0 <= n < |hands| && hands[n].isRight {
      assert hands[n] in RightHands(hands);
    }
  }

  /** Every array of a frame holds exactly nineteen markers whose ids are
      their positions 0 .. 18: the id counter restarts for each right hand. */
  lemma IdsRestartPerHand(hands: seq<Hand>, now: int)
    requires RightHandsWellFormed(hands)
    ensures forall n :: 0 <= n < |Publishes(hands, now)| ==>
      |Publishes(hands, now)[n]| == MarkersPerHand &&
      forall p :: 0 <= p < MarkersPerHand ==> Publishes(hands, now)[n][p].id == p
  {
    var published: seq<MarkerArray> := Publishes(hands, now);
    forall n | 0 <= n < |published|
      ensures |published[n]| == MarkersPerHand
      ensures forall p :: 0 <= p < MarkersPerHand ==> published[n][p].id == p
    {
      var h := RightHands(hands)[n];
      assert h.isRight && h in hands;
      var m :| 0 <= m < |hands| && hands[m] == h;
      assert WellFormedHand(h);
      assert published[n] == HandMarkers(h, now);
    }
  }

  /** A single hand is kept exactly when it is a right hand. */
  lemma RightHandsSingle(h: Hand)
    ensures RightHands([h]) == if h.isRight then [h] else []
  {
    assert [h][..0] == [];
  }

  /** Filtering a concatenation filters each part and keeps their order, so
      every right hand is kept exactly once, at its place in frame order. */
  lemma {:induction false} RightHandsAppend(a: seq<Hand>, b: seq<Hand>)
    ensures RightHands(a + b) == RightHands(a) + RightHands(b)
    decreases |b|
  {
    if b == [] {
      assert a + b == a;
    } else {
      var init := b[..|b| - 1];
      var last := b[|b| - 1];
      assert (a + b)[..|a + b| - 1] == a + init;
      assert (a + b)[|a + b| - 1] == last;
      RightHandsAppend(a, init);
    }
  }

  /** The arrays of a concatenation of hands are the arrays of each part,
      in order: each right hand publishes exactly once, in frame order. */
  lemma {:induction false} PublishesAppend(a: seq<Hand>, b: seq<Hand>, now: int)
    requires RightHandsWellFormed(a) && RightHandsWellFormed(b)
    ensures RightHandsWellFormed(a + b)
    ensures Publishes(a + b, now) == Publishes(a, now) + Publishes(b, now)
    decreases |b|
  {
    assert RightHandsWellFormed(a + b) by {
      forall n | 0 <= n < |a + b| && (a + b)[n].isRight ensures WellFormedHand((a + b)[n]) {
        if n < |a| {
          assert (a + b)[n] == a[n];
        } else {
          assert (a + b)[n] == b[n - |a|];
        }
      }
    }
    if b == [] {
      assert a + b == a;
    } else {
      var init := b[..|b| - 1];
      var last := b[|b| - 1];
      assert RightHandsWellFormed(init) by {
        forall n | 0 <= n < |init| && init[n].isRight ensures WellFormedHand(init[n]) {
          assert init[n] == b[n];
        }
      }
      assert (a + b)[..|a + b| - 1] == a + init;
      assert (a + b)[|a + b| - 1] == last;
      PublishesAppend(a, init, now);
    }
  }

  /** Two right hands give two arrays, one per hand in frame order. */
  lemma TwoRightHands(h1: Hand, h2: Hand, now: int)
    requires h1.isRight && h2.isRight
    requires WellFormedHand(h1) && WellFormedHand(h2)
    ensures Publishes([h1, h2], now) == [HandMarkers(h1, now), HandMarkers(h2, now)]
  {
    assert [h1, h2][..1] == [h1];
    assert [h1][..0] == [];
  }

  /** One more hand of the frame: the arrays so far, then this hand's array
      if it is a right hand. This is the step of the per-hand loop. */
  lemma PublishesNext(hands: seq<Hand>, n: nat, now: int)
    requires RightHandsWellFormed(hands)
    requires n < |hands|
    ensures RightHandsWellFormed(hands[..n + 1])
    ensures hands[n].isRight ==> WellFormedHand(hands[n])
    ensures Publishes(hands[..n + 1], now) ==
      Publishes(hands[..n], now) + (if hands[n].isRight then [HandMarkers(hands[n], now)] else [])
  {
    assert RightHandsWellFormed(hands[..n + 1]) by {
      forall m | 0 <= m < n + 1 ensures hands[..n + 1][m] == hands[m] { }
    }
    assert hands[..n + 1][..n] == hands[..n];
  }

  /** The part of onFrame after the gate: an empty frame publishes
      nothing; otherwise every right hand, in frame order, is built into its
      own array and published. */
  method PublishFrame(hands: seq<Hand>, now: int) returns (published: seq<MarkerArray>)
    requires RightHandsWellFormed(hands)
    ensures published == Publishes(hands, now)
  {
    published := [];
    if |hands| == 0 {
      return;
    }
    for n := 0 to |hands|
      invariant RightHandsWellFormed(hands[..n])
      invariant published == Publishes(hands[..n], now)
    {
      var hand := hands[n];
      PublishesNext(hands, n, now);
      if hand.isRight {
        var markerArray := BuildMarkerArray(hand, now);
        published := published + [markerArray];
      }
    }
    assert hands[..|hands|] == hands;
  }

  // ---------------------------------------------------------------------
  // The listener
  // ---------------------------------------------------------------------

  /** LeapListener: the publisher is replaced by the arrays OnFrame returns;
      the only state is the time of the last handled frame. */
  class LeapListener {
    var lastPublish: int
    /** Proof devices: the construction time, the times of every callback
        so far, and the times of those that were handled. */
    ghost var created: int
    ghost var calls: seq<int>
    ghost var accepted: seq<int>

    /** The handled times are what the gate lets through from the callbacks
        since construction, and `lastPublish` is the latest of them (the
        construction time before the first). */
    ghost predicate Valid()
      reads this
    {
      accepted == AcceptedTimes(created, calls) && lastPublish == LastHandled(created, accepted)
    }

    /** The listener starts as if a frame had been handled at construction. */
    constructor (now: int)
      ensures Valid()
      ensures lastPublish == now && created == now && calls == [] && accepted == []
    {
      lastPublish := now;
      created := now;
      calls := [];
      accepted := [];
    }

    /** onFrame for a frame delivered at `now`. When the gate is shut the
        call has no effect. Otherwise the tick is consumed first, and then
        every right hand of the frame, in order, is published as its own
        array, whether or not the frame holds any right hand. Every call is
        recorded, so the handled times stay at least 50 ms apart. */
    method OnFrame(now: int, frame: Frame) returns (published: seq<MarkerArray>)
      requires Valid()
      requires RightHandsWellFormed(frame.hands)
      modifies this
      ensures Valid() && Spaced(accepted)
      ensures created == old(created) && calls == old(calls) + [now]
      ensures GateOpen(old(lastPublish), now) ==>
        lastPublish == now && accepted == old(accepted) + [now] &&
        published == Publishes(frame.hands, now)
      ensures !GateOpen(old(lastPublish), now) ==>
        lastPublish == old(lastPublish) && accepted == old(accepted) && published == []
    {
      published := [];
      CallStep(created, calls, accepted, lastPublish, now);
      calls := calls + [now];
      if now - lastPublish < PublishPeriodNs {
        return;
      }
      lastPublish := now;
      accepted := accepted + [now];

      published := PublishFrame(frame.hands, now);
    }
  }
}
