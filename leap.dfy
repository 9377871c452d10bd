/** The parts of a Leap Motion tracking frame that the listener reads.
    The SDK's Frame, Hand, Finger, Bone, Vector and Matrix are foreign
    objects; here they are plain immutable values. Coordinates are in
    millimetres, as the sensor reports them. */
module Leap {

  /** Leap::Vector: a point or direction in sensor space (millimetres). */
  datatype Vector = Vector(x: real, y: real, z: real)

  /** Leap::Bone: a rigid segment between two joints. */
  datatype Bone = Bone(prevJoint: Vector, nextJoint: Vector)

  /** Leap::Finger: its bones indexed by Bone::Type
      (0 metacarpal, 1 proximal, 2 intermediate, 3 distal). */
  datatype Finger = Finger(bones: seq<Bone>)

  /** Leap::Matrix as returned by Hand::basis(): three direction vectors. */
  datatype Matrix = Matrix(xBasis: Vector, yBasis: Vector, zBasis: Vector)

  /** Leap::Hand: handedness, palm position, orientation basis and fingers
      (thumb first, as the SDK lists them). */
  datatype Hand = Hand(isRight: bool, palmPosition: Vector, basis: Matrix, fingers: seq<Finger>)

  /** Leap::Frame: the hands tracked in one snapshot. */
  datatype Frame = Frame(hands: seq<Hand>)

  /** Fingers 0..3 exist and each has the four bone types. */
  predicate WellFormedHand(h: Hand)
  {
    |h.fingers| >= 4 && forall i :: 0 <= i < 4 ==> |h.fingers[i].bones| >= 4
  }

  /** Every right hand of the sequence is well formed; left hands are never
      looked into, so nothing is asked of them. */
  predicate RightHandsWellFormed(hands: seq<Hand>)
  {
    forall n :: 0 <= n < |hands| && hands[n].isRight ==> WellFormedHand(hands[n])
  }
}
