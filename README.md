# Leap Motion hand markers: a Dafny model of `LeapListener`

The `leap_node` package reads hand-tracking frames from a Leap Motion
controller. It republishes each right hand as a ROS 2
`visualization_msgs/MarkerArray` of arrows. This project models the
package's one piece of logic, the `LeapListener` class in
`src/leap_node/src/Sample.cpp`: its constructor and its `onFrame` callback.

- **Rate gate** (`RateGate`). The listener keeps the time of the last
  handled frame. A callback less than 50 ms after it returns at once and
  changes nothing. A clock that went backwards also returns at once.
  Otherwise the new time is stored before anything else is looked at. Times
  are integer nanoseconds, as `rclcpp::Time` holds them. The double
  comparison `(now - last).seconds() < 0.05` gives the same answer as the
  integer one at the 50 000 000 ns boundary. `AcceptedTimes` folds the gate
  over any sequence of call times. The project proves that handled times lie
  at least 50 ms apart per step between them, so at most twenty fall in any
  window shorter than a second. It also proves that a call clearing the gate
  is handled. The class records every callback in a ghost history, and its
  invariant says that the handled times are exactly what the fold lets
  through from those callbacks.
- **Frame to markers** (`LeapNode`). Each right hand of an accepted frame
  gives one array of 19 arrows. First come 16 bone arrows, finger 0..3 by
  bone type 0..3. Then come the x, y and z palm-axis arrows. Each arrow has a
  fixed namespace, id, scale, colour, stamp, frame id, type and action. Its
  two points are in metres (millimetres / 1000). The pure functions
  `BoneMarker`, `AxisMarker`, `MarkerAt` and `HandMarkers` define what each
  array must hold. `BuildMarkerArray` is the body of the per-hand loop,
  written with the source's loops and id counter, and it is proved equal to
  `HandMarkers`. `PublishFrame` is the part of the callback after the gate:
  the empty-frame check and the loop over hands. `LeapListener.OnFrame` is
  the callback: it updates the gate state and then calls `PublishFrame`.
  It returns the arrays it publishes, in order, in place of calling the
  publisher.
- **Data** (`Leap`, `Visualization`). The Leap SDK objects and the ROS
  messages are plain datatypes. Coordinates and colours are `real`.

Two points follow from where the code declares things. `marker_array` and
`marker_id` are declared inside the per-hand loop, and `publish` is called
inside it (Sample.cpp lines 32-33 and 119). So each right hand is published
as its own array, and ids restart at 0 for every right hand.

## Model

| member | source | states |
|---|---|---|
| `RateGate.AcceptedTimes` | src/leap_node/src/Sample.cpp:21-23 | the handled times among a run of callbacks: each comes at least 50 ms after the previous handled one (or after the start time), is one of the call times, and the whole run is spaced at least 50 ms per step |
| `RateGate.GateOpen` | src/leap_node/src/Sample.cpp:22 | the gate opens only when at least 50 000 000 ns have passed since the last handled frame; an open gate implies time moved forward, so a clock standing still or going backwards keeps it shut |
| `RateGate.LastHandled` | src/leap_node/src/Sample.cpp:18-23 | the time the gate compares against: the latest handled time, which is one of the handled times, or the construction time before any frame was handled |
| `RateGate.AcceptedTimesStep` | src/leap_node/src/Sample.cpp:21-23 | one more callback at t extends the handled times by t exactly when t clears the gate against the last handled time, and leaves them unchanged otherwise |
| `RateGate.CallStep` | src/leap_node/src/Sample.cpp:21-23 | the listener's bookkeeping for one more callback: when the gate opens, appending `now` to the handled times matches the fold over the calls with `now` appended, `now` becomes the time compared against, and the handled times stay spaced; when it stays shut, the handled times already match the fold |
| `RateGate.AllClearAllHandled` | src/leap_node/src/Sample.cpp:21-23 | when every callback comes at least 50 ms after the one before it (the first after the start time), every callback is handled, in call order |
| `RateGate.AtMostTwentyPerSecond` | src/leap_node/src/Sample.cpp:22 | in a spaced history, at most 20 handled frames lie within any window shorter than one second (the "max 20 Hz" bound) |
| `RateGate.GateScenario` | src/leap_node/src/Sample.cpp:21-23 | calls at 0 s, 0.03 s and 0.06 s after a long pause: the 0.03 s call is rejected and the other two are handled |
| `LeapNode.LeapListener.constructor` | src/leap_node/src/Sample.cpp:15-18 | the last-publish time starts as the construction time; no callback has arrived and no frame has been handled yet |
| `LeapNode.LeapListener.OnFrame` | src/leap_node/src/Sample.cpp:20-121 | gate shut (now - last < 50 ms, including a clock going backwards): nothing changes and nothing is published. Gate open: the stored time becomes `now` whatever the frame holds, and the published arrays are exactly `Publishes(frame.hands, now)`. In both cases the call is recorded, the handled times stay exactly what `AcceptedTimes` lets through from the recorded calls, and they stay at least 50 ms apart |
| `LeapNode.BuildMarkerArray` | src/leap_node/src/Sample.cpp:31-116 | the nested finger/bone loops and the axis loop, with the id counter starting at 0, build exactly `HandMarkers(hand, now)` |
| `LeapNode.PublishFrame` | src/leap_node/src/Sample.cpp:25-120 | the empty-frame check and the loop over hands, with a fresh array built and published for each right hand, return exactly `Publishes(hands, now)` |
| `LeapNode.PublishesNext` | src/leap_node/src/Sample.cpp:28-29 | one more hand of the frame adds that hand's array to the published arrays if it is a right hand, and nothing if it is a left hand |
| `LeapNode.HandMarkers` | src/leap_node/src/Sample.cpp:32-116 | one hand's array has exactly 19 markers; the marker at position p has id p; every marker has stamp `now`, frame id `leap_frame`, type ARROW, action ADD and two points |
| `LeapNode.BoneMarker` | src/leap_node/src/Sample.cpp:41-67 | the bone arrow for finger i, bone type b; its content is stated by `BoneMarkerAt` |
| `LeapNode.AxisMarker` | src/leap_node/src/Sample.cpp:95-113 | the axis arrow for row k of the axis table; its content is stated by `AxisMarkerAt` |
| `LeapNode.MarkerAt` | src/leap_node/src/Sample.cpp:36-116 | the marker at position p of a hand's array: bone arrows finger-major for p < 16, then the axis arrows; its content is stated by `BoneMarkerAt` and `AxisMarkerAt` |
| `LeapNode.FingerColor` | src/leap_node/src/Sample.cpp:53-56 | red 0.9 and alpha 1.0 for every finger; green and blue always sum to 1.3; for fingers 0..3 green lies in 0.3..0.9 and blue in 0.4..1.0 (worked value in `FingerTwoColor`) |
| `LeapNode.FingerNamespace` | src/leap_node/src/Sample.cpp:44 | every finger namespace is `finger_arrow_` followed by at least one more character (the exact digit and distinctness are stated by `FingerNamespacesDistinct`) |
| `LeapNode.BoneMarkerAt` | src/leap_node/src/Sample.cpp:36-69 | the marker at position 4i+b has namespace `finger_arrow_i` and id 4i+b. Its scale is (0.005, 0.01, 0.02) and its colour (0.9, 0.3+0.2i, 1.0-0.2i, 1.0), the same for every bone of finger i. Its points are the bone's previous and next joint divided by 1000 |
| `LeapNode.AxisMarkerAt` | src/leap_node/src/Sample.cpp:73-116 | the markers at positions 16, 17 and 18 are `x_axis`, `y_axis`, `z_axis` with ids 16..18. Their colours are pure red, green and blue with alpha 1 and their scale is (0.1, 0.1, 0.1). Their points run from palm/1000 to palm/1000 + basis vector/100 |
| `LeapNode.Axes` | src/leap_node/src/Sample.cpp:82-92 | the AxisSpec table has exactly three rows |
| `LeapNode.ToMeters` | src/leap_node/src/Sample.cpp:59-64 | a point in metres is the sensor millimetre point scaled by 1/1000 (times 1000 gives the input back) |
| `LeapNode.AxisTip` | src/leap_node/src/Sample.cpp:107-110 | the head of an axis arrow lies exactly one hundredth of the direction vector beyond its tail |
| `LeapNode.NatToString` | src/leap_node/src/Sample.cpp:44 | `std::to_string` of a non-negative index: a non-empty string of decimal digits, of length 1 exactly for 0..9, ending in the last digit of the number |
| `LeapNode.FingerNamespacesDistinct` | src/leap_node/src/Sample.cpp:44 | for finger i < 10 the namespace is `finger_arrow_` followed by the one digit of i, and different fingers have different namespaces |
| `LeapNode.OnlyStampDependsOnTime` | src/leap_node/src/Sample.cpp:42-47 | handling the same hand at two times gives arrays that differ only in their header stamps |
| `LeapNode.BoneExample` | src/leap_node/src/Sample.cpp:58-64 | the bone from (10, 20, 30) mm to (40, 50, 60) mm is drawn from (0.01, 0.02, 0.03) m to (0.04, 0.05, 0.06) m |
| `LeapNode.AxisExample` | src/leap_node/src/Sample.cpp:77-110 | a palm at (100, 200, 300) mm with x basis (1, 0, 0) gives an x-axis arrow from (0.1, 0.2, 0.3) m to (0.11, 0.2, 0.3) m |
| `LeapNode.FingerTwoColor` | src/leap_node/src/Sample.cpp:53-56 | finger 2 is coloured (0.9, 0.7, 0.6, 1.0) |
| `LeapNode.RightHands` | src/leap_node/src/Sample.cpp:28-29 | the right-hand filter keeps only right hands of the frame and keeps every one of them (order and multiplicity are stated by `RightHandsSingle` and `RightHandsAppend`) |
| `LeapNode.RightHandsSingle` | src/leap_node/src/Sample.cpp:28-29 | a single hand is kept exactly when it is a right hand |
| `LeapNode.RightHandsAppend` | src/leap_node/src/Sample.cpp:28-29 | filtering a concatenation filters each part and keeps their order, so each right hand is kept exactly once, at its place in frame order |
| `LeapNode.PublishesAppend` | src/leap_node/src/Sample.cpp:28-120 | the arrays of a concatenation of hands are the arrays of each part, in order: each right hand publishes exactly once, in frame order |
| `LeapNode.Publishes` | src/leap_node/src/Sample.cpp:28-120 | an accepted frame publishes one array per right hand, in frame order. The n-th array is `HandMarkers` of the n-th right hand. Left hands contribute nothing |
| `LeapNode.NothingPublishedIffNoRightHand` | src/leap_node/src/Sample.cpp:26-29 | an accepted frame publishes nothing if and only if it has no right hand, and an empty frame is one such case |
| `LeapNode.IdsRestartPerHand` | src/leap_node/src/Sample.cpp:32-33 | every published array has 19 markers with ids 0..18 in emission order, so the counter restarts for each right hand |
| `LeapNode.TwoRightHands` | src/leap_node/src/Sample.cpp:28-120 | a frame with two right hands publishes two arrays, one per hand in order, both built from scratch |

## Left out

- `main`, `rclcpp::init`/`spin`/`shutdown`, node and publisher creation and the `/leap_markers` topic (Sample.cpp lines 128-146): process and middleware wiring.
- The publisher's transport: `publish` is modelled by returning the published arrays in call order.
- The Leap SDK (`Controller`, `Frame`, `Hand`, `Finger`, `Bone`, `Matrix`): foreign library objects, replaced by plain datatypes. `OnFrame` requires every right hand to have fingers 0..3 with four bones each, because the code indexes them without a check. Left hands are not constrained.
- `rclcpp::Clock().now()`: the time is the `now` parameter of the constructor and of `OnFrame`.
- IEEE-754 rounding of `/ 1000.0`, `/ 100.0`, the colour formula and `.seconds()`: the model uses exact `real` arithmetic and integer nanoseconds.
- The exceptions `rclcpp::Time` subtraction can throw (clock-type mismatch, 64-bit overflow): both times come from the same clock and `int` is unbounded here.
- Concurrent `onFrame` callbacks: the SDK delivers them and the code does not synchronise them; the model handles one call at a time.
- The unused tf2 includes (Sample.cpp lines 7-8).
