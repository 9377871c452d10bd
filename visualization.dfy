/** The ROS 2 message types the listener fills in
    (visualization_msgs/Marker and the messages it embeds). Floating-point
    fields are `real`; a time stamp is integer nanoseconds. */
module Visualization {

  /** geometry_msgs/Point, in metres. */
  datatype Point = Point(x: real, y: real, z: real)

  /** geometry_msgs/Vector3, used for a marker's scale. */
  datatype Vector3 = Vector3(x: real, y: real, z: real)

  /** std_msgs/ColorRGBA. */
  datatype ColorRGBA = ColorRGBA(r: real, g: real, b: real, a: real)

  /** std_msgs/Header: time stamp (nanoseconds) and reference frame name. */
  datatype Header = Header(stamp: int, frameId: string)

  /** visualization_msgs/Marker::ARROW and Marker::ADD. */
  const ARROW: int := 0
  const ADD: int := 0

  /** visualization_msgs/Marker, restricted to the fields the listener sets. */
  datatype Marker = Marker(
    header: Header,
    ns: string,
    id: int,
    markerType: int,
    action: int,
    scale: Vector3,
    color: ColorRGBA,
    points: seq<Point>)

  /** visualization_msgs/MarkerArray: its `markers` field. */
  type MarkerArray = seq<Marker>
}
