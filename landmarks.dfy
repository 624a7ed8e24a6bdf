/** The detector's normalized landmark: x and y relative to the frame (origin top-left),
    z a relative depth estimate. Shared by the detection view and the 3D scene. */
module Landmarks {

  datatype Landmark = Landmark(x: real, y: real, z: real)
}
