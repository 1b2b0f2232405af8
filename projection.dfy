/**
 * The geographic side of the globe's projection, shared by the sweep, which
 * inverts every sampled pixel, and the input controller, which inverts the
 * position of a click.
 */
module Projections {
  /** A geographic coordinate [λ, φ]. */
  datatype Geo = Geo(lambda: real, phi: real)
}
