/**
 * The HSV colour value. Its fields are floating point and its definition (hsv.rs) is not
 * part of this model, so it is an abstract type that only supports equality.
 */
module Hsvs {
  type Hsv(==, !new)
}
