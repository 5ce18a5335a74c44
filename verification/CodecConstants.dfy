/** Sizes and constants of the iLBC codec that several modules use. */
module CodecConstants {
  const LPC_FILTERORDER := 10
  const SUBL := 40
  const EPS := 0.0000000000000002220446049250313
}
