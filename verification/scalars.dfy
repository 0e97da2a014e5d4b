/** Scalar types shared by the domain entities and the generated row types. */
module Scalars {

  /** Go's `int32`: identifiers of every table. */
  type Int32 = x: int | -0x8000_0000 <= x < 0x8000_0000

  /** A `time.Time` instant, kept opaque: nothing in the core does arithmetic on
      it, it is only copied and compared. `Time(0)` is Go's zero value. */
  datatype Time = Time(nanos: int)

  /** A `float64`, kept opaque as its IEEE-754 bit pattern: moisture levels and
      coordinates are only copied, never computed with. */
  datatype Float64 = Float64(bits: bv64)

  /** The float64 zero value `0`, whose bit pattern is all zeros. */
  const Zero: Float64 := Float64(0)
}
