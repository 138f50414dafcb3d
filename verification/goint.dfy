/** Go's fixed-width integers, as far as this service uses them. */
module GoInt {

  const MinInt64: int := -0x8000_0000_0000_0000
  const MaxInt64: int := 0x7FFF_FFFF_FFFF_FFFF
  const MaxUint64: int := 0xFFFF_FFFF_FFFF_FFFF

  /** Go's `int64`: identifiers are of this type throughout the service. */
  newtype Int64 = x: int | MinInt64 <= x <= MaxInt64
}
