/** Lengths as the renderer's length module represents them: a magnitude
    tagged with a unit. The orientation tag (horizontal, vertical, both)
    only matters for normalization, which is not part of this model. */
module Lengths {

  /** The units a CSS length may carry; `Percent` magnitudes are fractions
      (a percentage of 50 is stored as 0.5). */
  datatype LengthUnit = Percent | Px | Em | Ex | In | Cm | Mm | Pt | Pc

  datatype Length = Length(length: real, unit: LengthUnit)

  /** Typographic points in one inch. */
  const PointsPerInch: real := 72.0
}
