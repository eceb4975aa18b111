/** The constant tables of the backend configuration.  Python dict literals
    keep their written order, so each table is a list of entries. */
module Config {

  /** Price multiplier per brand keyword; the first keyword contained in the
      lower-cased brand wins, so the order matters. */
  const BrandMultipliers: seq<(string, real)> := [
    ("toyota", 1.0), ("honda", 1.0), ("nissan", 0.9),
    ("bmw", 1.5), ("mercedes", 1.6), ("audi", 1.4),
    ("lexus", 1.3), ("acura", 1.2),
    ("ford", 0.8), ("chevrolet", 0.8), ("hyundai", 0.9),
    ("renault", 0.85), ("peugeot", 0.85), ("volkswagen", 1.1),
    ("porsche", 2.0), ("ferrari", 3.0), ("lamborghini", 3.5)
  ]

  /** Price multiplier per condition word (exact, lower-case match). */
  const ConditionMultipliers: seq<(string, real)> := [
    ("excellent", 1.0), ("good", 0.85), ("fair", 0.7), ("poor", 0.5)
  ]

  /** Base price per market segment (exact, lower-case match). */
  const SegmentBasePrices: seq<(string, int)> := [
    ("luxury", 50000), ("sports", 45000), ("mid-range", 25000),
    ("economy", 15000), ("commercial", 30000)
  ]

  /** Characteristic key and the regular expression whose first group captures it. */
  const CharacteristicPatterns: seq<(string, string)> := [
    ("vehicle_type", @"VEHICLE TYPE:?\s*(.+)"),
    ("brand", @"BRAND/MAKE:?\s*(.+)"),
    ("model", @"MODEL:?\s*(.+)"),
    ("year", @"APPROXIMATE YEAR:?\s*(.+)"),
    ("body_condition", @"BODY CONDITION:?\s*(.+)"),
    ("paint_condition", @"PAINT CONDITION:?\s*(.+)"),
    ("wheel_condition", @"WHEEL/TIRE CONDITION:?\s*(.+)"),
    ("size_category", @"SIZE CATEGORY:?\s*(.+)"),
    ("special_features", @"SPECIAL FEATURES:?\s*(.+)"),
    ("mileage_category", @"ESTIMATED MILEAGE CATEGORY:?\s*(.+)"),
    ("market_segment", @"MARKET SEGMENT:?\s*(.+)"),
    ("damage", @"NOTABLE DAMAGE:?\s*(.+)"),
    ("interior_condition", @"INTERIOR CONDITION:?\s*(.+)"),
    ("modifications", @"MODIFICATIONS:?\s*(.+)"),
    ("confidence_level", @"CONFIDENCE_LEVEL:?\s*(.+)"),
    ("overall_exterior_grade", @"OVERALL_EXTERIOR_GRADE:?\s*(.+)"),
    ("overall_interior_grade", @"OVERALL_INTERIOR_GRADE:?\s*(.+)"),
    ("overall_wheel_grade", @"OVERALL_WHEEL_GRADE:?\s*(.+)")
  ]

  const MaxImagesPerRequest: nat := 10
}
