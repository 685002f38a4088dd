/** The configuration constants the package reads (src/utils/config.py). */
module Config {

  const MAP_WIDTH_INCHES: int := 48
  const MAP_HEIGHT_INCHES: int := 48
  const PRINT_DPI: int := 300

  /** The pastel palette counties are coloured from. */
  const COUNTY_COLORS: seq<string> := [
    "#FFE5CC", "#FFD1DC", "#FFF8DC", "#FFA07A",
    "#F5F5DC", "#FFEFD5", "#FFE4E1", "#FAFAD2"
  ]

  const HIGHWAY_COLOR: string := "#404040"
  const HIGHWAY_WIDTH: real := 1.5

  const MASJID_COLOR: string := "#228B22"
  const MASJID_SIZE: int := 100
  const MASJID_SYMBOL: string := "*"

  const COUNTY_EDGE_COLOR: string := "#CCCCCC"
  const COUNTY_EDGE_WIDTH: real := 0.5
  const COUNTY_ALPHA: real := 0.8

  const TITLE_FONT_SIZE: int := 24

  const SHAPEFILES_DIR: string := "data/shapefiles"
  const OUTPUT_DIR: string := "output"
  const COUNTIES_SHAPEFILE: string := "tl_2023_us_county.shp"
  const HIGHWAYS_SHAPEFILE: string := "tl_2023_us_primaryroads.shp"

  const EXPORT_FORMATS: seq<string> := ["png", "pdf", "svg"]
  const PNG_DPI: int := PRINT_DPI

  /** An index into COUNTY_COLORS, as `np.random.choice(len(COUNTY_COLORS), n)` draws them. */
  type PaletteIndex = i: nat | i < |COUNTY_COLORS|
}
