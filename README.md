# socal-masjid-map, modelled in Dafny

socal-masjid-map turns US Census TIGER/Line shapefiles (counties and primary
roads) and a short list of masjid coordinates into a styled static map that
it saves as PNG, PDF and SVG. Most of its code calls geopandas and
matplotlib directly. This project models the decision logic around those
calls and proves what that logic promises:

- **Loading** (`Loaders`, `src/data/loaders.py`). The shapefile loaders
  raise FileNotFoundError for a missing path. Otherwise they check for an
  empty layer, then for a layer with no geometry, and wrap every failure as
  a ValueError with a fixed prefix. The masjid loaders build a table from a
  CSV file or a list of records, refuse one that lacks a required column,
  and turn (longitude, latitude) into points in EPSG:4326. A coordinate
  is converted as Python's `float()` converts it: a number is kept, a
  missing value becomes NaN, and text is parsed as a decimal literal
  (`Numerals`) or refused with Python's "could not convert" message. The CRS helpers
  check that frames agree on their CRS and bring a frame to a target CRS.
- **Rendering** (`Rendering`, `src/rendering/map_renderer.py`). The renderer
  object holds an optional figure and axes. Every drawing call refuses to
  run before `create_figure`. The complete map is drawn in a fixed layer
  order, the extent is padded on each side, and `close` is idempotent.
- **Exporting** (`Exporters`, `src/export/exporters.py`). Format names are
  dispatched case-insensitively and unsupported ones are skipped. Each
  format writes `Path(dir) / "<name>.<ext>"`, only PNG passes a dpi, and
  `get_file_info` builds the file-information record from `Path.name` and
  `Path.suffix`. The `pathlib` operations these use are modelled in
  `Paths`: a path string is parsed into a root and its components, and the
  string of a path is its normal form, so `output/` and `output` give the
  same file, and an absolute file name replaces the directory.
- **Orchestration** (`App`, `src/main.py`). The generator object loads,
  renders and exports in stages. Each stage guards its precondition, and
  `run` always cleans up.
- **The Southern California script** (`SocalMap`, `socal_map.py`). It
  resolves county and route-type colours through tables with fallbacks. It
  draws counties one at a time and highways in one layer per route type.
  It places highway labels in a single pass: the first placeable segment of
  a name wins, a segment with fewer than two coordinates is skipped without
  taking its name, and the loop stops after twelve names.

The library is replaced by values:

- A frame (`Geo.Frame`) is a set of column names, a sequence of records
  (attribute map plus optional geometry) and an optional CRS string.
- A figure's axes (`Plot.Axes`) are a value. Every drawing call appends an
  `Artist` to its log.
- The file system and the readers are a `Disk`: a map from existing paths
  to what reading them gives.
- These library behaviours are parameters: reprojection (`Projection`),
  `total_bounds` (`totalBounds`, None where the bounds would hold a NaN or
  an infinity, as for a frame with no rows or only empty geometries), the
  random palette draws (`draw`), and the `np.degrees(np.arctan2(...))`
  heading of a step (`heading`).

The shapefile check refuses a layer whose geometries are all missing, but
`isna()` does not count an empty geometry as missing. So a county layer of
empty geometries loads, and `set_extent` then refuses its NaN limits; the
model carries that ValueError through `render_complete_map` and `run`.

The modules are `Wrappers` (Option, Result, Outcome), `Text` (ASCII
lower-casing and character search), `Paths` (POSIX `pathlib` and
`os.path.join`), `Numerals` (`float()` on a string), `Geo`, `Plot`,
`Config` (the constants of `src/utils/config.py`), `Loaders`, `Rendering`,
`Exporters`, `App` and `SocalMap`.

The code folds only angles strictly above 90 or strictly below -90, so 90
and -90 are both kept, and the range is [-90, 90]. The model follows the
code (`SocalMap.Normalize`).

## Model

| member | source | states |
|---|---|---|
| SocalMap.RouteColor | socal_map.py:149-151 | a route type that is a key of the highway table gets that table colour; any other string, a number or a missing value gets the "C" gray |
| SocalMap.UnknownRouteIsGray | socal_map.py:269 | every route type other than I, U and S gets "#666666" for the label box, missing values included |
| SocalMap.RouteColorsDistinct | socal_map.py:27-32 | the four route types I, U, S, C get four pairwise different colours |
| SocalMap.ColorColumn | socal_map.py:148-151 | the colour column has one entry per segment; a segment of a known route type gets its table colour, and any other segment, a missing or non-string type included, gets the "C" gray |
| SocalMap.CountyColor | socal_map.py:193-194 | a county named in the county table gets its table colour, and every other name (or a non-string) gets "#F0F0F0" |
| SocalMap.CountyFill | socal_map.py:193-202 | one county is drawn on its own, in its county colour, with the "#CCCCCC" edge, line width 1.0 and alpha 0.8 |
| SocalMap.TargetCountiesColored | socal_map.py:17-22 | each of the four target counties has a colour other than the default, and no two of them share one |
| SocalMap.CountyFills | socal_map.py:192-202 | one fill per county in row order: the i-th shows exactly the i-th county in its county colour |
| SocalMap.RenderCountyFills | socal_map.py:192-202 | the county loop appends exactly the county fills to the axes, in row order, and changes nothing else |
| SocalMap.CountyFillsColored | socal_map.py:196-202 | every fill is a polygon layer of one county, with its county colour and the gray edge |
| SocalMap.OfType | socal_map.py:207-209 | the selected segments are exactly the rows whose route type equals the given type, at most as many as the rows |
| SocalMap.OfTypeConcat | socal_map.py:207-209 | the mask filter keeps order and multiplicity: filtering two runs is filtering each in turn |
| SocalMap.OfTypeOne | socal_map.py:207-209 | a single segment is selected exactly when its route type is the given one |
| SocalMap.TypeLayer | socal_map.py:210-216 | a type's layer is empty exactly when no segment has that type; otherwise it is one line layer of those segments in the type's colour |
| SocalMap.RenderHighwaysByType | socal_map.py:206-216 | the per-type loop appends the I, U, S and C layers, in that order, each only when present, and changes nothing else |
| SocalMap.RouteTypeLayers | socal_map.py:206 | iterating the route-type list gives the I, U, S and C layers in that order |
| SocalMap.TypeLayers | socal_map.py:206-216 | there is at most one layer per route type, and each is a line layer with at least one segment, an empty selection giving no layer; characterised in full by SocalMap.RouteTypeLayers |
| SocalMap.SegmentDrawnInItsLayer | socal_map.py:207-216 | a segment of a drawn route type lies in the single layer of that type, which uses the type's colour |
| SocalMap.OtherTypeNeverDrawn | socal_map.py:206-210 | a segment whose type is none of I, U, S, C appears in no drawn layer |
| SocalMap.LabelCandidates | socal_map.py:154-158 | the candidates are exactly the rows of type I or U with a non-empty string name, at most as many as the rows |
| SocalMap.LabelCandidatesConcat | socal_map.py:154-158 | the candidate filter keeps order and multiplicity: filtering two runs is filtering each in turn |
| SocalMap.LabelCandidatesOne | socal_map.py:154-158 | a single segment is a candidate exactly when it is of type I or U with a non-empty string name |
| SocalMap.Normalize | socal_map.py:261-264 | an angle in [-180, 180] is folded into [-90, 90] by adding or removing 180 at most once; angles already in [-90, 90] are unchanged |
| SocalMap.NormalizeIdempotent | socal_map.py:261-264 | folding an already folded angle changes nothing |
| SocalMap.Placement | socal_map.py:249-266 | a label is placed exactly when the geometry has a coordinate sequence of at least two points; the anchor is coords[len/2], the mid index is at least 1, and the angle is the folded heading from coords[mid-1] to coords[mid] |
| SocalMap.HighwayLabel | socal_map.py:268-285 | the label is an annotation of the row's name with no offset, at the placement's middle point and rotated by its folded angle, boxed in the row's route colour |
| SocalMap.MidpointAnnotation | socal_map.py:252-285 | the annotation the loop body builds for a row with at least two coordinates is that row's label: with two or more points the mid index is at least 1, so the angle always comes from the step into the middle point |
| SocalMap.HighwayLabels | socal_map.py:241-291 | no more labels than rows, each an annotation whose name was not already taken |
| SocalMap.FirstLabels | socal_map.py:241-288 | the selection without the cap: no more labels than rows, each an annotation |
| SocalMap.SelectHighwayLabels | socal_map.py:241-291 | the label loop appends exactly the selected labels to the axes and changes nothing else |
| SocalMap.LabelsAreCappedFirstLabels | socal_map.py:288-291 | the cap only cuts: the selected labels are the first 12 of the uncapped first-name-wins selection |
| SocalMap.FirstLabelsDistinct | socal_map.py:246-247 | no two labels carry the same name, and no label carries a name already taken |
| SocalMap.FirstLabelIsFirstPlaceable | socal_map.py:243-288 | every label comes from a placeable row whose name was not taken, and every earlier row with that name is unplaceable |
| SocalMap.PlaceableNameLabelled | socal_map.py:246-288 | every placeable row whose name was not taken beforehand has its name labelled |
| SocalMap.HighwayLabelsBounded | socal_map.py:241-291 | at most 12 labels are placed, all annotations, with pairwise different names |
| SocalMap.CandidateLabelsStyled | socal_map.py:154-158 | labels drawn from candidates have a non-empty string name and a red or blue box |
| SocalMap.ShortSegmentDoesNotTakeName | socal_map.py:249-251 | a one-point segment of a name is skipped and a later two-point segment of the same name is labelled |
| SocalMap.LabelHighways | socal_map.py:154-291 | the label step draws exactly the loop's labels of the candidates filtered from the regional highways, and nothing else |
| SocalMap.RegionalLabelsStyled | socal_map.py:154-291 | on any regional highways at most 12 labels are placed, each with a non-empty string name, boxed red or blue, and no two with the same name |
| Geo.CoordinateSequence | socal_map.py:249-250 | a geometry has a coordinate sequence exactly when it is a point or a line string |
| Loaders.ValidateShapefile | src/data/loaders.py:36-45 | a read passes exactly when it succeeded with a non-empty frame that has some geometry, and then the frame comes back unchanged |
| Loaders.LoadShapefile | src/data/loaders.py:15-83 | FileNotFoundError exactly when the path is missing, with the "not found" message; every later failure is a ValueError with the "Failed to load ... shapefile: " prefix; success exactly for a usable read, returning the frame unchanged |
| Loaders.LoadCounties | src/data/loaders.py:15-48 | without a path FileNotFoundError is raised exactly when the default county file under the shapefile directory is missing; a loaded layer is the one read from the resolved path, unchanged |
| Loaders.LoadHighways | src/data/loaders.py:50-83 | without a path FileNotFoundError is raised exactly when the default primary-roads file under the shapefile directory is missing; a loaded layer is the one read from the resolved path, unchanged |
| Loaders.DefaultCountiesPath | src/data/loaders.py:29-30 | the default county path is data/shapefiles/tl_2023_us_county.shp |
| Loaders.DefaultHighwaysPath | src/data/loaders.py:65-66 | the default highway path is data/shapefiles/tl_2023_us_primaryroads.shp |
| Loaders.EmptyShapefileMessage | src/data/loaders.py:35-48 | an empty layer fails with the wrapped "shapefile is empty" message |
| Loaders.NoGeometryMessage | src/data/loaders.py:42-48 | a non-empty layer with no geometry fails with the wrapped "contains no valid geometries" message |
| Loaders.MissingFrom | src/data/loaders.py:111-112 | the missing list holds exactly the required names absent from the columns, no more of them than are required, and is empty exactly when all are present |
| Loaders.MissingFromConcat | src/data/loaders.py:111-112 | the check keeps the order of the required list: what is missing of two lists is what is missing of the first, then of the second |
| Loaders.MissingFromOne | src/data/loaders.py:112 | a single required name is reported exactly when it is not a column |
| Loaders.MissingColumns | src/data/loaders.py:149-150 | the absent columns in the order name, latitude, longitude: a required column is reported exactly when it is absent, and none is reported exactly when all three are present |
| Loaders.ToFloat | src/data/loaders.py:119 | a number converts to itself and a missing value to NaN; text converts exactly when Python's `float()` parses it, to the parsed value, and otherwise fails with "could not convert string to float: '<text>'" |
| Loaders.ToFloats | src/data/loaders.py:119 | a column converts exactly when every value does, giving one number per value, each that value's conversion |
| Loaders.Column | src/data/loaders.py:119 | the column has one value per row, and that value is the row's cell |
| Loaders.PointsFromXY | src/data/loaders.py:117-121 | the points are built exactly when every longitude and latitude converts, one point per row at (longitude, latitude); otherwise some value fails to convert |
| Loaders.PointFrame | src/data/loaders.py:110-121 | the frame is built exactly when no required column is missing and every longitude and latitude converts |
| Loaders.PointFrameShape | src/data/loaders.py:117-121 | a built frame keeps the columns and each row's attributes, puts a point at (longitude, latitude) on each, and has CRS EPSG:4326 |
| Loaders.MissingColumnsRefused | src/data/loaders.py:111-114 | a table lacking a required column is refused with "Missing required columns: " and exactly the absent names |
| Loaders.LoadFromCsv | src/data/loaders.py:90-126 | FileNotFoundError exactly for a missing path; other failures carry the "Failed to load masjid CSV: " prefix; success exactly when the read and the point construction succeed |
| Loaders.LoadedCsvIsPoints | src/data/loaders.py:104-126 | a loaded CSV layer is a point layer with one record per CSV row |
| Loaders.KeysOf | src/data/loaders.py:146 | every key of every record is one of the table's columns |
| Loaders.KeysOfRecords | src/data/loaders.py:146 | the table's columns are exactly the keys that occur in some record |
| Loaders.Filled | src/data/loaders.py:146 | a record becomes a row over all columns, with its own value where it has the key and a missing value elsewhere |
| Loaders.TableFromRecords | src/data/loaders.py:146 | one row per record, over the union of the keys, each the filled record |
| Loaders.MissingFieldReportedIffAbsentEverywhere | src/data/loaders.py:146-152 | a required field is reported missing exactly when no record has it |
| Loaders.LoadFromList | src/data/loaders.py:129-164 | the empty list fails with the unwrapped "Masjid data list is empty"; every other failure is a ValueError with the "Failed to load masjid data: " prefix; success exactly when the points can be built |
| Loaders.LoadedMasjidsArePoints | src/data/loaders.py:155-159 | a loaded masjid list is a point layer with one record per input record |
| Loaders.CompleteRecordsLoad | src/data/loaders.py:142-161 | a non-empty list whose records all carry a name and numeric coordinates loads |
| Loaders.OneRecordLoads | src/data/loaders.py:142-161 | a single record with a name and convertible coordinates loads as one row, the record at (longitude, latitude) |
| Loaders.TextCoordinatesLoad | src/data/loaders.py:155-159 | a record whose coordinates are the strings "34.05" and "-118.24" loads, at the point (-118.24, 34.05) |
| Loaders.CellOfRecord | src/data/loaders.py:146 | a key of a record is a column, and the record's row holds its value there |
| Loaders.ColumnOfRecords | src/data/loaders.py:146 | a key every record has gives the column of those records' values |
| Loaders.PointFrameIsPointLayer | src/data/loaders.py:155-159 | a built frame is a point layer in EPSG:4326 |
| Loaders.ValidateCrsConsistency | src/data/loaders.py:167-181 | true exactly when all frames have the same CRS, and so true for none |
| Loaders.EnsureCrs | src/data/loaders.py:184-200 | the result always has the target CRS and keeps columns, row count and attributes; no CRS means no coordinate moves, the target CRS gives the same frame, and another CRS reprojects every geometry |
| Loaders.SetCrs | src/data/loaders.py:195-196 | `set_crs` labels the frame with the target CRS and keeps its columns and its records unchanged |
| Loaders.ToCrs | src/data/loaders.py:197-198 | `to_crs` gives the target CRS and the same columns and row count; each record keeps its attributes and has its geometry reprojected from the old CRS to the target |
| Loaders.EnsureCrsIdempotent | src/data/loaders.py:195-200 | bringing a frame to a CRS twice is the same as once |
| Loaders.EnsuredFramesAreConsistent | src/data/loaders.py:177-200 | frames all brought to one target pass the consistency check |
| Loaders.EnsureCrsKeepsPoints | src/data/loaders.py:197-198 | reprojection keeps a point layer a point layer |
| Text.Lower | src/export/exporters.py:133 | lower-casing keeps the length and lower-cases each ASCII letter in place |
| Exporters.ParseFormat | src/export/exporters.py:133-141 | a name is dispatched to a format only when it lower-cases to that format's extension |
| Exporters.Dispatched | src/export/exporters.py:132-143 | a supported entry contributes exactly its format, an unsupported one nothing; at most one format, whose extension is the entry lower-cased |
| Exporters.ExportPlan | src/export/exporters.py:132-146 | no more formats are exported than entries are given |
| Exporters.PlannedSaves | src/export/exporters.py:132-144 | one save per exported format, in the plan's order, each the default save of that format for the directory and name |
| Exporters.ExportPlanMembers | src/export/exporters.py:132-146 | a format is exported exactly when some entry dispatches to it |
| Exporters.RequestedFormats | src/export/exporters.py:127-128 | no list means ["png", "pdf", "svg"]; a given list is used as it is |
| Exporters.ParseLowercase | src/export/exporters.py:133-141 | a lowercase name is dispatched exactly when it is png, pdf or svg |
| Exporters.ParseFormatIgnoresCase | src/export/exporters.py:133-138 | a name and its lower-cased form are dispatched alike |
| Exporters.UpperPng | src/export/exporters.py:133-134 | "PNG" is dispatched to PNG |
| Exporters.DefaultSave | src/export/exporters.py:40-108 | a format is saved to its export path under the figure; only PNG passes a dpi, and that dpi is PNG_DPI |
| Exporters.PlannedPaths | src/export/exporters.py:132-146 | one path per planned format, in order, the i-th the export path of the i-th format |
| Exporters.ExportPathParts | src/export/exporters.py:40 | for a filename without a separator the export path, parsed, has the directory's root and components followed by `<name>.<ext>` |
| Exporters.PlainExportPath | src/export/exporters.py:40 | under a plain relative directory the export path is `<dir>/<name>.<ext>` as written |
| Exporters.DefaultDirectory | src/utils/config.py:48 | under the configured directory a file is written to output/<name>.<ext> |
| Exporters.TrailingSeparatorIgnored | src/export/exporters.py:40 | a trailing separator on the directory gives the same path |
| Exporters.EmptyDirectory | src/export/exporters.py:40 | the empty directory leaves `<name>.<ext>` with no leading separator |
| Exporters.AbsoluteFilename | src/export/exporters.py:40 | an absolute file name replaces the output directory |
| Exporters.PlainPlannedPaths | src/export/exporters.py:132-146 | under a plain directory the i-th planned path is `<dir>/<name>.<ext>` of the i-th format |
| Exporters.PlainDefaultPaths | src/export/exporters.py:127-146 | under a plain directory PNG, PDF and SVG are written to `<dir>/<name>.png`, `.pdf` and `.svg`, in that order |
| Exporters.MapExporter.constructor | src/export/exporters.py:13-21 | a new exporter keeps its output directory and has saved nothing |
| Exporters.MapExporter.ExportPng | src/export/exporters.py:23-52 | returns the string of `Path(dir) / "<name>.png"` and saves the figure there once, with the given dpi, PNG_DPI by default |
| Exporters.MapExporter.ExportPdf | src/export/exporters.py:54-80 | returns the string of `Path(dir) / "<name>.pdf"` and saves the figure there once, without a dpi |
| Exporters.MapExporter.ExportSvg | src/export/exporters.py:82-108 | returns the string of `Path(dir) / "<name>.svg"` and saves the figure there once, without a dpi |
| Exporters.MapExporter.ExportFormat | src/export/exporters.py:133-138 | dispatching a format makes the one default save of that format and returns its path |
| Exporters.MapExporter.ExportEntry | src/export/exporters.py:132-144 | one loop entry saves and returns its format's path when supported, and nothing otherwise |
| Exporters.MapExporter.ExportAllFormats | src/export/exporters.py:110-146 | returns exactly one path per supported entry, in input order, with duplicates kept, and saves exactly those files; `None` means the configured formats |
| Exporters.ExportPlanConcat | src/export/exporters.py:132-146 | the entries of two lists export as the first's exports followed by the second's |
| Exporters.UnsupportedFormatSkipped | src/export/exporters.py:139-141 | an unsupported entry adds nothing and the entries after it are still exported |
| Exporters.AllSupportedAllExported | src/export/exporters.py:130-146 | when every entry is supported, the i-th export is the i-th entry's format |
| Exporters.ConfiguredNamesDispatch | src/export/exporters.py:133-138 | png, pdf and svg dispatch to their own formats |
| Exporters.DefaultFormats | src/export/exporters.py:127-128 | no format list means PNG, PDF and SVG, in that order |
| Exporters.MixedFormatExamples | src/export/exporters.py:132-146 | ["png", "bmp"] exports only PNG, and ["PNG", "png"] exports PNG twice |
| Exporters.MapExporter.GetFileInfo | src/export/exporters.py:148-171 | a missing file gives exactly the "File not found" error record; otherwise the file name is `Path(filepath).name`, which holds no separator, the format is its lower-cased suffix, the size in bytes is reported, the size in MB is within 0.005 of bytes/1048576, and exists is true |
| Exporters.Round2 | src/export/exporters.py:168 | the rounded size is within 0.005 of the size and has at most two decimals |
| Exporters.ExportedFileInfo | src/export/exporters.py:160-171 | an exported file's record names it <name>.<ext>, reports format .<ext>, its size and exists |
| Exporters.ExportedName | src/export/exporters.py:166 | the name of the path `Path(dir) / "<name>.<ext>"` is `<name>.<ext>`, for any directory |
| Exporters.ExportedSuffix | src/export/exporters.py:169 | the lower-cased suffix of `<name>.<ext>` is `.<ext>` when the name is not empty |
| Paths.Split | src/export/exporters.py:20 | the pieces of a string between its separators, none holding a separator, join back to the string |
| Paths.SplitJoin | src/export/exporters.py:20 | splitting a join of separator-free pieces gives the pieces back |
| Paths.Components | src/export/exporters.py:20 | the components of a path string are all non-empty, not "." and free of separators |
| Paths.ComponentsConcat | src/export/exporters.py:40 | the components on both sides of a separator are kept apart, whatever separators surround it |
| Paths.Parse | src/export/exporters.py:158 | a parsed path is in normal form |
| Paths.ParseFormat | src/export/exporters.py:52 | parsing the string of a path in normal form gives the path back |
| Paths.JoinComponents | src/export/exporters.py:40 | the components of a join are the name's when it is absolute, otherwise the directory's then the name's |
| Paths.JoinName | src/export/exporters.py:40 | joining a single component appends it to the directory's parsed form, keeping its root |
| Paths.RootOfJoin | src/export/exporters.py:40 | joining a relative name keeps the directory's root |
| Paths.PlainJoin | src/export/exporters.py:40 | a plain directory and a single component give `<dir>/<name>` as written |
| Paths.TrailingSeparator | src/export/exporters.py:20 | a trailing separator adds no component |
| Paths.Suffix | src/export/exporters.py:169 | the suffix is non-empty exactly when the name's last dot is neither its first nor its last character; it is then that dot and everything after it |
| Paths.Root | src/export/exporters.py:20 | the root of a path string is "", "/" or "//", is empty exactly when the string does not start with a separator, and is a prefix of the string |
| Paths.Format | src/export/exporters.py:52 | the string of a path is never empty and starts with the path's root |
| Paths.PosixJoin | src/export/exporters.py:40 | an absolute name replaces the directory; otherwise the join starts with the directory, ends with the name, and has at most one separator between them |
| Paths.Name | src/export/exporters.py:166 | `Path.name` is the last component; for a parsed path it is empty exactly when there are no components and never holds a separator |
| Numerals.DecimalLiteral | src/data/loaders.py:157 | an optionally signed run of digits with an optional fraction denotes all its digits as one integer, scaled down by ten per fractional digit |
| Numerals.MantissaWithPoint | src/data/loaders.py:157 | digits, a point and digits read as one integer scaled by the digits after the point |
| Numerals.SurroundingSpaceIgnored | src/data/loaders.py:157 | a space before or after the text does not change its value |
| Numerals.CoordinateTextExamples | src/data/loaders.py:157 | "34.05" converts to 34.05 and "-118.24" to -118.24 |
| Numerals.LettersRefused | src/data/loaders.py:157 | "abc" is refused |
| Numerals.EmptyRefused | src/data/loaders.py:157 | the empty string is refused |
| Numerals.Strip | src/data/loaders.py:157 | `str.strip()` leaves text that neither starts nor ends with whitespace |
| Numerals.StripKeepsRun | src/data/loaders.py:157 | what `str.strip()` leaves is a run of the text with only whitespace before and after it |
| Numerals.ParseFloat | src/data/loaders.py:157 | text that is empty once stripped is refused; characterised further by Numerals.DecimalLiteral, Numerals.SurroundingSpaceIgnored and Numerals.LettersRefused |
| Rendering.PaletteColors | src/rendering/map_renderer.py:71-73 | one colour per county, each an element of the palette |
| Rendering.CountyLayer | src/rendering/map_renderer.py:70-82 | every county is drawn, the i-th face in the palette colour of the i-th draw, with the configured edge colour, width and alpha |
| Rendering.HighwayLayer | src/rendering/map_renderer.py:94-97 | every highway is drawn as a line in HIGHWAY_COLOR, HIGHWAY_WIDTH wide, at alpha 0.8 |
| Rendering.MasjidMarkers | src/rendering/map_renderer.py:109-116 | every masjid is drawn as a MASJID_SYMBOL marker in MASJID_COLOR of size MASJID_SIZE at alpha 0.9 |
| Rendering.Label | src/rendering/map_renderer.py:119-129 | a masjid label is an annotation of its name at its point, offset (5, 5) points, unrotated, on a white box |
| Rendering.Labels | src/rendering/map_renderer.py:119-129 | one label per masjid, in row order |
| Rendering.LabelError | src/rendering/map_renderer.py:119-122 | an unlabelable record raises KeyError exactly when there is no name column, and AttributeError otherwise |
| Rendering.FirstUnlabelable | src/rendering/map_renderer.py:119-122 | the first record from a position on that cannot be labelled, every record before it can |
| Rendering.LabelledCount | src/rendering/map_renderer.py:119-129 | the masjids before the count can all be labelled, and the one at the count cannot |
| Rendering.PointLayerFullyLabelled | src/rendering/map_renderer.py:119-122 | a named point layer is labelled in full |
| Rendering.NamelessLayerUnlabelled | src/rendering/map_renderer.py:121 | without a name column no masjid is labelled |
| Rendering.WithMasjids | src/rendering/map_renderer.py:109-129 | the masjid layer keeps every earlier artist, then adds the markers, then the label of each of the first k masjids in row order; title and limits are kept |
| Rendering.WithMasjidsStep | src/rendering/map_renderer.py:119-129 | labelling one more masjid draws its label over those before it |
| Rendering.Padded | src/rendering/map_renderer.py:154-162 | the window keeps the centre, grows the width by the factor 1 + 2p, and contains the bounds for p >= 0 |
| Rendering.WithExtent | src/rendering/map_renderer.py:154-162 | the limits are the padded bounds on both axes, and the drawn layers and title are kept |
| Rendering.WithTitle | src/rendering/map_renderer.py:141 | the title is set bold with TITLE_FONT_SIZE and pad 20, and the rest is kept |
| Rendering.Layered | src/rendering/map_renderer.py:183-192 | after the layers and k labels the clean axes hold the county, highway and marker layers, then the first k labels; the extent is the given county bounds, padded, and there is no title |
| Rendering.CompleteMap | src/rendering/map_renderer.py:164-198 | the finished map has the county layer, then the highway layer, then the masjid markers, then one label per masjid in row order; its extent is the given county bounds, padded; it has the bold title exactly when a non-empty one is given |
| Rendering.HasTitle | src/rendering/map_renderer.py:195 | definition (Python's truth value of the optional title: given and non-empty); characterised by Rendering.CompleteMap, whose map has a title exactly when it holds |
| Rendering.USMapRenderer.constructor | src/rendering/map_renderer.py:29-38 | a new renderer stores its dpi and has no figure and no axes |
| Rendering.USMapRenderer.CreateFigure | src/rendering/map_renderer.py:40-58 | creates a figure of the configured size at the renderer's dpi, with clean axes, and stores both |
| Rendering.USMapRenderer.RenderCounties | src/rendering/map_renderer.py:60-82 | before a figure exists it raises the "Must call create_figure() first" ValueError and draws nothing; otherwise it draws the county layer |
| Rendering.USMapRenderer.RenderHighways | src/rendering/map_renderer.py:84-97 | the same guard; otherwise it draws the highway layer |
| Rendering.USMapRenderer.RenderMasjids | src/rendering/map_renderer.py:99-129 | the same guard; otherwise it draws the markers and labels masjids until the first one it cannot label, raising that record's error |
| Rendering.USMapRenderer.AddTitle | src/rendering/map_renderer.py:131-141 | the same guard; otherwise it sets the title, "US Counties, Highways, and Masjids" by default |
| Rendering.USMapRenderer.SetExtent | src/rendering/map_renderer.py:143-162 | the same guard; bounds holding a NaN or an infinity raise "Axis limits cannot be NaN or Inf" and leave the axes as they were; otherwise both limits are set to the total bounds padded by `buffer_percent`, 0.02 by default |
| Rendering.USMapRenderer.RenderCompleteMap | src/rendering/map_renderer.py:164-198 | always leaves a new figure; counties without finite bounds raise the extent error on clean axes, before anything is drawn; it succeeds exactly when the bounds are finite and every masjid can be labelled, giving the complete map; otherwise it raises the labelling error with the layers drawn so far |
| Rendering.USMapRenderer.Close | src/rendering/map_renderer.py:200-205 | closes the figure once and forgets the figure and axes; without a figure it does nothing |
| App.SampleRows | src/main.py:11-22 | the built-in list has the ten samples, each with its name, latitude and longitude |
| App.MasjidList | src/main.py:55-58 | a given list is loaded as it is; without one the ten samples are loaded |
| App.SamplesLoad | src/main.py:55-58 | with no list given, the samples load as ten masjids |
| App.LoadAll | src/main.py:45-64 | loading succeeds exactly when counties, highways and the masjid list all load; each layer is then its loader's frame brought to EPSG:4326, and the masjids are a point layer with one record per input |
| App.LoadAllReportsFirstFailure | src/main.py:45-72 | the error raised is that of the first loader that fails |
| App.RunResult | src/main.py:136-164 | a loading error is passed through; after a successful load, counties without finite bounds give the extent error; with the output directory and every save taken to succeed, the run otherwise succeeds exactly when every masjid can be labelled, failing with the first unlabelable record's error, and succeeds with the planned export paths |
| App.WgsLayersConsistent | src/main.py:62-64 | three layers in EPSG:4326 pass the consistency check, and a point layer of masjids is labelled in full |
| App.LoadedLayersConsistent | src/main.py:62-64 | the loaded layers agree on their CRS and every masjid can be labelled |
| App.DefaultPaths | src/main.py:118-121 | for a filename without a separator the export writes output/<name>.png, .pdf and .svg, in that order |
| App.RunResultAfterLoading | src/main.py:153-161 | for loaded layers in EPSG:4326 with point masjids, and with the output directory and every save taken to succeed, the run succeeds exactly when loading succeeds and the counties have finite bounds; a loading error is re-raised unchanged, and otherwise the error is the extent error |
| App.RunFailsOnlyBeforeDrawing | src/main.py:153-164 | with the output directory and every save taken to succeed, a run succeeds exactly when loading succeeds and the counties have finite bounds, failing with the loading error or else the extent error, and then returns the planned export paths, output/<name>.png, .pdf and .svg for a filename without a separator |
| App.USMasjidMapGenerator.constructor | src/main.py:28-34 | a new generator has no layers, no renderer and no exporter |
| App.USMasjidMapGenerator.LoadData | src/main.py:36-72 | loads counties, highways and masjids in order, storing each as loaded; on success all three are in EPSG:4326; on failure it raises the first loader's error and keeps the results stored before it |
| App.USMasjidMapGenerator.GenerateMap | src/main.py:74-97 | raises "Data must be loaded first" when any layer is missing, before touching the renderer; otherwise it renders with a fresh renderer at PRINT_DPI, succeeding with the complete map exactly when the counties have finite bounds and every masjid can be labelled, and raising the extent error or else the labelling error |
| App.USMasjidMapGenerator.ExportMap | src/main.py:99-129 | raises "Map must be generated first" without a figure; otherwise, with the output directory and every save taken to succeed, a fresh exporter saves PNG, PDF and SVG and the three paths are returned |
| App.USMasjidMapGenerator.Cleanup | src/main.py:131-134 | closes the renderer's figure when there is a renderer, and does nothing without one |
| App.USMasjidMapGenerator.GenerateAndExport | src/main.py:155-156 | on loaded layers whose masjids can all be labelled, and with the output directory and every save taken to succeed: counties without finite bounds raise the extent error and nothing is exported; otherwise it succeeds with the three default paths and the saves of the new figure |
| App.USMasjidMapGenerator.Stages | src/main.py:153-161 | load, generate and export stop at the first error, the result being RunResult of the loaded layers; a loading failure keeps the old renderer, and after a successful load there is a fresh renderer with a figure |
| App.USMasjidMapGenerator.Run | src/main.py:136-164 | returns the stages' result, re-raising any error, with the source's default arguments; a renderer left at the end has its figure closed; once the data has loaded exactly one figure is closed, and on success it is the figure that was saved |

## Left out

- Drawing and saving are not computed. Plotting, `savefig`, `tight_layout`, fonts, the legend and its placement, and the county labels, masjid marker and leader lines in `socal_map.py` appear only as entries in an artist log, or not at all.
- Console output (`print`) is left out, including the "Exported files" listing in `export_map` (src/main.py:125-127). In the model that loop cannot raise, because every saved file exists (see the next lines); its output is not modelled.
- App.RunResult, App.RunResultAfterLoading, App.RunFailsOnlyBeforeDrawing, App.USMasjidMapGenerator.Run: the output directory's `mkdir` (src/export/exporters.py:21) and every `savefig` (src/export/exporters.py:42, 71 and 99) are taken to succeed, so every saved file exists and the listing at src/main.py:127 never meets the "File not found" record. In the program a run can still fail after loading: `mkdir` raises FileExistsError when "output" is an existing file, `savefig` raises FileNotFoundError for a filename such as "sub/map" whose directory is missing, and the listing then raises KeyError on the error record.
- App.USMasjidMapGenerator.ExportMap: the same assumption; the FileExistsError, FileNotFoundError and KeyError of the previous line are not modelled.
- App.USMasjidMapGenerator.GenerateAndExport: the same assumption, so its result leaves out those export failures.
- App.USMasjidMapGenerator.Stages: the same assumption, so the export stage adds no error to the loading and extent errors.
- File-system effects are inputs or left out: the output directory's `mkdir`, `os.path.exists`, `os.remove` of old outputs, and `stat`. The readers (`read_file`, `read_csv`) are given as a `Disk`.
- Library error texts are approximated. A reader's own failure is an opaque message wrapped with the loader's prefix, and the list repr of missing columns follows Python's `str(list)`.
- Reprojection arithmetic (`to_crs`) is a parameter. A CRS is compared as a plain string, though pyproj compares CRS objects semantically.
- Column order is left out: a frame's columns are a set.
- `np.random.choice` is a parameter (`draw`), so only membership in the palette is proved.
- `total_bounds` is a parameter; only whether its bounds are finite decides anything.
- The heading `np.degrees(np.arctan2(...))` is a parameter. Only its folding into [-90, 90] is proved, for headings in [-180, 180]. A NaN heading is not modelled.
- Floating-point rounding is not modelled. Coordinates, angles and extents are exact reals.
- Numerals.ParseFloat: a literal denotes its exact decimal value. Rounding to the nearest binary double, overflow to infinity and the sign of zero are not modelled. Only ASCII digits and the ASCII and Latin-1 whitespace are recognised, where Python also accepts other Unicode digits and spaces.
- GetFileInfo: the size in MB is rounded with two exact decimals (as `Exporters.Round2` states), not as Python's `round` on a binary float.
- GetFileInfo: `Text.Lower` lower-cases ASCII letters only, so a suffix with non-ASCII letters differs from `str.lower()`.
- Paths: only POSIX paths are modelled, as `pathlib` forms them on Linux and macOS. Windows drives and backslash separators are left out, and so are file-system lookups such as `resolve`.
- `Exporters.Round2`: states closeness (within 0.005) and two decimals, not the exact result of Python's `round` on a binary float.
- In `socal_map.py`, the county filter (`isin` and `STATEFP`), the `.cx` bounding-box slicing, the CRS checks before drawing and the fixed extent are left out. The model starts from the filtered frames.
- SocalMap.Placement: a candidate whose geometry is a Polygon or a MultiLineString is skipped in the model, as one without `coords`. In the program `hasattr(geom, "coords")` does not catch shapely's NotImplementedError, so such a candidate ends the label loop: the rest of the map is not drawn or saved, and the handler at socal_map.py:374-378 prints the error.
- Global figure numbering in matplotlib is left out. A figure replaced by a second `create_figure` is dropped without being closed, as in the code.
- `main()` in `src/main.py` (a console wrapper around `run` that exits with status 1 on failure) is not part of this model, and neither are the other top-level scripts, the download helper or the demo fixtures.
