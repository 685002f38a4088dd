/**
 * Loading and validating the input layers (src/data/loaders.py): county and
 * highway shapefiles, masjid points from a CSV file or a list of records,
 * and the CRS helpers. Everything here is a pure function of the inputs;
 * reading a file is given as the `Disk`, reprojection as a `Projection`.
 */
module Loaders {
  import opened Wrappers
  import opened Geo
  import Config
  import Numerals

  /**
   * What the file system and the readers give: for every existing path, the
   * frame `read_file` / `read_csv` returns, or the message of what it raised.
   * The two maps are one file system seen through its two readers: a path
   * `os.path.exists` finds is a key of the map of the reader it is handed
   * to, and each loader asks only that reader.
   */
  datatype Disk = Disk(
    shapefiles: map<string, Result<Frame, string>>,
    csvFiles: map<string, Result<Table, string>>)

  datatype ShapefileLayer = Counties | Highways

  /** The layer's name as it opens a sentence ("Counties") and inside one ("counties"). */
  function LayerTitle(layer: ShapefileLayer): string
  {
    match layer
    case Counties => "Counties"
    case Highways => "Highways"
  }

  function LayerNoun(layer: ShapefileLayer): string
  {
    match layer
    case Counties => "counties"
    case Highways => "highways"
  }

  /** `os.path.join(SHAPEFILES_DIR, <layer's shapefile>)`. */
  function DefaultShapefilePath(layer: ShapefileLayer): string
  {
    Config.SHAPEFILES_DIR + "/" +
      match layer
      case Counties => Config.COUNTIES_SHAPEFILE
      case Highways => Config.HIGHWAYS_SHAPEFILE
  }

  /** The default county path written out. */
  lemma DefaultCountiesPath()
    ensures DefaultShapefilePath(Counties) == "data/shapefiles" + "/" + "tl_2023_us_county.shp"
  {
  }

  /** The default highway path written out. */
  lemma DefaultHighwaysPath()
    ensures DefaultShapefilePath(Highways) == "data/shapefiles" + "/" + "tl_2023_us_primaryroads.shp"
  {
  }

  function ResolvePath(layer: ShapefileLayer, path: Option<string>): string
  {
    if path.None? then DefaultShapefilePath(layer) else path.value
  }

  /** `gdf.geometry.isna().all()`. */
  predicate AllGeometryMissing(f: Frame)
  {
    forall i :: 0 <= i < |f.rows| ==> f.rows[i].geometry.None?
  }

  /** A frame the shapefile checks accept: at least one record, and at least one geometry present. */
  predicate UsableLayer(f: Frame)
  {
    |f.rows| > 0 && exists i :: 0 <= i < |f.rows| && f.rows[i].geometry.Some?
  }

  /** The body of the loader's `try`: the read, then the emptiness and geometry checks, in that order. */
  function ValidateShapefile(layer: ShapefileLayer, read: Result<Frame, string>): (r: Result<Frame, string>)
    ensures r.Success? <==> read.Success? && UsableLayer(read.value)
    ensures r.Success? ==> r == read
  {
    match read
    case Failure(m) => Failure(m)
    case Success(gdf) =>
      if |gdf.rows| == 0 then Failure(LayerTitle(layer) + " shapefile is empty")
      else if AllGeometryMissing(gdf) then Failure(LayerTitle(layer) + " shapefile contains no valid geometries")
      else Success(gdf)
  }

  /**
   * `ShapefileLoader.load_counties` / `load_highways`. A missing path raises
   * FileNotFoundError before anything is read; every failure after that,
   * whether the reader's own or one of the two checks, leaves as a ValueError
   * carrying the "Failed to load ... shapefile: " prefix.
   */
  function LoadShapefile(layer: ShapefileLayer, disk: Disk, path: Option<string>): (r: Result<Frame, Error>)
    ensures r.Failure? ==> r.error.FileNotFoundError? || r.error.ValueError?
    ensures r.Failure? && r.error.FileNotFoundError? <==> ResolvePath(layer, path) !in disk.shapefiles
    ensures r.Failure? && r.error.FileNotFoundError? ==>
      r.error.message == LayerTitle(layer) + " shapefile not found: " + ResolvePath(layer, path)
    ensures r.Failure? && r.error.ValueError? ==>
      "Failed to load " + LayerNoun(layer) + " shapefile: " <= r.error.message
    ensures r.Success? <==>
      var p := ResolvePath(layer, path);
      p in disk.shapefiles && disk.shapefiles[p].Success? && UsableLayer(disk.shapefiles[p].value)
    ensures r.Success? ==> Success(r.value) == disk.shapefiles[ResolvePath(layer, path)]
  {
    var p := ResolvePath(layer, path);
    if p !in disk.shapefiles then
      Failure(FileNotFoundError(LayerTitle(layer) + " shapefile not found: " + p))
    else
      match ValidateShapefile(layer, disk.shapefiles[p])
      case Success(gdf) => Success(gdf)
      case Failure(m) => Failure(ValueError("Failed to load " + LayerNoun(layer) + " shapefile: " + m))
  }

  /** `ShapefileLoader.load_counties`: by default the TIGER/Line county file under the shapefile directory. */
  function LoadCounties(disk: Disk, path: Option<string>): (r: Result<Frame, Error>)
    ensures path.None? ==>
      (r.Failure? && r.error.FileNotFoundError? <==> DefaultShapefilePath(Counties) !in disk.shapefiles)
    ensures r.Success? ==>
      ResolvePath(Counties, path) in disk.shapefiles && Success(r.value) == disk.shapefiles[ResolvePath(Counties, path)]
  {
    LoadShapefile(Counties, disk, path)
  }

  /** `ShapefileLoader.load_highways`: by default the TIGER/Line primary-roads file under the shapefile directory. */
  function LoadHighways(disk: Disk, path: Option<string>): (r: Result<Frame, Error>)
    ensures path.None? ==>
      (r.Failure? && r.error.FileNotFoundError? <==> DefaultShapefilePath(Highways) !in disk.shapefiles)
    ensures r.Success? ==>
      ResolvePath(Highways, path) in disk.shapefiles && Success(r.value) == disk.shapefiles[ResolvePath(Highways, path)]
  {
    LoadShapefile(Highways, disk, path)
  }

  /** An existing but empty shapefile fails with the re-wrapped "is empty" message. */
  lemma EmptyShapefileMessage(layer: ShapefileLayer, disk: Disk, path: Option<string>, cols: set<string>, crs: Option<string>)
    requires ResolvePath(layer, path) in disk.shapefiles
    requires disk.shapefiles[ResolvePath(layer, path)] == Success(Frame(cols, [], crs))
    ensures LoadShapefile(layer, disk, path) ==
      Failure(ValueError("Failed to load " + LayerNoun(layer) + " shapefile: " + LayerTitle(layer) + " shapefile is empty"))
  {
    var p := ResolvePath(layer, path);
    var m := LayerTitle(layer) + " shapefile is empty";
    assert ValidateShapefile(layer, disk.shapefiles[p]) == Failure(m);
    assert "Failed to load " + LayerNoun(layer) + " shapefile: " + m ==
      "Failed to load " + LayerNoun(layer) + " shapefile: " + LayerTitle(layer) + " shapefile is empty";
  }

  /** A non-empty shapefile with no geometry at all fails with the "no valid geometries" message. */
  lemma NoGeometryMessage(layer: ShapefileLayer, disk: Disk, path: Option<string>)
    requires ResolvePath(layer, path) in disk.shapefiles
    requires disk.shapefiles[ResolvePath(layer, path)].Success?
    requires |disk.shapefiles[ResolvePath(layer, path)].value.rows| > 0
    requires AllGeometryMissing(disk.shapefiles[ResolvePath(layer, path)].value)
    ensures LoadShapefile(layer, disk, path) ==
      Failure(ValueError("Failed to load " + LayerNoun(layer) + " shapefile: " +
                         LayerTitle(layer) + " shapefile contains no valid geometries"))
  {
    var p := ResolvePath(layer, path);
    var m := LayerTitle(layer) + " shapefile contains no valid geometries";
    assert ValidateShapefile(layer, disk.shapefiles[p]) == Failure(m);
    assert "Failed to load " + LayerNoun(layer) + " shapefile: " + m ==
      "Failed to load " + LayerNoun(layer) + " shapefile: " + LayerTitle(layer) + " shapefile contains no valid geometries";
  }

  // ---------------------------------------------------------------- masjids

  const REQUIRED_COLUMNS: seq<string> := ["name", "latitude", "longitude"]

  /** `[col for col in required if col not in columns]`. */
  function MissingFrom(required: seq<string>, columns: set<string>): (m: seq<string>)
    ensures forall c :: c in m <==> c in required && c !in columns
    ensures |m| <= |required|
    ensures m == [] <==> forall i :: 0 <= i < |required| ==> required[i] in columns
  {
    if required == [] then []
    else (if required[0] in columns then [] else [required[0]]) + MissingFrom(required[1..], columns)
  }

  /** The check keeps the order of the required list: what is missing of `a + b` is what is missing of `a`, then of `b`. */
  lemma {:induction false} MissingFromConcat(a: seq<string>, b: seq<string>, columns: set<string>)
    ensures MissingFrom(a + b, columns) == MissingFrom(a, columns) + MissingFrom(b, columns)
  {
    if a == [] {
      assert a + b == b;
    } else {
      assert (a + b)[0] == a[0];
      assert (a + b)[1..] == a[1..] + b;
      MissingFromConcat(a[1..], b, columns);
    }
  }

  /** A single required name is missing exactly when it is not a column. */
  lemma MissingFromOne(c: string, columns: set<string>)
    ensures MissingFrom([c], columns) == if c in columns then [] else [c]
  {
    assert [c][1..] == [];
  }

  /** The absent required columns, in the order name, latitude, longitude. */
  function MissingColumns(columns: set<string>): (m: seq<string>)
    ensures m == (if "name" in columns then [] else ["name"])
               + (if "latitude" in columns then [] else ["latitude"])
               + (if "longitude" in columns then [] else ["longitude"])
    ensures forall c :: c in m <==> c in REQUIRED_COLUMNS && c !in columns
    ensures m == [] <==> "name" in columns && "latitude" in columns && "longitude" in columns
  {
    assert REQUIRED_COLUMNS == ["name"] + ["latitude"] + ["longitude"];
    MissingFromConcat(["name"] + ["latitude"], ["longitude"], columns);
    MissingFromConcat(["name"], ["latitude"], columns);
    MissingFromOne("name", columns);
    MissingFromOne("latitude", columns);
    MissingFromOne("longitude", columns);
    MissingFrom(REQUIRED_COLUMNS, columns)
  }

  /** Python's `repr` of a list of strings: `['a', 'b']`. */
  function ListRepr(items: seq<string>): string
  {
    "[" + JoinQuoted(items) + "]"
  }

  function JoinQuoted(items: seq<string>): string
  {
    if items == [] then ""
    else if |items| == 1 then "'" + items[0] + "'"
    else "'" + items[0] + "', " + JoinQuoted(items[1..])
  }

  /**
   * A value converted to a float coordinate, as the point constructor
   * converts it: a number as it is, a missing value as NaN, and text through
   * Python's `float()`, which raises for text that spells no number.
   */
  function ToFloat(v: Value): (r: Result<Float, string>)
    ensures v.Num? ==> r == Success(Finite(v.x))
    ensures v.Missing? ==> r == Success(NaN)
    ensures v.Str? ==> (r.Success? <==> Numerals.ParseFloat(v.s).Some?)
    ensures v.Str? && r.Success? ==> r.value == Numerals.ParseFloat(v.s).value
    ensures v.Str? && r.Failure? ==> r.error == "could not convert string to float: '" + v.s + "'"
  {
    match v
    case Num(x) => Success(Finite(x))
    case Missing => Success(NaN)
    case Str(s) =>
      match Numerals.ParseFloat(s)
      case Some(x) => Success(x)
      case None => Failure("could not convert string to float: '" + s + "'")
  }

  /** A whole column converted; the first value that does not convert raises. */
  function ToFloats(vs: seq<Value>): (r: Result<seq<Float>, string>)
    ensures r.Success? <==> forall i :: 0 <= i < |vs| ==> ToFloat(vs[i]).Success?
    ensures r.Success? ==> |r.value| == |vs| && forall i :: 0 <= i < |vs| ==> ToFloat(vs[i]) == Success(r.value[i])
  {
    if vs == [] then Success([])
    else
      match ToFloat(vs[0])
      case Failure(m) => Failure(m)
      case Success(x) =>
        match ToFloats(vs[1..])
        case Failure(m) => Failure(m)
        case Success(xs) => Success([x] + xs)
  }

  /** `df[c]` as a list of values, in row order. */
  function Column(t: Table, c: string): (vs: seq<Value>)
    ensures |vs| == |t.rows|
    ensures forall i :: 0 <= i < |t.rows| && c in t.rows[i] ==> vs[i] == t.rows[i][c]
  {
    seq(|t.rows|, i requires 0 <= i < |t.rows| => if c in t.rows[i] then t.rows[i][c] else Missing)
  }

  /** `gpd.points_from_xy(xs, ys)`: the x column is converted first, then the y column. */
  function PointsFromXY(xs: seq<Value>, ys: seq<Value>): (r: Result<seq<Geometry>, string>)
    requires |xs| == |ys|
    ensures r.Success? <==> forall i :: 0 <= i < |xs| ==> ToFloat(xs[i]).Success? && ToFloat(ys[i]).Success?
    ensures r.Failure? ==> exists i :: 0 <= i < |xs| && (ToFloat(xs[i]).Failure? || ToFloat(ys[i]).Failure?)
    ensures r.Success? ==> |r.value| == |xs|
    ensures r.Success? ==> forall i :: 0 <= i < |xs| ==>
      ToFloat(xs[i]).Success? && ToFloat(ys[i]).Success? &&
      r.value[i] == Point((ToFloat(xs[i]).value, ToFloat(ys[i]).value))
  {
    match ToFloats(xs)
    case Failure(m) => Failure(m)
    case Success(fx) =>
      match ToFloats(ys)
      case Failure(m) => Failure(m)
      case Success(fy) => Success(seq(|xs|, i requires 0 <= i < |xs| => Point((fx[i], fy[i]))))
  }

  /** The masjid loaders' shared `try` body after the data frame exists: the column check, then the points. */
  function PointFrame(t: Table): (r: Result<Frame, string>)
    ensures r.Success? <==>
      && MissingColumns(t.columns) == []
      && forall i :: 0 <= i < |t.rows| ==>
           ToFloat(Column(t, "longitude")[i]).Success? && ToFloat(Column(t, "latitude")[i]).Success?
  {
    var missing := MissingColumns(t.columns);
    if |missing| > 0 then Failure("Missing required columns: " + ListRepr(missing))
    else
      match PointsFromXY(Column(t, "longitude"), Column(t, "latitude"))
      case Failure(m) => Failure(m)
      case Success(points) =>
        Success(Frame(t.columns, seq(|t.rows|, i requires 0 <= i < |t.rows| => Record(t.rows[i], Some(points[i]))),
                      Some("EPSG:4326")))
  }

  /**
   * On success there is one record per row, carrying the row's attributes and
   * a point at (longitude, latitude), and the frame's CRS is EPSG:4326.
   */
  lemma PointFrameShape(t: Table)
    requires PointFrame(t).Success?
    ensures var f := PointFrame(t).value;
      && f.crs == Some("EPSG:4326")
      && f.columns == t.columns
      && |f.rows| == |t.rows|
      && forall i :: 0 <= i < |t.rows| ==>
           && f.rows[i].attrs == t.rows[i]
           && ToFloat(Column(t, "longitude")[i]).Success?
           && ToFloat(Column(t, "latitude")[i]).Success?
           && f.rows[i].geometry ==
                Some(Point((ToFloat(Column(t, "longitude")[i]).value, ToFloat(Column(t, "latitude")[i]).value)))
  {
  }

  /** A table lacking a required column is refused, naming exactly the absent ones. */
  lemma MissingColumnsRefused(t: Table)
    requires MissingColumns(t.columns) != []
    ensures PointFrame(t) == Failure("Missing required columns: " + ListRepr(MissingColumns(t.columns)))
  {
  }

  /**
   * `MasjidLoader.load_from_csv`: FileNotFoundError for a missing path before
   * any read; otherwise every failure is re-wrapped as a ValueError.
   */
  function LoadFromCsv(disk: Disk, path: string): (r: Result<Frame, Error>)
    ensures r.Failure? ==> r.error.FileNotFoundError? || r.error.ValueError?
    ensures r.Failure? && r.error.FileNotFoundError? <==> path !in disk.csvFiles
    ensures r.Failure? && r.error.FileNotFoundError? ==> r.error.message == "Masjid CSV file not found: " + path
    ensures r.Failure? && r.error.ValueError? ==> "Failed to load masjid CSV: " <= r.error.message
    ensures r.Success? <==> path in disk.csvFiles && disk.csvFiles[path].Success? && PointFrame(disk.csvFiles[path].value).Success?
    ensures r.Success? ==> r.value == PointFrame(disk.csvFiles[path].value).value
  {
    if path !in disk.csvFiles then Failure(FileNotFoundError("Masjid CSV file not found: " + path))
    else
      var inner := match disk.csvFiles[path]
        case Failure(m) => Failure(m)
        case Success(t) => PointFrame(t);
      match inner
      case Success(f) => Success(f)
      case Failure(m) => Failure(ValueError("Failed to load masjid CSV: " + m))
  }

  /** Some record of `data` has the key `k`. */
  predicate InSomeRecord(data: seq<Row>, k: string)
  {
    exists i :: 0 <= i < |data| && k in data[i]
  }

  /** The union of the keys of all records: every record's keys are among them. */
  function KeysOf(data: seq<Row>): (ks: set<string>)
    ensures forall i :: 0 <= i < |data| ==> data[i].Keys <= ks
  {
    if data == [] then {}
    else
      var rest := KeysOf(data[1..]);
      assert forall i :: 1 <= i < |data| ==> data[i] == data[1..][i - 1];
      data[0].Keys + rest
  }

  /** The union holds nothing else: a key is a column exactly when some record has it. */
  lemma {:induction false} KeysOfRecords(data: seq<Row>)
    ensures forall k :: k in KeysOf(data) <==> InSomeRecord(data, k)
  {
    if data != [] {
      KeysOfRecords(data[1..]);
      forall k | InSomeRecord(data, k) ensures k in KeysOf(data) {
        var i :| 0 <= i < |data| && k in data[i];
      }
      forall k | k in KeysOf(data) ensures InSomeRecord(data, k) {
        if k !in data[0] {
          assert k in KeysOf(data[1..]);
          var j :| 0 <= j < |data[1..]| && k in data[1..][j];
          assert k in data[j + 1];
        } else {
          assert k in data[0];
        }
      }
    }
  }

  /** One record widened to the columns `cols`, a missing value where it has no entry. */
  function Filled(r: Row, cols: set<string>): (f: Row)
    ensures f.Keys == cols
    ensures forall k :: k in cols ==> f[k] == (if k in r then r[k] else Missing)
  {
    map k | k in cols :: if k in r then r[k] else Missing
  }

  /**
   * `pd.DataFrame(list_of_dicts)`: the columns are the union of the records'
   * keys, and a record lacking a column holds a missing value there.
   */
  function TableFromRecords(data: seq<Row>): (t: Table)
    ensures t.columns == KeysOf(data)
    ensures |t.rows| == |data|
    ensures forall i :: 0 <= i < |data| ==> t.rows[i] == Filled(data[i], t.columns)
  {
    var cols := KeysOf(data);
    Table(cols, seq(|data|, i requires 0 <= i < |data| => Filled(data[i], cols)))
  }

  /**
   * `MasjidLoader.load_from_list`: the empty list is refused before the `try`
   * (so that message is not wrapped); every other failure is re-wrapped.
   */
  function LoadFromList(data: seq<Row>): (r: Result<Frame, Error>)
    ensures r.Failure? ==> r.error.ValueError?
    ensures data == [] ==> r == Failure(ValueError("Masjid data list is empty"))
    ensures data != [] && r.Failure? ==> "Failed to load masjid data: " <= r.error.message
    ensures r.Success? <==> data != [] && PointFrame(TableFromRecords(data)).Success?
    ensures r.Success? ==> r.value == PointFrame(TableFromRecords(data)).value
  {
    if data == [] then Failure(ValueError("Masjid data list is empty"))
    else
      match PointFrame(TableFromRecords(data))
      case Success(f) => Success(f)
      case Failure(m) => Failure(ValueError("Failed to load masjid data: " + m))
  }

  /**
   * A required field is reported missing exactly when no record has it: a
   * field absent from only some records passes the check (and reads as
   * missing in those records).
   */
  lemma MissingFieldReportedIffAbsentEverywhere(data: seq<Row>, c: string)
    ensures c in MissingColumns(TableFromRecords(data).columns) <==>
      c in REQUIRED_COLUMNS && forall i :: 0 <= i < |data| ==> c !in data[i]
  {
    KeysOfRecords(data);
  }

  /** A frame with a `name` column whose every record carries a point. */
  predicate IsPointLayer(f: Frame)
  {
    && "name" in f.columns
    && forall i :: 0 <= i < |f.rows| ==> f.rows[i].geometry.Some? && f.rows[i].geometry.value.Point?
  }

  /** What the column check and the point construction leave behind is a point layer. */
  lemma PointFrameIsPointLayer(t: Table)
    requires PointFrame(t).Success?
    ensures IsPointLayer(PointFrame(t).value)
  {
    assert MissingColumns(t.columns) == [];
    PointFrameShape(t);
  }

  /** Every masjid list that loads becomes a point layer with one record per entry. */
  lemma LoadedMasjidsArePoints(data: seq<Row>)
    requires LoadFromList(data).Success?
    ensures IsPointLayer(LoadFromList(data).value)
    ensures |LoadFromList(data).value.rows| == |data|
  {
    PointFrameIsPointLayer(TableFromRecords(data));
  }

  /** Every masjid CSV that loads becomes a point layer with one record per data row. */
  lemma LoadedCsvIsPoints(disk: Disk, path: string)
    requires LoadFromCsv(disk, path).Success?
    ensures IsPointLayer(LoadFromCsv(disk, path).value)
    ensures |LoadFromCsv(disk, path).value.rows| == |disk.csvFiles[path].value.rows|
  {
    PointFrameIsPointLayer(disk.csvFiles[path].value);
  }

  /** A key a record gives is a column, and the record's cell there holds its value. */
  lemma CellOfRecord(data: seq<Row>, i: nat, c: string)
    requires i < |data| && c in data[i]
    ensures c in TableFromRecords(data).columns
    ensures TableFromRecords(data).rows[i][c] == data[i][c]
  {
  }

  /** A non-empty list whose records all give the three fields, with coordinates that convert to floats, loads. */
  lemma CompleteRecordsLoad(data: seq<Row>)
    requires data != []
    requires forall i :: 0 <= i < |data| ==> "name" in data[i] && "latitude" in data[i] && "longitude" in data[i]
    requires forall i :: 0 <= i < |data| ==>
      ToFloat(data[i]["latitude"]).Success? && ToFloat(data[i]["longitude"]).Success?
    ensures LoadFromList(data).Success?
  {
    var t := TableFromRecords(data);
    assert "name" in t.columns && "latitude" in t.columns && "longitude" in t.columns by {
      assert "name" in data[0] && "latitude" in data[0] && "longitude" in data[0];
    }
    assert MissingColumns(t.columns) == [];
    ColumnConverts(data, "longitude");
    ColumnConverts(data, "latitude");
  }

  /** A single record with a name and convertible coordinates loads as one point at (longitude, latitude). */
  lemma OneRecordLoads(row: Row, lon: Float, lat: Float)
    requires "name" in row && "latitude" in row && "longitude" in row
    requires ToFloat(row["longitude"]) == Success(lon) && ToFloat(row["latitude"]) == Success(lat)
    ensures LoadFromList([row]).Success?
    ensures |LoadFromList([row]).value.rows| == 1
    ensures LoadFromList([row]).value.rows[0] == Record(Filled(row, row.Keys), Some(Point((lon, lat))))
  {
    LoadOfOneFrame(row);
    OneRecordPoint(row, lon, lat);
  }

  /** A single complete record loads as the point frame of its table. */
  lemma LoadOfOneFrame(row: Row)
    requires "name" in row && "latitude" in row && "longitude" in row
    requires ToFloat(row["longitude"]).Success? && ToFloat(row["latitude"]).Success?
    ensures PointFrame(TableFromRecords([row])).Success?
    ensures LoadFromList([row]) == Success(PointFrame(TableFromRecords([row])).value)
  {
    CompleteRecordsLoad([row]);
  }

  /** The table of one record has that record's keys as columns and the record as its one row. */
  lemma OneRecordTable(row: Row)
    ensures TableFromRecords([row]).columns == row.Keys
    ensures TableFromRecords([row]).rows == [Filled(row, row.Keys)]
  {
    var data := [row];
    KeysOfRecords(data);
    forall k ensures InSomeRecord(data, k) <==> k in row {
      if k in row { assert k in data[0]; }
    }
  }

  lemma OneRecordPoint(row: Row, lon: Float, lat: Float)
    requires "name" in row && "latitude" in row && "longitude" in row
    requires ToFloat(row["longitude"]) == Success(lon) && ToFloat(row["latitude"]) == Success(lat)
    requires PointFrame(TableFromRecords([row])).Success?
    ensures |PointFrame(TableFromRecords([row])).value.rows| == 1
    ensures PointFrame(TableFromRecords([row])).value.rows[0] == Record(Filled(row, row.Keys), Some(Point((lon, lat))))
  {
    var t := TableFromRecords([row]);
    OneRecordTable(row);
    ColumnOfRecords([row], "longitude");
    ColumnOfRecords([row], "latitude");
    PointFrameShape(t);
  }

  /** A record whose coordinates are written as text loads, the text converted as Python's `float()` reads it. */
  lemma TextCoordinatesLoad(row: Row)
    requires "name" in row && "latitude" in row && "longitude" in row
    requires row["latitude"] == Str("34.05") && row["longitude"] == Str("-118.24")
    ensures LoadFromList([row]).Success?
    ensures LoadFromList([row]).value.rows[0].geometry == Some(Point((Finite(-118.24), Finite(34.05))))
  {
    TextCellsConvert();
    OneRecordLoads(row, Finite(-118.24), Finite(34.05));
  }

  lemma TextCellsConvert()
    ensures ToFloat(Str("-118.24")) == Success(Finite(-118.24))
    ensures ToFloat(Str("34.05")) == Success(Finite(34.05))
  {
    Numerals.CoordinateTextExamples();
  }

  /** A field every record gives, as a value that converts, converts to floats in full. */
  lemma ColumnConverts(data: seq<Row>, c: string)
    requires forall i :: 0 <= i < |data| ==> c in data[i] && ToFloat(data[i][c]).Success?
    ensures ToFloats(Column(TableFromRecords(data), c)).Success?
  {
    ColumnOfRecords(data, c);
  }

  /** The column of a field every record gives lists the records' values in order. */
  lemma ColumnOfRecords(data: seq<Row>, c: string)
    requires forall i :: 0 <= i < |data| ==> c in data[i]
    ensures forall i :: 0 <= i < |data| ==> Column(TableFromRecords(data), c)[i] == data[i][c]
  {
    forall i | 0 <= i < |data| ensures Column(TableFromRecords(data), c)[i] == data[i][c] {
      CellOfRecord(data, i, c);
    }
  }

  // ---------------------------------------------------------------- CRS

  /** `validate_crs_consistency(*gdfs)`: true for no frames, else every CRS equals the first. */
  function ValidateCrsConsistency(gdfs: seq<Frame>): (ok: bool)
    ensures ok <==> forall i, j :: 0 <= i < |gdfs| && 0 <= j < |gdfs| ==> gdfs[i].crs == gdfs[j].crs
  {
    |gdfs| == 0 || forall i :: 0 <= i < |gdfs| ==> gdfs[i].crs == gdfs[0].crs
  }

  /** `gdf.set_crs(target)`: the CRS is declared, no coordinate moves. */
  function SetCrs(gdf: Frame, target: string): (r: Frame)
    ensures r.crs == Some(target) && r.columns == gdf.columns && r.rows == gdf.rows
  {
    gdf.(crs := Some(target))
  }

  function ProjectGeometry(g: Option<Geometry>, from: string, target: string, proj: Projection): Option<Geometry>
  {
    match g
    case None => None
    case Some(g) => Some(MapGeometry(g, c => proj(from, target, c)))
  }

  /** `gdf.to_crs(target)`: every coordinate reprojected, attributes kept. */
  function ToCrs(gdf: Frame, target: string, proj: Projection): (r: Frame)
    requires gdf.crs.Some?
    ensures r.crs == Some(target) && r.columns == gdf.columns && |r.rows| == |gdf.rows|
    ensures forall i :: 0 <= i < |gdf.rows| ==>
      && r.rows[i].attrs == gdf.rows[i].attrs
      && r.rows[i].geometry == ProjectGeometry(gdf.rows[i].geometry, gdf.crs.value, target, proj)
  {
    Frame(gdf.columns,
          seq(|gdf.rows|, i requires 0 <= i < |gdf.rows| =>
            Record(gdf.rows[i].attrs, ProjectGeometry(gdf.rows[i].geometry, gdf.crs.value, target, proj))),
          Some(target))
  }

  /**
   * `ensure_crs`: assign the target when there is no CRS, reproject when it
   * differs, and return the same frame when it is already the target.
   */
  function EnsureCrs(gdf: Frame, target: string, proj: Projection): (r: Frame)
    ensures r.crs == Some(target)
    ensures r.columns == gdf.columns && |r.rows| == |gdf.rows|
    ensures forall i :: 0 <= i < |gdf.rows| ==> r.rows[i].attrs == gdf.rows[i].attrs
    ensures gdf.crs.None? ==> r.rows == gdf.rows
    ensures gdf.crs == Some(target) ==> r == gdf
    ensures gdf.crs.Some? && gdf.crs != Some(target) ==>
      forall i :: 0 <= i < |gdf.rows| ==>
        r.rows[i].geometry == ProjectGeometry(gdf.rows[i].geometry, gdf.crs.value, target, proj)
  {
    if gdf.crs.None? then SetCrs(gdf, target)
    else if gdf.crs != Some(target) then ToCrs(gdf, target, proj)
    else gdf
  }

  /** A second `ensure_crs` to the same target changes nothing. */
  lemma EnsureCrsIdempotent(gdf: Frame, target: string, proj: Projection)
    ensures EnsureCrs(EnsureCrs(gdf, target, proj), target, proj) == EnsureCrs(gdf, target, proj)
  {
  }

  /** Frames all brought to one target CRS pass the consistency check. */
  lemma EnsuredFramesAreConsistent(gdfs: seq<Frame>, target: string, proj: Projection)
    ensures ValidateCrsConsistency(seq(|gdfs|, i requires 0 <= i < |gdfs| => EnsureCrs(gdfs[i], target, proj)))
  {
  }

  /** Reprojection keeps a point layer a point layer. */
  lemma EnsureCrsKeepsPoints(gdf: Frame, target: string, proj: Projection)
    requires IsPointLayer(gdf)
    ensures IsPointLayer(EnsureCrs(gdf, target, proj))
  {
  }
}
