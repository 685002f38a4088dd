/**
 * The map generator (src/main.py): a staged pipeline that loads the three
 * layers, renders them, exports the figure in every configured format and
 * always releases the figure at the end.
 */
module App {
  import opened Wrappers
  import opened Geo
  import opened Plot
  import Config
  import Loaders
  import Rendering
  import Exporters
  import Paths

  const WGS84: string := "EPSG:4326"
  const DEFAULT_FILENAME: string := "us_masjid_map"
  const NOT_LOADED: string := "Data must be loaded first. Call load_data()."
  const NOT_GENERATED: string := "Map must be generated first. Call generate_map()."

  function SampleMasjid(name: string, latitude: real, longitude: real): Row
  {
    map["name" := Str(name), "latitude" := Num(latitude), "longitude" := Num(longitude)]
  }

  /** The built-in masjid list used when the caller gives none: name, latitude, longitude. */
  const SAMPLE_MASJIDS: seq<(string, real, real)> := [
    ("Islamic Center of Greater Cincinnati", 39.1031, -84.5120),
    ("Masjid Al-Noor", 40.7128, -74.0060),
    ("Islamic Society of Boston", 42.3601, -71.0589),
    ("Dar Al-Hijrah", 38.9072, -77.0369),
    ("Islamic Center of Southern California", 34.0522, -118.2437),
    ("Masjid Al-Farah", 41.8781, -87.6298),
    ("Islamic Center of Nashville", 36.1627, -86.7816),
    ("Masjid Al-Islam", 33.4484, -112.0740),
    ("Islamic Center of Detroit", 42.3314, -83.0458),
    ("Masjid Al-Taqwa", 29.7604, -95.3698)
  ]

  /** The samples as the list of dictionaries `load_data` hands to the loader. */
  function SampleRows(): (rows: seq<Row>)
    ensures |rows| == |SAMPLE_MASJIDS|
    ensures forall i :: 0 <= i < |rows| ==>
      rows[i] == SampleMasjid(SAMPLE_MASJIDS[i].0, SAMPLE_MASJIDS[i].1, SAMPLE_MASJIDS[i].2)
  {
    seq(|SAMPLE_MASJIDS|, i requires 0 <= i < |SAMPLE_MASJIDS| =>
      SampleMasjid(SAMPLE_MASJIDS[i].0, SAMPLE_MASJIDS[i].1, SAMPLE_MASJIDS[i].2))
  }

  /** The masjid list `load_data` loads: the caller's, or the samples when none is given. */
  function MasjidList(masjidData: Option<seq<Row>>): (rows: seq<Row>)
    ensures masjidData.Some? ==> rows == masjidData.value
    ensures masjidData.None? ==> |rows| == 10 && forall i :: 0 <= i < 10 ==>
      rows[i] == SampleMasjid(SAMPLE_MASJIDS[i].0, SAMPLE_MASJIDS[i].1, SAMPLE_MASJIDS[i].2)
  {
    if masjidData.None? then SampleRows() else masjidData.value
  }

  /** The built-in samples always load: ten masjids, each at its point. */
  lemma SamplesLoad()
    ensures Loaders.LoadFromList(MasjidList(None)).Success?
    ensures |Loaders.LoadFromList(MasjidList(None)).value.rows| == 10
  {
    var rows: seq<Row> := SampleRows();
    assert |rows| == 10;
    forall i | 0 <= i < |rows|
      ensures "name" in rows[i] && "latitude" in rows[i] && "longitude" in rows[i]
      ensures Loaders.ToFloat(rows[i]["latitude"]).Success? && Loaders.ToFloat(rows[i]["longitude"]).Success?
    {
      assert rows[i] == SampleMasjid(SAMPLE_MASJIDS[i].0, SAMPLE_MASJIDS[i].1, SAMPLE_MASJIDS[i].2);
      assert rows[i]["latitude"].Num? && rows[i]["longitude"].Num?;
    }
    Loaders.CompleteRecordsLoad(rows);
    Loaders.LoadedMasjidsArePoints(rows);
  }

  /** The three layers `load_data` leaves behind. */
  datatype Layers = Layers(counties: Frame, highways: Frame, masjids: Frame)

  /**
   * `load_data`'s `try` body as a value: counties, then highways, then the
   * masjid list, each raising to the caller as it fails; then all three
   * brought to WGS84.
   */
  function LoadAll(disk: Loaders.Disk, data: seq<Row>, proj: Projection): (r: Result<Layers, Error>)
    ensures r.Success? <==>
      && Loaders.LoadCounties(disk, None).Success?
      && Loaders.LoadHighways(disk, None).Success?
      && Loaders.LoadFromList(data).Success?
    ensures r.Success? ==>
      && r.value.counties.crs == Some(WGS84)
      && r.value.highways.crs == Some(WGS84)
      && r.value.masjids.crs == Some(WGS84)
      && Loaders.IsPointLayer(r.value.masjids)
      && |r.value.masjids.rows| == |data|
    ensures r.Success? ==>
      && r.value.counties == Loaders.EnsureCrs(Loaders.LoadCounties(disk, None).value, WGS84, proj)
      && r.value.highways == Loaders.EnsureCrs(Loaders.LoadHighways(disk, None).value, WGS84, proj)
      && r.value.masjids == Loaders.EnsureCrs(Loaders.LoadFromList(data).value, WGS84, proj)
  {
    match Loaders.LoadCounties(disk, None)
    case Failure(e) => Failure(e)
    case Success(counties) =>
      match Loaders.LoadHighways(disk, None)
      case Failure(e) => Failure(e)
      case Success(highways) =>
        match Loaders.LoadFromList(data)
        case Failure(e) => Failure(e)
        case Success(masjids) =>
          Loaders.LoadedMasjidsArePoints(data);
          Loaders.EnsureCrsKeepsPoints(masjids, WGS84, proj);
          Success(Layers(Loaders.EnsureCrs(counties, WGS84, proj),
                         Loaders.EnsureCrs(highways, WGS84, proj),
                         Loaders.EnsureCrs(masjids, WGS84, proj)))
  }

  /** The first failing loader's error is the one `load_data` raises. */
  lemma LoadAllReportsFirstFailure(disk: Loaders.Disk, data: seq<Row>, proj: Projection)
    requires LoadAll(disk, data, proj).Failure?
    ensures var e := LoadAll(disk, data, proj).error;
      if Loaders.LoadCounties(disk, None).Failure? then e == Loaders.LoadCounties(disk, None).error
      else if Loaders.LoadHighways(disk, None).Failure? then e == Loaders.LoadHighways(disk, None).error
      else e == Loaders.LoadFromList(data).error
  {
  }

  /** Layers in WGS84 with a point layer of masjids agree on their CRS, and every masjid can be labelled. */
  lemma WgsLayersConsistent(l: Layers)
    requires l.counties.crs == Some(WGS84) && l.highways.crs == Some(WGS84) && l.masjids.crs == Some(WGS84)
    requires Loaders.IsPointLayer(l.masjids)
    ensures Loaders.ValidateCrsConsistency([l.counties, l.highways, l.masjids])
    ensures Rendering.LabelledCount(l.masjids) == |l.masjids.rows|
  {
    Rendering.PointLayerFullyLabelled(l.masjids);
  }

  /** The loaded layers agree on their CRS, and every masjid can be labelled. */
  lemma LoadedLayersConsistent(disk: Loaders.Disk, data: seq<Row>, proj: Projection)
    requires LoadAll(disk, data, proj).Success?
    ensures var l := LoadAll(disk, data, proj).value;
      && Loaders.ValidateCrsConsistency([l.counties, l.highways, l.masjids])
      && Rendering.LabelledCount(l.masjids) == |l.masjids.rows|
  {
    WgsLayersConsistent(LoadAll(disk, data, proj).value);
  }

  /** The export plan of `export_map`: the default formats. */
  const EXPORTED: seq<Exporters.Format> := [Exporters.Png, Exporters.Pdf, Exporters.Svg]

  /** What `set_extent` raises for counties without finite bounds. */
  const EXTENT_ERROR: Error := ValueError(Rendering.NAN_LIMITS)

  /**
   * What `run` returns or raises, given what loading produced: the loading
   * error, else the extent error for counties without finite bounds, else
   * a labelling error, else the three exported paths. The output
   * directory's `mkdir`, every `savefig` and the listing of the saved files
   * are taken to succeed, so the export stage adds no error here.
   */
  function RunResult(loaded: Result<Layers, Error>, filename: string, totalBounds: Frame -> Option<Bounds>)
    : (r: Result<seq<string>, Error>)
    ensures loaded.Failure? ==> r == Failure(loaded.error)
    ensures loaded.Success? && totalBounds(loaded.value.counties).None? ==> r == Failure(EXTENT_ERROR)
    ensures loaded.Success? && totalBounds(loaded.value.counties).Some? ==>
      var m := loaded.value.masjids;
      && (r.Success? <==> Rendering.LabelledCount(m) == |m.rows|)
      && (r.Failure? ==> r.error == Rendering.LabelError(m.columns, m.rows[Rendering.LabelledCount(m)]))
    ensures r.Success? ==> r.value == Exporters.PlannedPaths(Config.OUTPUT_DIR, filename, EXPORTED)
  {
    match loaded
    case Failure(e) => Failure(e)
    case Success(l) =>
      var k := Rendering.LabelledCount(l.masjids);
      if totalBounds(l.counties).None? then Failure(EXTENT_ERROR)
      else if k < |l.masjids.rows| then Failure(Rendering.LabelError(l.masjids.columns, l.masjids.rows[k]))
      else Success(Exporters.PlannedPaths(Config.OUTPUT_DIR, filename, EXPORTED))
  }

  /**
   * The default export writes `output/<filename>.png`, `.pdf` and `.svg`,
   * in that order, for a filename without a directory separator.
   */
  lemma DefaultPaths(filename: string)
    requires '/' !in filename
    ensures Exporters.PlannedPaths(Config.OUTPUT_DIR, filename, EXPORTED) ==
      [Config.OUTPUT_DIR + "/" + filename + ".png",
       Config.OUTPUT_DIR + "/" + filename + ".pdf",
       Config.OUTPUT_DIR + "/" + filename + ".svg"]
  {
    Paths.PieceIsPlain(Config.OUTPUT_DIR);
    Exporters.PlainDefaultPaths(Config.OUTPUT_DIR, filename, EXPORTED);
  }

  /**
   * A successful load that yields consistent layers, with counties that
   * have finite bounds, leads to the exported paths, the file-system calls
   * of the export being taken to succeed.
   */
  lemma RunResultAfterLoading(loaded: Result<Layers, Error>, filename: string, totalBounds: Frame -> Option<Bounds>)
    requires loaded.Success? ==>
      && loaded.value.counties.crs == Some(WGS84)
      && loaded.value.highways.crs == Some(WGS84)
      && loaded.value.masjids.crs == Some(WGS84)
      && Loaders.IsPointLayer(loaded.value.masjids)
    ensures var r := RunResult(loaded, filename, totalBounds);
      && (r.Success? <==> loaded.Success? && totalBounds(loaded.value.counties).Some?)
      && (r.Failure? ==> r.error == if loaded.Failure? then loaded.error else EXTENT_ERROR)
      && (r.Success? ==> r.value == Exporters.PlannedPaths(Config.OUTPUT_DIR, filename, EXPORTED))
  {
    if loaded.Success? {
      WgsLayersConsistent(loaded.value);
    }
  }

  /**
   * With the export's file-system calls taken to succeed, nothing fails
   * once drawing starts: the run succeeds exactly when the data loads and
   * the counties have finite bounds, and then yields the PNG, PDF and SVG
   * paths under the output directory.
   */
  lemma RunFailsOnlyBeforeDrawing(disk: Loaders.Disk, data: seq<Row>, proj: Projection, filename: string,
                                  totalBounds: Frame -> Option<Bounds>)
    ensures var l := LoadAll(disk, data, proj);
      var r := RunResult(l, filename, totalBounds);
      && (r.Success? <==> l.Success? && totalBounds(l.value.counties).Some?)
      && (r.Failure? ==> r.error == if l.Failure? then l.error else EXTENT_ERROR)
      && (r.Success? ==> r.value == Exporters.PlannedPaths(Config.OUTPUT_DIR, filename, EXPORTED))
      && (r.Success? && '/' !in filename ==>
            r.value == [Config.OUTPUT_DIR + "/" + filename + ".png",
                        Config.OUTPUT_DIR + "/" + filename + ".pdf",
                        Config.OUTPUT_DIR + "/" + filename + ".svg"])
  {
    RunResultAfterLoading(LoadAll(disk, data, proj), filename, totalBounds);
    if '/' !in filename {
      DefaultPaths(filename);
    }
  }

  class USMasjidMapGenerator {
    var countiesGdf: Option<Frame>
    var highwaysGdf: Option<Frame>
    var masjidsGdf: Option<Frame>
    var renderer: Rendering.USMapRenderer?
    var exporter: Exporters.MapExporter?

    predicate Valid()
      reads this`renderer, renderer
    {
      renderer != null ==> renderer.Valid()
    }

    predicate Loaded()
      reads this
    {
      countiesGdf.Some? && highwaysGdf.Some? && masjidsGdf.Some?
    }

    constructor()
      ensures Valid()
      ensures countiesGdf.None? && highwaysGdf.None? && masjidsGdf.None?
      ensures renderer == null && exporter == null
    {
      countiesGdf := None;
      highwaysGdf := None;
      masjidsGdf := None;
      renderer := null;
      exporter := null;
    }

    /**
     * Loads the layers in order, storing each as it loads, so a failure
     * keeps the layers loaded before it (and the previous ones after it).
     * On success all three are brought to WGS84.
     */
    method LoadData(masjidData: Option<seq<Row>>, disk: Loaders.Disk, proj: Projection) returns (r: Outcome<Error>)
      modifies this`countiesGdf, this`highwaysGdf, this`masjidsGdf
      ensures var loaded := LoadAll(disk, MasjidList(masjidData), proj);
        && (r.Pass? <==> loaded.Success?)
        && (r.Fail? ==> r.error == loaded.error)
        && (r.Pass? ==> && countiesGdf == Some(loaded.value.counties)
                        && highwaysGdf == Some(loaded.value.highways)
                        && masjidsGdf == Some(loaded.value.masjids))
      ensures var c := Loaders.LoadCounties(disk, None);
        && (c.Failure? ==> countiesGdf == old(countiesGdf))
        && (c.Success? && r.Fail? ==> countiesGdf == Some(c.value))
      ensures var c, h := Loaders.LoadCounties(disk, None), Loaders.LoadHighways(disk, None);
        && (c.Failure? || h.Failure? ==> highwaysGdf == old(highwaysGdf))
        && (c.Success? && h.Success? && r.Fail? ==> highwaysGdf == Some(h.value))
      ensures r.Fail? ==> masjidsGdf == old(masjidsGdf)
    {
      var counties := Loaders.LoadCounties(disk, None);
      if counties.Failure? {
        return Fail(counties.error);
      }
      countiesGdf := Some(counties.value);
      var highways := Loaders.LoadHighways(disk, None);
      if highways.Failure? {
        return Fail(highways.error);
      }
      highwaysGdf := Some(highways.value);
      var data := if masjidData.None? then SampleRows() else masjidData.value;
      var masjids := Loaders.LoadFromList(data);
      if masjids.Failure? {
        return Fail(masjids.error);
      }
      masjidsGdf := Some(masjids.value);
      countiesGdf := Some(Loaders.EnsureCrs(countiesGdf.value, WGS84, proj));
      highwaysGdf := Some(Loaders.EnsureCrs(highwaysGdf.value, WGS84, proj));
      masjidsGdf := Some(Loaders.EnsureCrs(masjidsGdf.value, WGS84, proj));
      r := Pass;
    }

    /**
     * Refuses to run before all three layers exist; otherwise replaces the
     * renderer with a fresh one and renders the complete map with it.
     */
    method GenerateMap(title: Option<string>, draw: nat -> Config.PaletteIndex, totalBounds: Frame -> Option<Bounds>)
      returns (r: Outcome<Error>)
      requires Valid()
      modifies this`renderer
      ensures Valid()
      ensures !Loaded() ==> r == Fail(ValueError(NOT_LOADED)) && renderer == old(renderer)
      ensures Loaded() ==>
        var counties, highways, masjids := countiesGdf.value, highwaysGdf.value, masjidsGdf.value;
        var k := Rendering.LabelledCount(masjids);
        && renderer != null && fresh(renderer)
        && renderer.dpi == Config.PRINT_DPI && renderer.closed == []
        && renderer.fig == Some(Figure(Config.MAP_WIDTH_INCHES, Config.MAP_HEIGHT_INCHES, Config.PRINT_DPI))
        && (r.Pass? <==> totalBounds(counties).Some? && k == |masjids.rows|)
        && (r.Pass? ==> renderer.ax == Some(Rendering.CompleteMap(counties, highways, masjids, title, draw,
                                                                  totalBounds(counties).value)))
        && (r.Fail? ==> r.error == if totalBounds(counties).None? then EXTENT_ERROR
                                   else Rendering.LabelError(masjids.columns, masjids.rows[k]))
    {
      if countiesGdf.None? || highwaysGdf.None? || masjidsGdf.None? {
        return Fail(ValueError(NOT_LOADED));
      }
      renderer := new Rendering.USMapRenderer(Config.PRINT_DPI);
      var rendered := renderer.RenderCompleteMap(countiesGdf.value, highwaysGdf.value, masjidsGdf.value,
                                                 title, draw, totalBounds);
      if rendered.Failure? {
        return Fail(rendered.error);
      }
      r := Pass;
    }

    /**
     * Refuses to run before a figure exists; otherwise saves it through a
     * fresh exporter in the default formats and returns the paths written.
     */
    method ExportMap(filename: string := DEFAULT_FILENAME) returns (r: Result<seq<string>, Error>)
      modifies this`exporter
      ensures renderer == null || renderer.fig.None? ==>
        r == Failure(ValueError(NOT_GENERATED)) && exporter == old(exporter)
      ensures renderer != null && renderer.fig.Some? ==>
        && exporter != null && fresh(exporter)
        && exporter.outputDir == Config.OUTPUT_DIR
        && r == Success(Exporters.PlannedPaths(Config.OUTPUT_DIR, filename, EXPORTED))
        && exporter.saved == Exporters.PlannedSaves(Config.OUTPUT_DIR, filename, renderer.fig.value, EXPORTED)
    {
      if renderer == null || renderer.fig.None? {
        return Failure(ValueError(NOT_GENERATED));
      }
      exporter := new Exporters.MapExporter();
      Exporters.DefaultFormats();
      var exported := exporter.ExportAllFormats(renderer.fig.value, filename, None);
      r := Success(exported);
    }

    /** Closes the renderer's figure when there is a renderer; without one it does nothing. */
    method Cleanup()
      requires Valid()
      modifies renderer
      ensures Valid()
      ensures renderer != null ==>
        && renderer.fig.None? && renderer.ax.None? && renderer.dpi == old(renderer.dpi)
        && renderer.closed == old(renderer.closed) + (if old(renderer.fig).Some? then [old(renderer.fig).value] else [])
    {
      if renderer != null {
        renderer.Close();
      }
    }

    /**
     * The second and third stages of `run`: generate, then export. On
     * loaded layers whose masjids can all be labelled, and with the
     * export's file-system calls taken to succeed, only fitting the extent
     * to counties without finite bounds can fail, and then nothing is
     * exported.
     */
    method GenerateAndExport(title: Option<string>, outputFilename: string,
                             draw: nat -> Config.PaletteIndex, totalBounds: Frame -> Option<Bounds>)
      returns (r: Result<seq<string>, Error>)
      requires Valid() && Loaded()
      requires Rendering.LabelledCount(masjidsGdf.value) == |masjidsGdf.value.rows|
      modifies this`renderer, this`exporter
      ensures Valid()
      ensures && renderer != null && fresh(renderer)
              && renderer.closed == [] && renderer.fig.Some?
      ensures totalBounds(countiesGdf.value).None? ==> r == Failure(EXTENT_ERROR) && exporter == old(exporter)
      ensures totalBounds(countiesGdf.value).Some? ==>
        && r == Success(Exporters.PlannedPaths(Config.OUTPUT_DIR, outputFilename, EXPORTED))
        && exporter != null && fresh(exporter)
        && exporter.saved == Exporters.PlannedSaves(Config.OUTPUT_DIR, outputFilename, renderer.fig.value, EXPORTED)
    {
      var generated := GenerateMap(title, draw, totalBounds);
      if generated.Fail? {
        return Failure(generated.error);
      }
      r := ExportMap(outputFilename);
    }

    /**
     * The `try` body of `run`: load, generate and export, stopping at the
     * first error. With the export's file-system calls taken to succeed, a
     * failure comes from loading, which keeps the renderer from before, or
     * from fitting the extent, which leaves a fresh renderer holding a figure.
     */
    method Stages(masjidData: Option<seq<Row>>, title: Option<string>, outputFilename: string,
                  disk: Loaders.Disk, proj: Projection,
                  draw: nat -> Config.PaletteIndex, totalBounds: Frame -> Option<Bounds>)
      returns (r: Result<seq<string>, Error>)
      requires Valid()
      modifies this
      ensures Valid()
      ensures r == RunResult(LoadAll(disk, MasjidList(masjidData), proj), outputFilename, totalBounds)
      ensures LoadAll(disk, MasjidList(masjidData), proj).Failure? ==> renderer == old(renderer)
      ensures LoadAll(disk, MasjidList(masjidData), proj).Success? ==>
        renderer != null && fresh(renderer) && renderer.closed == [] && renderer.fig.Some?
      ensures r.Success? ==>
        && renderer != null && fresh(renderer)
        && renderer.closed == [] && renderer.fig.Some?
        && exporter != null && fresh(exporter)
        && exporter.saved == Exporters.PlannedSaves(Config.OUTPUT_DIR, outputFilename, renderer.fig.value, EXPORTED)
    {
      ghost var expected := LoadAll(disk, MasjidList(masjidData), proj);
      RunResultAfterLoading(expected, outputFilename, totalBounds);
      var loaded := LoadData(masjidData, disk, proj);
      if loaded.Fail? {
        return Failure(loaded.error);
      }
      WgsLayersConsistent(expected.value);
      r := GenerateAndExport(title, outputFilename, draw, totalBounds);
    }

    /**
     * `run`: the stages, re-raising their error; the renderer present at the
     * end, if any, is cleaned up whatever happened, so once the data has
     * loaded exactly one figure is closed.
     */
    method Run(masjidData: Option<seq<Row>> := None, title: Option<string> := None,
               outputFilename: string := DEFAULT_FILENAME,
               disk: Loaders.Disk, proj: Projection,
               draw: nat -> Config.PaletteIndex, totalBounds: Frame -> Option<Bounds>)
      returns (r: Result<seq<string>, Error>)
      requires Valid()
      modifies this, renderer
      ensures Valid()
      ensures r == RunResult(LoadAll(disk, MasjidList(masjidData), proj), outputFilename, totalBounds)
      ensures renderer != null ==> renderer.fig.None? && renderer.ax.None?
      ensures LoadAll(disk, MasjidList(masjidData), proj).Success? ==>
        renderer != null && fresh(renderer) && |renderer.closed| == 1
      ensures r.Success? ==>
        && renderer != null && fresh(renderer)
        && |renderer.closed| == 1
        && exporter != null && fresh(exporter)
        && exporter.saved == Exporters.PlannedSaves(Config.OUTPUT_DIR, outputFilename, renderer.closed[0], EXPORTED)
    {
      r := Stages(masjidData, title, outputFilename, disk, proj, draw, totalBounds);
      Cleanup();
    }
  }
}
