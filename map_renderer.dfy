/**
 * The map renderer (src/rendering/map_renderer.py): a figure and its axes,
 * created on demand, onto which the county, highway and masjid layers are
 * drawn bottom to top, with a title and a padded extent.
 */
module Rendering {
  import opened Wrappers
  import opened Geo
  import opened Plot
  import Config

  const NOT_CREATED: string := "Must call create_figure() first"
  const DEFAULT_TITLE: string := "US Counties, Highways, and Masjids"
  const DEFAULT_BUFFER_PERCENT: real := 0.02
  /** What `set_xlim` raises for a NaN or infinite limit. */
  const NAN_LIMITS: string := "Axis limits cannot be NaN or Inf"

  /** The offset, in points, of a masjid label from its marker. */
  const LABEL_OFFSET: (int, int) := (5, 5)

  /** One face colour per county, the i-th taken from the palette at the i-th random draw. */
  function PaletteColors(n: nat, draw: nat -> Config.PaletteIndex): (colors: seq<string>)
    ensures |colors| == n
    ensures forall i :: 0 <= i < n ==> colors[i] in Config.COUNTY_COLORS
  {
    seq(n, i requires 0 <= i < n => Config.COUNTY_COLORS[draw(i)])
  }

  /** The county layer: every county drawn, the i-th face in the palette colour of the i-th draw, thin light edges. */
  function CountyLayer(counties: Frame, draw: nat -> Config.PaletteIndex): (a: Artist)
    ensures a.Polygons? && a.rows == counties.rows
    ensures |a.faceColors| == |counties.rows|
    ensures forall i :: 0 <= i < |counties.rows| ==> a.faceColors[i] == Config.COUNTY_COLORS[draw(i)]
    ensures a.edgeColor == Config.COUNTY_EDGE_COLOR && a.lineWidth == Config.COUNTY_EDGE_WIDTH
    ensures a.alpha == Config.COUNTY_ALPHA
  {
    Polygons(counties.rows, PaletteColors(|counties.rows|, draw),
             Config.COUNTY_EDGE_COLOR, Config.COUNTY_EDGE_WIDTH, Config.COUNTY_ALPHA)
  }

  /** The highway layer: every road as a dark grey line, slightly transparent. */
  function HighwayLayer(highways: Frame): (a: Artist)
    ensures a.Lines? && a.rows == highways.rows
    ensures a.color == Config.HIGHWAY_COLOR && a.lineWidth == Config.HIGHWAY_WIDTH && a.alpha == 0.8
  {
    Lines(highways.rows, Config.HIGHWAY_COLOR, Config.HIGHWAY_WIDTH, 0.8)
  }

  /** The masjid markers: every masjid as a green star of the configured size. */
  function MasjidMarkers(masjids: Frame): (a: Artist)
    ensures a.Markers? && a.rows == masjids.rows
    ensures a.color == Config.MASJID_COLOR && a.marker == Config.MASJID_SYMBOL
    ensures a.size == Config.MASJID_SIZE && a.alpha == 0.9
  {
    Markers(masjids.rows, Config.MASJID_COLOR, Config.MASJID_SYMBOL, Config.MASJID_SIZE, 0.9)
  }

  /** A record the label loop can annotate: `row["name"]` exists and `row.geometry` has `x` and `y`. */
  predicate Annotatable(columns: set<string>, r: Record)
  {
    "name" in columns && r.geometry.Some? && r.geometry.value.Point?
  }

  /** The label of one masjid: its name, at its point, offset up and right, unrotated, on a white box. */
  function Label(r: Record): (a: Artist)
    requires r.geometry.Some? && r.geometry.value.Point?
    ensures a.Annotation? && a.xy == r.geometry.value.at && a.text == Attr(r, "name")
    ensures a.offsetPoints == Some(LABEL_OFFSET) && a.rotation == 0.0 && a.boxColor == "white"
  {
    Annotation(Attr(r, "name"), r.geometry.value.at, Some(LABEL_OFFSET), 0.0, "white")
  }

  /** The labels of a run of point records, one per record, in order. */
  function Labels(rows: seq<Record>): (ls: seq<Artist>)
    requires forall i :: 0 <= i < |rows| ==> rows[i].geometry.Some? && rows[i].geometry.value.Point?
    ensures |ls| == |rows|
    ensures forall i :: 0 <= i < |rows| ==> ls[i] == Label(rows[i])
  {
    if rows == [] then [] else Labels(rows[..|rows| - 1]) + [Label(rows[|rows| - 1])]
  }

  function GeometryTypeName(g: Option<Geometry>): string
  {
    match g
    case None => "NoneType"
    case Some(Point(_)) => "Point"
    case Some(LineString(_)) => "LineString"
    case Some(Polygon(_)) => "Polygon"
    case Some(MultiLineString(_)) => "MultiLineString"
    case Some(MultiPolygon(_)) => "MultiPolygon"
  }

  /** What the label loop raises at a record it cannot annotate: the name lookup comes first. */
  function LabelError(columns: set<string>, r: Record): (e: Error)
    requires !Annotatable(columns, r)
    ensures e.KeyError? <==> "name" !in columns
    ensures e.AttributeError? <==> "name" in columns
  {
    if "name" !in columns then KeyError("name")
    else AttributeError("'" + GeometryTypeName(r.geometry) + "' object has no attribute 'x'")
  }

  /** The index of the first record from `i` on that the label loop cannot annotate, or the row count. */
  function FirstUnlabelable(columns: set<string>, rows: seq<Record>, i: nat): (k: nat)
    requires i <= |rows|
    ensures i <= k <= |rows|
    ensures forall j :: i <= j < k ==> Annotatable(columns, rows[j])
    ensures k < |rows| ==> !Annotatable(columns, rows[k])
    decreases |rows| - i
  {
    if i == |rows| || !Annotatable(columns, rows[i]) then i
    else FirstUnlabelable(columns, rows, i + 1)
  }

  /** How many masjids `render_masjids` labels before it stops. */
  function LabelledCount(masjids: Frame): (k: nat)
    ensures k <= |masjids.rows|
    ensures forall j :: 0 <= j < k ==> Annotatable(masjids.columns, masjids.rows[j])
    ensures k < |masjids.rows| ==> !Annotatable(masjids.columns, masjids.rows[k])
  {
    FirstUnlabelable(masjids.columns, masjids.rows, 0)
  }

  /** A masjid layer as the loaders produce it is labelled in full. */
  lemma PointLayerFullyLabelled(masjids: Frame)
    requires "name" in masjids.columns
    requires forall i :: 0 <= i < |masjids.rows| ==>
      masjids.rows[i].geometry.Some? && masjids.rows[i].geometry.value.Point?
    ensures LabelledCount(masjids) == |masjids.rows|
  {
  }

  /** Without a `name` column nothing is labelled, unless there is nothing to label. */
  lemma NamelessLayerUnlabelled(masjids: Frame)
    requires "name" !in masjids.columns
    ensures LabelledCount(masjids) == 0
  {
  }

  /** The axes after `render_masjids` has drawn the markers and labelled the first `k` masjids. */
  function WithMasjids(ax: Axes, masjids: Frame, k: nat): (r: Axes)
    requires k <= LabelledCount(masjids)
    ensures r == ax.(artists := r.artists)
    ensures |r.artists| == |ax.artists| + 1 + k
    ensures r.artists[..|ax.artists|] == ax.artists
    ensures r.artists[|ax.artists|] == MasjidMarkers(masjids)
    ensures forall i :: 0 <= i < k ==> r.artists[|ax.artists| + 1 + i] == Label(masjids.rows[i])
  {
    ax.(artists := ax.artists + [MasjidMarkers(masjids)] + Labels(masjids.rows[..k]))
  }

  /** Labelling one more masjid draws its label over the ones before it. */
  lemma WithMasjidsStep(ax: Axes, masjids: Frame, i: nat)
    requires i < LabelledCount(masjids)
    ensures Draw(WithMasjids(ax, masjids, i), Label(masjids.rows[i])) == WithMasjids(ax, masjids, i + 1)
  {
    assert masjids.rows[..i + 1][..i] == masjids.rows[..i];
    assert Labels(masjids.rows[..i + 1]) == Labels(masjids.rows[..i]) + [Label(masjids.rows[i])];
  }

  /** `lo - w * p` to `hi + w * p`, with `w` the width `hi - lo`. */
  function Padded(lo: real, hi: real, p: real): (iv: Interval)
    ensures 0.0 <= p && lo <= hi ==> iv.lo <= lo && hi <= iv.hi
    ensures iv.hi - iv.lo == (hi - lo) * (1.0 + 2.0 * p)
    ensures iv.lo + iv.hi == lo + hi
  {
    Interval(lo - (hi - lo) * p, hi + (hi - lo) * p)
  }

  /** The axes after `set_extent`: each axis widened by the buffer fraction on both sides. */
  function WithExtent(ax: Axes, b: Bounds, p: real): (r: Axes)
    ensures r.xlim == Some(Padded(b.minx, b.maxx, p)) && r.ylim == Some(Padded(b.miny, b.maxy, p))
    ensures r.artists == ax.artists && r.title == ax.title
  {
    ax.(xlim := Some(Padded(b.minx, b.maxx, p)), ylim := Some(Padded(b.miny, b.maxy, p)))
  }

  function WithTitle(ax: Axes, text: string): (r: Axes)
    ensures r.title == Some(Title(text, Config.TITLE_FONT_SIZE, true, 20))
    ensures r.artists == ax.artists && r.xlim == ax.xlim && r.ylim == ax.ylim
  {
    ax.(title := Some(Title(text, Config.TITLE_FONT_SIZE, true, 20)))
  }

  /** Python's truth value of the optional title: given and non-empty. */
  predicate HasTitle(title: Option<string>)
  {
    title.Some? && title.value != ""
  }

  /**
   * The axes after the layers of `render_complete_map`, with the first `k`
   * masjids labelled: the county extent, then the counties, highways and
   * masjid markers bottom to top, then the labels.
   */
  function Layered(counties: Frame, highways: Frame, masjids: Frame, k: nat,
                   draw: nat -> Config.PaletteIndex, bounds: Bounds): (ax: Axes)
    requires k <= LabelledCount(masjids)
    ensures ax.equalAspect && ax.axisOff && ax.title.None?
    ensures |ax.artists| == 3 + k
    ensures ax.artists[0] == CountyLayer(counties, draw) && ax.artists[1] == HighwayLayer(highways)
    ensures ax.artists[2] == MasjidMarkers(masjids)
    ensures forall i :: 0 <= i < k ==> ax.artists[3 + i] == Label(masjids.rows[i])
    ensures ax.xlim == Some(Padded(bounds.minx, bounds.maxx, DEFAULT_BUFFER_PERCENT))
    ensures ax.ylim == Some(Padded(bounds.miny, bounds.maxy, DEFAULT_BUFFER_PERCENT))
  {
    var framed := WithExtent(CleanAxes(), bounds, DEFAULT_BUFFER_PERCENT);
    WithMasjids(framed.(artists := [CountyLayer(counties, draw), HighwayLayer(highways)]), masjids, k)
  }

  /**
   * The finished map when every masjid can be labelled: counties below
   * highways below masjid markers, one label per masjid above them, the
   * extent fitted to the counties, and a title exactly when a non-empty one
   * is given.
   */
  function CompleteMap(counties: Frame, highways: Frame, masjids: Frame, title: Option<string>,
                       draw: nat -> Config.PaletteIndex, bounds: Bounds): (ax: Axes)
    requires LabelledCount(masjids) == |masjids.rows|
    ensures ax.equalAspect && ax.axisOff
    ensures |ax.artists| == 3 + |masjids.rows|
    ensures ax.artists[0] == CountyLayer(counties, draw) && ax.artists[1] == HighwayLayer(highways)
    ensures ax.artists[2] == MasjidMarkers(masjids)
    ensures forall i :: 0 <= i < |masjids.rows| ==> ax.artists[3 + i] == Label(masjids.rows[i])
    ensures ax.title.Some? <==> HasTitle(title)
    ensures HasTitle(title) ==> ax.title == Some(Title(title.value, Config.TITLE_FONT_SIZE, true, 20))
    ensures ax.xlim == Some(Padded(bounds.minx, bounds.maxx, DEFAULT_BUFFER_PERCENT))
    ensures ax.ylim == Some(Padded(bounds.miny, bounds.maxy, DEFAULT_BUFFER_PERCENT))
  {
    var drawn := Layered(counties, highways, masjids, |masjids.rows|, draw, bounds);
    if HasTitle(title) then WithTitle(drawn, title.value) else drawn
  }

  class USMapRenderer {
    var dpi: int
    var fig: Option<Figure>
    var ax: Option<Axes>
    /** The figures handed to `plt.close`, in order. */
    var closed: seq<Figure>

    /** The figure and its axes exist together or not at all. */
    predicate Valid()
      reads this
    {
      fig.Some? <==> ax.Some?
    }

    constructor(dpi: int)
      ensures Valid()
      ensures this.dpi == dpi && fig.None? && ax.None? && closed == []
    {
      this.dpi := dpi;
      fig := None;
      ax := None;
      closed := [];
    }

    /**
     * A fresh 48 x 48 inch figure at the renderer's dpi, with clean axes.
     * A figure made earlier is dropped without being closed.
     */
    method CreateFigure() returns (f: Figure, a: Axes)
      modifies this`fig, this`ax
      ensures Valid()
      ensures fig == Some(f) && ax == Some(a)
      ensures f == Figure(Config.MAP_WIDTH_INCHES, Config.MAP_HEIGHT_INCHES, dpi)
      ensures a == CleanAxes()
    {
      f := Figure(Config.MAP_WIDTH_INCHES, Config.MAP_HEIGHT_INCHES, dpi);
      a := CleanAxes();
      fig := Some(f);
      ax := Some(a);
    }

    /** Draws the counties, each face coloured by its own random palette draw. */
    method RenderCounties(counties: Frame, draw: nat -> Config.PaletteIndex) returns (r: Outcome<Error>)
      requires Valid()
      modifies this`ax
      ensures Valid()
      ensures old(ax).None? ==> r == Fail(ValueError(NOT_CREATED)) && ax == old(ax)
      ensures old(ax).Some? ==> r == Pass && ax == Some(Draw(old(ax).value, CountyLayer(counties, draw)))
    {
      if ax.None? {
        return Fail(ValueError(NOT_CREATED));
      }
      ax := Some(Draw(ax.value, CountyLayer(counties, draw)));
      r := Pass;
    }

    method RenderHighways(highways: Frame) returns (r: Outcome<Error>)
      requires Valid()
      modifies this`ax
      ensures Valid()
      ensures old(ax).None? ==> r == Fail(ValueError(NOT_CREATED)) && ax == old(ax)
      ensures old(ax).Some? ==> r == Pass && ax == Some(Draw(old(ax).value, HighwayLayer(highways)))
    {
      if ax.None? {
        return Fail(ValueError(NOT_CREATED));
      }
      ax := Some(Draw(ax.value, HighwayLayer(highways)));
      r := Pass;
    }

    /**
     * Draws the masjid markers, then labels the masjids one by one. The loop
     * raises at the first record it cannot label, leaving the labels drawn
     * before it on the axes.
     */
    method RenderMasjids(masjids: Frame) returns (r: Outcome<Error>)
      requires Valid()
      modifies this`ax
      ensures Valid()
      ensures old(ax).None? ==> r == Fail(ValueError(NOT_CREATED)) && ax == old(ax)
      ensures old(ax).Some? ==>
        var k := LabelledCount(masjids);
        && ax == Some(WithMasjids(old(ax).value, masjids, k))
        && (r.Pass? <==> k == |masjids.rows|)
        && (r.Fail? ==> r.error == LabelError(masjids.columns, masjids.rows[k]))
    {
      if ax.None? {
        return Fail(ValueError(NOT_CREATED));
      }
      ghost var before := ax.value;
      assert Draw(before, MasjidMarkers(masjids)) == WithMasjids(before, masjids, 0);
      ax := Some(Draw(ax.value, MasjidMarkers(masjids)));
      var rows := masjids.rows;
      var i := 0;
      while i < |rows|
        invariant 0 <= i <= LabelledCount(masjids)
        invariant ax == Some(WithMasjids(before, masjids, i))
      {
        if !Annotatable(masjids.columns, rows[i]) {
          assert i == LabelledCount(masjids);
          return Fail(LabelError(masjids.columns, rows[i]));
        }
        WithMasjidsStep(before, masjids, i);
        ax := Some(Draw(ax.value, Label(rows[i])));
        i := i + 1;
      }
      r := Pass;
    }

    /** Sets the bold title, by default the map's standard one. */
    method AddTitle(title: string := DEFAULT_TITLE) returns (r: Outcome<Error>)
      requires Valid()
      modifies this`ax
      ensures Valid()
      ensures old(ax).None? ==> r == Fail(ValueError(NOT_CREATED)) && ax == old(ax)
      ensures old(ax).Some? ==> r == Pass && ax == Some(WithTitle(old(ax).value, title))
    {
      if ax.None? {
        return Fail(ValueError(NOT_CREATED));
      }
      ax := Some(WithTitle(ax.value, title));
      r := Pass;
    }

    /**
     * Fits both axes to the frame's total bounds, widened by `bufferPercent`
     * of each extent. `totalBounds` gives None where `total_bounds` holds a
     * NaN or an infinity (a frame with no non-empty geometry); the first
     * `set_xlim` then refuses the limits and the axes keep their window.
     */
    method SetExtent(gdf: Frame, totalBounds: Frame -> Option<Bounds>, bufferPercent: real := DEFAULT_BUFFER_PERCENT)
      returns (r: Outcome<Error>)
      requires Valid()
      modifies this`ax
      ensures Valid()
      ensures old(ax).None? ==> r == Fail(ValueError(NOT_CREATED)) && ax == old(ax)
      ensures old(ax).Some? && totalBounds(gdf).None? ==> r == Fail(ValueError(NAN_LIMITS)) && ax == old(ax)
      ensures old(ax).Some? && totalBounds(gdf).Some? ==>
        r == Pass && ax == Some(WithExtent(old(ax).value, totalBounds(gdf).value, bufferPercent))
    {
      if ax.None? {
        return Fail(ValueError(NOT_CREATED));
      }
      if totalBounds(gdf).None? {
        return Fail(ValueError(NAN_LIMITS));
      }
      var bounds := totalBounds(gdf).value;
      var width := bounds.maxx - bounds.minx;
      var height := bounds.maxy - bounds.miny;
      var bufferX := width * bufferPercent;
      var bufferY := height * bufferPercent;
      var xlim := Interval(bounds.minx - bufferX, bounds.maxx + bufferX);
      var ylim := Interval(bounds.miny - bufferY, bounds.maxy + bufferY);
      assert xlim == Padded(bounds.minx, bounds.maxx, bufferPercent);
      assert ylim == Padded(bounds.miny, bounds.maxy, bufferPercent);
      ax := Some(ax.value.(xlim := Some(xlim), ylim := Some(ylim)));
      r := Pass;
    }

    /**
     * Creates a figure, fits it to the counties, draws the three layers and
     * the title when one is given. Fitting fails, before anything is drawn,
     * when the counties have no finite bounds; otherwise only the masjid
     * labels can fail, and the title is then not drawn.
     */
    method RenderCompleteMap(counties: Frame, highways: Frame, masjids: Frame, title: Option<string>,
                             draw: nat -> Config.PaletteIndex, totalBounds: Frame -> Option<Bounds>)
      returns (r: Result<(Figure, Axes), Error>)
      requires Valid()
      modifies this`fig, this`ax
      ensures Valid() && fig.Some?
      ensures fig.value == Figure(Config.MAP_WIDTH_INCHES, Config.MAP_HEIGHT_INCHES, dpi)
      ensures totalBounds(counties).None? ==> r == Failure(ValueError(NAN_LIMITS)) && ax == Some(CleanAxes())
      ensures r.Success? <==> totalBounds(counties).Some? && LabelledCount(masjids) == |masjids.rows|
      ensures r.Success? ==>
        && ax == Some(CompleteMap(counties, highways, masjids, title, draw, totalBounds(counties).value))
        && r.value == (fig.value, ax.value)
      ensures r.Failure? && totalBounds(counties).Some? ==>
        var k := LabelledCount(masjids);
        && r.error == LabelError(masjids.columns, masjids.rows[k])
        && ax == Some(Layered(counties, highways, masjids, k, draw, totalBounds(counties).value))
    {
      var _, _ := CreateFigure();
      var o := SetExtent(counties, totalBounds);
      if o.Fail? {
        return Failure(o.error);
      }
      o := RenderCounties(counties, draw);
      o := RenderHighways(highways);
      assert [] + [CountyLayer(counties, draw)] + [HighwayLayer(highways)] == [CountyLayer(counties, draw), HighwayLayer(highways)];
      o := RenderMasjids(masjids);
      if o.Fail? {
        return Failure(o.error);
      }
      assert masjids.rows[..|masjids.rows|] == masjids.rows;
      if HasTitle(title) {
        o := AddTitle(title.value);
      }
      r := Success((fig.value, ax.value));
    }

    /** Closes the current figure, if any, and forgets it; a second call does nothing. */
    method Close()
      requires Valid()
      modifies this`fig, this`ax, this`closed
      ensures Valid() && fig.None? && ax.None?
      ensures old(fig).Some? ==> closed == old(closed) + [old(fig).value]
      ensures old(fig).None? ==> closed == old(closed) && ax == old(ax)
    {
      if fig.Some? {
        closed := closed + [fig.value];
        fig := None;
        ax := None;
      }
    }
  }
}
