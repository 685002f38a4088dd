/**
 * An abstract view of the plotting library: a figure, and the axes of a
 * figure as a value whose drawn artists form an ordered log.
 */
module Plot {
  import opened Wrappers
  import opened Geo

  /** A figure as `plt.subplots` makes it: its size in inches and its dpi. */
  datatype Figure = Figure(widthInches: int, heightInches: int, dpi: int)

  /** An axis window, from `lo` to `hi` in data coordinates. */
  datatype Interval = Interval(lo: real, hi: real)

  /** A frame's `total_bounds`: minx, miny, maxx, maxy. */
  datatype Bounds = Bounds(minx: real, miny: real, maxx: real, maxy: real)

  datatype Title = Title(text: string, fontSize: int, bold: bool, pad: int)

  /** One drawing call on the axes, with the style it was given. */
  datatype Artist =
    | Polygons(rows: seq<Record>, faceColors: seq<string>, edgeColor: string, lineWidth: real, alpha: real)
    | Lines(rows: seq<Record>, color: string, lineWidth: real, alpha: real)
    | Markers(rows: seq<Record>, color: string, marker: string, size: int, alpha: real)
      /** Text anchored at `xy`, shifted by `offsetPoints` (in points) when one is given. */
    | Annotation(text: Value, xy: Coord, offsetPoints: Option<(int, int)>, rotation: real, boxColor: string)

  datatype Axes = Axes(
    equalAspect: bool,
    axisOff: bool,
    xlim: Option<Interval>,
    ylim: Option<Interval>,
    title: Option<Title>,
    artists: seq<Artist>)

  /** Fresh axes as the renderer configures them: equal aspect, axis decoration off, nothing drawn. */
  function CleanAxes(): (ax: Axes)
    ensures ax.equalAspect && ax.axisOff && ax.artists == []
    ensures ax.xlim.None? && ax.ylim.None? && ax.title.None?
  {
    Axes(true, true, None, None, None, [])
  }

  /** The axes after one more drawing call. */
  function Draw(ax: Axes, a: Artist): (r: Axes)
    ensures r.artists == ax.artists + [a]
    ensures r == ax.(artists := r.artists)
  {
    ax.(artists := ax.artists + [a])
  }

  /** The axes after the drawing calls `drawn`, in order. */
  function DrawAll(ax: Axes, drawn: seq<Artist>): Axes
  {
    ax.(artists := ax.artists + drawn)
  }

  /** Drawing one more artist extends the drawn sequence by it. */
  lemma DrawAllSnoc(ax: Axes, drawn: seq<Artist>, a: Artist)
    ensures Draw(DrawAll(ax, drawn), a) == DrawAll(ax, drawn + [a])
  {
    assert (ax.artists + drawn) + [a] == ax.artists + (drawn + [a]);
  }
}
