/**
 * The Southern California map script (socal_map.py): the colour tables and
 * their fallbacks, the county fills drawn one county at a time, the
 * highways drawn in one layer per route type, and the one-pass selection of
 * highway labels (first name wins, short geometries skipped, at most twelve).
 */
module SocalMap {
  import opened Wrappers
  import opened Geo
  import opened Plot

  // ---------------------------------------------------------------- tables

  const COUNTY_COLORS: map<string, string> := map[
    "Los Angeles" := "#FFE5CC",
    "Orange" := "#FFD1DC",
    "Riverside" := "#FFF8DC",
    "San Bernardino" := "#FFA07A"]
  const DEFAULT_COUNTY_COLOR: string := "#F0F0F0"
  const COUNTY_EDGE_COLOR: string := "#CCCCCC"
  const COUNTY_EDGE_WIDTH: real := 1.0
  /** The opacity of each county fill. */
  const FILL_ALPHA: real := 0.8
  /** The opacity of each route-type highway layer. */
  const HIGHWAY_ALPHA: real := 0.8

  const HIGHWAY_COLORS: map<string, string> := map[
    "I" := "#FF0000",
    "U" := "#0066CC",
    "S" := "#FF6600",
    "C" := "#666666"]
  const HIGHWAY_WIDTH: real := 2.0

  const TARGET_COUNTIES: seq<string> := ["Los Angeles", "Orange", "Riverside", "San Bernardino"]

  /** The route types drawn, bottom to top. */
  const ROUTE_TYPES: seq<string> := ["I", "U", "S", "C"]

  /** The most highway names the script labels. */
  const MAX_HIGHWAY_LABELS: nat := 12

  // ---------------------------------------------------------------- colours

  /**
   * `HIGHWAY_COLORS.get(rttyp, HIGHWAY_COLORS["C"])`, which is also what
   * `.map(HIGHWAY_COLORS).fillna(HIGHWAY_COLORS["C"])` gives one value.
   */
  function RouteColor(rttyp: Value): (color: string)
    ensures rttyp.Str? && rttyp.s in HIGHWAY_COLORS ==> color == HIGHWAY_COLORS[rttyp.s]
    ensures !(rttyp.Str? && rttyp.s in HIGHWAY_COLORS) ==> color == HIGHWAY_COLORS["C"]
  {
    if rttyp.Str? && rttyp.s in HIGHWAY_COLORS then HIGHWAY_COLORS[rttyp.s] else HIGHWAY_COLORS["C"]
  }

  /** A route type outside the table, a number or a missing value all get the county-route gray. */
  lemma UnknownRouteIsGray(rttyp: Value)
    requires rttyp != Str("I") && rttyp != Str("U") && rttyp != Str("S")
    ensures RouteColor(rttyp) == "#666666"
  {
  }

  /** The four route types get four different colours. */
  lemma RouteColorsDistinct()
    ensures forall a, b :: 0 <= a < b < |ROUTE_TYPES| ==>
      RouteColor(Str(ROUTE_TYPES[a])) != RouteColor(Str(ROUTE_TYPES[b]))
  {
    assert RouteColor(Str("I")) == "#FF0000";
    assert RouteColor(Str("U")) == "#0066CC";
    assert RouteColor(Str("S")) == "#FF6600";
    assert RouteColor(Str("C")) == "#666666";
  }

  /** The `color` column the script adds to the regional highways: one route colour per segment. */
  function ColorColumn(rows: seq<Record>): (colors: seq<string>)
    ensures |colors| == |rows|
    ensures forall i :: 0 <= i < |rows| && Attr(rows[i], "RTTYP").Str? && Attr(rows[i], "RTTYP").s in HIGHWAY_COLORS ==>
      colors[i] == HIGHWAY_COLORS[Attr(rows[i], "RTTYP").s]
    ensures forall i :: 0 <= i < |rows| && !(Attr(rows[i], "RTTYP").Str? && Attr(rows[i], "RTTYP").s in HIGHWAY_COLORS) ==>
      colors[i] == HIGHWAY_COLORS["C"]
  {
    seq(|rows|, i requires 0 <= i < |rows| => RouteColor(Attr(rows[i], "RTTYP")))
  }

  /** `COUNTY_COLORS.get(name, "#F0F0F0")`. */
  function CountyColor(name: Value): (color: string)
    ensures name.Str? && name.s in COUNTY_COLORS ==> color == COUNTY_COLORS[name.s]
    ensures !(name.Str? && name.s in COUNTY_COLORS) ==> color == DEFAULT_COUNTY_COLOR
  {
    if name.Str? && name.s in COUNTY_COLORS then COUNTY_COLORS[name.s] else DEFAULT_COUNTY_COLOR
  }

  /** Each target county has a colour of its own, none of them the default. */
  lemma TargetCountiesColored()
    ensures forall i :: 0 <= i < |TARGET_COUNTIES| ==> CountyColor(Str(TARGET_COUNTIES[i])) != DEFAULT_COUNTY_COLOR
    ensures forall a, b :: 0 <= a < b < |TARGET_COUNTIES| ==>
      CountyColor(Str(TARGET_COUNTIES[a])) != CountyColor(Str(TARGET_COUNTIES[b]))
  {
    assert CountyColor(Str("Los Angeles")) == "#FFE5CC";
    assert CountyColor(Str("Orange")) == "#FFD1DC";
    assert CountyColor(Str("Riverside")) == "#FFF8DC";
    assert CountyColor(Str("San Bernardino")) == "#FFA07A";
  }

  // ---------------------------------------------------------------- counties

  /** One county drawn on its own, filled with its table colour. */
  function CountyFill(county: Record): (fill: Artist)
    ensures fill.Polygons? && fill.rows == [county] && fill.faceColors == [CountyColor(Attr(county, "NAME"))]
    ensures fill.edgeColor == "#CCCCCC" && fill.lineWidth == 1.0 && fill.alpha == 0.8
  {
    Polygons([county], [CountyColor(Attr(county, "NAME"))], COUNTY_EDGE_COLOR, COUNTY_EDGE_WIDTH, FILL_ALPHA)
  }

  /** The fills of `counties`, one per county, in row order. */
  function CountyFills(counties: seq<Record>): (fills: seq<Artist>)
    ensures |fills| == |counties|
    ensures forall i :: 0 <= i < |counties| ==> fills[i] == CountyFill(counties[i])
  {
    if counties == [] then [] else CountyFills(counties[..|counties| - 1]) + [CountyFill(counties[|counties| - 1])]
  }

  /** The county loop of `main`: each county plotted as its own frame, in table order. */
  method RenderCountyFills(ax: Axes, counties: seq<Record>) returns (r: Axes)
    ensures r == DrawAll(ax, CountyFills(counties))
  {
    r := ax;
    var i := 0;
    while i < |counties|
      invariant 0 <= i <= |counties|
      invariant r == DrawAll(ax, CountyFills(counties[..i]))
    {
      CountyFillsStep(counties, i);
      DrawAllSnoc(ax, CountyFills(counties[..i]), CountyFill(counties[i]));
      r := Draw(r, CountyFill(counties[i]));
      i := i + 1;
    }
    assert counties[..i] == counties;
  }

  lemma CountyFillsStep(counties: seq<Record>, i: nat)
    requires i < |counties|
    ensures CountyFills(counties[..i + 1]) == CountyFills(counties[..i]) + [CountyFill(counties[i])]
  {
    assert counties[..i + 1][..i] == counties[..i];
  }

  /** Every county fill shows exactly one county, in its table colour or the default. */
  lemma CountyFillsColored(counties: seq<Record>)
    ensures forall i :: 0 <= i < |counties| ==>
      && CountyFills(counties)[i].Polygons?
      && CountyFills(counties)[i].rows == [counties[i]]
      && CountyFills(counties)[i].faceColors == [CountyColor(Attr(counties[i], "NAME"))]
      && CountyFills(counties)[i].edgeColor == COUNTY_EDGE_COLOR
  {
  }

  // ---------------------------------------------------------------- highways

  /** The segments whose route type is exactly `t`, in row order (`rows[rows["RTTYP"] == t]`). */
  function OfType(rows: seq<Record>, t: string): (sel: seq<Record>)
    ensures |sel| <= |rows|
    ensures forall r :: r in sel <==> r in rows && Attr(r, "RTTYP") == Str(t)
  {
    if rows == [] then []
    else (if Attr(rows[0], "RTTYP") == Str(t) then [rows[0]] else []) + OfType(rows[1..], t)
  }

  /** The boolean-mask filter keeps order and multiplicity: selecting from two runs selects from each in turn. */
  lemma {:induction false} OfTypeConcat(a: seq<Record>, b: seq<Record>, t: string)
    ensures OfType(a + b, t) == OfType(a, t) + OfType(b, t)
  {
    if a == [] {
      assert a + b == b;
    } else {
      assert (a + b)[0] == a[0];
      assert (a + b)[1..] == a[1..] + b;
      OfTypeConcat(a[1..], b, t);
    }
  }

  /** A single segment is selected exactly when its route type is `t`. */
  lemma OfTypeOne(r: Record, t: string)
    ensures OfType([r], t) == if Attr(r, "RTTYP") == Str(t) then [r] else []
  {
    assert [r][1..] == [];
  }

  /** The layer of route type `t`: nothing when no segment has that type. */
  function TypeLayer(rows: seq<Record>, t: string): (layer: seq<Artist>)
    ensures |layer| <= 1
    ensures layer == [] <==> OfType(rows, t) == []
    ensures layer != [] ==> layer == [Lines(OfType(rows, t), RouteColor(Str(t)), HIGHWAY_WIDTH, HIGHWAY_ALPHA)]
  {
    var sel := OfType(rows, t);
    if sel == [] then [] else [Lines(sel, RouteColor(Str(t)), HIGHWAY_WIDTH, HIGHWAY_ALPHA)]
  }

  /** The layers of the route types `types`, in that order. */
  function TypeLayers(rows: seq<Record>, types: seq<string>): (layers: seq<Artist>)
    ensures |layers| <= |types|
    ensures forall k :: 0 <= k < |layers| ==> layers[k].Lines? && |layers[k].rows| > 0
  {
    if types == [] then [] else TypeLayers(rows, types[..|types| - 1]) + TypeLayer(rows, types[|types| - 1])
  }

  /** The per-type highway loop of `main`: I, then U, then S, then C, each drawn only when present. */
  method RenderHighwaysByType(ax: Axes, highways: seq<Record>) returns (r: Axes)
    ensures r == DrawAll(ax, TypeLayer(highways, "I") + TypeLayer(highways, "U")
                             + TypeLayer(highways, "S") + TypeLayer(highways, "C"))
  {
    r := ax;
    var k := 0;
    while k < |ROUTE_TYPES|
      invariant 0 <= k <= |ROUTE_TYPES|
      invariant r == DrawAll(ax, TypeLayers(highways, ROUTE_TYPES[..k]))
    {
      var highwayType := ROUTE_TYPES[k];
      DrawTypeStep(ax, highways, ROUTE_TYPES, k);
      var typeHighways := OfType(highways, highwayType);
      if typeHighways != [] {
        r := Draw(r, Lines(typeHighways, RouteColor(Str(highwayType)), HIGHWAY_WIDTH, HIGHWAY_ALPHA));
      }
      k := k + 1;
    }
    DrawnRouteTypes(ax, highways);
  }

  /** One turn of the per-type loop draws exactly the next type's layer, if any. */
  lemma DrawTypeStep(ax: Axes, rows: seq<Record>, types: seq<string>, k: nat)
    requires k < |types|
    ensures OfType(rows, types[k]) == [] ==>
      DrawAll(ax, TypeLayers(rows, types[..k])) == DrawAll(ax, TypeLayers(rows, types[..k + 1]))
    ensures OfType(rows, types[k]) != [] ==>
      Draw(DrawAll(ax, TypeLayers(rows, types[..k])),
           Lines(OfType(rows, types[k]), RouteColor(Str(types[k])), HIGHWAY_WIDTH, HIGHWAY_ALPHA))
      == DrawAll(ax, TypeLayers(rows, types[..k + 1]))
  {
    TypeLayersStep(rows, types, k);
    DrawAllSnoc(ax, TypeLayers(rows, types[..k]),
                Lines(OfType(rows, types[k]), RouteColor(Str(types[k])), HIGHWAY_WIDTH, HIGHWAY_ALPHA));
  }

  /** After all four route types the loop has drawn the I, U, S and C layers in order. */
  lemma DrawnRouteTypes(ax: Axes, rows: seq<Record>)
    ensures DrawAll(ax, TypeLayers(rows, ROUTE_TYPES[..|ROUTE_TYPES|])) ==
      DrawAll(ax, TypeLayer(rows, "I") + TypeLayer(rows, "U") + TypeLayer(rows, "S") + TypeLayer(rows, "C"))
  {
    assert ROUTE_TYPES[..|ROUTE_TYPES|] == ROUTE_TYPES;
    RouteTypeLayers(rows);
  }

  /** One more route type adds its layer, which is nothing when no segment has that type. */
  lemma TypeLayersStep(rows: seq<Record>, types: seq<string>, k: nat)
    requires k < |types|
    ensures OfType(rows, types[k]) == [] ==> TypeLayers(rows, types[..k + 1]) == TypeLayers(rows, types[..k])
    ensures OfType(rows, types[k]) != [] ==>
              TypeLayers(rows, types[..k + 1]) ==
              TypeLayers(rows, types[..k]) + [Lines(OfType(rows, types[k]), RouteColor(Str(types[k])), HIGHWAY_WIDTH, HIGHWAY_ALPHA)]
  {
    assert types[..k + 1][..k] == types[..k];
    assert TypeLayers(rows, types[..k]) + [] == TypeLayers(rows, types[..k]);
  }

  lemma RouteTypeLayers(rows: seq<Record>)
    ensures TypeLayers(rows, ROUTE_TYPES) ==
      TypeLayer(rows, "I") + TypeLayer(rows, "U") + TypeLayer(rows, "S") + TypeLayer(rows, "C")
  {
    var iusc: seq<string> := ["I", "U", "S", "C"];
    var ius: seq<string> := ["I", "U", "S"];
    var iu: seq<string> := ["I", "U"];
    var i: seq<string> := ["I"];
    assert iusc[..3] == ius && iusc[3] == "C";
    assert ius[..2] == iu && ius[2] == "S";
    assert iu[..1] == i && iu[1] == "U";
    assert i[..0] == [] && i[0] == "I";
    assert TypeLayers(rows, i) == TypeLayer(rows, "I");
    assert TypeLayers(rows, iu) == TypeLayer(rows, "I") + TypeLayer(rows, "U");
    assert TypeLayers(rows, ius) == TypeLayer(rows, "I") + TypeLayer(rows, "U") + TypeLayer(rows, "S");
  }

  /** What a segment of route type `t` is drawn with: its layer holds it, in that type's colour. */
  lemma SegmentDrawnInItsLayer(rows: seq<Record>, r: Record, t: string)
    requires r in rows && Attr(r, "RTTYP") == Str(t)
    ensures |TypeLayer(rows, t)| == 1
    ensures r in TypeLayer(rows, t)[0].rows
    ensures TypeLayer(rows, t)[0].color == RouteColor(Str(t))
  {
    assert r in OfType(rows, t);
  }

  /**
   * A segment whose type is not one of I, U, S, C gets a colour in the
   * colour column but appears in no drawn layer.
   */
  lemma OtherTypeNeverDrawn(rows: seq<Record>, r: Record, t: string)
    requires t in ROUTE_TYPES
    requires forall u :: u in ROUTE_TYPES ==> Attr(r, "RTTYP") != Str(u)
    ensures forall a :: a in TypeLayer(rows, t) ==> r !in a.rows
  {
    assert r !in OfType(rows, t);
  }

  // ---------------------------------------------------------------- highway labels

  /**
   * `major_highways_for_labels`' row filter: an Interstate or US route with
   * a name that is a non-empty string.
   */
  predicate IsLabelCandidate(r: Record)
  {
    && (Attr(r, "RTTYP") == Str("I") || Attr(r, "RTTYP") == Str("U"))
    && Attr(r, "FULLNAME").Str?
    && |Attr(r, "FULLNAME").s| > 0
  }

  /** The label candidates, in row order. */
  function LabelCandidates(rows: seq<Record>): (cands: seq<Record>)
    ensures |cands| <= |rows|
    ensures forall r :: r in cands <==> r in rows && IsLabelCandidate(r)
  {
    if rows == [] then []
    else (if IsLabelCandidate(rows[0]) then [rows[0]] else []) + LabelCandidates(rows[1..])
  }

  /** The candidate filter keeps order and multiplicity: filtering two runs filters each in turn. */
  lemma {:induction false} LabelCandidatesConcat(a: seq<Record>, b: seq<Record>)
    ensures LabelCandidates(a + b) == LabelCandidates(a) + LabelCandidates(b)
  {
    if a == [] {
      assert a + b == b;
    } else {
      assert (a + b)[0] == a[0];
      assert (a + b)[1..] == a[1..] + b;
      LabelCandidatesConcat(a[1..], b);
    }
  }

  /** A single segment is a candidate exactly when it passes the filter. */
  lemma LabelCandidatesOne(r: Record)
    ensures LabelCandidates([r]) == if IsLabelCandidate(r) then [r] else []
  {
    assert [r][1..] == [];
  }

  /**
   * The label angle folded into [-90, 90] so the text never reads upside down.
   */
  function Normalize(angle: real): (a: real)
    ensures -180.0 <= angle <= 180.0 ==> -90.0 <= a <= 90.0
    ensures a == angle || a == angle - 180.0 || a == angle + 180.0
    ensures -90.0 <= angle <= 90.0 ==> a == angle
  {
    if angle > 90.0 then angle - 180.0
    else if angle < -90.0 then angle + 180.0
    else angle
  }

  /** Folding is idempotent on the angles `atan2` can produce. */
  lemma NormalizeIdempotent(angle: real)
    requires -180.0 <= angle <= 180.0
    ensures Normalize(Normalize(angle)) == Normalize(angle)
  {
  }

  /**
   * Where a geometry's label goes: the middle coordinate, turned along the
   * step that ends there. `heading(p1, p2)` is the direction from `p1` to
   * `p2` in degrees, as `np.degrees(np.arctan2(...))` gives it. No label
   * when the geometry has no coordinate sequence or fewer than two points.
   */
  function Placement(g: Option<Geometry>, heading: (Coord, Coord) -> real): (p: Option<(Coord, real)>)
    ensures p.Some? <==> CoordinateSequence(g).Some? && |CoordinateSequence(g).value| >= 2
    ensures p.Some? ==>
      var cs := CoordinateSequence(g).value;
      var mid := |cs| / 2;
      && 1 <= mid < |cs|
      && p.value == (cs[mid], Normalize(heading(cs[mid - 1], cs[mid])))
  {
    match CoordinateSequence(g)
    case None => None
    case Some(cs) =>
      if |cs| < 2 then None
      else
        var mid := |cs| / 2;
        var angle := if mid > 0 then Normalize(heading(cs[mid - 1], cs[mid])) else 0.0;
        Some((cs[mid], angle))
  }

  function Name(r: Record): Value
  {
    Attr(r, "FULLNAME")
  }

  /** The label of a row that can be placed: its name at the middle point, boxed in its route colour. */
  function HighwayLabel(r: Record, heading: (Coord, Coord) -> real): (a: Artist)
    requires Placement(r.geometry, heading).Some?
    ensures a.Annotation? && a.text == Name(r) && a.offsetPoints.None?
    ensures a.xy == Placement(r.geometry, heading).value.0 && a.rotation == Placement(r.geometry, heading).value.1
    ensures a.boxColor == RouteColor(Attr(r, "RTTYP"))
  {
    var p := Placement(r.geometry, heading).value;
    Annotation(Name(r), p.0, None, p.1, RouteColor(Attr(r, "RTTYP")))
  }

  /**
   * The labels the loop places on `rows` once the names in `seen` are taken:
   * a taken name is skipped, an unplaceable row is skipped without taking its
   * name, and the loop ends as soon as the twelfth name is taken.
   */
  function HighwayLabels(rows: seq<Record>, seen: set<Value>, heading: (Coord, Coord) -> real): (labels: seq<Artist>)
    ensures |labels| <= |rows|
    ensures forall k :: 0 <= k < |labels| ==> labels[k].Annotation? && labels[k].text !in seen
  {
    if rows == [] then []
    else if Name(rows[0]) in seen || Placement(rows[0].geometry, heading).None? then HighwayLabels(rows[1..], seen, heading)
    else
      var taken := seen + {Name(rows[0])};
      [HighwayLabel(rows[0], heading)] + (if |taken| >= MAX_HIGHWAY_LABELS then [] else HighwayLabels(rows[1..], taken, heading))
  }

  /** The same selection without the limit: every placeable row whose name is not yet taken. */
  function FirstLabels(rows: seq<Record>, seen: set<Value>, heading: (Coord, Coord) -> real): (labels: seq<Artist>)
    ensures |labels| <= |rows|
    ensures forall k :: 0 <= k < |labels| ==> labels[k].Annotation?
  {
    if rows == [] then []
    else if Name(rows[0]) in seen || Placement(rows[0].geometry, heading).None? then FirstLabels(rows[1..], seen, heading)
    else [HighwayLabel(rows[0], heading)] + FirstLabels(rows[1..], seen + {Name(rows[0])}, heading)
  }

  /** The first `n` elements of `s`, or all of them when there are fewer. */
  function Take<T>(s: seq<T>, n: nat): (t: seq<T>)
    ensures |t| <= n && t <= s
    ensures |s| <= n ==> t == s
  {
    if |s| <= n then s else s[..n]
  }

  /** The twelve-label limit only cuts: the capped selection is a prefix of the uncapped one. */
  lemma {:induction false} LabelsAreCappedFirstLabels(rows: seq<Record>, seen: set<Value>, heading: (Coord, Coord) -> real)
    requires |seen| < MAX_HIGHWAY_LABELS
    ensures HighwayLabels(rows, seen, heading) == Take(FirstLabels(rows, seen, heading), MAX_HIGHWAY_LABELS - |seen|)
  {
    if rows != [] && Name(rows[0]) !in seen && Placement(rows[0].geometry, heading).Some? {
      var taken := seen + {Name(rows[0])};
      var head := HighwayLabel(rows[0], heading);
      var rest := FirstLabels(rows[1..], taken, heading);
      assert |taken| == |seen| + 1;
      if |taken| < MAX_HIGHWAY_LABELS {
        LabelsAreCappedFirstLabels(rows[1..], taken, heading);
        TakeCons(head, rest, MAX_HIGHWAY_LABELS - |taken|);
      } else {
        assert Take([head] + rest, 1) == [head];
      }
    } else if rows != [] {
      LabelsAreCappedFirstLabels(rows[1..], seen, heading);
    }
  }

  lemma TakeCons<T>(x: T, s: seq<T>, n: nat)
    ensures Take([x] + s, n + 1) == [x] + Take(s, n)
  {
    if |s| > n {
      assert ([x] + s)[..n + 1] == [x] + s[..n];
    }
  }

  /** No two labels carry the same name, and no label carries a name taken beforehand. */
  lemma {:induction false} FirstLabelsDistinct(rows: seq<Record>, seen: set<Value>, heading: (Coord, Coord) -> real)
    ensures forall k :: 0 <= k < |FirstLabels(rows, seen, heading)| ==> FirstLabels(rows, seen, heading)[k].text !in seen
    ensures forall a, b :: 0 <= a < b < |FirstLabels(rows, seen, heading)| ==>
      FirstLabels(rows, seen, heading)[a].text != FirstLabels(rows, seen, heading)[b].text
  {
    if rows != [] {
      if Name(rows[0]) in seen || Placement(rows[0].geometry, heading).None? {
        FirstLabelsDistinct(rows[1..], seen, heading);
      } else {
        FirstLabelsDistinct(rows[1..], seen + {Name(rows[0])}, heading);
      }
    }
  }

  /**
   * Every label is made from one row: a placeable row whose name was not
   * taken before and which no earlier placeable row shares its name with.
   */
  lemma {:induction false} FirstLabelIsFirstPlaceable(rows: seq<Record>, seen: set<Value>,
                                                      heading: (Coord, Coord) -> real, k: nat)
    returns (i: nat)
    requires k < |FirstLabels(rows, seen, heading)|
    ensures i < |rows| && Placement(rows[i].geometry, heading).Some?
    ensures FirstLabels(rows, seen, heading)[k] == HighwayLabel(rows[i], heading)
    ensures Name(rows[i]) !in seen
    ensures forall j :: 0 <= j < i && Name(rows[j]) == Name(rows[i]) ==> Placement(rows[j].geometry, heading).None?
  {
    if Name(rows[0]) in seen || Placement(rows[0].geometry, heading).None? {
      var i' := FirstLabelIsFirstPlaceable(rows[1..], seen, heading, k);
      i := i' + 1;
      assert rows[i] == rows[1..][i'];
      EarlierUnplaceable(rows, i, heading);
    } else if k == 0 {
      i := 0;
    } else {
      var i' := FirstLabelIsFirstPlaceable(rows[1..], seen + {Name(rows[0])}, heading, k - 1);
      i := i' + 1;
      assert rows[i] == rows[1..][i'];
      EarlierUnplaceable(rows, i, heading);
    }
  }

  /** No placeable row before `i` shares its name when none does after the first row and the first does not. */
  lemma EarlierUnplaceable(rows: seq<Record>, i: nat, heading: (Coord, Coord) -> real)
    requires 0 < i < |rows|
    requires Name(rows[0]) == Name(rows[i]) ==> Placement(rows[0].geometry, heading).None?
    requires forall j :: 0 <= j < i - 1 && Name(rows[1..][j]) == Name(rows[1..][i - 1]) ==>
      Placement(rows[1..][j].geometry, heading).None?
    ensures forall j :: 0 <= j < i && Name(rows[j]) == Name(rows[i]) ==> Placement(rows[j].geometry, heading).None?
  {
    forall j | 0 < j < i
      ensures rows[j] == rows[1..][j - 1]
    {
    }
    assert rows[i] == rows[1..][i - 1];
  }

  /** Every placeable row whose name was not taken beforehand gets its name labelled. */
  lemma {:induction false} PlaceableNameLabelled(rows: seq<Record>, seen: set<Value>,
                                                 heading: (Coord, Coord) -> real, i: nat)
    returns (k: nat)
    requires i < |rows| && Placement(rows[i].geometry, heading).Some?
    requires Name(rows[i]) !in seen
    ensures k < |FirstLabels(rows, seen, heading)|
    ensures FirstLabels(rows, seen, heading)[k].text == Name(rows[i])
  {
    if Name(rows[0]) in seen || Placement(rows[0].geometry, heading).None? {
      assert rows[i] == rows[1..][i - 1];
      k := PlaceableNameLabelled(rows[1..], seen, heading, i - 1);
    } else if Name(rows[0]) == Name(rows[i]) {
      k := 0;
    } else {
      assert rows[i] == rows[1..][i - 1];
      var k' := PlaceableNameLabelled(rows[1..], seen + {Name(rows[0])}, heading, i - 1);
      k := k' + 1;
    }
  }

  /** At most twelve labels, each with a name of its own. */
  lemma HighwayLabelsBounded(rows: seq<Record>, heading: (Coord, Coord) -> real)
    ensures |HighwayLabels(rows, {}, heading)| <= MAX_HIGHWAY_LABELS
    ensures forall k :: 0 <= k < |HighwayLabels(rows, {}, heading)| ==> HighwayLabels(rows, {}, heading)[k].Annotation?
    ensures forall a, b :: 0 <= a < b < |HighwayLabels(rows, {}, heading)| ==>
      HighwayLabels(rows, {}, heading)[a].text != HighwayLabels(rows, {}, heading)[b].text
  {
    LabelsAreCappedFirstLabels(rows, {}, heading);
    FirstLabelsDistinct(rows, {}, heading);
  }

  /** Labels drawn from the candidates name a route with a non-empty name and are boxed red or blue. */
  lemma {:induction false} CandidateLabelsStyled(rows: seq<Record>, seen: set<Value>, heading: (Coord, Coord) -> real)
    requires forall r :: r in rows ==> IsLabelCandidate(r)
    ensures forall a :: a in FirstLabels(rows, seen, heading) ==>
      && a.text.Str? && |a.text.s| > 0
      && (a.boxColor == "#FF0000" || a.boxColor == "#0066CC")
  {
    if rows != [] {
      assert rows[0] in rows;
      forall r | r in rows[1..] ensures IsLabelCandidate(r) { assert r in rows; }
      if Name(rows[0]) in seen || Placement(rows[0].geometry, heading).None? {
        CandidateLabelsStyled(rows[1..], seen, heading);
      } else {
        CandidateLabelsStyled(rows[1..], seen + {Name(rows[0])}, heading);
      }
    }
  }

  /** A one-point segment is skipped without taking its name, so a later segment of that name is labelled. */
  lemma ShortSegmentDoesNotTakeName(p: Coord, q: Coord, x: Coord, heading: (Coord, Coord) -> real)
    ensures var short := Record(map["RTTYP" := Str("I"), "FULLNAME" := Str("I- 10")], Some(LineString([x])));
      var long := Record(map["RTTYP" := Str("I"), "FULLNAME" := Str("I- 10")], Some(LineString([p, q])));
      HighwayLabels([short, long], {}, heading) == [Annotation(Str("I- 10"), q, None, Normalize(heading(p, q)), "#FF0000")]
  {
    var short := Record(map["RTTYP" := Str("I"), "FULLNAME" := Str("I- 10")], Some(LineString([x])));
    var long := Record(map["RTTYP" := Str("I"), "FULLNAME" := Str("I- 10")], Some(LineString([p, q])));
    assert Name(short) == Str("I- 10") && Name(long) == Str("I- 10");
    assert Placement(short.geometry, heading).None?;
    assert [p, q][1] == q && [p, q][0] == p;
    assert Placement(long.geometry, heading) == Some((q, Normalize(heading(p, q))));
    assert RouteColor(Attr(long, "RTTYP")) == "#FF0000";
    assert [short, long][1..] == [long];
    assert [long][1..] == [];
    assert HighwayLabels([long], {}, heading) == [HighwayLabel(long, heading)];
  }

  /**
   * The highway-label loop of `main`: one pass over the candidates keeping
   * the set of names labelled so far; a repeated name is skipped, as is a
   * geometry without two coordinates, and the loop breaks once twelve
   * names are labelled.
   */
  method SelectHighwayLabels(ax: Axes, candidates: seq<Record>, heading: (Coord, Coord) -> real) returns (r: Axes)
    ensures r == DrawAll(ax, HighwayLabels(candidates, {}, heading))
  {
    var labeledHighways: set<Value> := {};
    ghost var placed: seq<Artist> := [];
    r := ax;
    var i := 0;
    while i < |candidates|
      invariant 0 <= i <= |candidates|
      invariant |labeledHighways| < MAX_HIGHWAY_LABELS
      invariant r == DrawAll(ax, placed)
      invariant HighwayLabels(candidates, {}, heading) == placed + HighwayLabels(candidates[i..], labeledHighways, heading)
    {
      var row := candidates[i];
      var highwayName := Name(row);
      if highwayName in labeledHighways {
        SkipStep(candidates, i, labeledHighways, heading, placed);
        i := i + 1;
        continue;
      }
      var coords := CoordinateSequence(row.geometry);
      if coords.Some? && |coords.value| >= 2 {
        var annotation := MidpointAnnotation(row, heading);
        PlacedStep(candidates, i, labeledHighways, heading, placed);
        DrawAllSnoc(ax, placed, annotation);
        r := Draw(r, annotation);
        placed := placed + [annotation];
        labeledHighways := labeledHighways + {highwayName};
        if |labeledHighways| >= MAX_HIGHWAY_LABELS {
          break;
        }
      } else {
        SkipStep(candidates, i, labeledHighways, heading, placed);
      }
      i := i + 1;
    }
  }

  /**
   * The annotation the loop builds for a row with at least two coordinates:
   * its name at the middle coordinate, turned along the step into it
   * (folded into [-90, 90]) and boxed in its route colour.
   */
  method MidpointAnnotation(row: Record, heading: (Coord, Coord) -> real) returns (annotation: Artist)
    requires CoordinateSequence(row.geometry).Some? && |CoordinateSequence(row.geometry).value| >= 2
    ensures Placement(row.geometry, heading).Some?
    ensures annotation == HighwayLabel(row, heading)
  {
    var coords := CoordinateSequence(row.geometry).value;
    var midIdx := |coords| / 2;
    var midPoint := coords[midIdx];
    var angle: real;
    if midIdx > 0 {
      angle := Normalize(heading(coords[midIdx - 1], coords[midIdx]));
    } else {
      angle := 0.0;
    }
    var routeColor := RouteColor(Attr(row, "RTTYP"));
    annotation := Annotation(Name(row), midPoint, None, angle, routeColor);
  }

  /** A taken name or an unplaceable row leaves the selection where it was. */
  lemma SkipStep(rows: seq<Record>, i: nat, seen: set<Value>, heading: (Coord, Coord) -> real, placed: seq<Artist>)
    requires i < |rows|
    requires Name(rows[i]) in seen || Placement(rows[i].geometry, heading).None?
    requires HighwayLabels(rows, {}, heading) == placed + HighwayLabels(rows[i..], seen, heading)
    ensures HighwayLabels(rows, {}, heading) == placed + HighwayLabels(rows[i + 1..], seen, heading)
  {
    assert rows[i..][0] == rows[i];
    assert rows[i..][1..] == rows[i + 1..];
  }

  /**
   * A placeable row with a new name adds its label; the selection ends
   * there when that name is the twelfth.
   */
  lemma PlacedStep(rows: seq<Record>, i: nat, seen: set<Value>, heading: (Coord, Coord) -> real, placed: seq<Artist>)
    requires i < |rows| && Name(rows[i]) !in seen && Placement(rows[i].geometry, heading).Some?
    requires HighwayLabels(rows, {}, heading) == placed + HighwayLabels(rows[i..], seen, heading)
    ensures var taken := seen + {Name(rows[i])};
      && (|taken| >= MAX_HIGHWAY_LABELS ==> HighwayLabels(rows, {}, heading) == placed + [HighwayLabel(rows[i], heading)])
      && (|taken| < MAX_HIGHWAY_LABELS ==>
            HighwayLabels(rows, {}, heading) == (placed + [HighwayLabel(rows[i], heading)]) + HighwayLabels(rows[i + 1..], taken, heading))
  {
    assert rows[i..][0] == rows[i];
    assert rows[i..][1..] == rows[i + 1..];
    var rest := HighwayLabels(rows[i + 1..], seen + {Name(rows[i])}, heading);
    assert placed + ([HighwayLabel(rows[i], heading)] + rest) == (placed + [HighwayLabel(rows[i], heading)]) + rest;
  }

  /**
   * The label step of `main` as a whole: the candidates are filtered from
   * the regional highways in row order, then the loop selects their labels.
   */
  method LabelHighways(ax: Axes, regional: seq<Record>, heading: (Coord, Coord) -> real) returns (r: Axes)
    ensures r == DrawAll(ax, HighwayLabels(LabelCandidates(regional), {}, heading))
  {
    var majorHighwaysForLabels := LabelCandidates(regional);
    r := SelectHighwayLabels(ax, majorHighwaysForLabels, heading);
  }

  /**
   * The labels placed on the regional highways are at most twelve, each names
   * an Interstate or US route with a non-empty name of its own, and each is
   * boxed red or blue.
   */
  lemma RegionalLabelsStyled(regional: seq<Record>, heading: (Coord, Coord) -> real)
    ensures var labels := HighwayLabels(LabelCandidates(regional), {}, heading);
      && |labels| <= MAX_HIGHWAY_LABELS
      && (forall a :: a in labels ==> && a.Annotation? && a.text.Str? && |a.text.s| > 0
                                       && (a.boxColor == "#FF0000" || a.boxColor == "#0066CC"))
      && (forall a, b :: 0 <= a < b < |labels| ==> labels[a].text != labels[b].text)
  {
    var cands := LabelCandidates(regional);
    HighwayLabelsBounded(cands, heading);
    LabelsAreCappedFirstLabels(cands, {}, heading);
    CandidateLabelsStyled(cands, {}, heading);
    var labels := HighwayLabels(cands, {}, heading);
    assert labels <= FirstLabels(cands, {}, heading);
    forall a | a in labels ensures a in FirstLabels(cands, {}, heading) {
      var k :| 0 <= k < |labels| && labels[k] == a;
      assert FirstLabels(cands, {}, heading)[k] == a;
    }
  }
}
