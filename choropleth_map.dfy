/**
 * Stage B of the report: the choropleth of Map_EVSE_100miles.py.  The
 * boundary table is left-joined with the density table, every state gets one
 * of five colours, Alaska and Hawaii get a display geometry, and the states
 * with an abbreviation get a text label.  The joined GeoDataFrame `merged`
 * is a class whose fields are its columns.  Reading the files, the shapely
 * transforms and centroids, and the drawing itself are parameters or left out.
 */
module ChoroplethMap {
  import opened Wrappers

  datatype Point = Point(x: real, y: real)

  /** A state polygon; its content matters only to the geometry library. */
  datatype Geometry = Geometry(rings: seq<seq<Point>>)

  /** One record of the boundary file: the state name and its polygon. */
  datatype Boundary = Boundary(name: string, geometry: Geometry)

  /** One row of the joined table before the colour column is added. */
  datatype JoinedRow = JoinedRow(name: string, geometry: Geometry, density: Option<real>)

  /** A text label drawn at a point. */
  datatype Label = Label(at: Point, text: string)

  // ---------------------------------------------------------------------
  // Colours
  // ---------------------------------------------------------------------

  const NoDataColor: string := "#f0f0f0"
  const RedColor: string := "#d73027"
  const YellowColor: string := "#fee08b"
  const LightGreenColor: string := "#a6d96a"
  const DarkGreenColor: string := "#1a9850"

  /** `get_color`: the fill colour of a state from its (possibly missing) density. */
  function GetColor(val: Option<real>): (color: string)
    ensures color == NoDataColor <==> val.None?
    ensures color in {NoDataColor, RedColor, YellowColor, LightGreenColor, DarkGreenColor}
  {
    if val.None? then NoDataColor
    else if val.value < 1.0 then RedColor
    else if 1.0 <= val.value <= 5.0 then YellowColor
    else if 5.0 < val.value <= 10.0 then LightGreenColor
    else DarkGreenColor
  }

  /** The five density classes of the map, lowest first. */
  datatype DensityClass = NoData | VeryLow | Low | Medium | High {

    /** The order of the classes; the missing class is below every value class. */
    function Rank(): nat {
      match this
      case NoData => 0
      case VeryLow => 1
      case Low => 2
      case Medium => 3
      case High => 4
    }

    /** The fill colour of the class, as in the legend. */
    function Color(): string {
      match this
      case NoData => NoDataColor
      case VeryLow => RedColor
      case Low => YellowColor
      case Medium => LightGreenColor
      case High => DarkGreenColor
    }

    /**
     * The band of the class, stated on its own and not as a chain of tests:
     * below 1, then [1, 5], (5, 10] and above 10.
     */
    predicate Contains(val: Option<real>) {
      match this
      case NoData => val.None?
      case VeryLow => val.Some? && val.value < 1.0
      case Low => val.Some? && 1.0 <= val.value && val.value <= 5.0
      case Medium => val.Some? && 5.0 < val.value && val.value <= 10.0
      case High => val.Some? && 10.0 < val.value
    }
  }

  /** No two classes share a colour. */
  lemma ClassColorsDistinct(c: DensityClass, d: DensityClass)
    ensures c.Color() == d.Color() <==> c == d
  {
  }

  /** Every value, and the missing value, lies in exactly one band. */
  lemma BandsPartition(val: Option<real>)
    ensures exists c: DensityClass :: c.Contains(val)
    ensures forall c: DensityClass, d: DensityClass :: c.Contains(val) && d.Contains(val) ==> c == d
  {
    if val.None? {
      assert NoData.Contains(val);
    } else if val.value < 1.0 {
      assert VeryLow.Contains(val);
    } else if val.value <= 5.0 {
      assert Low.Contains(val);
    } else if val.value <= 10.0 {
      assert Medium.Contains(val);
    } else {
      assert High.Contains(val);
    }
  }

  /** `get_color` gives a class's colour exactly when the value is in that class's band. */
  lemma GetColorIsBandColor(val: Option<real>, c: DensityClass)
    ensures GetColor(val) == c.Color() <==> c.Contains(val)
  {
  }

  /** Among values, a larger density never gets a lower class. */
  lemma GetColorMonotone(v: real, w: real, c: DensityClass, d: DensityClass)
    requires v <= w
    requires GetColor(Some(v)) == c.Color() && GetColor(Some(w)) == d.Color()
    ensures c.Rank() <= d.Rank()
  {
    GetColorIsBandColor(Some(v), c);
    GetColorIsBandColor(Some(w), d);
  }

  /** The edges: 1 and 5 are yellow, 10 is light green, and the missing value is grey. */
  lemma GetColorBoundaries()
    ensures GetColor(None) == NoDataColor
    ensures GetColor(Some(1.0)) == YellowColor && GetColor(Some(5.0)) == YellowColor
    ensures GetColor(Some(10.0)) == LightGreenColor
  {
  }

  // ---------------------------------------------------------------------
  // The left join
  // ---------------------------------------------------------------------

  /** The density joined onto a boundary name: the table's value, or NaN when the name is absent. */
  function JoinedDensity(densities: map<string, Option<real>>, name: string): (val: Option<real>)
    ensures name !in densities ==> val.None?
    ensures name in densities ==> val == densities[name]
    ensures val.Some? ==> name in densities && densities[name] == val
  {
    if name in densities then densities[name] else None
  }

  /**
   * `usa_states.set_index('name').join(df.set_index('State'))`: one row per
   * boundary record, in the same order, with the density of the same-named
   * state or NaN.
   */
  function LeftJoin(boundaries: seq<Boundary>, densities: map<string, Option<real>>): (rows: seq<JoinedRow>)
    ensures |rows| == |boundaries|
    ensures forall i :: 0 <= i < |rows| ==>
      rows[i].name == boundaries[i].name && rows[i].geometry == boundaries[i].geometry
      && rows[i].density == JoinedDensity(densities, boundaries[i].name)
  {
    if boundaries == [] then []
    else
      [JoinedRow(boundaries[0].name, boundaries[0].geometry, JoinedDensity(densities, boundaries[0].name))]
      + LeftJoin(boundaries[1..], densities)
  }

  /** A boundary state without a density row is grey, and one with a density row is coloured by it. */
  lemma JoinedColor(boundaries: seq<Boundary>, densities: map<string, Option<real>>, i: nat)
    requires i < |boundaries|
    ensures boundaries[i].name !in densities ==> GetColor(LeftJoin(boundaries, densities)[i].density) == NoDataColor
    ensures boundaries[i].name in densities ==>
      GetColor(LeftJoin(boundaries, densities)[i].density) == GetColor(densities[boundaries[i].name])
  {
  }

  // ---------------------------------------------------------------------
  // Labels
  // ---------------------------------------------------------------------

  /** Lookup in `state_abbreviations`: the 50 states, without the District of Columbia. */
  function StateAbbreviation(name: string): (abbr: Option<string>)
    ensures abbr.Some? ==> |abbr.value| == 2
  {
    match name
    case "Alabama" => Some("AL")
    case "Alaska" => Some("AK")
    case "Arizona" => Some("AZ")
    case "Arkansas" => Some("AR")
    case "California" => Some("CA")
    case "Colorado" => Some("CO")
    case "Connecticut" => Some("CT")
    case "Delaware" => Some("DE")
    case "Florida" => Some("FL")
    case "Georgia" => Some("GA")
    case "Hawaii" => Some("HI")
    case "Idaho" => Some("ID")
    case "Illinois" => Some("IL")
    case "Indiana" => Some("IN")
    case "Iowa" => Some("IA")
    case "Kansas" => Some("KS")
    case "Kentucky" => Some("KY")
    case "Louisiana" => Some("LA")
    case "Maine" => Some("ME")
    case "Maryland" => Some("MD")
    case "Massachusetts" => Some("MA")
    case "Michigan" => Some("MI")
    case "Minnesota" => Some("MN")
    case "Mississippi" => Some("MS")
    case "Missouri" => Some("MO")
    case "Montana" => Some("MT")
    case "Nebraska" => Some("NE")
    case "Nevada" => Some("NV")
    case "New Hampshire" => Some("NH")
    case "New Jersey" => Some("NJ")
    case "New Mexico" => Some("NM")
    case "New York" => Some("NY")
    case "North Carolina" => Some("NC")
    case "North Dakota" => Some("ND")
    case "Ohio" => Some("OH")
    case "Oklahoma" => Some("OK")
    case "Oregon" => Some("OR")
    case "Pennsylvania" => Some("PA")
    case "Rhode Island" => Some("RI")
    case "South Carolina" => Some("SC")
    case "South Dakota" => Some("SD")
    case "Tennessee" => Some("TN")
    case "Texas" => Some("TX")
    case "Utah" => Some("UT")
    case "Vermont" => Some("VT")
    case "Virginia" => Some("VA")
    case "Washington" => Some("WA")
    case "West Virginia" => Some("WV")
    case "Wisconsin" => Some("WI")
    case "Wyoming" => Some("WY")
    case _ => None
  }

  /** The label of one row, if its name has an abbreviation. */
  function RowLabel(name: string, geometry: Geometry, centroid: Geometry -> Point): (text: Option<Label>)
    ensures text.Some? <==> StateAbbreviation(name).Some?
    ensures text.Some? ==> text.value.text == StateAbbreviation(name).value && text.value.at == centroid(geometry)
  {
    if StateAbbreviation(name).Some? then Some(Label(centroid(geometry), StateAbbreviation(name).value))
    else None
  }

  /** The labels the loop over the rows emits, in row order. */
  function RowLabels(names: seq<string>, geometry: seq<Geometry>, centroid: Geometry -> Point): (labels: seq<Label>)
    requires |geometry| == |names|
    ensures |labels| <= |names|
  {
    if names == [] then []
    else
      var rest := RowLabels(names[..|names| - 1], geometry[..|geometry| - 1], centroid);
      match RowLabel(names[|names| - 1], geometry[|geometry| - 1], centroid)
      case Some(l) => rest + [l]
      case None => rest
  }

  /** The number of rows whose name has an abbreviation. */
  function CountAbbreviated(names: seq<string>): (count: nat)
    ensures count <= |names|
  {
    if names == [] then 0
    else CountAbbreviated(names[..|names| - 1]) + (if StateAbbreviation(names[|names| - 1]).Some? then 1 else 0)
  }

  /** There is one label per row whose name has an abbreviation. */
  lemma {:induction false} RowLabelsCount(names: seq<string>, geometry: seq<Geometry>, centroid: Geometry -> Point)
    requires |geometry| == |names|
    ensures |RowLabels(names, geometry, centroid)| == CountAbbreviated(names)
  {
    if names != [] {
      RowLabelsCount(names[..|names| - 1], geometry[..|geometry| - 1], centroid);
    }
  }

  /** Every label is the abbreviation of some row's name, placed at that row's centroid. */
  lemma {:induction false} RowLabelsSound(names: seq<string>, geometry: seq<Geometry>, centroid: Geometry -> Point, k: nat)
    requires |geometry| == |names|
    requires k < |RowLabels(names, geometry, centroid)|
    ensures exists i :: 0 <= i < |names| && RowLabel(names[i], geometry[i], centroid) == Some(RowLabels(names, geometry, centroid)[k])
  {
    var n := |names| - 1;
    var labels := RowLabels(names, geometry, centroid);
    var rest := RowLabels(names[..n], geometry[..n], centroid);
    var last := RowLabel(names[n], geometry[n], centroid);
    assert labels == if last.Some? then rest + [last.value] else rest;
    if k < |rest| {
      RowLabelsSound(names[..n], geometry[..n], centroid, k);
      var i :| 0 <= i < n && RowLabel(names[..n][i], geometry[..n][i], centroid) == Some(rest[k]);
      assert RowLabel(names[i], geometry[i], centroid) == Some(labels[k]);
    } else {
      assert RowLabel(names[n], geometry[n], centroid) == Some(labels[k]);
    }
  }

  /** Every row whose name has an abbreviation (so RowLabel gives it one) gets its label. */
  lemma {:induction false} RowLabelsComplete(names: seq<string>, geometry: seq<Geometry>, centroid: Geometry -> Point, i: nat)
    requires |geometry| == |names|
    requires i < |names| && RowLabel(names[i], geometry[i], centroid).Some?
    ensures exists k ::
      0 <= k < |RowLabels(names, geometry, centroid)|
      && RowLabel(names[i], geometry[i], centroid) == Some(RowLabels(names, geometry, centroid)[k])
  {
    var n := |names| - 1;
    var labels := RowLabels(names, geometry, centroid);
    var rest := RowLabels(names[..n], geometry[..n], centroid);
    var last := RowLabel(names[n], geometry[n], centroid);
    assert labels == if last.Some? then rest + [last.value] else rest;
    if i < n {
      assert names[..n][i] == names[i] && geometry[..n][i] == geometry[i];
      RowLabelsComplete(names[..n], geometry[..n], centroid, i);
      var k :| 0 <= k < |rest| && RowLabel(names[..n][i], geometry[..n][i], centroid) == Some(rest[k]);
      assert labels[k] == rest[k];
    } else {
      assert labels[|labels| - 1] == last.value;
    }
  }

  /** The District of Columbia has no abbreviation, so it is drawn without a label. */
  lemma DistrictOfColumbiaUnlabelled(geometry: Geometry, centroid: Geometry -> Point)
    ensures RowLabel("District of Columbia", geometry, centroid) == None
  {
  }

  // ---------------------------------------------------------------------
  // The joined table that the script updates in place
  // ---------------------------------------------------------------------

  /** The first row carrying `name`, or |names| when there is none (like `.loc` lookup). */
  function IndexOfName(names: seq<string>, name: string): (i: nat)
    ensures i <= |names|
    ensures i < |names| ==> names[i] == name
    ensures forall j :: 0 <= j < i ==> names[j] != name
  {
    if names == [] then 0
    else if names[0] == name then 0
    else 1 + IndexOfName(names[1..], name)
  }

  /** Exactly one row carries `name`, so `merged.loc[name, 'geometry']` is a single polygon. */
  ghost predicate UniquelyNamed(names: seq<string>, name: string) {
    exists i :: 0 <= i < |names| && names[i] == name
      && forall j :: 0 <= j < |names| && names[j] == name ==> j == i
  }

  function BoundaryNames(boundaries: seq<Boundary>): (names: seq<string>)
    ensures |names| == |boundaries|
    ensures forall i :: 0 <= i < |boundaries| ==> names[i] == boundaries[i].name
  {
    seq(|boundaries|, i requires 0 <= i < |boundaries| => boundaries[i].name)
  }

  /** The geometry a boundary is drawn with: Alaska and Hawaii are moved, every other state is not. */
  function DisplayGeometry(b: Boundary, alaskaDisplay: Geometry -> Geometry, hawaiiDisplay: Geometry -> Geometry): (g: Geometry)
    ensures b.name != "Alaska" && b.name != "Hawaii" ==> g == b.geometry
    ensures b.name == "Alaska" ==> g == alaskaDisplay(b.geometry)
    ensures b.name == "Hawaii" ==> g == hawaiiDisplay(b.geometry)
  {
    if b.name == "Alaska" then alaskaDisplay(b.geometry)
    else if b.name == "Hawaii" then hawaiiDisplay(b.geometry)
    else b.geometry
  }

  /**
   * The GeoDataFrame `merged`, column by column: the index 'name', the
   * polygons, the joined 'EVSEs/100 miles' density, and the 'color' column,
   * empty until it is computed.
   */
  class MergedFrame {
    var names: seq<string>
    var geometry: seq<Geometry>
    var density: seq<Option<real>>
    var color: seq<string>

    ghost predicate Valid()
      reads this
    {
      |geometry| == |names| && |density| == |names|
    }

    /** `merged = usa_states.set_index('name').join(df.set_index('State'))`. */
    constructor Join(boundaries: seq<Boundary>, densities: map<string, Option<real>>)
      ensures Valid() && |names| == |boundaries|
      ensures forall i :: 0 <= i < |boundaries| ==>
        var row := LeftJoin(boundaries, densities)[i];
        names[i] == row.name && geometry[i] == row.geometry && density[i] == row.density
      ensures color == []
    {
      var rows := LeftJoin(boundaries, densities);
      names := seq(|rows|, i requires 0 <= i < |rows| => rows[i].name);
      geometry := seq(|rows|, i requires 0 <= i < |rows| => rows[i].geometry);
      density := seq(|rows|, i requires 0 <= i < |rows| => rows[i].density);
      color := [];
    }

    /** `merged['color'] = merged['EVSEs/100 miles'].apply(get_color)`. */
    method ApplyColors()
      requires Valid()
      modifies this
      ensures Valid() && |color| == |names|
      ensures forall i :: 0 <= i < |names| ==> color[i] == GetColor(density[i])
      ensures names == old(names) && geometry == old(geometry) && density == old(density)
    {
      var values := density;
      color := seq(|values|, i requires 0 <= i < |values| => GetColor(values[i]));
    }

    /**
     * Read the polygon of `name`, transform it, and write it back
     * (`merged.loc[name, 'geometry'] = display(merged.loc[name, 'geometry'])`).
     * The lookup fails unless exactly one row carries `name`; then `found`
     * is false and nothing changes.  Only the geometry column is written.
     */
    method Reposition(name: string, display: Geometry -> Geometry) returns (found: bool)
      requires Valid()
      modifies this
      ensures Valid()
      ensures names == old(names) && density == old(density) && color == old(color)
      ensures found <==> UniquelyNamed(names, name)
      ensures found ==> forall i :: 0 <= i < |names| ==>
        geometry[i] == if names[i] == name then display(old(geometry[i])) else old(geometry[i])
      ensures !found ==> geometry == old(geometry)
    {
      var i := IndexOfName(names, name);
      found := i < |names| && name !in names[i + 1..];
      if found {
        assert forall j :: i < j < |names| ==> names[j] == names[i + 1..][j - i - 1];
        geometry := geometry[i := display(geometry[i])];
      } else if i < |names| {
        var j :| i < j < |names| && names[j] == name;
        assert !UniquelyNamed(names, name);
      }
    }

    /** The loop over `merged.iterrows()` that labels each state having an abbreviation. */
    method PlaceLabels(centroid: Geometry -> Point) returns (labels: seq<Label>)
      requires Valid()
      ensures labels == RowLabels(names, geometry, centroid)
    {
      labels := [];
      var i := 0;
      while i < |names|
        invariant 0 <= i <= |names|
        invariant labels == RowLabels(names[..i], geometry[..i], centroid)
      {
        assert names[..i + 1][..i] == names[..i] && geometry[..i + 1][..i] == geometry[..i];
        var abbr := StateAbbreviation(names[i]);
        if abbr.Some? {
          labels := labels + [Label(centroid(geometry[i]), abbr.value)];
        }
        i := i + 1;
      }
      assert names[..i] == names && geometry[..i] == geometry;
    }
  }

  /** What the figure is drawn from: the states, their polygons, their colours and the labels. */
  datatype Rendering = Rendering(names: seq<string>, geometry: seq<Geometry>, colors: seq<string>, labels: seq<Label>)

  /**
   * The script from the join to the labels.  It stops (`None`) when the
   * boundary table does not hold exactly one Alaska or exactly one Hawaii.
   * Otherwise each boundary state keeps its place, is coloured from its
   * joined density, unaffected by the move of Alaska and Hawaii, and is
   * labelled at the centroid of the polygon actually drawn.
   */
  method DrawChoropleth(
    boundaries: seq<Boundary>,
    densities: map<string, Option<real>>,
    alaskaDisplay: Geometry -> Geometry,
    hawaiiDisplay: Geometry -> Geometry,
    centroid: Geometry -> Point)
    returns (r: Option<Rendering>)
    ensures r.None? <==>
      !UniquelyNamed(BoundaryNames(boundaries), "Alaska") || !UniquelyNamed(BoundaryNames(boundaries), "Hawaii")
    ensures r.Some? ==>
      r.value.names == BoundaryNames(boundaries)
      && |r.value.colors| == |boundaries| && |r.value.geometry| == |boundaries|
      && (forall i :: 0 <= i < |boundaries| ==>
            r.value.colors[i] == GetColor(JoinedDensity(densities, boundaries[i].name))
            && r.value.geometry[i] == DisplayGeometry(boundaries[i], alaskaDisplay, hawaiiDisplay))
      && r.value.labels == RowLabels(r.value.names, r.value.geometry, centroid)
  {
    var merged := new MergedFrame.Join(boundaries, densities);
    merged.ApplyColors();
    ghost var names := BoundaryNames(boundaries);
    assert merged.names == names;
    ghost var joined := merged.geometry;
    var foundAlaska := merged.Reposition("Alaska", alaskaDisplay);
    if !foundAlaska {
      return None;
    }
    ghost var moved := merged.geometry;
    var foundHawaii := merged.Reposition("Hawaii", hawaiiDisplay);
    if !foundHawaii {
      return None;
    }
    forall i | 0 <= i < |boundaries|
      ensures merged.geometry[i] == DisplayGeometry(boundaries[i], alaskaDisplay, hawaiiDisplay)
      ensures merged.color[i] == GetColor(JoinedDensity(densities, boundaries[i].name))
    {
      assert joined[i] == boundaries[i].geometry && names[i] == boundaries[i].name;
      assert moved[i] == if names[i] == "Alaska" then alaskaDisplay(joined[i]) else joined[i];
    }
    var labels := merged.PlaceLabels(centroid);
    r := Some(Rendering(merged.names, merged.geometry, merged.color, labels));
  }
}
