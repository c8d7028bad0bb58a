/** The data preparation of the map figures: county geometry flattened to
    rings, per-county holdings totals and their lookup by county name, the
    holdings partitions, the inset bounding boxes and labels, and the
    availability filter. Drawing and colour evaluation are not modelled. */
module GenerateMaps {
  import opened Seqs
  import opened Text

  // ============================== Records ==============================

  /** A coordinate pair (longitude is x, latitude is y). */
  datatype Point = Point(lat: real, lng: real)

  /** One geocoded library; `location` is `None` when `lat` is null. */
  datatype Library = Library(
    name: string, enabled: bool, region: string,
    booksHeld: int, totalCopies: int, totalAvailable: int,
    location: Option<Point>)

  type Ring = seq<Point>

  datatype Polygon = Polygon(exterior: Ring, interiors: seq<Ring>)

  /** The geometry of a county feature; only the two polygon kinds are drawn. */
  datatype Geometry =
    | PolygonGeom(polygon: Polygon)
    | MultiPolygonGeom(parts: seq<Polygon>)
    | OtherGeom(kind: string)

  /** A GeoJSON feature; `properties` is `None` when the key is missing, and a
      property value is `None` when it is JSON `null`. */
  datatype Feature = Feature(properties: Option<map<string, Option<string>>>, geometry: Geometry)

  // ========================= Geometry to rings =========================

  /** The polygons of a geometry: the geometry itself, its parts, or none. */
  function Polygons(g: Geometry): (r: seq<Polygon>)
    ensures g.PolygonGeom? ==> r == [g.polygon]
    ensures g.MultiPolygonGeom? ==> r == g.parts
    ensures g.OtherGeom? ==> r == []
  {
    match g
    case PolygonGeom(p) => [p]
    case MultiPolygonGeom(ps) => ps
    case OtherGeom(_) => []
  }

  function Exteriors(ps: seq<Polygon>): (r: seq<Ring>)
    ensures |r| == |ps| && forall i :: 0 <= i < |ps| ==> r[i] == ps[i].exterior
  {
    seq(|ps|, i requires 0 <= i < |ps| => ps[i].exterior)
  }

  /** The rings drawn for one geometry: the exterior of each of its polygons. */
  function RingsOf(g: Geometry): seq<Ring> {
    Exteriors(Polygons(g))
  }

  /** The rings of all features, feature by feature. */
  function FlattenRings(fs: seq<Feature>): seq<Ring> {
    if fs == [] then [] else FlattenRings(fs[..|fs| - 1]) + RingsOf(fs[|fs| - 1].geometry)
  }

  function RingCount(f: Feature): int { |Polygons(f.geometry)| }

  /** A Polygon gives exactly its exterior, a MultiPolygon one exterior per
      part in order, and any other geometry nothing. */
  lemma RingsOfCases(g: Geometry)
    ensures g.PolygonGeom? ==> RingsOf(g) == [g.polygon.exterior]
    ensures g.MultiPolygonGeom? ==>
      |RingsOf(g)| == |g.parts| && forall i :: 0 <= i < |g.parts| ==> RingsOf(g)[i] == g.parts[i].exterior
    ensures g.OtherGeom? ==> RingsOf(g) == []
  {
  }

  /** Flattening keeps every ring: as many as the features have polygons. */
  lemma {:induction false} FlattenRingsCount(fs: seq<Feature>)
    ensures |FlattenRings(fs)| == SumOf(fs, RingCount)
  {
    if fs != [] {
      FlattenRingsCount(fs[..|fs| - 1]);
    }
  }

  /** `county_patches`: appends one ring per polygon, feature by feature. */
  method CountyPatches(features: seq<Feature>) returns (patches: seq<Ring>)
    ensures patches == FlattenRings(features)
  {
    patches := [];
    var i := 0;
    while i < |features|
      invariant 0 <= i <= |features|
      invariant patches == FlattenRings(features[..i])
    {
      match features[i].geometry {
        case PolygonGeom(p) =>
          patches := patches + [p.exterior];
        case MultiPolygonGeom(parts) =>
          var j := 0;
          while j < |parts|
            invariant 0 <= j <= |parts|
            invariant patches == FlattenRings(features[..i]) + Exteriors(parts[..j])
          {
            assert Exteriors(parts[..j + 1]) == Exteriors(parts[..j]) + [parts[j].exterior];
            patches := patches + [parts[j].exterior];
            j := j + 1;
          }
          assert parts[..|parts|] == parts;
        case OtherGeom(_) =>
      }
      assert features[..i + 1][..i] == features[..i];
      i := i + 1;
    }
    assert features[..|features|] == features;
  }

  // ========================= Holdings partitions =========================

  /** `lib["enabled"] and lib["lat"] is not None` */
  predicate Located(l: Library) { l.enabled && l.location.Some? }
  predicate PositiveHoldings(l: Library) { l.booksHeld > 0 }
  predicate ZeroHoldings(l: Library) { l.booksHeld == 0 }

  function EnabledWithLocation(libs: seq<Library>): seq<Library> { Filter(libs, Located) }
  function HasHoldings(libs: seq<Library>): seq<Library> { Filter(libs, PositiveHoldings) }
  function NoHoldings(libs: seq<Library>): seq<Library> { Filter(libs, ZeroHoldings) }

  /** The overview partitions: a library is drawn with holdings iff it is
      enabled, located and holds a book, hollow iff it is enabled, located
      and holds none, and never both. */
  lemma OverviewPartition(libs: seq<Library>, l: Library)
    ensures l in HasHoldings(EnabledWithLocation(libs)) <==> l in libs && Located(l) && l.booksHeld > 0
    ensures l in NoHoldings(EnabledWithLocation(libs)) <==> l in libs && Located(l) && l.booksHeld == 0
    ensures !(l in HasHoldings(EnabledWithLocation(libs)) && l in NoHoldings(EnabledWithLocation(libs)))
  {
    var e := EnabledWithLocation(libs);
    FilterMember(libs, Located, l);
    FilterMember(e, PositiveHoldings, l);
    FilterMember(e, ZeroHoldings, l);
  }

  /** With no negative holdings, the two partitions together hold every
      enabled, located library exactly once. */
  lemma {:induction false} PartitionSizes(ls: seq<Library>)
    requires forall i :: 0 <= i < |ls| ==> ls[i].booksHeld >= 0
    ensures |HasHoldings(ls)| + |NoHoldings(ls)| == |ls|
  {
    if ls != [] {
      PartitionSizes(ls[..|ls| - 1]);
    }
  }

  // ========================= County totals =========================

  /** A library counted in the choropleth totals. */
  predicate Contributes(l: Library) { l.enabled && l.booksHeld > 0 }

  /** Total holdings of the contributing libraries of one region. */
  function RegionTotal(libs: seq<Library>, county: string): int {
    if libs == [] then 0
    else
      var l := libs[|libs| - 1];
      RegionTotal(libs[..|libs| - 1], county) + (if Contributes(l) && l.region == county then l.booksHeld else 0)
  }

  predicate HasContributor(libs: seq<Library>, county: string) {
    exists i :: 0 <= i < |libs| && Contributes(libs[i]) && libs[i].region == county
  }

  /** A region's total is positive iff some contributing library lies in it. */
  lemma {:induction false} RegionTotalPositive(libs: seq<Library>, county: string)
    ensures RegionTotal(libs, county) >= 0
    ensures RegionTotal(libs, county) > 0 <==> HasContributor(libs, county)
  {
    if libs != [] {
      var init := libs[..|libs| - 1];
      RegionTotalPositive(init, county);
      var last := libs[|libs| - 1];
      if HasContributor(init, county) {
        var i :| 0 <= i < |init| && Contributes(init[i]) && init[i].region == county;
        assert libs[i] == init[i];
      }
      if HasContributor(libs, county) && !(Contributes(last) && last.region == county) {
        var i :| 0 <= i < |libs| && Contributes(libs[i]) && libs[i].region == county;
        assert i < |init| && init[i] == libs[i];
      }
    }
  }

  /** Whether `m` holds, for the libraries `ls`, exactly the regions with a
      contributing library, each mapped to its total. */
  ghost predicate TotalsOf(m: map<string, int>, ls: seq<Library>) {
    && (forall c :: c in m <==> HasContributor(ls, c))
    && (forall c :: c in m ==> m[c] == RegionTotal(ls, c))
  }

  /** One step of the accumulation loop keeps the map equal to the totals. */
  lemma CountyBooksStep(m: map<string, int>, libs: seq<Library>, i: nat)
    requires i < |libs| && TotalsOf(m, libs[..i])
    ensures var l := libs[i];
      TotalsOf(if Contributes(l) then m[l.region := GetOrZero(m, l.region) + l.booksHeld] else m, libs[..i + 1])
  {
    var l := libs[i];
    var pre, post := libs[..i], libs[..i + 1];
    assert post[..i] == pre && post[i] == l;
    var m' := if Contributes(l) then m[l.region := GetOrZero(m, l.region) + l.booksHeld] else m;
    forall c ensures HasContributor(post, c) <==> HasContributor(pre, c) || (Contributes(l) && l.region == c) {
      if HasContributor(post, c) && !(Contributes(l) && l.region == c) {
        var k :| 0 <= k < i + 1 && Contributes(post[k]) && post[k].region == c;
        assert pre[k] == post[k];
      }
      if HasContributor(pre, c) {
        var k :| 0 <= k < i && Contributes(pre[k]) && pre[k].region == c;
        assert post[k] == pre[k];
      }
    }
    forall c | c in m' ensures m'[c] == RegionTotal(post, c) {
      if c !in m {
        RegionTotalPositive(pre, c);
      }
    }
  }

  /** `county_books`: sums the holdings of enabled libraries holding a book, by
      region. A region is a key iff such a library lies in it, and its value is
      the region's total, which is then positive. */
  method CountyBooks(libs: seq<Library>) returns (m: map<string, int>)
    ensures forall c :: c in m <==> HasContributor(libs, c)
    ensures forall c :: c in m ==> m[c] == RegionTotal(libs, c) && m[c] > 0
  {
    m := map[];
    var i := 0;
    while i < |libs|
      invariant 0 <= i <= |libs|
      invariant TotalsOf(m, libs[..i])
    {
      CountyBooksStep(m, libs, i);
      var l := libs[i];
      if Contributes(l) {
        var county := l.region;
        m := m[county := GetOrZero(m, county) + l.booksHeld];
      }
      i := i + 1;
    }
    assert libs[..|libs|] == libs;
    forall c | c in m ensures m[c] > 0 {
      RegionTotalPositive(libs, c);
    }
  }

  // ========================= County name and fill =========================

  const NameKeys: seq<string> := ["NAME", "NAMELSAD", "name"]

  /** `feature.get("properties", {})` */
  function PropsOf(f: Feature): map<string, Option<string>> { f.properties.GetOr(map[]) }

  /** The value of the first of `keys` present in `props`, `None` when no key
      is present; a present key with a `null` value also stops the search. */
  function FirstPresent(props: map<string, Option<string>>, keys: seq<string>): Option<string> {
    if keys == [] then None
    else if keys[0] in props then props[keys[0]]
    else FirstPresent(props, keys[1..])
  }

  /** No key present gives no name; otherwise the name is the value of the
      earliest key present, whatever the later keys hold. */
  lemma {:induction false} FirstPresentSpec(props: map<string, Option<string>>, keys: seq<string>)
    ensures (forall i :: 0 <= i < |keys| ==> keys[i] !in props) ==> FirstPresent(props, keys).None?
    ensures forall i :: 0 <= i < |keys| && keys[i] in props && (forall j :: 0 <= j < i ==> keys[j] !in props) ==> FirstPresent(props, keys) == props[keys[i]]
  {
    if keys != [] {
      FirstPresentSpec(props, keys[1..]);
      if keys[0] !in props {
        forall i | 0 <= i < |keys| && keys[i] in props && (forall j :: 0 <= j < i ==> keys[j] !in props)
          ensures FirstPresent(props, keys) == props[keys[i]]
        {
          assert keys[1..][i - 1] == keys[i];
          forall j | 0 <= j < i - 1 ensures keys[1..][j] !in props {
            assert keys[1..][j] == keys[j + 1];
          }
        }
        if forall i :: 0 <= i < |keys| ==> keys[i] !in props {
          forall i | 0 <= i < |keys[1..]| ensures keys[1..][i] !in props {
            assert keys[1..][i] == keys[i + 1];
          }
        }
      }
    }
  }

  /** The name-key loop of the choropleth: stops at the first key present. */
  method CountyName(f: Feature) returns (name: Option<string>)
    ensures name == FirstPresent(PropsOf(f), NameKeys)
  {
    var props := PropsOf(f);
    name := None;
    var i := 0;
    while i < |NameKeys|
      invariant 0 <= i <= |NameKeys|
      invariant FirstPresent(props, NameKeys) == FirstPresent(props, NameKeys[i..])
    {
      var key := NameKeys[i];
      if key in props {
        name := props[key];
        break;
      }
      assert NameKeys[i..][1..] == NameKeys[i + 1..];
      i := i + 1;
    }
  }

  /** `d.get(key, 0)` */
  function GetOrZero(m: map<string, int>, key: string): int {
    if key in m then m[key] else 0
  }

  /** The two-step lookup: `"<name> County"` first, the bare name when that
      gives 0, and 0 for a missing or empty name. */
  function CountyLookup(countyBooks: map<string, int>, name: Option<string>): int {
    if name.None? || name.value == "" then 0
    else
      var suffixed := GetOrZero(countyBooks, name.value + " County");
      if suffixed == 0 then GetOrZero(countyBooks, name.value) else suffixed
  }

  /** Over a map of positive totals: the suffixed key wins when present, the
      bare name is the fallback, and the value is 0 iff the name is missing or
      empty or neither key is present. */
  lemma CountyLookupFacts(m: map<string, int>, name: Option<string>)
    requires forall k :: k in m ==> m[k] > 0
    ensures name.None? || name == Some("") ==> CountyLookup(m, name) == 0
    ensures name.Some? && name.value != "" && name.value + " County" in m ==>
      CountyLookup(m, name) == m[name.value + " County"]
    ensures name.Some? && name.value != "" && name.value + " County" !in m && name.value in m ==>
      CountyLookup(m, name) == m[name.value]
    ensures CountyLookup(m, name) == 0 <==>
      name.None? || name.value == "" || (name.value + " County" !in m && name.value !in m)
  {
  }

  /** With a total of 12 for "Travis County", the feature name "Travis" finds
      it through the suffix and "Travis County" through the fallback; "Hays"
      finds nothing. */
  lemma CountyLookupExample()
    ensures CountyLookup(map["Travis County" := 12], Some("Travis")) == 12
    ensures CountyLookup(map["Travis County" := 12], Some("Travis County")) == 12
    ensures CountyLookup(map["Travis County" := 12], Some("Hays")) == 0
  {
    assert "Travis" + " County" == "Travis County";
    assert "Travis County" + " County" != "Travis County" by {
      assert |"Travis County" + " County"| != |"Travis County"|;
    }
    assert "Hays" != "Travis County" && "Hays" + " County" != "Travis County" by {
      assert "Hays"[0] != "Travis County"[0];
      assert ("Hays" + " County")[0] != "Travis County"[0];
    }
  }

  const NoDataColor := "#f0f0f0"

  /** A county's fill: the flat no-data grey, or a shade for its total
      (the colour map itself is not modelled). */
  datatype Fill = Flat(color: string) | Shaded(books: int)

  function FillFor(books: int): (r: Fill)
    ensures r == Flat(NoDataColor) <==> books <= 0
  {
    if books > 0 then Shaded(books) else Flat(NoDataColor)
  }

  /** The fill of a county feature. */
  function FeatureFill(f: Feature, countyBooks: map<string, int>): Fill {
    FillFor(CountyLookup(countyBooks, FirstPresent(PropsOf(f), NameKeys)))
  }

  /** With the totals `county_books` builds, a county is grey iff its lookup finds nothing. */
  lemma FeatureFillNoData(f: Feature, m: map<string, int>)
    requires forall k :: k in m ==> m[k] > 0
    ensures var name := FirstPresent(PropsOf(f), NameKeys);
      FeatureFill(f, m) == Flat(NoDataColor) <==>
        name.None? || name.value == "" || (name.value + " County" !in m && name.value !in m)
  {
    CountyLookupFacts(m, FirstPresent(PropsOf(f), NameKeys));
  }

  /** A `null` NAME ends the search before NAMELSAD is tried, so the county
      stays grey even when its NAMELSAD would find a total. */
  lemma NullNameIsGrey()
    ensures var f := Feature(Some(map["NAME" := None, "NAMELSAD" := Some("Travis County")]), OtherGeom("Polygon"));
      FirstPresent(PropsOf(f), NameKeys) == None
      && FeatureFill(f, map["Travis County" := 12]) == Flat(NoDataColor)
  {
    var props: map<string, Option<string>> := map["NAME" := None, "NAMELSAD" := Some("Travis County")];
    assert NameKeys[0] in props;
  }

  datatype Patch = Patch(ring: Ring, fill: Fill)

  function Painted(rings: seq<Ring>, fill: Fill): (r: seq<Patch>)
    ensures |r| == |rings| && forall i :: 0 <= i < |rings| ==> r[i] == Patch(rings[i], fill)
  {
    seq(|rings|, i requires 0 <= i < |rings| => Patch(rings[i], fill))
  }

  /** The choropleth's patches: each feature's rings with that feature's fill. */
  function ChoroplethSpec(fs: seq<Feature>, countyBooks: map<string, int>): seq<Patch> {
    if fs == [] then []
    else
      var f := fs[|fs| - 1];
      ChoroplethSpec(fs[..|fs| - 1], countyBooks) + Painted(RingsOf(f.geometry), FeatureFill(f, countyBooks))
  }

  function RingsOfPatches(ps: seq<Patch>): (r: seq<Ring>)
    ensures |r| == |ps| && forall i :: 0 <= i < |ps| ==> r[i] == ps[i].ring
  {
    seq(|ps|, i requires 0 <= i < |ps| => ps[i].ring)
  }

  /** The choropleth draws exactly the rings of the base layer, in the same order. */
  lemma {:induction false} ChoroplethRings(fs: seq<Feature>, countyBooks: map<string, int>)
    ensures RingsOfPatches(ChoroplethSpec(fs, countyBooks)) == FlattenRings(fs)
  {
    if fs != [] {
      var init, f := fs[..|fs| - 1], fs[|fs| - 1];
      ChoroplethRings(init, countyBooks);
      var a := ChoroplethSpec(init, countyBooks);
      var b := Painted(RingsOf(f.geometry), FeatureFill(f, countyBooks));
      assert RingsOfPatches(a + b) == RingsOfPatches(a) + RingsOf(f.geometry);
    }
  }

  /** The loop over one county's polygons: one patch per exterior, all with the county's fill. */
  method PaintPolygons(polygons: seq<Polygon>, fill: Fill) returns (ps: seq<Patch>)
    ensures ps == Painted(Exteriors(polygons), fill)
  {
    ps := [];
    var j := 0;
    while j < |polygons|
      invariant 0 <= j <= |polygons|
      invariant ps == Painted(Exteriors(polygons[..j]), fill)
    {
      assert Painted(Exteriors(polygons[..j + 1]), fill) == Painted(Exteriors(polygons[..j]), fill) + [Patch(polygons[j].exterior, fill)];
      ps := ps + [Patch(polygons[j].exterior, fill)];
      j := j + 1;
    }
    assert polygons[..|polygons|] == polygons;
  }

  lemma ChoroplethStep(features: seq<Feature>, countyBooks: map<string, int>, i: nat)
    requires i < |features|
    ensures ChoroplethSpec(features[..i + 1], countyBooks)
         == ChoroplethSpec(features[..i], countyBooks) + Painted(RingsOf(features[i].geometry), FeatureFill(features[i], countyBooks))
  {
    assert features[..i + 1][..i] == features[..i];
  }

  /** The choropleth feature loop: names the county, looks up its total, picks
      the fill and appends one patch per polygon. */
  method ChoroplethPatches(features: seq<Feature>, countyBooks: map<string, int>) returns (patches: seq<Patch>)
    ensures patches == ChoroplethSpec(features, countyBooks)
  {
    patches := [];
    var i := 0;
    while i < |features|
      invariant 0 <= i <= |features|
      invariant patches == ChoroplethSpec(features[..i], countyBooks)
    {
      var f := features[i];
      var countyName := CountyName(f);
      var books := CountyLookup(countyBooks, countyName);
      var fill := FillFor(books);
      var polygons := Polygons(f.geometry);
      var ps := PaintPolygons(polygons, fill);
      ChoroplethStep(features, countyBooks, i);
      patches := patches + ps;
      i := i + 1;
    }
    assert features[..|features|] == features;
  }

  // ============================ Inset maps ============================

  /** An inset's bounding box, both ends of each range inclusive. */
  datatype Bounds = Bounds(lonMin: real, lonMax: real, latMin: real, latMax: real)

  const DfwBounds := Bounds(-97.8, -96.3, 32.3, 33.4)
  const HoustonBounds := Bounds(-96.0, -94.8, 29.2, 30.2)

  /** Both insets are drawn with a label threshold of 15 books. */
  const InsetLabelThreshold := 15

  predicate InBox(b: Bounds, l: Library) {
    && l.enabled && l.location.Some?
    && b.latMin <= l.location.value.lat <= b.latMax
    && b.lonMin <= l.location.value.lng <= b.lonMax
  }

  function InBoxP(b: Bounds): Library -> bool { l => InBox(b, l) }

  function InBounds(libs: seq<Library>, b: Bounds): seq<Library> { Filter(libs, InBoxP(b)) }

  /** The inset keeps a library iff it is enabled, located and inside the box,
      corners included; its partitions are those of the overview restricted to the box. */
  lemma InBoundsMembership(libs: seq<Library>, b: Bounds, l: Library)
    ensures l in InBounds(libs, b) <==>
      l in libs && l.enabled && l.location.Some?
      && b.latMin <= l.location.value.lat <= b.latMax && b.lonMin <= l.location.value.lng <= b.lonMax
    ensures l in HasHoldings(InBounds(libs, b)) <==> l in InBounds(libs, b) && l.booksHeld > 0
    ensures l in NoHoldings(InBounds(libs, b)) <==> l in InBounds(libs, b) && l.booksHeld == 0
  {
    FilterMember(libs, InBoxP(b), l);
    FilterMember(InBounds(libs, b), PositiveHoldings, l);
    FilterMember(InBounds(libs, b), ZeroHoldings, l);
  }

  /** A library with holdings at a corner of the Dallas box is plotted. */
  lemma InBoundsCorner()
    ensures InBox(DfwBounds, Library("Corner", true, "", 1, 0, 0, Some(Point(32.3, -97.8))))
    ensures !InBox(DfwBounds, Library("Corner", false, "", 1, 0, 0, Some(Point(32.3, -97.8))))
    ensures InBox(HoustonBounds, Library("Corner", true, "", 1, 0, 0, Some(Point(30.2, -94.8))))
    ensures !InBox(HoustonBounds, Library("Outside", true, "", 1, 0, 0, Some(Point(30.3, -95.0))))
  {
  }

  datatype Label = Label(text: string, at: Point)

  predicate LabelledP(threshold: int, l: Library) { l.booksHeld >= threshold }
  function Labelled(threshold: int): Library -> bool { l => LabelledP(threshold, l) }

  /** `lib["name"].replace(" Public Library", "").replace(" Library System", "")` */
  function LabelText(l: Library): string { StripLibrarySuffixes(l.name) }

  function MakeLabels(ls: seq<Library>): (r: seq<Label>)
    requires forall i :: 0 <= i < |ls| ==> ls[i].location.Some?
    ensures |r| == |ls| && forall i :: 0 <= i < |ls| ==> r[i] == Label(LabelText(ls[i]), ls[i].location.value)
  {
    seq(|ls|, i requires 0 <= i < |ls| => Label(LabelText(ls[i]), ls[i].location.value))
  }

  /** The plotted libraries with holdings that get a label, in order. */
  function Shown(libs: seq<Library>, b: Bounds, threshold: int): seq<Library> {
    Filter(HasHoldings(InBounds(libs, b)), Labelled(threshold))
  }

  /** A library is labelled iff it is plotted in the box with holdings and
      holds at least `threshold` books. */
  lemma ShownMembership(libs: seq<Library>, b: Bounds, threshold: int, l: Library)
    ensures l in Shown(libs, b, threshold) <==>
      l in libs && InBox(b, l) && l.booksHeld > 0 && l.booksHeld >= threshold
  {
    InBoundsMembership(libs, b, l);
    FilterMember(HasHoldings(InBounds(libs, b)), Labelled(threshold), l);
  }

  /** The annotations of an inset: each labelled library's stripped name at its location. */
  function InsetLabels(libs: seq<Library>, b: Bounds, threshold: int): (r: seq<Label>)
    ensures |r| == |Shown(libs, b, threshold)|
    ensures forall i :: 0 <= i < |r| ==>
      r[i].text == StripLibrarySuffixes(Shown(libs, b, threshold)[i].name)
      && Shown(libs, b, threshold)[i].booksHeld >= threshold
  {
    var shown := Shown(libs, b, threshold);
    assert forall i :: 0 <= i < |shown| ==> shown[i].location.Some? by {
      forall i | 0 <= i < |shown| ensures shown[i].location.Some? {
        ShownMembership(libs, b, threshold, shown[i]);
      }
    }
    MakeLabels(shown)
  }

  /** In the Houston inset, a library with 15 books is labelled and one with 14 is not. */
  lemma HoustonLabelThreshold(libs: seq<Library>, l: Library)
    requires l in libs && l.enabled && l.location == Some(Point(29.76, -95.37))
    ensures l.booksHeld == 15 ==> l in Shown(libs, HoustonBounds, InsetLabelThreshold)
    ensures l.booksHeld == 14 ==> l !in Shown(libs, HoustonBounds, InsetLabelThreshold)
  {
    ShownMembership(libs, HoustonBounds, InsetLabelThreshold, l);
  }

  /** "Harris County Public Library" at the inset threshold is labelled "Harris County". */
  lemma LabelExample()
    ensures StripLibrarySuffixes("Harris County" + PublicLibrary) == "Harris County"
  {
    var base := "Harris County";
    forall i | 0 <= i < |base| ensures !OccursAt(base + PublicLibrary, PublicLibrary, i) {
      var s := base + PublicLibrary;
      if i + |PublicLibrary| <= |s| {
        assert s[i..i + |PublicLibrary|][0] == s[i];
        assert s[i..i + |PublicLibrary|][1] == s[i + 1];
      }
    }
    forall i | 0 <= i <= |base| ensures !OccursAt(base, LibrarySystem, i) {
    }
    StripPublicLibrary(base);
  }

  // ======================== Availability map ========================

  predicate HasCopies(l: Library) { l.enabled && l.location.Some? && l.totalCopies > 0 }

  function WithCopies(libs: seq<Library>): seq<Library> { Filter(libs, HasCopies) }

  /** `totalAvailable / totalCopies`, as an exact ratio. */
  function AvailabilityRate(l: Library): real
    requires l.totalCopies > 0
  {
    l.totalAvailable as real / l.totalCopies as real
  }

  /** The availability map plots a library iff it is enabled, located and has
      copies, so every plotted rate is defined; it lies in [0, 1] when no more
      copies are available than exist. */
  lemma WithCopiesFacts(libs: seq<Library>, l: Library)
    ensures l in WithCopies(libs) <==> l in libs && l.enabled && l.location.Some? && l.totalCopies > 0
    ensures l in WithCopies(libs) && 0 <= l.totalAvailable <= l.totalCopies ==>
      0.0 <= AvailabilityRate(l) <= 1.0
  {
    FilterMember(libs, HasCopies, l);
    if l in WithCopies(libs) && 0 <= l.totalAvailable <= l.totalCopies {
      RatioInUnit(l.totalAvailable as real, l.totalCopies as real);
    }
  }

  lemma RatioInUnit(a: real, t: real)
    requires 0.0 <= a <= t && t > 0.0
    ensures 0.0 <= a / t <= 1.0
  {
    assert a / t * t == a;
  }
}
