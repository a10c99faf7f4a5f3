/** Where the chart puts things: node sizes and glyph outlines, the leader
    line and the label at its tip, node and link positions under the current
    (zoomed) scales, the year-sorted event list, the lane index range and the
    lane icon lookup (components/BuddhistChart.tsx). */
module ChartLayout {

  import opened Types
  import ChartStyle

  // ---- Sizes and glyphs ----

  /** getNodeSize: `(importance || 5) * 1.5 + 4`. */
  function NodeSize(importance: int): (size: real)
    ensures 1 <= importance <= 10 ==> 5.5 <= size <= 19.0
    ensures importance == 0 ==> size == 11.5
  {
    (NumberOr(Some(importance), 5) as real) * 1.5 + 4.0
  }

  /** The size every call site uses: getNodeSize(d.importance || 5). */
  function DatumSize(d: HistoricalEvent): real
  {
    NodeSize(ChartStyle.Importance(d))
  }

  /** Defaulting twice is the same as defaulting once. */
  lemma DatumSizeDefault(d: HistoricalEvent)
    ensures DatumSize(d) == (ChartStyle.Importance(d) as real) * 1.5 + 4.0
    ensures d.importance.Some? ==> DatumSize(d) == NodeSize(d.importance.value)
  {
  }

  /** On the 1-10 scale a node is between 5.5 and 19 units, and larger for more important entities. */
  lemma DatumSizeRange(d: HistoricalEvent, e: HistoricalEvent)
    requires ImportanceInRange(d) && ImportanceInRange(e)
    ensures 5.5 <= DatumSize(d) <= 19.0
    ensures ChartStyle.Importance(d) <= ChartStyle.Importance(e) ==> DatumSize(d) <= DatumSize(e)
  {
  }

  /** The outline of a node's main shape in its own coordinates, centred on the node. */
  datatype Glyph =
    | Disc(r: real)
    | Card(x: real, y: real, w: real, h: real)
    | Pill(x: real, y: real, w: real, h: real, dotR: real)

  /** drawNodeShapes: a circle for a person, a card for a text, a pill with a
      dot for a school and a smaller circle for an event. */
  function GlyphOf(d: HistoricalEvent): (g: Glyph)
    ensures g.Disc? <==> d.kind == Person || d.kind == Event
    ensures DatumSize(d) > 0.0 ==> GlyphTop(g) < 0.0
  {
    var size := DatumSize(d);
    match d.kind
    case Person => Disc(size)
    case Text => Card(-size, -size * 0.8, size * 2.0, size * 1.6)
    case School => Pill(0.0, -size / 2.0, 40.0, size, 3.0)
    case Event => Disc(size * 0.7)
  }

  /** The y coordinate of a glyph's top edge (of the pill's background for a school). */
  function GlyphTop(g: Glyph): real
  {
    match g
    case Disc(r) => -r
    case Card(_, y, _, _) => y
    case Pill(_, y, _, _, _) => y
  }

  /** The per-type offset of the leader line's base. */
  function BaseOffset(d: HistoricalEvent): real
  {
    var size := DatumSize(d);
    match d.kind
    case Person => -size
    case Text => -size * 0.8
    case School => -size * 0.5
    case Event => -size * 0.7
  }

  /** The leader line's far end, in the node group's local coordinates. */
  function LeaderY2(d: HistoricalEvent): (y2: real)
    ensures DatumSize(d) > 0.0 ==> y2 < -35.0
  {
    BaseOffset(d) - 35.0
  }

  /** The leader line starts at the node's centre and ends exactly 35 units
      beyond the top edge of the node's glyph, for every type. */
  lemma LeaderClearsGlyph(d: HistoricalEvent)
    ensures LeaderY2(d) == GlyphTop(GlyphOf(d)) - 35.0
  {
  }

  /** y2 is the per-type factor times the node size, minus 35. */
  lemma LeaderY2Formula(d: HistoricalEvent)
    ensures var f := match d.kind case Person => 1.0 case Text => 0.8 case School => 0.5 case Event => 0.7;
      LeaderY2(d) == -(f * ((ChartStyle.Importance(d) as real) * 1.5 + 4.0)) - 35.0
  {
  }

  // ---- Zoom-dependent scale of a node group ----

  /** `min(max(sqrt(k), 0.5), 2.5)`; the square root is passed in as rootK. */
  function NodeScale(rootK: real): (r: real)
    ensures 0.5 <= r <= 2.5
    ensures 0.5 <= rootK <= 2.5 ==> r == rootK
    ensures rootK < 0.5 ==> r == 0.5
    ensures rootK > 2.5 ==> r == 2.5
  {
    var lo := if rootK > 0.5 then rootK else 0.5;
    if lo < 2.5 then lo else 2.5
  }

  /** A school with a (truthy) end year is drawn as a bar along the time axis. */
  predicate IsSpan(d: HistoricalEvent)
  {
    d.kind == School && NumberSet(d.endYear)
  }

  /** The scale in a node group's transform: none for a span, nodeScale otherwise. */
  function NodeGroupScale(d: HistoricalEvent, nodeScale: real): real
  {
    if IsSpan(d) then 1.0 else nodeScale
  }

  /** The label's own offset, computed separately from the leader line's:
      a default of 0.7 times the size, overridden in turn for a person, a
      text and a school. */
  function LabelLocalY(d: HistoricalEvent): real
  {
    var size := NodeSize(NumberOr(d.importance, 5));
    var b0 := -size * 0.7;
    var b1 := if d.kind == Person then -size else b0;
    var b2 := if d.kind == Text then -size * 0.8 else b1;
    var b3 := if d.kind == School then -size * 0.5 else b2;
    b3 - 35.0
  }

  /** The label group sits at the node's origin, unscaled; its dot and text are
      moved to the label's offset times the scale its node group is drawn at. */
  function LabelPixelY(d: HistoricalEvent, nodeScale: real): (y: real)
    ensures nodeScale > 0.0 && DatumSize(d) > 0.0 ==> y < 0.0
  {
    var scale := if d.kind == School && NumberSet(d.endYear) then 1.0 else nodeScale;
    LabelOffsetAgrees(d);
    LabelLocalY(d) * scale
  }

  /** The two offset computations agree for every entity. */
  lemma LabelOffsetAgrees(d: HistoricalEvent)
    ensures LabelLocalY(d) == LeaderY2(d)
  {
    assert NodeSize(NumberOr(d.importance, 5)) == DatumSize(d);
  }

  /** The label dot lies exactly at the on-screen tip of its leader line. */
  lemma LabelAtLeaderTip(d: HistoricalEvent, rootK: real)
    ensures LabelLocalY(d) == LeaderY2(d)
    ensures LabelPixelY(d, NodeScale(rootK)) == LeaderY2(d) * NodeGroupScale(d, NodeScale(rootK))
    ensures IsSpan(d) ==> LabelPixelY(d, NodeScale(rootK)) == LeaderY2(d)
  {
    LabelOffsetAgrees(d);
  }

  /** On the 1-10 scale every label sits above its node, by at least 37.75
      units before the zoom scale is applied. */
  lemma LabelAboveNode(d: HistoricalEvent, rootK: real)
    requires ImportanceInRange(d)
    ensures LeaderY2(d) <= -37.75
    ensures LabelPixelY(d, NodeScale(rootK)) < 0.0
  {
    DatumSizeRange(d, d);
  }

  // ---- Positions ----

  /** The current linear scale: the base scale composed with the zoom transform. */
  datatype Affine = Affine(factor: real, offset: real)

  function Apply(s: Affine, v: real): real
  {
    s.factor * v + s.offset
  }

  datatype Point = Point(x: real, y: real)

  /** The index of the first event with the given id, or |events| when there is none. */
  function EventIndex(events: seq<HistoricalEvent>, id: string): (i: nat)
    ensures i <= |events|
    ensures forall j :: 0 <= j < i ==> events[j].id != id
    ensures i < |events| ==> events[i].id == id
    decreases |events|
  {
    if |events| == 0 then 0
    else if events[0].id == id then 0
    else 1 + EventIndex(events[1..], id)
  }

  /** `events.find(e => e.id === id)`. */
  function FindEvent(events: seq<HistoricalEvent>, id: string): (r: Option<HistoricalEvent>)
    ensures r.None? <==> !HasEvent(events, id)
    ensures r.Some? ==> r.value in events && r.value.id == id
    ensures r.Some? ==>
      exists i :: 0 <= i < |events| && events[i] == r.value && (forall j :: 0 <= j < i ==> events[j].id != id)
  {
    var i := EventIndex(events, id);
    if i < |events| then Some(events[i]) else None
  }

  /** `countries.find(c => c.id === countryId)?.yIndex || 0`: the lane of the
      first country with the id, or 0 when there is none. */
  function LaneOf(countries: seq<Country>, countryId: string): (y: int)
    ensures !HasCountry(countries, countryId) ==> y == 0
    ensures HasCountry(countries, countryId) ==>
      exists i :: 0 <= i < |countries| && countries[i].id == countryId && countries[i].yIndex == y
        && forall j :: 0 <= j < i ==> countries[j].id != countryId
    decreases |countries|
  {
    if |countries| == 0 then 0
    else if countries[0].id == countryId then countries[0].yIndex
    else
      var y := LaneOf(countries[1..], countryId);
      assert HasCountry(countries, countryId) ==> HasCountry(countries[1..], countryId);
      y
  }

  /** The point is at the height of the lane of a country with the entity's country id. */
  predicate InSomeLane(countries: seq<Country>, ys: Affine, d: HistoricalEvent, p: Point)
  {
    exists i :: 0 <= i < |countries| && countries[i].id == d.countryId && p.y == Apply(ys, countries[i].yIndex as real)
  }

  /** getTransform: the node's origin, at its year and its lane. */
  function NodePosition(countries: seq<Country>, xs: Affine, ys: Affine, d: HistoricalEvent): (p: Point)
    ensures p.x == Apply(xs, d.year as real)
    ensures !HasCountry(countries, d.countryId) ==> p.y == Apply(ys, 0.0)
    ensures HasCountry(countries, d.countryId) ==> InSomeLane(countries, ys, d, p)
  {
    Point(Apply(xs, d.year as real), Apply(ys, LaneOf(countries, d.countryId) as real))
  }

  /** A span's bar: as long as the time span, but never shorter than 20. */
  function SpanWidth(xs: Affine, d: HistoricalEvent): (w: real)
    requires IsSpan(d)
    ensures w >= 20.0
    ensures w >= Apply(xs, d.endYear.value as real) - Apply(xs, d.year as real)
    ensures w == 20.0 || w == Apply(xs, d.endYear.value as real) - Apply(xs, d.year as real)
  {
    var w := Apply(xs, d.endYear.value as real) - Apply(xs, d.year as real);
    if w > 20.0 then w else 20.0
  }

  /** A link's cubic curve: from the source node, two control points at the
      horizontal midpoint, to the target node. */
  datatype Curve = Curve(start: Point, c1: Point, c2: Point, end: Point)

  function LinkCurve(data: ChartData, xs: Affine, ys: Affine, l: Link): (r: Option<Curve>)
    ensures r.Some? <==> HasEvent(data.events, l.sourceId) && HasEvent(data.events, l.targetId)
  {
    var s := FindEvent(data.events, l.sourceId);
    var t := FindEvent(data.events, l.targetId);
    if s.None? || t.None? then None
    else
      var sx := Apply(xs, s.value.year as real);
      var sy := Apply(ys, LaneOf(data.countries, s.value.countryId) as real);
      var tx := Apply(xs, t.value.year as real);
      var ty := Apply(ys, LaneOf(data.countries, t.value.countryId) as real);
      var midX := (sx + tx) / 2.0;
      Some(Curve(Point(sx, sy), Point(midX, sy), Point(midX, ty), Point(tx, ty)))
  }

  /** A link is drawn exactly when both endpoints resolve, and then it joins
      the origins of the two nodes, bending at the horizontal midpoint. */
  lemma LinkJoinsNodes(data: ChartData, xs: Affine, ys: Affine, l: Link)
    ensures LinkCurve(data, xs, ys, l).Some? <==> HasEvent(data.events, l.sourceId) && HasEvent(data.events, l.targetId)
    ensures LinkCurve(data, xs, ys, l).Some? ==>
      var c := LinkCurve(data, xs, ys, l).value;
      && c.start == NodePosition(data.countries, xs, ys, FindEvent(data.events, l.sourceId).value)
      && c.end == NodePosition(data.countries, xs, ys, FindEvent(data.events, l.targetId).value)
      && c.c1 == Point((c.start.x + c.end.x) / 2.0, c.start.y)
      && c.c2 == Point((c.start.x + c.end.x) / 2.0, c.end.y)
      && (c.start.x <= c.c1.x <= c.end.x || c.end.x <= c.c1.x <= c.start.x)
  {
  }

  function Reversed(c: Curve): Curve
  {
    Curve(c.end, c.c2, c.c1, c.start)
  }

  /** Swapping a link's endpoints draws the same curve backwards. */
  lemma LinkCurveReverse(data: ChartData, xs: Affine, ys: Affine, l: Link)
    ensures var r := LinkCurve(data, xs, ys, Link(l.targetId, l.sourceId, l.kind));
      && (r.Some? <==> LinkCurve(data, xs, ys, l).Some?)
      && (r.Some? ==> r.value == Reversed(LinkCurve(data, xs, ys, l).value))
  {
  }

  /** In a well-formed dataset every link is drawn, every node sits in one
      of the lanes, and every label sits above its node. */
  lemma WellFormedChartDrawn(data: ChartData, xs: Affine, ys: Affine)
    requires WellFormed(data)
    ensures forall i :: 0 <= i < |data.links| ==> LinkCurve(data, xs, ys, data.links[i]).Some?
    ensures forall i :: 0 <= i < |data.events| ==>
      InSomeLane(data.countries, ys, data.events[i], NodePosition(data.countries, xs, ys, data.events[i]))
    ensures forall i :: 0 <= i < |data.events| ==> LeaderY2(data.events[i]) <= -37.75
  {
    forall i | 0 <= i < |data.events|
      ensures InSomeLane(data.countries, ys, data.events[i], NodePosition(data.countries, xs, ys, data.events[i]))
      ensures LeaderY2(data.events[i]) <= -37.75
    {
      assert HasCountry(data.countries, data.events[i].countryId);
      LabelAboveNode(data.events[i], 1.0);
    }
  }

  // ---- Year-sorted events ----

  predicate SortedByYear(s: seq<HistoricalEvent>)
  {
    forall i, j :: 0 <= i < j < |s| ==> s[i].year <= s[j].year
  }

  /** Puts e in front of the first element that is not earlier than it. */
  function InsertByYear(e: HistoricalEvent, s: seq<HistoricalEvent>): seq<HistoricalEvent>
    decreases |s|
  {
    if |s| == 0 then [e]
    else if e.year <= s[0].year then [e] + s
    else [s[0]] + InsertByYear(e, s[1..])
  }

  /** `[...events].sort((a, b) => a.year - b.year)`: a stable sort on a copy. */
  function SortByYear(events: seq<HistoricalEvent>): (r: seq<HistoricalEvent>)
    ensures |r| == |events|
    decreases |events|
  {
    if |events| == 0 then []
    else
      var rest := SortByYear(events[1..]);
      InsertByYearLength(events[0], rest);
      InsertByYear(events[0], rest)
  }

  lemma {:induction false} InsertByYearLength(e: HistoricalEvent, s: seq<HistoricalEvent>)
    ensures |InsertByYear(e, s)| == |s| + 1
    decreases |s|
  {
    if |s| > 0 && e.year > s[0].year {
      InsertByYearLength(e, s[1..]);
    }
  }

  /** The events of one year, in order. */
  function OfYear(s: seq<HistoricalEvent>, y: int): seq<HistoricalEvent>
    decreases |s|
  {
    if |s| == 0 then []
    else (if s[0].year == y then [s[0]] else []) + OfYear(s[1..], y)
  }

  lemma {:induction false} InsertByYearMultiset(e: HistoricalEvent, s: seq<HistoricalEvent>)
    ensures multiset(InsertByYear(e, s)) == multiset(s) + multiset{e}
    decreases |s|
  {
    if |s| > 0 && e.year > s[0].year {
      InsertByYearMultiset(e, s[1..]);
      assert s == [s[0]] + s[1..];
    }
  }

  /** Every element of the result is the inserted one or was already there. */
  lemma {:induction false} InsertByYearElements(e: HistoricalEvent, s: seq<HistoricalEvent>)
    ensures forall x :: x in InsertByYear(e, s) ==> x == e || x in s
    decreases |s|
  {
    if |s| > 0 && e.year > s[0].year {
      InsertByYearElements(e, s[1..]);
    }
  }

  lemma {:induction false} InsertByYearSorted(e: HistoricalEvent, s: seq<HistoricalEvent>)
    requires SortedByYear(s)
    ensures SortedByYear(InsertByYear(e, s))
    decreases |s|
  {
    if |s| > 0 && e.year > s[0].year {
      var t := InsertByYear(e, s[1..]);
      InsertByYearSorted(e, s[1..]);
      InsertByYearElements(e, s[1..]);
      forall x | x in t ensures s[0].year <= x.year {
        if x != e {
          var j :| 0 <= j < |s[1..]| && s[1..][j] == x;
          assert s[j + 1] == x;
        }
      }
      var r := [s[0]] + t;
      assert r == InsertByYear(e, s);
      forall i, j | 0 <= i < j < |r| ensures r[i].year <= r[j].year {
        if i == 0 { assert r[j] == t[j - 1]; assert r[j] in t; }
        else { assert r[i] == t[i - 1] && r[j] == t[j - 1]; }
      }
    }
  }

  lemma OfYearCons(x: HistoricalEvent, t: seq<HistoricalEvent>, y: int)
    ensures OfYear([x] + t, y) == (if x.year == y then [x] else []) + OfYear(t, y)
  {
    assert ([x] + t)[1..] == t;
  }

  lemma {:induction false} InsertByYearOfYear(e: HistoricalEvent, s: seq<HistoricalEvent>, y: int)
    ensures OfYear(InsertByYear(e, s), y) == (if e.year == y then [e] else []) + OfYear(s, y)
    decreases |s|
  {
    var he := if e.year == y then [e] else [];
    if |s| == 0 {
      OfYearCons(e, [], y);
      assert InsertByYear(e, s) == [e] + [];
    } else if e.year <= s[0].year {
      OfYearCons(e, s, y);
    } else {
      var t := InsertByYear(e, s[1..]);
      assert InsertByYear(e, s) == [s[0]] + t;
      assert s == [s[0]] + s[1..];
      var hs := if s[0].year == y then [s[0]] else [];
      var rest := OfYear(s[1..], y);
      InsertByYearOfYear(e, s[1..], y);
      OfYearCons(s[0], t, y);
      OfYearCons(s[0], s[1..], y);
      assert hs == [] || he == [];
      calc {
        OfYear(InsertByYear(e, s), y);
        hs + (he + rest);
        { assert hs + he == he + hs; }
        he + (hs + rest);
        he + OfYear(s, y);
      }
    }
  }

  /** sortedEvents is ordered by year. */
  lemma {:induction false} SortByYearSorted(events: seq<HistoricalEvent>)
    ensures SortedByYear(SortByYear(events))
    decreases |events|
  {
    if |events| > 0 {
      var rest := SortByYear(events[1..]);
      assert SortByYear(events) == InsertByYear(events[0], rest);
      SortByYearSorted(events[1..]);
      InsertByYearSorted(events[0], rest);
    }
  }

  /** sortedEvents holds exactly the events of data.events, each as often. */
  lemma {:induction false} SortByYearPermutation(events: seq<HistoricalEvent>)
    ensures multiset(SortByYear(events)) == multiset(events)
    ensures |SortByYear(events)| == |events|
    decreases |events|
  {
    if |events| > 0 {
      var rest := SortByYear(events[1..]);
      assert SortByYear(events) == InsertByYear(events[0], rest);
      SortByYearPermutation(events[1..]);
      InsertByYearMultiset(events[0], rest);
      assert events == [events[0]] + events[1..];
    }
  }

  /** The sort is stable: events of the same year keep their dataset order. */
  lemma {:induction false} SortByYearStable(events: seq<HistoricalEvent>, y: int)
    ensures OfYear(SortByYear(events), y) == OfYear(events, y)
    decreases |events|
  {
    if |events| > 0 {
      var rest := SortByYear(events[1..]);
      assert SortByYear(events) == InsertByYear(events[0], rest);
      SortByYearStable(events[1..], y);
      InsertByYearOfYear(events[0], rest, y);
    }
  }

  // ---- Lane index range ----

  /** The position of a lowest lane. */
  function LowestLane(cs: seq<Country>): (i: nat)
    requires |cs| > 0
    ensures i < |cs|
    ensures forall j :: 0 <= j < |cs| ==> cs[i].yIndex <= cs[j].yIndex
    decreases |cs|
  {
    if |cs| == 1 then 0
    else
      var k := 1 + LowestLane(cs[1..]);
      if cs[0].yIndex <= cs[k].yIndex then 0 else k
  }

  function HighestLane(cs: seq<Country>): (i: nat)
    requires |cs| > 0
    ensures i < |cs|
    ensures forall j :: 0 <= j < |cs| ==> cs[j].yIndex <= cs[i].yIndex
    decreases |cs|
  {
    if |cs| == 1 then 0
    else
      var k := 1 + HighestLane(cs[1..]);
      if cs[0].yIndex >= cs[k].yIndex then 0 else k
  }

  /** `Math.min(...indices)` and `Math.max(...indices)`; for no lanes at all
      (where JavaScript gives the infinities) there is no range. */
  datatype LaneRange = NoLanes | LaneRange(minIndex: int, maxIndex: int)

  function LaneIndexRange(cs: seq<Country>): (r: LaneRange)
    ensures r.NoLanes? <==> |cs| == 0
    ensures r.LaneRange? ==> r.minIndex <= r.maxIndex
    ensures r.LaneRange? ==> forall j :: 0 <= j < |cs| ==> r.minIndex <= cs[j].yIndex <= r.maxIndex
    ensures r.LaneRange? ==> exists i :: 0 <= i < |cs| && cs[i].yIndex == r.minIndex
    ensures r.LaneRange? ==> exists i :: 0 <= i < |cs| && cs[i].yIndex == r.maxIndex
  {
    if |cs| == 0 then NoLanes
    else LaneRange(cs[LowestLane(cs)].yIndex, cs[HighestLane(cs)].yIndex)
  }

  // ---- Lane icon fallback ----

  const FallbackShape: string := "M10,10 L90,10 L90,90 L10,90 Z"

  function LowerChar(c: char): char
  {
    if 'A' <= c <= 'Z' then (c as int + 32) as char else c
  }

  /** `toLowerCase()` on the ASCII letters. */
  function ToLower(s: string): (r: string)
    ensures |r| == |s|
  {
    seq(|s|, i requires 0 <= i < |s| => LowerChar(s[i]))
  }

  lemma ToLowerIdempotent(s: string)
    ensures ToLower(ToLower(s)) == ToLower(s)
  {
  }

  /** generateCountryShape: the stored path for the lower-cased id when there
      is a non-empty one, otherwise the square fallback. */
  function CountryShape(paths: map<string, string>, seed: string): (r: string)
    ensures ToLower(seed) in paths && paths[ToLower(seed)] != "" ==> r == paths[ToLower(seed)]
    ensures !(ToLower(seed) in paths && paths[ToLower(seed)] != "") ==> r == FallbackShape
    ensures r != ""
  {
    var key := ToLower(seed);
    if key in paths && paths[key] != "" then paths[key] else FallbackShape
  }

  /** The lookup ignores the case of the id. */
  lemma CountryShapeIgnoresCase(paths: map<string, string>, seed: string)
    ensures CountryShape(paths, ToLower(seed)) == CountryShape(paths, seed)
  {
    ToLowerIdempotent(seed);
  }

  /** A lane's icon: the CDN image named by a (truthy) svgCode, otherwise the
      silhouette path for the lane's id. */
  datatype LaneIcon = CdnImage(code: string) | Silhouette(path: string)

  function LaneIconOf(paths: map<string, string>, c: Country): (icon: LaneIcon)
    ensures Truthy(c.svgCode) <==> icon.CdnImage?
    ensures icon.CdnImage? ==> icon.code == c.svgCode.value
    ensures icon.Silhouette? ==> icon.path == CountryShape(paths, c.id) && icon.path != ""
  {
    if Truthy(c.svgCode) then CdnImage(c.svgCode.value) else Silhouette(CountryShape(paths, c.id))
  }
}
