/** The chart's emphasis and level-of-detail rules: for zoom scale `k`, the
    active category filter and the active entity id, the attribute values each
    node group, leader line, glyph, link and label receives on a visual update
    (components/BuddhistChart.tsx, updateVisuals). */
module ChartStyle {

  import opened Types

  /** The colour of the active entity's strokes and fills. */
  const ActiveColor: string := "#1c1917"
  /** The colour of the unreachable default branch of the per-type colour switch. */
  const FallbackColor: string := "#57534e"

  /** The per-type colour. The switch's default branch cannot be taken because
      EventType has exactly four values, so it has no counterpart here. */
  function TypeColor(t: EventType): (c: string)
    ensures c != ActiveColor && c != FallbackColor
    ensures |c| == 7 && c[0] == '#'
  {
    match t
    case Person => "#0284c7"
    case Text => "#059669"
    case School => "#7c3aed"
    case Event => "#d97706"
  }

  /** The legend's entries, each with the colour the legend swatch is drawn in. */
  const LegendEntries: seq<(EventType, string)> :=
    [(Person, "#0284c7"), (Text, "#059669"), (School, "#7c3aed"), (Event, "#d97706")]

  /** The legend lists every type once, in the colour the chart uses for it. */
  lemma LegendAgreesWithTypeColor()
    ensures |LegendEntries| == 4
    ensures forall i :: 0 <= i < |LegendEntries| ==> TypeColor(LegendEntries[i].0) == LegendEntries[i].1
    ensures forall t: EventType :: t in LegendTypes()
    ensures forall i, j :: 0 <= i < j < |LegendEntries| ==> LegendEntries[i].0 != LegendEntries[j].0
  {
    assert LegendTypes() == AllEventTypes;
    forall t: EventType ensures t in LegendTypes() {
      EventTypeClosed(t);
    }
  }

  function LegendTypes(): seq<EventType>
  {
    seq(|LegendEntries|, i requires 0 <= i < |LegendEntries| => LegendEntries[i].0)
  }

  /** Types are told apart by colour, and no type is drawn in the active colour. */
  lemma TypeColorsDistinct(a: EventType, b: EventType)
    ensures a != b ==> TypeColor(a) != TypeColor(b)
    ensures TypeColor(a) != ActiveColor && TypeColor(a) != FallbackColor
  {
  }

  // ---- Level of detail ----

  /** `d.importance || 5`: a missing or zero importance counts as 5. */
  function Importance(d: HistoricalEvent): int
  {
    NumberOr(d.importance, 5)
  }

  lemma ImportanceDefault(d: HistoricalEvent)
    ensures d.importance == None || d.importance == Some(0) ==> Importance(d) == 5
    ensures d.importance.Some? && d.importance.value != 0 ==> Importance(d) == d.importance.value
  {
  }

  /** The five-band zoom visibility rule. */
  predicate IsZoomVisible(k: real, d: HistoricalEvent)
    ensures k >= 2.2 ==> IsZoomVisible(k, d)
    ensures Importance(d) >= 10 ==> IsZoomVisible(k, d)
    ensures Importance(d) < 6 ==> (IsZoomVisible(k, d) <==> k >= 2.2)
  {
    var importance := Importance(d);
    if k < 0.7 then importance >= 10
    else if k < 1.1 then importance >= 8
    else if k < 1.6 then importance >= 7
    else if k < 2.2 then importance >= 6
    else true
  }

  /** Zooming in never hides an entity that was visible. */
  lemma ZoomVisibleMonotone(k: real, k': real, d: HistoricalEvent)
    requires k <= k'
    ensures IsZoomVisible(k, d) ==> IsZoomVisible(k', d)
  {
  }

  /** Everything is visible from 2.2 on; below 0.7 only importance 10 and above is. */
  lemma ZoomVisibleExtremes(k: real, d: HistoricalEvent)
    ensures k >= 2.2 ==> IsZoomVisible(k, d)
    ensures k < 0.7 ==> (IsZoomVisible(k, d) <==> Importance(d) >= 10)
  {
  }

  // ---- Active entity and active filter ----

  /** `hoveredId || selectedId`: an empty hovered id is falsy and falls through. */
  function ActiveId(hoveredId: Option<string>, selectedId: Option<string>): (a: Option<string>)
    ensures a == hoveredId || a == selectedId
    ensures Truthy(hoveredId) ==> a == hoveredId
  {
    if Truthy(hoveredId) then hoveredId else selectedId
  }

  /** Hover wins over selection; the selection is used only when nothing is hovered. */
  lemma ActiveIdPrefersHover(hoveredId: Option<string>, selectedId: Option<string>)
    ensures Truthy(hoveredId) ==> ActiveId(hoveredId, selectedId) == hoveredId
    ensures hoveredId == None ==> ActiveId(hoveredId, selectedId) == selectedId
    ensures ActiveId(hoveredId, selectedId) == hoveredId || ActiveId(hoveredId, selectedId) == selectedId
  {
  }

  /** `lockedType || hoveredType`: the lock, when set, is the filter. */
  function ActiveType(lockedType: Option<EventType>, hoveredType: Option<EventType>): (f: Option<EventType>)
    ensures f == lockedType || f == hoveredType
    ensures f.None? <==> lockedType.None? && hoveredType.None?
  {
    if lockedType.Some? then lockedType else hoveredType
  }

  lemma ActiveTypePrefersLock(lockedType: Option<EventType>, hoveredType: Option<EventType>)
    ensures lockedType.Some? ==> ActiveType(lockedType, hoveredType) == lockedType
    ensures lockedType == None ==> ActiveType(lockedType, hoveredType) == hoveredType
  {
  }

  predicate IsActive(d: HistoricalEvent, activeId: Option<string>)
  {
    activeId == Some(d.id)
  }

  /** `type && d.type !== type`: a filter is set and the entity is of another type. */
  predicate FilteredOut(filter: Option<EventType>, d: HistoricalEvent)
  {
    filter.Some? && d.kind != filter.value
  }

  // ---- Attribute values ----

  datatype PointerEvents = Auto | NoEvents

  datatype Stroke = Stroke(color: string, width: real, opacity: real)

  /** The attributes a glyph receives: a school's background pill and dot, or
      any other type's main shape outline. */
  datatype GlyphStyle =
    | SchoolGlyph(bgStroke: string, bgStrokeOpacity: real, dotFill: string)
    | PlainGlyph(stroke: string, strokeWidth: real)

  datatype NodeStyle = NodeStyle(groupOpacity: real, leader: Stroke, glyph: GlyphStyle)

  datatype LinkStyle = LinkStyle(width: real, opacity: real)

  datatype LabelStyle = LabelStyle(
    opacity: real,
    events: PointerEvents,
    fill: string,
    dotFill: string,
    dotRadius: real,
    raised: bool)

  function EmphasisColor(d: HistoricalEvent, activeId: Option<string>): string
  {
    if IsActive(d, activeId) then ActiveColor else TypeColor(d.kind)
  }

  /** A node group's opacity, from the filter alone. */
  function NodeGroupOpacity(filter: Option<EventType>, d: HistoricalEvent): real
  {
    if FilteredOut(filter, d) then 0.1 else 1.0
  }

  /** The leader line: emphasised when active, otherwise shown only at a zoom that shows it. */
  function LeaderStyle(k: real, activeId: Option<string>, d: HistoricalEvent): Stroke
  {
    var active := IsActive(d, activeId);
    Stroke(EmphasisColor(d, activeId),
           if active then 2.0 else 1.0,
           if active then 1.0 else if IsZoomVisible(k, d) then 1.0 else 0.0)
  }

  function GlyphStyleOf(activeId: Option<string>, d: HistoricalEvent): GlyphStyle
  {
    var active := IsActive(d, activeId);
    if d.kind == School then
      SchoolGlyph(EmphasisColor(d, activeId), if active then 1.0 else 0.5, EmphasisColor(d, activeId))
    else
      PlainGlyph(EmphasisColor(d, activeId), if active then 3.0 else 2.0)
  }

  function NodeStyleOf(k: real, filter: Option<EventType>, activeId: Option<string>, d: HistoricalEvent): (s: NodeStyle)
    ensures s.groupOpacity == 1.0 <==> !FilteredOut(filter, d)
    ensures IsActive(d, activeId) ==> s.leader == Stroke(ActiveColor, 2.0, 1.0)
    ensures !IsActive(d, activeId) ==>
      s.leader.color == TypeColor(d.kind) && s.leader.width == 1.0 && (s.leader.opacity == 1.0 <==> IsZoomVisible(k, d))
    ensures s.glyph.SchoolGlyph? <==> d.kind == School
  {
    NodeStyle(NodeGroupOpacity(filter, d), LeaderStyle(k, activeId, d), GlyphStyleOf(activeId, d))
  }

  /** `activeId && (d.sourceId === activeId || d.targetId === activeId)`. */
  predicate TouchesActive(activeId: Option<string>, l: Link)
  {
    Truthy(activeId) && (l.sourceId == activeId.value || l.targetId == activeId.value)
  }

  function LinkStyleOf(filter: Option<EventType>, activeId: Option<string>, l: Link): (s: LinkStyle)
    ensures s.width == 3.0 <==> TouchesActive(activeId, l)
    ensures TouchesActive(activeId, l) ==> s.opacity == 1.0
    ensures !TouchesActive(activeId, l) && filter.Some? ==> s.opacity == 0.05
  {
    var touching := TouchesActive(activeId, l);
    LinkStyle(if touching then 3.0 else 1.5,
              if touching then 1.0
              else if filter.Some? then 0.05
              else if l.kind == Influence then 0.6 else 0.7)
  }

  function LabelStyleOf(k: real, filter: Option<EventType>, activeId: Option<string>, d: HistoricalEvent): (s: LabelStyle)
    ensures s.raised <==> IsActive(d, activeId)
    ensures s.opacity == 0.0 <==> s.events == NoEvents
    ensures s.fill == s.dotFill
  {
    var active := IsActive(d, activeId);
    var opacity := if active then 1.0
                   else if !IsZoomVisible(k, d) then 0.0
                   else if FilteredOut(filter, d) then 0.1
                   else 1.0;
    var events := if !active && !IsZoomVisible(k, d) then NoEvents else Auto;
    LabelStyle(opacity, events, EmphasisColor(d, activeId), EmphasisColor(d, activeId),
               if active then 2.5 else 1.5, active)
  }

  // ---- Properties of the attribute rules ----

  /** The active entity's label is always shown, clickable, emphasised and
      raised, whatever the zoom and the filter. */
  lemma ActiveLabelShown(k: real, filter: Option<EventType>, d: HistoricalEvent)
    ensures var s := LabelStyleOf(k, filter, Some(d.id), d);
      s.opacity == 1.0 && s.events == Auto && s.fill == ActiveColor && s.dotRadius == 2.5 && s.raised
  {
  }

  /** Any other label: hidden and inert when zoom-hidden, else dimmed on a
      filter mismatch, else fully shown; never raised. */
  lemma InactiveLabel(k: real, filter: Option<EventType>, activeId: Option<string>, d: HistoricalEvent)
    requires !IsActive(d, activeId)
    ensures var s := LabelStyleOf(k, filter, activeId, d);
      && (!IsZoomVisible(k, d) ==> s.opacity == 0.0 && s.events == NoEvents)
      && (IsZoomVisible(k, d) && FilteredOut(filter, d) ==> s.opacity == 0.1 && s.events == Auto)
      && (IsZoomVisible(k, d) && !FilteredOut(filter, d) ==> s.opacity == 1.0 && s.events == Auto)
      && s.fill == TypeColor(d.kind) && s.dotRadius == 1.5 && !s.raised
  {
  }

  /** A label is ever hidden only by the zoom rule. */
  lemma LabelHiddenOnlyByZoom(k: real, filter: Option<EventType>, activeId: Option<string>, d: HistoricalEvent)
    ensures LabelStyleOf(k, filter, activeId, d).opacity == 0.0 <==> !IsActive(d, activeId) && !IsZoomVisible(k, d)
    ensures LabelStyleOf(k, filter, activeId, d).events == NoEvents <==> LabelStyleOf(k, filter, activeId, d).opacity == 0.0
  {
  }

  /** The node group's opacity ignores which entity is active. */
  lemma NodeGroupIgnoresActivity(k: real, filter: Option<EventType>, a1: Option<string>, a2: Option<string>, d: HistoricalEvent)
    ensures NodeStyleOf(k, filter, a1, d).groupOpacity == NodeStyleOf(k, filter, a2, d).groupOpacity
    ensures NodeStyleOf(k, filter, a1, d).groupOpacity == (if FilteredOut(filter, d) then 0.1 else 1.0)
  {
  }

  /** Links at the active entity are drawn heavy and opaque; the others thin,
      faded under a filter and otherwise by link type. */
  lemma LinkEmphasis(filter: Option<EventType>, a: string, l: Link)
    requires a != ""
    ensures (l.sourceId == a || l.targetId == a) ==> LinkStyleOf(filter, Some(a), l) == LinkStyle(3.0, 1.0)
    ensures !(l.sourceId == a || l.targetId == a) ==>
      LinkStyleOf(filter, Some(a), l) == LinkStyle(1.5, if filter.Some? then 0.05 else if l.kind == Influence then 0.6 else 0.7)
  {
  }

  lemma LinkWithoutActive(filter: Option<EventType>, l: Link)
    ensures LinkStyleOf(filter, None, l).width == 1.5
    ensures LinkStyleOf(filter, None, l).opacity == (if filter.Some? then 0.05 else if l.kind == Transmission then 0.7 else 0.6)
  {
  }

  /** Changing the active entity leaves every entity that is active under
      neither choice exactly as it was: the level-of-detail rule is re-applied
      to them, restoring anything the earlier emphasis had overridden. */
  lemma OthersUnaffectedByActivity(k: real, filter: Option<EventType>, a1: Option<string>, a2: Option<string>, d: HistoricalEvent)
    requires !IsActive(d, a1) && !IsActive(d, a2)
    ensures NodeStyleOf(k, filter, a1, d) == NodeStyleOf(k, filter, a2, d)
    ensures LabelStyleOf(k, filter, a1, d) == LabelStyleOf(k, filter, a2, d)
  {
  }

  lemma LinksUnaffectedByActivity(filter: Option<EventType>, a1: Option<string>, a2: Option<string>, l: Link)
    requires !TouchesActive(a1, l) && !TouchesActive(a2, l)
    ensures LinkStyleOf(filter, a1, l) == LinkStyleOf(filter, a2, l)
  {
  }

  // ---- The whole visual update ----

  /** The attributes of every node group, link and label after a visual update. */
  datatype Scene = Scene(nodes: seq<NodeStyle>, links: seq<LinkStyle>, labels: seq<LabelStyle>)

  function Restyle(k: real, filter: Option<EventType>, activeId: Option<string>,
                   events: seq<HistoricalEvent>, links: seq<Link>): (s: Scene)
    ensures |s.nodes| == |events| && |s.labels| == |events| && |s.links| == |links|
    ensures forall i :: 0 <= i < |events| ==> (s.labels[i].raised <==> IsActive(events[i], activeId))
  {
    Scene(seq(|events|, i requires 0 <= i < |events| => NodeStyleOf(k, filter, activeId, events[i])),
          seq(|links|, i requires 0 <= i < |links| => LinkStyleOf(filter, activeId, links[i])),
          seq(|events|, i requires 0 <= i < |events| => LabelStyleOf(k, filter, activeId, events[i])))
  }

  /** Within one scene at most the labels of entities sharing the active id are raised. */
  lemma RestyleRaisesOnlyActive(k: real, filter: Option<EventType>, activeId: Option<string>,
                                events: seq<HistoricalEvent>, links: seq<Link>, i: int)
    requires 0 <= i < |events|
    ensures |Restyle(k, filter, activeId, events, links).labels| == |events|
    ensures Restyle(k, filter, activeId, events, links).labels[i].raised <==> IsActive(events[i], activeId)
  {
  }

  /** Moving the emphasis from one entity to another changes only the
      attributes of those two entities and of the links touching them. */
  lemma RestyleChangesOnlyActive(k: real, filter: Option<EventType>, a1: Option<string>, a2: Option<string>,
                                 events: seq<HistoricalEvent>, links: seq<Link>)
    ensures var s1, s2 := Restyle(k, filter, a1, events, links), Restyle(k, filter, a2, events, links);
      && |s1.nodes| == |s2.nodes| == |events| && |s1.labels| == |s2.labels| == |events|
      && |s1.links| == |s2.links| == |links|
      && (forall i :: 0 <= i < |events| && !IsActive(events[i], a1) && !IsActive(events[i], a2) ==>
            s1.nodes[i] == s2.nodes[i] && s1.labels[i] == s2.labels[i])
      && (forall j :: 0 <= j < |links| && !TouchesActive(a1, links[j]) && !TouchesActive(a2, links[j]) ==>
            s1.links[j] == s2.links[j])
  {
  }
}
