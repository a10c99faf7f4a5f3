/** The chart's interaction state: the hovered and selected entity ids (held
    outside the render cycle so that pointer movement is cheap), the legend's
    locked and hovered type, and the current zoom scale, with the handlers that
    update them and the visual update that rewrites the attributes of every
    bound element from them (components/BuddhistChart.tsx). */
module ChartState {

  import opened Types
  import opened ChartStyle

  /** The zoom scale the chart starts at. */
  const InitialZoom: real := 0.85

  /** The zoom behaviour keeps the scale within [0.1, 8]. */
  predicate InZoomExtent(k: real)
  {
    0.1 <= k <= 8.0
  }

  /** A legend click: clicking the locked type unlocks, clicking any other type locks it. */
  function ToggleLock(locked: Option<EventType>, t: EventType): (r: Option<EventType>)
    ensures locked == Some(t) ==> r == None
    ensures locked != Some(t) ==> r == Some(t)
  {
    if locked == Some(t) then None else Some(t)
  }

  /** Two clicks on the same type: from unlocked (or from another type) the
      legend ends unlocked; from that type it ends locked on it again. */
  lemma ToggleLockTwice(locked: Option<EventType>, t: EventType)
    ensures ToggleLock(ToggleLock(locked, t), t) == (if locked == Some(t) then Some(t) else None)
    ensures ToggleLock(ToggleLock(None, t), t) == None
  {
  }

  class Interaction {
    var hoveredId: Option<string>
    var selectedId: Option<string>
    var lockedType: Option<EventType>
    var hoveredType: Option<EventType>
    var zoom: real

    /** The entity that receives emphasis: the hovered one, else the selected one. */
    function Active(): Option<string>
      reads this
    {
      ActiveId(hoveredId, selectedId)
    }

    /** The category filter: the locked type, else the hovered legend type. */
    function Filter(): Option<EventType>
      reads this
    {
      ActiveType(lockedType, hoveredType)
    }

    constructor (selectedId: Option<string>)
      ensures this.selectedId == selectedId && hoveredId == None
      ensures lockedType == None && hoveredType == None
      ensures zoom == InitialZoom
    {
      this.selectedId := selectedId;
      hoveredId := None;
      lockedType := None;
      hoveredType := None;
      zoom := InitialZoom;
    }

    /** The selection given by the host page is copied in. */
    method SyncSelected(id: Option<string>)
      modifies this
      ensures selectedId == id
      ensures hoveredId == old(hoveredId) && lockedType == old(lockedType)
      ensures hoveredType == old(hoveredType) && zoom == old(zoom)
    {
      selectedId := id;
    }

    /** Pointer enters a node or label. */
    method MouseEnter(id: string)
      modifies this
      ensures hoveredId == Some(id)
      ensures selectedId == old(selectedId) && lockedType == old(lockedType)
      ensures hoveredType == old(hoveredType) && zoom == old(zoom)
      ensures id != "" ==> Active() == Some(id)
    {
      hoveredId := Some(id);
    }

    /** Pointer leaves a node or label: the selection is active again. */
    method MouseLeave()
      modifies this
      ensures hoveredId == None
      ensures selectedId == old(selectedId) && lockedType == old(lockedType)
      ensures hoveredType == old(hoveredType) && zoom == old(zoom)
      ensures Active() == selectedId
    {
      hoveredId := None;
    }

    /** A click on a node or label selects it (and is reported to the host page). */
    method NodeClick(id: string)
      modifies this
      ensures selectedId == Some(id)
      ensures hoveredId == old(hoveredId) && lockedType == old(lockedType)
      ensures hoveredType == old(hoveredType) && zoom == old(zoom)
      ensures !Truthy(hoveredId) ==> Active() == Some(id)
    {
      selectedId := Some(id);
    }

    /** A click on the background clears the selection, not the lock. */
    method BackgroundClick()
      modifies this
      ensures selectedId == None
      ensures hoveredId == old(hoveredId) && lockedType == old(lockedType)
      ensures hoveredType == old(hoveredType) && zoom == old(zoom)
      ensures Active() == (if Truthy(hoveredId) then hoveredId else None)
    {
      selectedId := None;
    }

    /** A click on a legend entry toggles the lock on that type. */
    method LegendClick(t: EventType)
      modifies this
      ensures lockedType == ToggleLock(old(lockedType), t)
      ensures hoveredId == old(hoveredId) && selectedId == old(selectedId)
      ensures hoveredType == old(hoveredType) && zoom == old(zoom)
    {
      if lockedType == Some(t) {
        lockedType := None;
      } else {
        lockedType := Some(t);
      }
    }

    method LegendEnter(t: EventType)
      modifies this
      ensures hoveredType == Some(t)
      ensures hoveredId == old(hoveredId) && selectedId == old(selectedId)
      ensures lockedType == old(lockedType) && zoom == old(zoom)
      ensures Filter() == (if lockedType.Some? then lockedType else Some(t))
    {
      hoveredType := Some(t);
    }

    /** Leaving the legend removes the hover filter; a lock stays in force. */
    method LegendLeave()
      modifies this
      ensures hoveredType == None
      ensures hoveredId == old(hoveredId) && selectedId == old(selectedId)
      ensures lockedType == old(lockedType) && zoom == old(zoom)
      ensures Filter() == lockedType
    {
      hoveredType := None;
    }

    /** A zoom gesture records the new scale. */
    method Zoomed(k: real)
      requires InZoomExtent(k)
      modifies this
      ensures zoom == k
      ensures hoveredId == old(hoveredId) && selectedId == old(selectedId)
      ensures lockedType == old(lockedType) && hoveredType == old(hoveredType)
    {
      zoom := k;
    }

    /** updateVisuals: walks the node groups, then the links, then the labels,
        and overwrites each bound element's attributes from the current state.
        Only the attribute arrays change; the interaction state and the bound
        data do not. */
    method UpdateVisuals(events: seq<HistoricalEvent>, links: seq<Link>,
                         nodes: array<NodeStyle>, linkAttrs: array<LinkStyle>, labels: array<LabelStyle>)
      requires nodes.Length == |events| && labels.Length == |events| && linkAttrs.Length == |links|
      modifies nodes, linkAttrs, labels
      ensures nodes[..] == Restyle(zoom, Filter(), Active(), events, links).nodes
      ensures linkAttrs[..] == Restyle(zoom, Filter(), Active(), events, links).links
      ensures labels[..] == Restyle(zoom, Filter(), Active(), events, links).labels
    {
      var k, filter, active := zoom, Filter(), Active();
      var i := 0;
      while i < |events|
        invariant 0 <= i <= |events|
        invariant forall j :: 0 <= j < i ==> nodes[j] == NodeStyleOf(k, filter, active, events[j])
      {
        nodes[i] := NodeStyleOf(k, filter, active, events[i]);
        i := i + 1;
      }
      i := 0;
      while i < |links|
        invariant 0 <= i <= |links|
        invariant forall j :: 0 <= j < i ==> linkAttrs[j] == LinkStyleOf(filter, active, links[j])
        invariant forall j :: 0 <= j < |events| ==> nodes[j] == NodeStyleOf(k, filter, active, events[j])
      {
        linkAttrs[i] := LinkStyleOf(filter, active, links[i]);
        i := i + 1;
      }
      i := 0;
      while i < |events|
        invariant 0 <= i <= |events|
        invariant forall j :: 0 <= j < i ==> labels[j] == LabelStyleOf(k, filter, active, events[j])
        invariant forall j :: 0 <= j < |events| ==> nodes[j] == NodeStyleOf(k, filter, active, events[j])
        invariant forall j :: 0 <= j < |links| ==> linkAttrs[j] == LinkStyleOf(filter, active, links[j])
      {
        labels[i] := LabelStyleOf(k, filter, active, events[i]);
        i := i + 1;
      }
    }
  }
}
