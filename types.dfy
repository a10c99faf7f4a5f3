/** The dataset's record types: lanes (countries), historical entities and the
    links drawn between them, with the JavaScript truthiness rules the rest of
    the model needs to read their optional fields. */
module Types {

  datatype Option<+T> = None | Some(value: T)

  /** The three regions a lane belongs to. */
  datatype Region = North | Center | South

  /** The four kinds of historical entity. The enum is closed: no other value exists. */
  datatype EventType = Person | Text | School | Event

  /** A link is either a direct transmission or an indirect influence. */
  datatype LinkType = Transmission | Influence

  /** A lane. `yIndex` is 0 for India, positive to the north and negative to the south. */
  datatype Country = Country(
    id: string,
    name: string,
    region: Region,
    yIndex: int,
    svgCode: Option<string>)

  /** An entity. `year` is negative for BCE; `endYear` is present for spans. */
  datatype HistoricalEvent = HistoricalEvent(
    id: string,
    kind: EventType,
    name: string,
    year: int,
    countryId: string,
    description: Option<string>,
    importance: Option<int>,
    endYear: Option<int>)

  datatype Link = Link(sourceId: string, targetId: string, kind: LinkType)

  datatype ChartData = ChartData(
    countries: seq<Country>,
    events: seq<HistoricalEvent>,
    links: seq<Link>)

  /** The string literal type 'transmission' | 'influence'. */
  function LinkTypeName(t: LinkType): string
  {
    match t
    case Transmission => "transmission"
    case Influence => "influence"
  }

  /** Reads a string as a link type; only the two literals of the union are accepted. */
  function ParseLinkType(s: string): (r: Option<LinkType>)
    ensures r.Some? <==> s == "transmission" || s == "influence"
    ensures r.Some? ==> LinkTypeName(r.value) == s
  {
    if s == "transmission" then Some(Transmission)
    else if s == "influence" then Some(Influence)
    else None
  }

  lemma LinkTypeRoundTrip(t: LinkType)
    ensures ParseLinkType(LinkTypeName(t)) == Some(t)
  {
  }

  /** Every event type is one of the four listed values, and they are pairwise distinct. */
  const AllEventTypes: seq<EventType> := [Person, Text, School, Event]

  lemma EventTypeClosed(t: EventType)
    ensures t in AllEventTypes
    ensures |AllEventTypes| == 4
    ensures forall i, j :: 0 <= i < j < |AllEventTypes| ==> AllEventTypes[i] != AllEventTypes[j]
  {
  }

  // ---- JavaScript truthiness of optional values ----

  /** `x || d` on an optional number: a missing value and 0 are both falsy. */
  function NumberOr(x: Option<int>, d: int): (r: int)
    ensures x.Some? && x.value != 0 ==> r == x.value
    ensures x == None || x == Some(0) ==> r == d
  {
    match x
    case Some(v) => if v != 0 then v else d
    case None => d
  }

  /** A string or null is truthy when it is present and not empty. */
  predicate Truthy(s: Option<string>)
  {
    s.Some? && s.value != ""
  }

  /** An optional number is truthy when it is present and not 0. */
  predicate NumberSet(x: Option<int>)
  {
    x.Some? && x.value != 0
  }

  // ---- Well-formedness of the dataset ----

  /** Importance, when present, is on the 1-10 scale. */
  predicate ImportanceInRange(e: HistoricalEvent)
  {
    e.importance.Some? ==> 1 <= e.importance.value <= 10
  }

  predicate HasEvent(events: seq<HistoricalEvent>, id: string)
  {
    exists i :: 0 <= i < |events| && events[i].id == id
  }

  predicate HasCountry(countries: seq<Country>, id: string)
  {
    exists i :: 0 <= i < |countries| && countries[i].id == id
  }

  /** The dataset invariants: every id is non-empty, every lane reference and
      every link endpoint resolves, and every importance lies on the scale. */
  predicate WellFormed(data: ChartData)
  {
    && (forall i :: 0 <= i < |data.events| ==> data.events[i].id != "")
    && (forall i :: 0 <= i < |data.events| ==> ImportanceInRange(data.events[i]))
    && (forall i :: 0 <= i < |data.events| ==> HasCountry(data.countries, data.events[i].countryId))
    && (forall i :: 0 <= i < |data.links| ==>
          HasEvent(data.events, data.links[i].sourceId) && HasEvent(data.events, data.links[i].targetId))
  }
}
