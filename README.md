# Buddhism Timeline: the chart's decision logic and the audio/sidebar controller

This project models the decision core of an interactive timeline of the spread
of Buddhism. The timeline draws people, texts, schools and events as nodes.
Each node sits at its year (horizontally) and its country lane (vertically),
and links join related entities. Most of the program draws a scene graph.
Inside it sits the logic modelled here:

- **Level of detail and emphasis** (`ChartStyle`). A five-band zoom rule sets
  which entities' labels and leader lines are shown. The *active* entity is
  the hovered one, else the selected one, and it is always shown and
  emphasised. A *category filter* is the locked legend type, else the hovered
  legend type, and it dims the entities of other types. `Restyle` computes
  the attribute values that every node group, leader line, glyph, link and
  label gets on a visual update.
- **Layout** (`ChartLayout`):
  - node size from importance, and the glyph shape per type;
  - the leader line and the label at its tip, under the clamped node scale;
  - node and link positions under the current (zoomed) linear scales;
  - the year-sorted event list and the lane index range;
  - the lane icon and silhouette fallback.
- **Interaction state** (`ChartState.Interaction`): a class holding the
  hovered id, selected id, locked type, hovered type and zoom scale, with one
  method per pointer and legend handler. Its `UpdateVisuals` overwrites the
  attribute arrays of the bound elements in place.
- **Era labels** (`Calendar`): integer years printed as "N BCE" or "N CE".
  The time axis and the detail panel share this format, and reading a label
  back gives the year again.
- **Audio reconstruction** (`AppAudio`):
  - the decoded speech reply is copied byte by byte;
  - the bytes are read as little-endian signed 16-bit PCM;
  - each sample is divided by 32768 into a 24 kHz single-channel buffer.
- **Page controller** (`AppController.App`): a class holding the selected
  node, the AI summary, the sidebar flag, the playing flag and the one audio
  source, with an ordered log of the calls made to the speech service and the
  audio output.
- **Panel text** (`AppPanel`): the year label and the five impact dots.

The dataset records are mirrored in `Types`. Optional fields are `Option`
values. JavaScript truthiness is written out where the code relies on it:
`x || 5` treats 0 as missing, `hoveredId || selectedId` treats `""` as
missing, and a zero `endYear` counts as absent. Importance and years are
integers. The zoom scale `k`, the square root of `k` and the current linear
scales are given as parameters (`real` values and `Affine` maps). All the
attribute constants are exact in `real`.

Two behaviours of the code worth noting:
- Read-aloud pressed while audio plays only stops the playback. It does not
  start a new one.
- The category filter still dims the active entity's node group, and with it
  the leader line, which is drawn inside the group. Only the label, drawn in
  a separate layer, overrides the filter. The leader line overrides only the
  zoom rule.

## Model

| member | source | states |
|---|---|---|
| Types.ParseLinkType | types.ts:36 | a link type string is accepted exactly when it is 'transmission' or 'influence', and then names that type |
| Types.LinkTypeRoundTrip | types.ts:36 | every link type reads back from its string value |
| Types.EventTypeClosed | types.ts:15-20 | EventType has exactly four distinct values, and every value is one of them |
| ChartStyle.TypeColor | components/BuddhistChart.tsx:30-38 | each type has its own swatch colour, never the active colour or the default-branch colour |
| ChartStyle.LegendAgreesWithTypeColor | components/BuddhistChart.tsx:561-564 | the legend lists each of the four types exactly once, in the colour the chart uses for it |
| ChartStyle.TypeColorsDistinct | components/BuddhistChart.tsx:30-38 | distinct types get distinct colours; no type gets the active colour or the default-branch colour, which is unreachable |
| ChartStyle.ImportanceDefault | components/BuddhistChart.tsx:114 | a missing or zero importance counts as 5; any other value is used as given |
| ChartStyle.IsZoomVisible | components/BuddhistChart.tsx:113-120 | the five-band rule: everything shows from zoom 2.2 on, importance 10 and above shows at every zoom, and importance below 6 shows only from 2.2 |
| ChartStyle.ZoomVisibleMonotone | components/BuddhistChart.tsx:113-120 | an entity visible at zoom k is visible at every k' >= k |
| ChartStyle.ZoomVisibleExtremes | components/BuddhistChart.tsx:113-120 | every entity is visible at k >= 2.2; below 0.7 an entity is visible exactly when its importance is at least 10 |
| ChartStyle.ActiveId | components/BuddhistChart.tsx:110 | the active id is the hovered or the selected one, and the hovered one whenever it is non-empty |
| ChartStyle.ActiveIdPrefersHover | components/BuddhistChart.tsx:110 | the active id is the hovered id whenever that one is set (non-empty); the selected id is used only when nothing is hovered |
| ChartStyle.ActiveType | components/BuddhistChart.tsx:53 | the filter is the locked or the hovered type, and there is none exactly when neither is set |
| ChartStyle.ActiveTypePrefersLock | components/BuddhistChart.tsx:53 | the filter is the locked type when one is set, otherwise the hovered legend type |
| ChartStyle.NodeStyleOf | components/BuddhistChart.tsx:123-150 | a node group is fully opaque exactly when the filter does not exclude it; an active leader is dark, width 2 and shown; another is in its type colour, width 1, and shown exactly when the zoom rule shows it; only a school gets the pill glyph |
| ChartStyle.LinkStyleOf | components/BuddhistChart.tsx:152-161 | a link is heavy exactly when it touches the active entity, and then opaque; any other link is faded to 0.05 under a filter |
| ChartStyle.LabelStyleOf | components/BuddhistChart.tsx:172-197 | a label is raised exactly when its entity is active, ignores the pointer exactly when it is hidden, and its text and dot share one colour |
| ChartStyle.ActiveLabelShown | components/BuddhistChart.tsx:172-197 | the active entity's label gets opacity 1, pointer events 'auto', the active colour, the large dot, and is raised, at every zoom and under every filter |
| ChartStyle.InactiveLabel | components/BuddhistChart.tsx:172-197 | any other label: zoom-hidden gives opacity 0 and no pointer events; otherwise a filter mismatch gives 0.1, else 1; its own colour, the small dot, not raised |
| ChartStyle.LabelHiddenOnlyByZoom | components/BuddhistChart.tsx:172-186 | a label has opacity 0 exactly when it is not active and zoom-hidden, and it ignores pointer events exactly then |
| ChartStyle.NodeGroupIgnoresActivity | components/BuddhistChart.tsx:124 | a node group's opacity does not depend on the active entity: 0.1 on a filter mismatch, else 1 |
| ChartStyle.LinkEmphasis | components/BuddhistChart.tsx:152-161 | a link whose source or target is the active id gets width 3 and opacity 1; any other gets width 1.5 and opacity 0.05 under a filter, else 0.6 for influence and 0.7 for transmission |
| ChartStyle.LinkWithoutActive | components/BuddhistChart.tsx:152-161 | with no active entity every link is thin, faded under a filter and otherwise shaded by its type |
| ChartStyle.OthersUnaffectedByActivity | components/BuddhistChart.tsx:125-198 | a node or label that is active under neither of two active ids is styled identically under both, so changing the active entity restores every other entity's level-of-detail state |
| ChartStyle.LinksUnaffectedByActivity | components/BuddhistChart.tsx:152-161 | a link touching neither active id is styled identically under both |
| ChartStyle.Restyle | components/BuddhistChart.tsx:104-200 | a visual update styles one node and one label per event and one path per link, and raises exactly the active labels |
| ChartStyle.RestyleRaisesOnlyActive | components/BuddhistChart.tsx:197 | in a visual update, a label is raised exactly when its entity is the active one |
| ChartStyle.RestyleChangesOnlyActive | components/BuddhistChart.tsx:104-200 | moving the emphasis from one entity to another changes only those entities' nodes and labels and the links touching them |
| ChartLayout.NodeSize | components/BuddhistChart.tsx:41 | on the 1-10 scale a node is 5.5 to 19 units; an importance of 0 is sized as 5 |
| ChartLayout.DatumSizeDefault | components/BuddhistChart.tsx:41 | node size is (importance or 5) * 1.5 + 4, and the double defaulting at the call sites changes nothing |
| ChartLayout.DatumSizeRange | components/BuddhistChart.tsx:41 | on the 1-10 scale a node's size lies in [5.5, 19] and grows with importance |
| ChartLayout.GlyphOf | components/BuddhistChart.tsx:271-291 | people and events are discs, texts cards and schools pills; every glyph of a positive size reaches above the node's centre |
| ChartLayout.LeaderY2 | components/BuddhistChart.tsx:396-406 | for a positive node size the leader line ends more than 35 units above the node's centre |
| ChartLayout.LeaderClearsGlyph | components/BuddhistChart.tsx:396-406 | for every type the leader line ends exactly 35 units beyond the top edge of the glyph drawn for that type |
| ChartLayout.LeaderY2Formula | components/BuddhistChart.tsx:396-406 | y2 is -(per-type factor 1, 0.8, 0.5 or 0.7) * size - 35 with size = imp * 1.5 + 4 |
| ChartLayout.NodeScale | components/BuddhistChart.tsx:382 | the node scale is sqrt(k) clamped to [0.5, 2.5] |
| ChartLayout.LabelOffsetAgrees | components/BuddhistChart.tsx:396-440 | the label's own offset (LabelLocalY: its own size call, a 0.7 default overridden per type, minus 35) equals the leader line's y2 for every entity |
| ChartLayout.LabelPixelY | components/BuddhistChart.tsx:430-444 | the label's on-screen offset; with a positive scale and node size it lies above the node |
| ChartLayout.LabelAtLeaderTip | components/BuddhistChart.tsx:430-444 | the label dot's pixelY equals the leader line's y2 times the scale of its node group: 1 for a school with an end year, nodeScale otherwise |
| ChartLayout.LabelAboveNode | components/BuddhistChart.tsx:430-444 | on the 1-10 scale the leader ends at least 37.75 units above the node, so every label sits above its node |
| ChartLayout.EventIndex | components/BuddhistChart.tsx:322-323 | the index found is that of the first event with the id, and no earlier event has it |
| ChartLayout.FindEvent | components/BuddhistChart.tsx:322-323 | the lookup fails exactly when no event has the id, and otherwise returns the first event of the list with that id |
| ChartLayout.LaneOf | components/BuddhistChart.tsx:326 | the lane is the yIndex of the first country with the id, or 0 when no country has it |
| ChartLayout.NodePosition | components/BuddhistChart.tsx:353-358 | a node sits at its year on the time scale, and at the lane of a country with its country id, or at lane 0 when there is none |
| ChartLayout.SpanWidth | components/BuddhistChart.tsx:384-386 | a school span's bar is its time span on screen, but never shorter than 20 |
| ChartLayout.LinkCurve | components/BuddhistChart.tsx:320-331 | a link gets a path exactly when both of its endpoints are events of the dataset |
| ChartLayout.LinkJoinsNodes | components/BuddhistChart.tsx:320-331 | a link is drawn exactly when both endpoints resolve; it starts at the source node's position, ends at the target node's, and its control points sit at the horizontal midpoint |
| ChartLayout.LinkCurveReverse | components/BuddhistChart.tsx:320-331 | swapping a link's endpoints draws the same curve backwards |
| ChartLayout.WellFormedChartDrawn | components/BuddhistChart.tsx:320-406 | in a well-formed dataset every link is drawn, every node sits in its country's lane and every leader line ends at least 37.75 units above its node |
| ChartLayout.SortByYear | components/BuddhistChart.tsx:81 | the sorted copy has as many events as the dataset |
| ChartLayout.SortByYearSorted | components/BuddhistChart.tsx:81 | sortedEvents is non-decreasing by year |
| ChartLayout.SortByYearPermutation | components/BuddhistChart.tsx:81 | sortedEvents is a permutation of data.events |
| ChartLayout.SortByYearStable | components/BuddhistChart.tsx:81 | events of the same year keep the dataset's order |
| ChartLayout.LaneIndexRange | components/BuddhistChart.tsx:79-84 | minIndex and maxIndex bound every lane's yIndex and are attained; without lanes there is no range |
| ChartLayout.CountryShape | components/BuddhistChart.tsx:22-27 | the stored path for the lower-cased id when present and non-empty, otherwise the square fallback; never empty |
| ChartLayout.CountryShapeIgnoresCase | components/BuddhistChart.tsx:24 | the silhouette lookup does not depend on the id's letter case |
| ChartLayout.LaneIconOf | components/BuddhistChart.tsx:466-488 | a lane shows the CDN image exactly when its svgCode is set, and otherwise its silhouette path |
| Calendar.EraLabel | components/BuddhistChart.tsx:452 | a tick label starts with a digit, never a sign, and has an era suffix |
| Calendar.EraLabelRoundTrip | components/BuddhistChart.tsx:452 | the tick label "abs(y) BCE" / "y CE" reads back as the year y |
| Calendar.EraLabelInjective | components/BuddhistChart.tsx:452 | distinct years have distinct tick labels |
| Calendar.EraLabelBce | components/BuddhistChart.tsx:452 | a tick label ends in " BCE" exactly when the year is negative |
| ChartState.ToggleLock | components/BuddhistChart.tsx:532-538 | clicking the locked type unlocks; clicking any other type locks that type |
| ChartState.ToggleLockTwice | components/BuddhistChart.tsx:532-538 | starting unlocked, two clicks on one type end unlocked; starting locked on it, they end locked on it again |
| ChartState.Interaction.constructor | components/BuddhistChart.tsx:49-72 | nothing is hovered or locked, the selection is the page's, and the zoom is 0.85 |
| ChartState.Interaction.SyncSelected | components/BuddhistChart.tsx:63-65 | the page's selection is copied in and nothing else changes |
| ChartState.Interaction.MouseEnter | components/BuddhistChart.tsx:336-339 | hoveredId becomes the node's id and becomes active; nothing else changes |
| ChartState.Interaction.MouseLeave | components/BuddhistChart.tsx:341-344 | hoveredId is cleared and the selection becomes active; nothing else changes |
| ChartState.Interaction.NodeClick | components/BuddhistChart.tsx:346-351 | selectedId becomes the node's id; nothing else changes |
| ChartState.Interaction.BackgroundClick | components/BuddhistChart.tsx:241-245 | selectedId is cleared and the lock is kept; nothing else changes |
| ChartState.Interaction.LegendClick | components/BuddhistChart.tsx:532-538 | the lock toggles on the clicked type; the pointer fields are untouched |
| ChartState.Interaction.LegendEnter | components/BuddhistChart.tsx:543 | the hovered type is set, and becomes the filter unless a lock is set |
| ChartState.Interaction.LegendLeave | components/BuddhistChart.tsx:544 | the hovered type is cleared and the filter is the lock alone |
| ChartState.Interaction.Zoomed | components/BuddhistChart.tsx:496-500 | the zoom records the new scale, which lies in [0.1, 8]; nothing else changes |
| ChartState.Interaction.UpdateVisuals | components/BuddhistChart.tsx:104-200 | every node, link and label attribute is overwritten with the value the rules give for the current state; the interaction state is untouched |
| AppAudio.CopyBinaryString | App.tsx:42-50 | the output has the decoded string's length, and byte i is char code i modulo 256 |
| AppAudio.BinaryBytesAreCharCodes | App.tsx:46-48 | for a binary string (all chars below 256) byte i is exactly the char code at position i |
| AppAudio.Int16View | App.tsx:84 | an odd byte count has no 16-bit view; otherwise the frame count is half the byte count |
| AppAudio.Int16ViewOfPcmBytes | App.tsx:84 | viewing the little-endian encoding of any samples gives those samples back |
| AppAudio.PcmBytesOfInt16View | App.tsx:84 | every even-length buffer is the encoding of its own view, so the view loses nothing |
| AppAudio.FillChannel | App.tsx:87-93 | the channel has one frame per sample, and frame i is sample i / 32768 |
| AppAudio.NormalizedInRange | App.tsx:92 | every output lies in [-1, 1) |
| AppAudio.NormalizedScalesBack | App.tsx:92 | multiplying an output by 32768 recovers the original sample |
| AppAudio.NormalizedReference | App.tsx:92 | samples [0, 16384, -32768, 32767] become [0, 0.5, -1, 32767/32768] |
| AppAudio.DecodePcm | App.tsx:84-93 | an odd byte count gives no samples; otherwise there is one sample per two bytes |
| AppAudio.DecodePcmFrames | App.tsx:84-93 | the frame count is half the byte count, and sample i is the signed little-endian value of bytes 2i, 2i+1 over 32768; an odd count gives nothing |
| AppController.Playback | App.tsx:62-93 | a reply that plays always has at least one frame |
| AppController.PlaybackPlaysNonEmpty | App.tsx:62-93 | a reply plays exactly when it is non-empty, decodes as base64, and gives an even, non-zero byte count; it then plays one frame per two bytes |
| AppController.App.constructor | App.tsx:8-18 | nothing is selected, no summary, the sidebar is closed, nothing plays |
| AppController.App.StopAudio | App.tsx:115-121 | the held source, if any, is stopped and dropped, and isPlaying becomes false; the selection, summary and sidebar are unchanged |
| AppController.App.HandleNodeClick | App.tsx:26-31 | audio is stopped, the node is selected, the summary is reset to "" and the sidebar opens |
| AppController.App.CloseSidebar | App.tsx:166-170 | the sidebar closes and the selection is cleared; when a node was selected, the selection effect's cleanup (lines 20-24) stops the audio, and otherwise audio is untouched |
| AppController.App.PlaybackEnded | App.tsx:99-102 | the end of playback clears isPlaying and the held source |
| AppController.App.ReadAloud | App.tsx:52-113 | while playing it only stops (no speech request, no new source); with no summary it changes nothing; otherwise it requests speech and, when the reply decodes to an even, non-zero byte count, starts one new source with the reconstructed samples |
| AppPanel.YearLabel | App.tsx:159-160 | the label starts with the start year in era notation, and is just that when there is no end year |
| AppPanel.YearLabelShape | App.tsx:159-160 | the start year reads "abs(year) BCE" when negative, else "year CE"; a present non-zero end year always ends in "CE" |
| AppPanel.YearLabelZeroEndYear | App.tsx:160 | as written, an end year of 0 appends a bare "0" |
| AppPanel.YearLabelNegativeEndYear | App.tsx:160 | as written, a negative end year is printed as "-N CE" |
| AppPanel.YearRangeLabelAgrees | App.tsx:159-160 | the corrected label equals the rendered one when the end year is absent or positive |
| AppPanel.YearRangeLabelSuffix | App.tsx:160 | in the corrected label the end year is in era notation and reads back as the end year |
| AppPanel.ImpactDots | App.tsx:253-257 | the panel always shows exactly five impact dots |
| AppPanel.ImpactDotsPrefix | App.tsx:253-257 | dot i is filled exactly when i < min(5, ceil(imp / 2)), so the filled dots form a prefix |
| AppPanel.ImpactDotsScale | App.tsx:256 | on the 1-10 scale one to five dots are filled, and three when there is no importance |

## Left out

- Drawing the scene graph is not modelled: D3 selection, join and append calls, `.raise()`, clip paths, axis drawing, class and style strings, icon glyphs, font sizes, the label's -45° rotation and the resize listener. Only the attribute values they receive are modelled, as `ChartStyle` values and positions.
- The zoom gesture, pan clamping to the translate extent, and `rescaleX`/`rescaleY` are not modelled. The current scales are `Affine` parameters. The zoom scale is taken to lie in [0.1, 8] (`Zoomed`'s precondition), and the initial zoom is 0.85.
- The base scales' domains and ranges (totalRows, margins, width-dependent ranges) and the tick count are not modelled.
- `Math.sqrt` is not modelled. Its result is the `rootK` parameter of `NodeScale`, and only the clamp is modelled.
- Number-to-string formatting of non-integers is not modelled, so the SVG path and transform strings are not built. Link curves and positions are `real` values, and the era labels are built for integers only.
- `COUNTRY_PATHS` is a map parameter and the CDN icon URL is reduced to its code. `toLowerCase` is modelled on ASCII letters only.
- Importance and years are integers. NaN and fractional importances are not modelled.
- `Math.min`/`Math.max` over no lanes return the infinities in JavaScript. The model has `NoLanes` instead.
- services/geminiService.ts is not part of this model. The speech reply is the `reply` parameter of `ReadAloud`, and the base64 decoder `atob` is the `atob` parameter, which is None when it would throw.
- `handleAskGemini`, the summary request and `loadingAi` are not modelled (asynchronous remote call).
- `audioLoading` is true only while the speech request is awaited. `ReadAloud` models the handler as one atomic step, so this flag is not modelled.
- Creating the `AudioContext` and the buffer, the output connection, and the timing of `onended` are not modelled. `PlaybackEnded` models only the handler's effect.
- Interleavings of overlapping requests are not modelled.
- React effect scheduling is not modelled beyond one step: the cleanup that calls `stopAudio` when the selected node changes is folded into `CloseSidebar` and `HandleNodeClick` (which stops the audio itself first). The syncing of `activeTypeRef` and re-render timing are not modelled.
- The chart's `NodeClick` and the page's `HandleNodeClick` live in two classes that are not wired together.
- The platform is taken to be little-endian, as `Int16Array` is on every browser platform in use.

## Findings

| source | as written | input that shows it | evidently intended | confidence | as-written member | corrected member |
|---|---|---|---|---|---|---|
| App.tsx:160 | `{endYear && …}` renders a falsy number, so an end year of 0 appends the text "0" | year -500, endYear 0 gives "500 BCE0" | "500 BCE – 0 CE" | medium; not executed | AppPanel.YearLabelZeroEndYear | AppPanel.YearRangeLabelSuffix |
| App.tsx:160 | the end year is always followed by "CE" and printed with its sign | year -563, endYear -483 gives "563 BCE – -483 CE" | "563 BCE – 483 BCE", in the start year's era notation | high; not executed | AppPanel.YearLabelNegativeEndYear | AppPanel.YearRangeLabelSuffix |
