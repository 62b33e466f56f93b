# Scroll-driven visual state of a portfolio site, in Dafny

The portfolio site turns the reader's scroll position into the visual state
of several scenes. This project models those rules as Dafny functions,
methods and classes, and proves properties about them. It covers:

- the skills universe: five orbital rings, a category overlay that fades in
  after a switch cooldown, skill nodes sized and coloured by ring focus, and
  ring opacity;
- the photo gallery: a nearest-photo overlay with a zero-padded counter,
  photo cards easing scale, opacity and glow, video play/pause, slot layout
  and the camera rig;
- the 3D photo gallery: frames lit by proximity, video play/pause with
  hysteresis, constellation lines with their waypoint dots, and a camera
  with fog that follows it; the travelling-lights component, which the
  scene defines but does not mount, is modelled as well;
- the airplane journey: milestone cards with their sampling search and
  opacity envelope, the paper airplane's mesh, smoothing, direction
  tracking and banking, and the scroll-progress tracker;
- the palette provider with its storage and root attribute, the language
  toggle, and the site map.

Every number is a Dafny `real`. `Math.round(x)` is `floor(x + 1/2)`.
JavaScript's `%` on numbers is the truncating remainder. Three.js curves,
the clock and the DOM are abstracted:

- a curve is a function-typed parameter;
- a time-based sway is a parameter;
- local storage is a `map`, and the root element's attribute is an `Option`.

The code has the same shape as the site's code:

- frame callbacks that mutate refs are classes whose `Frame` methods state
  the new state;
- loops are methods with invariants, proved against recursive
  specification functions;
- pure expressions are functions, with lemmas for what they promise.

## Model

| member | source | states |
|---|---|---|
| Numeric.LerpBetween | src/components/sections/SkillsUniverse/OrbitalRing.tsx:44 | one smoothing step `v += (target - v) * k` with k in [0, 1] lands between the old value and the target, and the gap shrinks by exactly (1 - k) |
| Numeric.LerpStaysIn | src/components/sections/AirplaneJourney/MilestoneMarker.tsx:69-71 | any interval holding both the smoothed value and its target still holds the value after a smoothing step |
| Numeric.LerpContracts | src/components/sections/PhotoGallery/GalleryScene.tsx:66-70 | a smoothing step closes exactly the fraction k of the distance to the target |
| Numeric.Round2Close | src/components/sections/SkillsUniverse/index.tsx:70 | `Math.round(x * 100) / 100` moves x by at most 0.005 and maps [0, 1] into [0, 1] |
| OrbitalMath.RingLayoutIsPrefixSum | src/components/sections/SkillsUniverse/orbitalMath.ts:17-25 | there are five rings, each ring's startIndex is the number of slots of the rings before it, and TOTAL_SKILLS (73) is the slot count of all rings |
| OrbitalMath.RangeShape | src/components/sections/SkillsUniverse/orbitalMath.ts:57-63 | every category centre is the midpoint of its range, every half-width is 0.08, and range i starts at 0.08 + 0.16 i |
| OrbitalMath.RangesDisjoint | src/components/sections/SkillsUniverse/orbitalMath.ts:57-63 | no progress value lies in two category ranges |
| OrbitalMath.ActiveIndexFromSpec | src/components/sections/SkillsUniverse/orbitalMath.ts:66-71 | the search from index i returns -1 only when no later range holds p, and otherwise a range at or after i that holds p |
| OrbitalMath.ActiveCategoryIndexSpec | src/components/sections/SkillsUniverse/orbitalMath.ts:65-72 | the active index is i exactly when p lies in range i, and -1 exactly when p < 0.08 or p >= 0.88 |
| OrbitalMath.GetActiveCategoryIndex | src/components/sections/SkillsUniverse/orbitalMath.ts:65-72 | the scan returns a range holding p, or -1 exactly when no range holds p; it agrees with the recursive specification |
| OrbitalMath.GetCategoryFocus | src/components/sections/SkillsUniverse/orbitalMath.ts:75-82 | focus lies in [0, 1] and is 0 for a ring index with no range |
| OrbitalMath.FocusShape | src/components/sections/SkillsUniverse/orbitalMath.ts:78-81 | focus is positive exactly within 0.08 of the centre, 1 exactly at the centre, and 0 from 0.08 away |
| OrbitalMath.FocusImpliesActive | src/components/sections/SkillsUniverse/orbitalMath.ts:65-82 | a ring with positive focus is the active category |
| OrbitalMath.GetCameraTarget | src/components/sections/SkillsUniverse/orbitalMath.ts:98-104 | the look-at target is the origin whatever the progress |
| OrbitalMath.CategoryColorBlendSpec | src/components/sections/SkillsUniverse/orbitalMath.ts:107-117 | t = ringIndex / 4 lies in [0, 1]; below 0.5 the colour mixes from→via by 2t, otherwise via→to by 2(t - 0.5); the mix factor lies in [0, 1] |
| OrbitalMath.ColorLerpUnit | src/components/sections/SkillsUniverse/orbitalMath.ts:114-116 | mixing two colours with channels in [0, 1] by a factor in [0, 1] gives channels in [0, 1] |
| OrbitalMath.CategoryColorEndpoints | src/components/sections/SkillsUniverse/orbitalMath.ts:107-117 | ring 0 gets the gradient's first stop, ring 2 its middle stop, ring 4 its last stop |
| OrbitalMath.CategoryColorUnit | src/components/sections/SkillsUniverse/orbitalMath.ts:107-117 | every ring colour is a valid colour when the theme's stops are |
| OverlayState.NextViewTracksLive | src/components/sections/SkillsUniverse/index.tsx:72-81 | after the state updater, the published index is the live one, the opacity is within 0.01 of the rounded live opacity and the progress within 0.005 of the live progress; the previous state is kept exactly when nothing moved that far |
| SkillsOverlay.Names | src/components/sections/SkillsUniverse/index.tsx:24 | the name map keeps the length and takes each skill's name in order |
| SkillsOverlay.OfCategorySpec | src/components/sections/SkillsUniverse/index.tsx:23-25 | the filter keeps exactly the skills of the category, and as many of them as the list holds |
| SkillsOverlay.CountOfAppend | src/components/sections/SkillsUniverse/index.tsx:24 | the number of skills of a category in two concatenated lists is the sum of their counts |
| SkillsOverlay.SkillCounts | src/components/sections/SkillsUniverse/index.tsx:23-25 | the site's skill list holds 8 frontend, 5 backend, 4 database and 6 tools skills, and none of any other key |
| SkillsOverlay.SkillsByCategory | src/components/sections/SkillsUniverse/index.tsx:23-25 | there is one list per category key |
| SkillsOverlay.SkillsByCategoryCounts | src/components/sections/SkillsUniverse/index.tsx:20-25 | the "mobile" list is empty; the other lists hold 8, 5, 4 and 6 names |
| SkillsOverlay.StepRefsOk | src/components/sections/SkillsUniverse/index.tsx:48-68 | a frame keeps the cooldown in [0, 5] after it and the smoothed opacity in [0, 1], and records the live category index |
| SkillsOverlay.CooldownHoldsDark | src/components/sections/SkillsUniverse/index.tsx:59-61 | while the category holds, each cooldown frame counts down by one and keeps the opacity at 0 |
| SkillsOverlay.SwitchBlanksSixFrames | src/components/sections/SkillsUniverse/index.tsx:53-65 | after a category switch the switch frame and the five after it show opacity 0; the seventh frame moves 18% of the way to the target |
| SkillsOverlay.RunSplit | src/components/sections/SkillsUniverse/index.tsx:84-92 | running a sequence of frames is running a prefix of them and then the rest |
| SkillsOverlay.CategoryOverlay.constructor | src/components/sections/SkillsUniverse/index.tsx:39-46 | the refs start at opacity 0, index -1, cooldown 0, and the state at index -1 |
| SkillsOverlay.CategoryOverlay.Update | src/components/sections/SkillsUniverse/index.tsx:48-82 | the refs become one step of the frame function and the state the updater's result; the refs' bounds are preserved |
| SkillsOverlay.PanelsForSpec | src/components/sections/SkillsUniverse/index.tsx:94-96 | the overview (-1) shows no key, icon or skills; the badge panel shows exactly for categories other than "mobile" |
| SkillNodes.IndexOfRing | src/components/sections/SkillsUniverse/SkillNodes.tsx:40 | `RING_CONFIGS.indexOf(ring)` finds each ring at its own position |
| SkillNodes.IndexOfFirst | src/components/sections/SkillsUniverse/SkillNodes.tsx:40 | indexOf returns the position r when no earlier entry equals the entry at r |
| SkillNodes.BuildSkillMap | src/components/sections/SkillsUniverse/SkillNodes.tsx:35-50 | the map has 73 entries; the entry at startIndex + k is slot k of ring r; every entry is such a slot, with angleIndex < totalInRing |
| SkillNodes.DimmedSpec | src/components/sections/SkillsUniverse/SkillNodes.tsx:73-76 | a ring is dimmed exactly when a category is active and it is another ring, or the progress is on the first point of its own range |
| SkillNodes.FocusScaleSpec | src/components/sections/SkillsUniverse/SkillNodes.tsx:79-83 | a dimmed node is scaled 0.6, any other by a factor in [1, 2], so every node's size lies in [0.108, 0.36] |
| SkillNodes.NodeColorRuleSpec | src/components/sections/SkillsUniverse/SkillNodes.tsx:88-98 | the three colour branches are exclusive and exhaustive: highlighted (at most half-way to white) exactly when in focus, greyed exactly when dimmed; only the active ring is highlighted |
| SkillNodes.Frame | src/components/sections/SkillsUniverse/SkillNodes.tsx:60-106 | without the mesh nothing is written; otherwise every slot's scale and colour buffer entry is the size and colour of its ring's rule |
| OrbitalRing.RingTargetOpacitySpec | src/components/sections/SkillsUniverse/OrbitalRing.tsx:38-43 | the target opacity lies in [0.04, 0.7], is 0.04 exactly when dimmed, and is above 0.1 for a ring in focus |
| OrbitalRing.ConnectionOpacityBounds | src/components/sections/SkillsUniverse/OrbitalRing.tsx:49-51 | the connection line's opacity lies in [0.01, 0.28] and is below the ring's when not dimmed |
| OrbitalRing.RingMaterial.constructor | src/components/sections/SkillsUniverse/OrbitalRing.tsx:16 | the opacity starts at 0.12 |
| OrbitalRing.RingMaterial.Frame | src/components/sections/SkillsUniverse/OrbitalRing.tsx:36-52 | the opacity moves 8% toward the target and stays in [0.04, 0.7]; the ring line copies it and the connection line takes 0.01 or 40% of it |
| GalleryOverlay.NearestUpToSpec | src/components/sections/PhotoGallery/index.tsx:43-52 | the search returns index 0 at infinite distance with no photos, and otherwise the lowest index of minimal distance, with that distance |
| GalleryOverlay.FindNearest | src/components/sections/PhotoGallery/index.tsx:40-52 | the loop finds the first photo whose milestone (i + 0.5) / n is nearest the progress, and its distance; it agrees with the recursive specification |
| GalleryOverlay.NarrativeTargetSpec | src/components/sections/PhotoGallery/index.tsx:56-61 | the card's target lies in [0, 1], is 1 exactly for distances up to 0.07, and is 0 exactly with no photos or from distance 0.11 on |
| GalleryOverlay.Overlay.constructor | src/components/sections/PhotoGallery/index.tsx:35-36 | the state starts at index 0, opacity 0, progress 0 |
| GalleryOverlay.Overlay.Update | src/components/sections/PhotoGallery/index.tsx:38-78 | the smoothed opacity moves 8% toward the nearest photo's target, and the state becomes the updater's result for that photo; opacities stay in [0, 1] and the index stays valid |
| GalleryOverlay.RenderedSpec | src/components/sections/PhotoGallery/index.tsx:90-91 | the overlay renders exactly when there is at least one item |
| GalleryOverlay.DecimalString | src/components/sections/PhotoGallery/index.tsx:139 | `String(n)` is a non-empty string of decimal digits |
| GalleryOverlay.DecimalRoundTrip | src/components/sections/PhotoGallery/index.tsx:139 | `String(n)` reads back as n |
| GalleryOverlay.PadStart | src/components/sections/PhotoGallery/index.tsx:139 | `padStart` gives at least the width, ends with the original string and fills the front with the fill character |
| GalleryOverlay.LeadingZeros | src/components/sections/PhotoGallery/index.tsx:139 | leading zeros do not change the number a digit string denotes |
| GalleryOverlay.CounterSpec | src/components/sections/PhotoGallery/index.tsx:139-143 | both halves of the counter have at least two characters and read back as the 1-based photo number and the photo count; a one-digit number gets one leading zero |
| GalleryOverlay.PadValue | src/components/sections/PhotoGallery/index.tsx:139 | padding to two characters with "0" keeps the value |
| GalleryOverlay.CounterOpacity | src/components/sections/PhotoGallery/index.tsx:135 | the counter's opacity is never below 0.4 nor below the card's |
| PhotoCard.ScaleTargetSpec | src/components/sections/PhotoGallery/PhotoCard.tsx:64-69 | the scale target lies in [0.7, 1], is 1 exactly up to distance 0.06 and 0.7 exactly from 0.11 on, and does not rise with distance |
| PhotoCard.OpacityTargetSpec | src/components/sections/PhotoGallery/PhotoCard.tsx:72-81 | the opacity target lies in [0.15, 1], is 1 exactly up to 0.07 and 0.15 exactly from 0.11 on, and does not rise with distance |
| PhotoCard.GlowTargetSpec | src/components/sections/PhotoGallery/PhotoCard.tsx:84-93 | the glow target lies in [0, 0.5], is 0.5 exactly at distance 0, and is positive exactly below 0.06 |
| PhotoCard.PhotoWidth | src/components/sections/PhotoGallery/PhotoCard.tsx:46-47 | the plane's width over its height 4.2 is the item's aspect ratio |
| PhotoCard.ImageCard.constructor | src/components/sections/PhotoGallery/PhotoCard.tsx:38-40 | the eased scale starts at 0.7, opacity and glow at 0 |
| PhotoCard.ImageCard.Frame | src/components/sections/PhotoGallery/PhotoCard.tsx:49-94 | scale, opacity and glow move 10%, 12% and 10% toward their targets and stay in their ranges; the materials copy them, the inner glow at 30% |
| PhotoCard.VideoCommandSpec | src/components/sections/PhotoGallery/PhotoCard.tsx:212-221 | Play goes only to a paused video that should play and Pause only to a playing one that should not; the same command is never sent twice in a row |
| PhotoCard.VideoCard.constructor | src/components/sections/PhotoGallery/PhotoCard.tsx:152-157 | the eased values start at 0.7, 0, 0, and the video is not playing |
| PhotoCard.VideoCard.Frame | src/components/sections/PhotoGallery/PhotoCard.tsx:184-230 | the same easing as an image card; with a video element the command is the play/pause decision and the flag records whether it should play |
| PhotoCard.KindOf | src/components/sections/PhotoGallery/PhotoCard.tsx:263-268 | an item is rendered as a video card exactly when its type is "video" |
| GalleryScene.MilestoneTs | src/components/sections/PhotoGallery/GalleryScene.tsx:91-94 | there is one milestone per photo slot |
| GalleryScene.MilestonesIncreasing | src/components/sections/PhotoGallery/GalleryScene.tsx:12-25 | the nine milestones are (i + 0.5) / 9, lie in (0, 1) and rise strictly; the slots recede 8 units at a time |
| GalleryScene.LayoutFor | src/components/sections/PhotoGallery/GalleryScene.tsx:108-109 | the first nine items have a slot and later ones have none |
| GalleryScene.CardsSpec | src/components/sections/PhotoGallery/GalleryScene.tsx:107-109 | exactly min(itemCount, 9) cards are rendered, item i in slot i at milestone (i + 0.5) / 9 |
| GalleryScene.CurveParam | src/components/sections/PhotoGallery/GalleryScene.tsx:58 | the curve parameter is the progress clamped to [0.001, 0.999] |
| GalleryScene.CameraStepContracts | src/components/sections/PhotoGallery/GalleryScene.tsx:66-70 | each frame closes 5% of each coordinate's distance to the camera goal |
| GalleryScene.CameraRig.constructor | src/components/sections/PhotoGallery/GalleryScene.tsx:98 | the camera starts at (0, 0, 8) |
| GalleryScene.CameraRig.Frame | src/components/sections/PhotoGallery/GalleryScene.tsx:57-78 | the camera moves 5% toward the swayed curve point, then looks at (0.3 x, 0.3 y, z - 10) of its new position |
| GalleryScene3D.PlacementCycles | src/components/sections/PhotoGallery3D/GalleryScene.tsx:617-618 | item i takes slot i mod 6, so the layout repeats every six items |
| GalleryScene3D.ProgressTargetIn | src/components/sections/PhotoGallery3D/GalleryScene.tsx:171 | every item's target (index + 1) / (total + 1) lies strictly inside (0, 1), for any gallery size including a single item |
| GalleryScene3D.ProgressTargetSpec | src/components/sections/PhotoGallery3D/GalleryScene.tsx:171 | of two items, the later one's target comes strictly later, and both lie in (0, 1) |
| GalleryScene3D.SquareFacts | src/components/sections/PhotoGallery3D/GalleryScene.tsx:176 | `x ** 2` is non-negative, monotone on non-negative inputs, zero only at 0, and below 1 below 1 |
| GalleryScene3D.ProximitySpec | src/components/sections/PhotoGallery3D/GalleryScene.tsx:176 | proximity lies in [0, 1], is 1 exactly at distance 0, positive exactly below 0.1, and does not rise with distance |
| GalleryScene3D.LookForSpec | src/components/sections/PhotoGallery3D/GalleryScene.tsx:179-188 | scale lies in [1, 1.06], glow in [0.04, 0.29], video content opacity in [0.3, 1] and the caption equals the proximity; all rise with proximity |
| GalleryScene3D.HysteresisSpec | src/components/sections/PhotoGallery3D/GalleryScene.tsx:192-200 | a command is sent exactly when the playing flag flips; inside (0.1, 0.3] the flag never flips; playing implies proximity > 0.1 and paused implies proximity <= 0.3 |
| GalleryScene3D.VideoFrame.constructor | src/components/sections/PhotoGallery3D/GalleryScene.tsx:169-226 | the frame's target is (index + 1) / (total + 1), the video is not playing, and before the first frame the scale is 1, the glow 0.04 and the content opacity 0.3, the look of a frame far from its target |
| GalleryScene3D.VideoFrame.Frame | src/components/sections/PhotoGallery3D/GalleryScene.tsx:173-201 | scale, glow and content opacity are the look for the frame's proximity; with a video element the command and flag follow the hysteresis |
| GalleryScene3D.PhotoFrame.constructor | src/components/sections/PhotoGallery3D/GalleryScene.tsx:309-376 | the frame's target is (index + 1) / (total + 1), and before the first frame the scale is 1, the glow 0.04 and the caption hidden, the look of a frame far from its target |
| GalleryScene3D.PhotoFrame.Frame | src/components/sections/PhotoGallery3D/GalleryScene.tsx:311-328 | scale, glow and caption opacity are the look for the frame's proximity |
| GalleryScene3D.SegmentDots | src/components/sections/PhotoGallery3D/GalleryScene.tsx:420-426 | the loop over t = 0.25, 0.5, 0.75 yields exactly three dots, at a quarter, half and three quarters of the segment |
| GalleryScene3D.ConstellationLines | src/components/sections/PhotoGallery3D/GalleryScene.tsx:411-427 | for k slots there are 6(k - 1) line coordinates and 3(k - 1) dots; segment a joins slots a and a + 1, and its dots lie at quarters along it |
| GalleryScene3D.PhaseSpec | src/components/sections/PhotoGallery3D/GalleryScene.tsx:510 | `((x % 1) + 1) % 1` is the fractional part x - floor(x), in [0, 1), negative x included |
| GalleryScene3D.Segments | src/components/sections/PhotoGallery3D/GalleryScene.tsx:493-500 | there is one segment per pair of consecutive slots |
| GalleryScene3D.LightCount | src/components/sections/PhotoGallery3D/GalleryScene.tsx:517-518 | the travelling-lights component would create two lights per segment, ten in all (the scene does not mount it) |
| GalleryScene3D.LightPositionSpec | src/components/sections/PhotoGallery3D/GalleryScene.tsx:506-511 | every light uses one of the five segments, at speed 0.12, 0.16 or 0.2, and sits on that segment at a parameter in [0, 1) |
| GalleryScene3D.LightsFrame | src/components/sections/PhotoGallery3D/GalleryScene.tsx:502-513 | every light of the group is placed at its position for the current time |
| GalleryScene3D.AheadParam | src/components/sections/PhotoGallery3D/GalleryScene.tsx:126 | the look-ahead parameter is 0.025 past t, capped at 0.999 |
| GalleryScene3D.CameraRig.constructor | src/components/sections/PhotoGallery3D/GalleryScene.tsx:585 | the camera starts at (0, 0, 6) with fog from 10 to 35 |
| GalleryScene3D.CameraRig.Frame | src/components/sections/PhotoGallery3D/GalleryScene.tsx:123-139 | the camera moves 5% toward the curve point at the clamped progress, looks at the point slightly ahead, and the fog follows at z - 3 and z - 28 |
| MilestoneMarker.CardPositionSpec | src/components/sections/AirplaneJourney/MilestoneMarker.tsx:29-39 | the card sits half a unit above the waypoint at its depth; centred when compact, otherwise 1.5 units to the right exactly when the waypoint's x <= 0, else 1.5 to the left |
| MilestoneMarker.BestSampleUpToSpec | src/components/sections/AirplaneJourney/MilestoneMarker.tsx:46-54 | the sample search returns the first sample of minimal distance among those seen, with its distance |
| MilestoneMarker.MilestoneT | src/components/sections/AirplaneJourney/MilestoneMarker.tsx:42-56 | milestoneT is the first of t = j / 100, j = 0 .. 100, of minimal distance to the waypoint, so it lies in [0, 1] |
| MilestoneMarker.TargetOpacitySpec | src/components/sections/AirplaneJourney/MilestoneMarker.tsx:58-67 | the envelope lies in [0, 1]; it is 1 exactly for d in [-0.01, 0.12] and 0 exactly for d <= -0.06 or d >= 0.18, with linear ramps in between |
| MilestoneMarker.NextDisplayedSpec | src/components/sections/AirplaneJourney/MilestoneMarker.tsx:73-76 | the displayed opacity ends within 0.01 of the rounded value and is kept exactly when it already was that close |
| MilestoneMarker.Marker.constructor | src/components/sections/AirplaneJourney/MilestoneMarker.tsx:25-26 | the smoothed and displayed opacities start at 0 |
| MilestoneMarker.Marker.Frame | src/components/sections/AirplaneJourney/MilestoneMarker.tsx:58-77 | the smoothed opacity moves 8% toward the envelope and the displayed one follows the threshold rule; both stay in [0, 1] |
| AirplaneModel.MeshWellFormed | src/components/sections/AirplaneJourney/AirplaneModel.tsx:18-55 | the mesh has 7 whole vertices and 10 whole triangles, every index names an existing vertex, and no triangle repeats a corner |
| AirplaneModel.CurveT | src/components/sections/AirplaneJourney/AirplaneModel.tsx:101 | the curve parameter lies in [0.001, 0.999] and equals the smoothed progress inside that range |
| AirplaneModel.NextDirectionSpec | src/components/sections/AirplaneJourney/AirplaneModel.tsx:104-107 | the direction stays in [-1, 1]; it rises on a forward move, falls on a backward one, ignores moves of at most 0.0001, and keeps its sign while the move agrees with it |
| AirplaneModel.BankParamsSpec | src/components/sections/AirplaneJourney/AirplaneModel.tsx:125-127 | for t in [0, 1] both banking samples lie in [0, 1] and bracket t, 0.005 either side away from the ends |
| AirplaneModel.Flight.constructor | src/components/sections/AirplaneJourney/AirplaneModel.tsx:75-79 | the smoothed progress and prevT start at the initial progress, the direction at 1, and the first-frame flag is set |
| AirplaneModel.Flight.Frame | src/components/sections/AirplaneJourney/AirplaneModel.tsx:87-133 | without the mesh nothing changes; otherwise the first frame snaps to the target and later ones move 6% toward it, prevT becomes the clamped parameter, the direction follows its move and stays in [-1, 1], and the mesh is placed, turned (negated tangent iff direction < 0) and banked |
| FlightProgress.ProgressForSpec | src/components/sections/AirplaneJourney/useFlightProgress.ts:25-26 | progress lies in [0, 1]; it is 0 while the container's top is at or below the viewport's top, 1 once the whole range is scrolled, the scrolled share in between, and it never falls as the reader scrolls down |
| FlightProgress.Tracker.constructor | src/components/sections/AirplaneJourney/useFlightProgress.ts:12 | progress starts at 0 |
| FlightProgress.Tracker.Update | src/components/sections/AirplaneJourney/useFlightProgress.ts:18-27 | without a container, or when the scroll range is not positive, progress is unchanged; otherwise it is the clamped scrolled share, so it stays in [0, 1] |
| PaletteProvider.PalettesSpec | src/components/ui/PaletteProvider.tsx:5-16 | there are ten palettes, "violet" first, with pairwise distinct ids |
| PaletteProvider.AttributeFor | src/components/ui/PaletteProvider.tsx:56-60 | the attribute is removed exactly for "violet" and set to the palette otherwise |
| PaletteProvider.AfterSetSpec | src/components/ui/PaletteProvider.tsx:53-61 | after `setPalette(p)` the palette and the storage slot are p, no other storage key changes, the attribute is absent exactly for "violet", and the mounted flag is kept |
| PaletteProvider.AfterSetIdempotent | src/components/ui/PaletteProvider.tsx:53-61 | setting the same palette twice gives the same state as setting it once |
| PaletteProvider.AfterSetLastWins | src/components/ui/PaletteProvider.tsx:53-61 | setting one palette and then another gives the same state as setting only the second |
| PaletteProvider.AfterMountSpec | src/components/ui/PaletteProvider.tsx:44-51 | mounting sets the mounted flag and writes no storage; it adopts a stored value (palette and attribute) exactly when it is a palette id |
| PaletteProvider.DefaultRestoreDiffers | src/components/ui/PaletteProvider.tsx:46-60 | restoring a stored "violet" sets the attribute to "violet", while choosing "violet" removes it |
| PaletteProvider.SetThenMountRestores | src/components/ui/PaletteProvider.tsx:44-61 | a palette chosen with `setPalette` is restored, with its attribute, by the next mount |
| PaletteProvider.AfterContextSetSpec | src/components/ui/PaletteProvider.tsx:25-28 | before mount consumers see the default "violet" and the context's setter changes nothing; afterwards the setter is `setPalette` and consumers see the new palette |
| PaletteProvider.Provider.constructor | src/components/ui/PaletteProvider.tsx:41-42 | the provider starts with "violet", unmounted, over the browser's storage and attribute |
| PaletteProvider.Provider.Mount | src/components/ui/PaletteProvider.tsx:44-51 | the mount effect performs the restore step and keeps the palette a valid id |
| PaletteProvider.Provider.SetPalette | src/components/ui/PaletteProvider.tsx:53-61 | `setPalette` performs the set step and keeps the palette a valid id |
| LangToggle.Upper | src/components/ui/LangToggle.tsx:26 | the uppercase transform keeps the length and capitalises each letter |
| LangToggle.NewLocaleSpec | src/components/ui/LangToggle.tsx:11-26 | the target is "en" exactly from "pt", never the current locale, an involution on {pt, en}, and the label is the target in capitals |
| LangToggle.ToggleLinkRoundTrip | src/components/ui/LangToggle.tsx:11-16 | following the toggle twice from "pt" or "en" returns to the same page in the same locale |
| Sitemap.BaseUrl | src/app/sitemap.ts:3 | the base URL is the environment value unless it is unset or empty, and then "https://joaokremer.dev" |
| Sitemap.BuildSpec | src/app/sitemap.ts:5-14 | there are two entries, "pt" then "en", each at base URL + "/" + locale with distinct URLs, monthly frequency, priority 1 and the current time |

## Left out

- Trigonometric geometry is not modelled: `getNodePosition`, `getSkillAngle`, `getRingPoints`, the camera waypoint curves, and the sin/cos sway and breathing. Sway enters the photo gallery camera as parameters; node positions are not written by `SkillNodes.Frame`.
- Three.js curves are not modelled. `getPointAt`, `getTangentAt` and `distanceTo` are function-typed parameters, so nothing is proved about the curve shapes.
- FlightPath's total length is not modelled, because it is a sum of square roots over library-generated points.
- The hero globe scene, the random particle and star fields, and the layout-only components (header, footer, carousels, mobile fallbacks) are not modelled, because they are decorative or clock-driven.
- Browser I/O is not modelled. Scroll and resize listeners, `requestAnimationFrame`, `IntersectionObserver`, `MutationObserver` and CSS variables are left out. Local storage and the `data-palette` attribute are plain state.
- IEEE-754 rounding is not modelled: numbers are exact reals. `Math.PI` is its 16-digit literal, and the colour "#333333" is 51/255 per channel, without colour-space conversion.
- Frame callbacks that return early on a missing React ref are modelled with the ref attached. The exceptions are the video element, the scroll container, and the meshes of the skill nodes and the airplane.
- GalleryScene3D.CameraRig.Frame: the `scene.fog instanceof Fog` check is taken as true.
- The `time` that travelling lights receive is a parameter, standing in for the clock.
- GalleryScene3D.LightCount, GalleryScene3D.Segments, GalleryScene3D.LightPositionSpec, GalleryScene3D.LightsFrame and GalleryScene3D.PhaseSpec describe the travelling-lights component, which the 3D scene (GalleryScene.tsx:605-646) never mounts; they state what it would do, not what the page shows. The endpoint-dots component (GalleryScene.tsx:462) is not mounted either and is not modelled.
- MilestoneMarker.MilestoneT: the source's starting value `index / (total - 1)` is a division by zero when `total` is 1. The model starts from 0 there. The starting value is always replaced by the first sample.
- PhotoCard.VideoCard.Frame: the eased opacity of a video card is computed but drives no material, as in the source.
- The skill list defines no "mobile" skills, although the "mobile" ring has 7 slots. The model keeps both as written and does not relate the list to the ring slot counts.
- Sitemap.BuildSpec: `lastModified` is the time passed in, standing in for `new Date()`.
- PaletteProvider.Provider.SetPalette: the argument is required to be a palette id, as the source's type demands. Calls with other strings are not modelled.
- Rendering of the overlays (JSX, translations, icons, transitions) is not modelled. Only the values they display are.
