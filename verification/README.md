# Plant-cell explorer: interaction and selection logic

This project models the discrete logic behind an interactive 3-D plant-cell page. The page is a fixed
catalog of nine organelles drawn as a scene of proxies. Hovering and clicking a proxy highlights and
selects its organelle. A selection moves the camera and opens a detail panel and a tutor chat. The
tutor chat sends questions to a text service, one at a time.

The model uses immutable datatypes and pure functions. There is one module per source file:

- `Types` (types.ts): `Organelle`, `Vec3`, `ShapeType`, `ChatMessage`, and a small `Option`.
- `Text`: JavaScript's `split(' ')[0]` and `trim()`, as far as the page uses them.
- `Organelles` (data/organelles.ts): the catalog as a constant sequence, `find`, and the facts
  the scene relies on.
- `CellMap` (components/CellMap.tsx): the proxy list, pointer dispatch and hover ownership, the
  idle-animation frame, outline and label rules, the camera look-at target, and the map's back control.
- `AITutor` (components/AITutor.tsx): the transcript, input and busy flag, the greeting reset, the
  suggestion cards, and a send split into `BeginSend` and `CompleteSend`.
- `App` (App.tsx): the selection cell, the `selectedId` passed to the map, the page transitions, and
  which panels exist.

How the model encodes things:

- Frame time, `sin` and the text service are inputs. The wobble is a real parameter. The service is
  a total function from (name, question) to reply text.
- Pointer picking is an input: the renderer gives the list of proxies under the pointer, nearest first.
- JavaScript truthiness is spelled out. `selectedId` is falsy when it is null or `""`.
- The object `{}` that the map's back control reports is its own case, `Report.Blank`.

Behaviours of the code worth knowing:

- The frame loop never moves a selected proxy. The render that follows a selection change applies
  the position and scale props afresh, so the selected proxy stands at its rest pose
  (`SelectedHoldsRestPose`).
- The map's back control does not clear the selection. It reports `{}` (see Findings).
- The hover scale moves a fixed 10% toward its target per frame. So its speed depends on the frame rate.
- The outline shape depends on the shape tag and on the id. `rounded_box` gets a box and the id
  `mitochondria` gets a capsule; everything else gets a sphere. So the Golgi body, tagged `box`,
  gets a sphere outline.
- A pointer-out on any proxy clears the hover. That includes the enclosing wall and membrane.
- The map selects whatever record a click reports, and the wall and membrane can be selected this way.
  If an id is not in the catalog, the camera is left where it is.
- The hint over the map says to click the background to go back (components/CellMap.tsx:330). The
  wall and membrane are drawn from the inside (components/CellMap.tsx:184-186), and their click
  handler does not skip enclosing records (components/CellMap.tsx:204). So a click on the background
  inside the cell's outline hits the membrane's far face and selects the membrane
  (`BackgroundClickSelectsMembrane`), or the vacuole inside its footprint. Only a click outside the
  cell's outline hits nothing, and that changes nothing (`Step` on an empty hit list).
- A tutor panel accepts one request at a time, but closing it does not cancel a pending request.
  Reopening mounts an idle panel that accepts a second request (`ReopenStartsSecondRequest`).

## Model

| member | source | states |
|---|---|---|
| `Text.FirstWord` | components/CellMap.tsx:232 | the label text is a prefix of the name, holds no space, and ends at the first space or at the end |
| `Text.FirstWordUnique` | components/AITutor.tsx:19 | those three properties determine the first word uniquely |
| `Text.TrimEmptyIffBlank` | components/AITutor.tsx:57 | the trimmed text is empty exactly when every character is JavaScript whitespace |
| `Organelles.Find` | components/CellMap.tsx:264 | lookup returns the first record with the id, and returns nothing exactly when no record has it |
| `Organelles.FindAtIndex` | components/CellMap.tsx:264 | with distinct ids, looking up a record's id returns that record |
| `Organelles.CatalogIdsUnique` | data/organelles.ts:4-152 | the nine catalog ids are pairwise distinct |
| `Organelles.EnclosingRecords` | data/organelles.ts:5-34 | exactly two records are enclosing, `cell_wall` and `cell_membrane`, and both sit at the origin |
| `Organelles.ChloroplastAndMitochondriaPresent` | data/organelles.ts:101-134 | the `chloroplast` and `mitochondria` lookups that the scene asserts non-null succeed |
| `Organelles.MitochondriaRecord` | data/organelles.ts:118-134 | mitochondria has tagline 动力工厂 and position (2.5, -3.5, 0.8) |
| `Organelles.RoundedBoxRecords` | data/organelles.ts:4-152 | a record is a rounded box exactly when it is the wall, the membrane or the vacuole |
| `CellMap.BuildProxies` | components/CellMap.tsx:245-304 | the scene renders exactly when both base lookups succeed; it has one primary per record in order, then 3 + 2 decorative copies of the found bases; primaries stand at their record's position, scale and rotation (none when absent), decorative copies at their configured position and rotation with the base's scale |
| `CellMap.SceneProxies` | components/CellMap.tsx:286-304 | the real scene has 14 proxies: 9 primaries, 3 decorative chloroplasts and 2 decorative mitochondria sharing the primaries' records |
| `CellMap.ProxiesOfNineRecords` | components/CellMap.tsx:297-304 | for any nine-record catalog with chloroplast and mitochondria at 6 and 7, the decorative copies share those records |
| `CellMap.DispatchOver` | components/CellMap.tsx:205 | along the pick ray, the first non-enclosing proxy takes the hover; if every hit is enclosing, the hover is unchanged; the hover invariant is kept |
| `CellMap.HoverNeverEnclosing` | components/CellMap.tsx:166-167 | no sequence of pointer-over and pointer-out events gives the hover to an enclosing record |
| `CellMap.PointerOutClears` | components/CellMap.tsx:206 | after a pointer-out on any proxy, nothing is hovered |
| `CellMap.DecorativeActsAsPrimary` | components/CellMap.tsx:297-304 | a decorative copy clicks, hovers and is selected exactly like its primary |
| `CellMap.DecorativeSelectedTogether` | components/CellMap.tsx:293-303 | decorative chloroplasts and mitochondria are selected exactly when their base id is |
| `CellMap.IdleStep` | components/CellMap.tsx:169-179 | frozen (selected or enclosing) proxies keep their pose; others sit at base y + w, or + 2w when hovered; the distance to the scale target shrinks by exactly 0.9 |
| `CellMap.WobbleBounded` | components/CellMap.tsx:172-173 | with the source's wobble amplitude, a proxy stays within 0.1 of its rest height, or 0.05 when not hovered |
| `CellMap.ContractStep` | components/CellMap.tsx:175-176 | one unfrozen frame multiplies the remaining distance to the scale target by 0.9 |
| `CellMap.ScaleConverges` | components/CellMap.tsx:175-176 | after n frames the scale's distance to its target is 0.9^n times the initial distance |
| `CellMap.FrozenHoldsPose` | components/CellMap.tsx:170-171 | a selected or enclosing proxy keeps its pose over any number of frames |
| `CellMap.SelectedHoldsRestPose` | components/CellMap.tsx:169-171 | a selected proxy, placed at its rest pose by the render that applies the selection, stays at its rest position and scale on every later frame |
| `CellMap.AdvanceFrame` | components/CellMap.tsx:169-179 | one frame over all proxies: frozen proxies are untouched, and every other proxy's height offset is its wobble times 1 or 2 |
| `CellMap.OutlineFor` | components/CellMap.tsx:211-225 | the outline is shown exactly when the proxy is not enclosing and is hovered or selected; it is accent-coloured exactly when selected and white otherwise; box exactly for `rounded_box`, capsule exactly for mitochondria otherwise |
| `CellMap.BoxOutlineOnlyOnVacuole` | components/CellMap.tsx:213-217 | in the scene, only the vacuole can show a box outline, and only mitochondria proxies show a capsule |
| `CellMap.LabelFor` | components/CellMap.tsx:229-235 | a label exists exactly for non-decorative proxies that are not enclosing or are selected; its text is the name up to its first space (a space-free prefix ending at a space or at the end); it is emphasised (visible; an unemphasised tag is fully transparent) exactly when hovered or selected |
| `CellMap.MitochondriaLabel` | components/CellMap.tsx:232 | the mitochondria label reads 线粒体 |
| `CellMap.CameraFor` | components/CellMap.tsx:261-277 | falsy id: overview (0,0,16); unknown id: camera untouched; enclosing: (0,0,18); otherwise it targets the record's position; the eye always looks down -z from a distance in [4, 25] |
| `CellMap.FocusFramesRecord` | components/CellMap.tsx:269-270 | focusing a non-enclosing record puts the eye 6 units in front of it, looking at it |
| `CellMap.FocusMitochondria` | components/CellMap.tsx:269-270 | focusing mitochondria puts the eye at (2.5, -3.5, 6.8) |
| `CellMap.BackControl` | components/CellMap.tsx:336-340 | the map's back control exists only while `selectedId` is truthy, and it reports `{}` |
| `AITutor.Greeting` | components/AITutor.tsx:41-44 | the greeting is a model message whose text contains the name's first word right after the fixed opening |
| `AITutor.OnOrganelle` | components/AITutor.tsx:40-45 | a new id replaces the transcript with exactly the greeting and keeps the input and busy flag; the same id changes nothing |
| `AITutor.BeginSend` | components/AITutor.tsx:55-62 | blocked exactly for blank text or busy, and then nothing changes; otherwise it appends one user message, sets busy, clears the input only for typed sends, and requests (name, text) |
| `AITutor.CompleteSend` | components/AITutor.tsx:64-67 | keeps the transcript as a prefix, appends exactly one model message with the reply, and clears the busy flag |
| `AITutor.SendAppendsQuestionThenReply` | components/AITutor.tsx:55-68 | an accepted send followed by its reply appends exactly [user question, model reply] and ends not busy |
| `AITutor.BusyIgnoresSends` | components/AITutor.tsx:57 | while busy, a send of any text changes nothing and starts no request |
| `AITutor.ReplyAfterSwitch` | components/AITutor.tsx:66 | a reply arriving after the record changed lands right after the new greeting |
| `AITutor.ReplyText` | services/geminiService.ts:34-37 | the service never rejects: its text is never empty; a failure gives the network apology; an empty answer gives the thinking apology; a non-empty answer is passed through |
| `AITutor.FailureShowsFallback` | services/geminiService.ts:35-37 | a failed call ends the send with the network apology as the last message and the busy flag down |
| `AITutor.Suggestions` | components/AITutor.tsx:18-38 | 3 base prompts, plus a 4th exactly for chloroplast, mitochondria, vacuole or nucleus: the energy prompt for the first two, the turgor prompt for the vacuole, the "without it" prompt for the nucleus; no suggestion is blank |
| `AITutor.SendButtonMatchesGuard` | components/AITutor.tsx:143-146 | the send button is disabled exactly when pressing it would be a no-op |
| `AITutor.EnabledSuggestionSends` | components/AITutor.tsx:119-128 | an enabled suggestion card always sends its own text and leaves the input box alone |
| `AITutor.MountedIsSerialized` | components/AITutor.tsx:12-14 | a freshly mounted panel has nothing in flight and is not busy |
| `AITutor.RequestsSerialized` | components/AITutor.tsx:55-68 | within one mounted panel, over any event sequence, at most one request is in flight, and the busy flag is set exactly while one is |
| `App.ReopenStartsSecondRequest` | App.tsx:53-70 | closing a panel while its request is pending discards the busy panel, and reopening mounts an idle one that starts a second request |
| `App.SelectedId` | App.tsx:47 | the map gets the record's id, or null when there is no selection, the selection is `{}`, or the id is empty |
| `App.Step` | App.tsx:24-61 | a map click selects the nearest hit's record and a miss changes nothing; header back and detail close clear; map back gives `{}` while focused |
| `App.DecorativeClickSelectsPrimary` | App.tsx:46-49 | clicking a decorative copy gives the same selection and `selectedId` as clicking its primary |
| `App.BackgroundClickSelectsMembrane` | components/CellMap.tsx:184-204 | a click inside the cell's outline that hits only the membrane's and the wall's far faces selects the membrane and focuses the map on it, whatever was selected |
| `App.ClosingReturnsToOverview` | App.tsx:58-61 | both close controls clear the selection, hide the panels, and send the camera to the overview |
| `App.MapBackIsNotClear` | components/CellMap.tsx:336-340 | map back from a record gives `{}`: `selectedId` becomes null and the camera goes to the overview, but the panels stay, unlike a clear |
| `App.OverviewToMitochondria` | App.tsx:46-49 | from the overview, clicking mitochondria selects it, opens the panels, and frames it from (2.5, -3.5, 6.8) |
| `App.TutorAfter` | App.tsx:53-70 | a tutor exists only for a record selection, and it is freshly mounted when the panels appear; from one record to another the same panel survives with its input and busy flag, unchanged for the same id and reset to the new greeting for a different id |
| `App.SwitchResetsChat` | components/AITutor.tsx:40-45 | switching between records with different ids leaves exactly one message, the new record's greeting |
| `App.MapBackBreaksCoherence` | components/CellMap.tsx:339 | as written, map back takes a coherent page (panels exactly while focused) to an incoherent one |
| `App.StepIntended` | App.tsx:26 | with map back clearing like the header button, every other transition is unchanged |
| `App.IntendedKeepsCoherent` | App.tsx:47-53 | the intended transitions keep panels shown exactly while the map is focused |
| `App.IntendedAlwaysCoherent` | App.tsx:47-53 | from the overview, every event sequence under the intended transitions stays coherent |

The closed shape enumeration (types.ts:14) is the `ShapeType` datatype. So every catalog record has a
tag from that enumeration by construction.

## Findings

| source | as written | input that shows it | evidently intended | confidence | as-written member | corrected member |
|---|---|---|---|---|---|---|
| components/CellMap.tsx:339 | the map's back control calls `onSelect({})`, which stores the empty object as the selection | select any organelle, then press the round back button over the map | return to the overview with no selection, as the header back button does (App.tsx:26) | not executed; high. The `selectedId` becomes null while the panels stay, and they then render `{}`, whose `name` is undefined (OrganelleDetail.tsx:58) | `App.MapBackBreaksCoherence` | `App.StepIntended` |

`App.Step` keeps the behaviour as written, and `App.MapBackIsNotClear` shows how it differs from
clearing. `App.StepIntended` replaces only the map-back transition. `App.IntendedAlwaysCoherent`
proves that, under it, the panels exist exactly while the map is focused.

## Left out

- Three.js geometry, materials, lights and the per-organelle sub-models (components/CellMap.tsx:28-155,
  181-196, 280-283): these are rendering only. Of the outline, only its shape and colour are modelled;
  its mesh scale and opacity are not.
- The `Math.random` nucleus pores and floating particles (components/CellMap.tsx:29-42, 306-313): they
  are random and decorative.
- The `sin` wobble and the group sway (components/CellMap.tsx:172, 255-259): these are floating-point
  trigonometry. The wobble enters as a real parameter per frame; the sway is not modelled.
- CameraControls' smooth transitions and its [4, 25] distance clamp (components/CellMap.tsx:315): this
  is library behaviour. Only the `setLookAt` arguments are modelled, and `CameraFor` proves they
  already lie inside the clamp. That the effect fires only when `selectedId` changes is React timing
  and is not modelled.
- The network call, the SDK and the prompt text of services/geminiService.ts: the service is a function
  parameter. Only its two fixed apologies are modelled (`ReplyText`).
- components/OrganelleDetail.tsx: it only renders fields.
- App.TutorAfter: for the `{}` selection, the source's panels fail to render, because they split an
  undefined name (AITutor.tsx:19, OrganelleDetail.tsx:58). The model returns no tutor state there
  instead of modelling the failure.
- Pointer picking, and the renderer's own bookkeeping of which objects receive pointer-out: the hit
  list and the `Out` events are inputs.
- The transcript's initial empty state before the greeting effect runs (AITutor.tsx:12): `Mounted`
  is the state after that effect.
- The `isError` field of `ChatMessage` (types.ts:22): no code sets it.
- Scrolling, Tailwind classes and responsive layout, including the map being hidden on narrow screens
  while something is selected (App.tsx:38-41).
- Render-time prop application (components/CellMap.tsx:201-203): every render resets every proxy's
  position and scale to its rest pose, and every hover or selection change causes a render. The
  frame traces (`IdleSteps`) do not include these resets. `FrozenHoldsPose` covers the frame loop
  only, and `SelectedHoldsRestPose` starts from the rest pose that the render sets.
- CellMap.IdleStep: positions, scales and the lerp are exact reals, whereas the source computes in
  IEEE-754 doubles (components/CellMap.tsx:172-176). So "shrinks by exactly 0.9" holds only up to
  rounding.
- CellMap.ScaleConverges: the 0.9^n contraction is exact over reals, and holds only up to rounding
  in doubles.
- CellMap.CameraFor: the eye's z (for example 6.8 for mitochondria, components/CellMap.tsx:270) is
  the exact real sum. In doubles, 0.8 + 6 is correct only up to rounding. The same holds for
  `FocusFramesRecord` and `FocusMitochondria`.
- AITutor.RequestsSerialized: holds within one mounted panel only. `ChatEvent` has no unmount. In
  the source, closing the panel while busy unmounts it but does not cancel the pending call
  (App.tsx:24-31, 53-70). `App.ReopenStartsSecondRequest` shows the second request this allows.
- The `AITutor.Session` trace: a reply event counts only while a request is in flight, because the
  service replies once per request.
