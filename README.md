# Portfolio site core, modelled in Dafny

This project models the interactive core of a personal portfolio web site
(martidous/profile). The site has these parts:

- **Project catalogue** (`js/project-data.js`): six project records.
- **Embed modal** (`js/modal-manager.js`): a dialog that loads a project's sketch in a sandboxed iframe. It has a 15-second load timeout, an error panel with a retry button, and a teardown delayed past the close animation.
- **Background tint** (`js/color-transitions.js`): the tint follows the section under the middle of the viewport. Scroll events are throttled to one pending animation frame.
- **Hero network** (`js/hero-shape.js`): a ring of eight coloured nodes. Every two nodes at most two steps apart around the ring are connected.
- **Work-section sketch** (`js/work-visualization.js`): one oval per record, placed at fixed fractions of the canvas and labelled "01", "02", …, with hover tracking.
- **Footer ray** (`js/footer-animation.js`): a band 150 columns wide sweeping across the footer.
- **Title particles** (`js/textphysics.js`): the title split into one span per letter, at most 40 falling particles, and a backwards prune loop that removes particles below the canvas.

Each file keeps the source's own form:

- Objects updated in place become classes. Their methods are proved against specification functions:
  - `Modal.ModalManager`;
  - `ColorTransitions.Transitions`;
  - `HeroShape.HeroSketch`;
  - `WorkVisualization.WorkSketch`;
  - `FooterAnimation.FooterSketch`;
  - `TextPhysics.ParticleField`.
- The catalogue and the computations over values are datatypes, functions and lemmas.

The modal has two modules:

- `ModalSteps` describes every handler as a function from one `ModalState` to the next. It proves the invariant `Inv` for every run of events. The invariant says: at most one live iframe, at most one armed load timeout, and every callback's captured record passed `open`'s guard.
- `Modal.ModalManager` performs the same updates on its fields. Each method is proved to reach the state the matching step function gives.

Timers have no clock:

- An armed load timeout is an entry of `armedTimeouts`.
- The close cleanup and the 100 ms focus callback are counts of callbacks not yet run.
- Firing a timer or callback is a method call.

DOM attribute values become small enumerations (`DataState`, `Display`, …). The physics engine, the mouse position and `Math.random` are parameters, or are left out.

## Model

| member | source | states |
|---|---|---|
| ProjectData.ProjectsData | js/project-data.js:5-60 | The catalogue has six records |
| ProjectData.IdsAreDistinct | js/project-data.js:5-60 | No two records share an id |
| ProjectData.RecordsWellFormed | js/project-data.js:5-60 | Each record has an embed URL and an embed type exactly when `hasEmbed` is set, and every embed URL starts with https:// |
| ProjectData.OnlyEpluribusLacksEmbed | js/project-data.js:52-59 | A record lacks an embed exactly when it is 'epluribus' |
| ModalSteps.Initial | js/modal-manager.js:6-18 | The freshly constructed manager (every reference null) satisfies the invariant |
| ModalSteps.OneFrameOneTimer | js/modal-manager.js:121-165 | Under the invariant, the embed container holds at most one iframe, and it is `this.iframe`; at most one load timeout is armed |
| ModalSteps.NewFrameAttributes | js/modal-manager.js:134-144 | The created iframe has the record's URL as src, the fixed sandbox policy, the title "<title> - Interactive Sketch", and the description as aria-label |
| ModalSteps.ClearLoadTimeoutEffect | js/modal-manager.js:172-175 | Clearing the timeout field disarms the one armed timeout and changes nothing else |
| ModalSteps.RemoveIframeEffect | js/modal-manager.js:123-126 | Removing the owned iframe leaves the container empty or holding only the error panel, forgets the iframe, and changes nothing else |
| ModalSteps.CreateIframeEffect | js/modal-manager.js:121-165 | After createIframe, exactly one timeout is armed, for the given record. When the container exists it holds exactly one iframe, the new one, behind any error panel. The dialog attributes, page and indicators are unchanged |
| ModalSteps.CreateIframeKeepsInv | js/modal-manager.js:121-165 | createIframe for an accepted record keeps the invariant |
| ModalSteps.OpenStep | js/modal-manager.js:77-116 | open ignores a record without an embed or URL, and never changes the document, the cached elements or the listeners |
| ModalSteps.OpenKeepsInv | js/modal-manager.js:77-116 | open keeps the invariant, whatever record it is given |
| ModalSteps.OpenShowsDialog | js/modal-manager.js:84-115 | An accepted open on an initialised manager records the trigger and the id, marks the dialog open and not hidden, blocks page scrolling, shows loading, arms one timeout and schedules one focus call |
| ModalSteps.LoadStep | js/modal-manager.js:170-184 | handleIframeLoad clears the timeout, hides the loading indicator and shows the embed container |
| ModalSteps.LoadKeepsInv | js/modal-manager.js:170-184 | handleIframeLoad keeps the invariant, disarms the timeout and leaves the container's children as they were |
| ModalSteps.ErrorStep | js/modal-manager.js:197-236 | handleIframeError clears the timeout, hides loading, and replaces the container's children by the error panel, whose retry is for the same record and whose "Open in New Tab" link is that record's URL; without a container the children stay; `this.iframe`, the document and the serials are kept |
| ModalSteps.ErrorPanelLinksToSketch | js/modal-manager.js:210-224 | For an accepted record, the panel's only link leads to the record's own embed URL |
| ModalSteps.ErrorKeepsInv | js/modal-manager.js:197-236 | handleIframeError for an accepted record keeps the invariant. Afterwards no timeout is armed, and an existing container holds no iframe |
| ModalSteps.TimeoutStep | js/modal-manager.js:147-149 | A firing timeout leaves no timeout field set and the iframe field untouched |
| ModalSteps.TimeoutIsError | js/modal-manager.js:189-192 | The timeout firing does exactly what handleIframeError does for the record it captured |
| ModalSteps.TimeoutKeepsInv | js/modal-manager.js:189-192 | A firing timeout keeps the invariant |
| ModalSteps.RetryKeepsInv | js/modal-manager.js:228-234 | A retry click keeps the invariant. It replaces the error panel by one new iframe and one new armed timeout for the same record, and leaves the dialog's attributes, the page and the indicators alone |
| ModalSteps.CloseStep | js/modal-manager.js:241-277 | close on an uninitialised manager changes nothing. Otherwise it marks the dialog closed and hidden, restores scrolling, clears the timeout, schedules one cleanup, returns focus to the trigger and forgets the trigger and the project |
| ModalSteps.CloseKeepsInv | js/modal-manager.js:241-277 | close keeps the invariant and leaves no timeout armed |
| ModalSteps.CleanupStep | js/modal-manager.js:256-268 | The deferred cleanup forgets the iframe, empties and hides the container, and shows loading again. It leaves the timers and the dialog's attributes alone |
| ModalSteps.CleanupKeepsInv | js/modal-manager.js:256-268 | The cleanup keeps the invariant and always leaves the container empty |
| ModalSteps.FocusStep | js/modal-manager.js:111-115 | The focus callback focuses the close control when it exists and changes nothing else |
| ModalSteps.FocusKeepsInv | js/modal-manager.js:111-115 | The focus callback keeps the invariant |
| ModalSteps.KeyDownStep | js/modal-manager.js:60-64 | A keydown either changes nothing or is a close |
| ModalSteps.KeyDownKeepsInv | js/modal-manager.js:60-64 | A keydown keeps the invariant |
| ModalSteps.EscapeTwiceIsEscapeOnce | js/modal-manager.js:60-64 | A second Escape handler for the same keydown finds the dialog closed and changes nothing |
| ModalSteps.EscapeOnlyWhenOpen | js/modal-manager.js:60-64 | Any other key, a dialog not open, or unwired listeners: nothing changes. Escape on an open, wired dialog marks it closed and leaves no timeout armed |
| ModalSteps.InitStep | js/modal-manager.js:23-43 | init without #project-modal caches nothing and wires nothing; with it, caches the document's parts and wires the listeners; nothing else changes |
| ModalSteps.InitKeepsInv | js/modal-manager.js:23-43 | init keeps the invariant; without the modal element it changes nothing |
| ModalSteps.StepKeepsInv | js/modal-manager.js:23-277 | Every event the page or a timer can deliver keeps the invariant |
| ModalSteps.RunKeepsInv | js/modal-manager.js:23-277 | Every run of events from a state satisfying the invariant ends in one satisfying it |
| ModalSteps.AtMostOneFrameAndTimeout | js/modal-manager.js:121-165 | From construction, whatever events arrive, the container never holds two iframes and never two load timeouts are armed |
| ModalSteps.LoadSilencesTimeouts | js/modal-manager.js:170-175 | With no timeout armed, no timeout fires until an open or a retry arms one |
| ModalSteps.LoadThenNoTimeout | js/modal-manager.js:170-175 | After a load event no timeout fires before the next open or retry |
| ModalSteps.TimeoutMatchesError | js/modal-manager.js:189-202 | A timeout and an iframe error lead to the same state |
| ModalSteps.CloseTwiceIsCloseOnce | js/modal-manager.js:241-277 | Closing twice gives the state of closing once, except for one more pending cleanup |
| ModalSteps.CloseThenCleanupResets | js/modal-manager.js:241-277 | close followed by its cleanup leaves the dialog closed and hidden, scrolling restored, the container empty, no iframe, no timeout, and no trigger or current project. An existing container is hidden and an existing loading indicator shown; no cleanup stays pending from this close |
| ModalSteps.ReopenBeforeCleanupLosesFrame | js/modal-manager.js:256-268 | The cleanup of an earlier close is never cancelled. If it fires after a reopen, it removes the new iframe while the dialog is open and its timeout is armed |
| ModalSteps.Accepts | js/modal-manager.js:78-81 | open goes ahead only for a record with an embed flag and a URL, and the iframe it creates then loads that non-empty URL, never the text "null" |
| ModalSteps.CreateIframeStep | js/modal-manager.js:121-165 | createIframe makes `this.iframe` a fresh frame for the record with the next serial, and arms that record's load timeout as the newest timer |
| ModalSteps.RetryStep | js/modal-manager.js:228-234 | A retry empties the container and puts one fresh iframe for the same record in it, with its load timeout set |
| ModalSteps.Enabled | js/modal-manager.js:147-159 | Under the invariant, a timeout that can fire is the one `this.loadTimeout` names, set for a record open accepts. A load or error fires only from the iframe in the container |
| ModalSteps.FiringFrameIsOwned | js/modal-manager.js:152-159 | Under the invariant, an iframe that can fire load or error is the one `this.iframe` names |
| ModalSteps.Step | js/modal-manager.js:23-277 | No event changes the document, and the serials for frames and timers never go back |
| ModalSteps.OpenAcceptsAllButEpluribus | js/modal-manager.js:78-81 | open's guard accepts every catalogue record except 'epluribus' |
| Modal.ModalManager.constructor | js/modal-manager.js:6-18 | The new manager is the initial state, which satisfies the invariant |
| Modal.ModalManager.Init | js/modal-manager.js:23-43 | Performs InitStep in place; returns whether #project-modal exists; on false nothing changes |
| Modal.ModalManager.Open | js/modal-manager.js:77-116 | Performs OpenStep in place and keeps the invariant |
| Modal.ModalManager.NoteProject | js/modal-manager.js:84-90 | Sets the trigger, the current id and, when the title element exists, its text |
| Modal.ModalManager.ShowDialog | js/modal-manager.js:93-105 | Sets the open attributes, blocks scrolling, shows loading and hides the embed |
| Modal.ModalManager.CreateIframe | js/modal-manager.js:121-165 | Performs CreateIframeStep in place |
| Modal.ModalManager.RemoveIframe | js/modal-manager.js:123-126 | Detaches and forgets the owned iframe |
| Modal.ModalManager.AttachIframe | js/modal-manager.js:134-164 | Builds the iframe, arms its timeout and appends it when the container exists |
| Modal.ModalManager.ClearLoadTimeoutField | js/modal-manager.js:172-175 | Disarms the named timeout and clears the field |
| Modal.ModalManager.HandleIframeLoad | js/modal-manager.js:170-184 | Performs LoadStep in place and keeps the invariant |
| Modal.ModalManager.Reveal | js/modal-manager.js:178-183 | Hides loading and shows the embed container, where those exist |
| Modal.ModalManager.HandleIframeError | js/modal-manager.js:197-236 | Performs ErrorStep in place and keeps the invariant |
| Modal.ModalManager.ShowError | js/modal-manager.js:205-235 | Hides loading; replaces the container's content by the error panel and shows it |
| Modal.ModalManager.HandleLoadTimeout | js/modal-manager.js:189-192 | Performs ErrorStep in place, as handleIframeError does |
| Modal.ModalManager.LoadTimeoutFires | js/modal-manager.js:147-149 | The armed timeout firing performs TimeoutStep in place |
| Modal.ModalManager.ClickRetry | js/modal-manager.js:230-233 | Performs RetryStep in place for the record the panel shows |
| Modal.ModalManager.Close | js/modal-manager.js:241-277 | Performs CloseStep in place and keeps the invariant |
| Modal.ModalManager.Hide | js/modal-manager.js:243-247 | Marks the dialog closed and hidden and restores scrolling |
| Modal.ModalManager.Release | js/modal-manager.js:256-276 | Schedules the cleanup, focuses and forgets the trigger, forgets the project |
| Modal.ModalManager.RunCleanup | js/modal-manager.js:256-268 | Performs CleanupStep in place and keeps the invariant |
| Modal.ModalManager.Empty | js/modal-manager.js:261-267 | Empties and hides the container and shows loading, where those exist |
| Modal.ModalManager.RunFocus | js/modal-manager.js:111-115 | Performs FocusStep in place and keeps the invariant |
| Modal.ModalManager.KeyDown | js/modal-manager.js:60-64 | Performs KeyDownStep in place and keeps the invariant |
| ColorTransitions.Contains | js/color-transitions.js:26 | The scroll point lies in a section from its top up to, not including, its bottom; an empty section contains nothing |
| ColorTransitions.ActiveSection | js/color-transitions.js:16-32 | The chosen section always has a colour, and is 'hero' or a section that contains the scroll point |
| ColorTransitions.LastQualifyingWins | js/color-transitions.js:22-32 | The last section in document order that contains the point and has a colour is the one chosen |
| ColorTransitions.NoneQualifyingIsHero | js/color-transitions.js:20-32 | With no such section the choice is 'hero' |
| ColorTransitions.ActiveSectionSnoc | js/color-transitions.js:22-32 | One more section is the new choice if it contains the point and has a colour; otherwise the choice stays |
| ColorTransitions.UnknownIdsIgnored | js/color-transitions.js:27-30 | A section whose id has no colour never changes the choice, wherever it stands |
| ColorTransitions.ActiveSectionAsWritten | js/color-transitions.js:27-30 | The choice as written is 'hero' or the id of some section |
| ColorTransitions.InheritedNameIsChosen | js/color-transitions.js:27-35 | As written, a section with id "constructor" under the scroll point is chosen, although it has no colour |
| ColorTransitions.AsWrittenAgreesOnOrdinaryIds | js/color-transitions.js:27-30 | When no section id is an inherited property name, the code as written chooses the same section as the colour table does |
| ColorTransitions.Transitions.constructor | js/color-transitions.js:39-51 | Nothing is pending, and the initial update sets the colour of the active section |
| ColorTransitions.Transitions.UpdateBackgroundColor | js/color-transitions.js:16-36 | The body's background becomes the colour of the active section for the middle of the viewport, chosen with the own-key lookup of the Findings table; the throttle is untouched |
| ColorTransitions.Transitions.OnScroll | js/color-transitions.js:40-48 | After a scroll exactly one frame is pending and `ticking` is set, however many scrolls came before; the colour is unchanged |
| ColorTransitions.Transitions.RunFrame | js/color-transitions.js:42-45 | The pending frame updates the colour and clears `ticking`; nothing stays pending |
| HeroShape.FirstNodes | js/hero-shape.js:12-22 | Node i has id i and hue (360 / n) * i |
| HeroShape.NodesWellFormed | js/hero-shape.js:19-22 | Setup makes n nodes with ids 0..n-1 and hues in [0, 360), strictly increasing |
| HeroShape.HueBounds | js/hero-shape.js:22 | Every hue lies in [0, 360) |
| HeroShape.HueIncreasing | js/hero-shape.js:22 | A later node has a larger hue |
| HeroShape.RowsMembers | js/hero-shape.js:131-139 | The first k rounds of the outer loop add exactly the linked pairs whose first node is below k |
| HeroShape.Linked | js/hero-shape.js:134-135 | For two nodes of the ring, linked exactly when the shorter way round from one to the other takes at most two steps |
| HeroShape.PairsMembers | js/hero-shape.js:131-139 | Nodes i, j are connected exactly when i < j < n and they are at most two steps apart around the ring |
| HeroShape.Pairs | js/hero-shape.js:131-139 | Every connection joins a lower id to a higher one below n: no self-loops |
| HeroShape.PairsOrdered | js/hero-shape.js:131-139 | The connections come in strict lexicographic order, so none appears twice |
| HeroShape.NeighbourRule | js/hero-shape.js:134-135 | Node u is joined to v exactly when it is another node of the ring within two steps of v |
| HeroShape.PairsOfEight | js/hero-shape.js:131-139 | For eight nodes the connection list is the sixteen listed pairs |
| HeroShape.EightNodeDegree | js/hero-shape.js:131-139 | In the ring of eight every node is joined to exactly four others |
| HeroShape.EightNodeConnections | js/hero-shape.js:131-139 | The ring of eight has sixteen connections |
| HeroShape.HeroSketch.constructor | js/hero-shape.js:7-10 | No nodes and no connections; eight nodes to make |
| HeroShape.HeroSketch.Setup | js/hero-shape.js:121-140 | Setup makes the specified nodes and exactly the specified connections |
| HeroShape.HeroSketch.CreateNodes | js/hero-shape.js:126-128 | The first loop makes node i for every i below numNodes |
| HeroShape.HeroSketch.CreateConnections | js/hero-shape.js:131-139 | The nested loops append every linked pair, row by row |
| HeroShape.HeroSketch.ConnectRow | js/hero-shape.js:132-138 | One outer round appends node i's linked successors in order |
| WorkVisualization.Placed | js/work-visualization.js:29-42 | One node per record, in order, the i-th being the node for record i at slot i |
| WorkVisualization.PlacedNode | js/work-visualization.js:29-42 | Node i copies the record's id, title and hasEmbed, has index i and is not hovered. Its base is slot i's fractions, and its position is those fractions times the canvas size |
| WorkVisualization.Relaid | js/work-visualization.js:141-144 | Recomputing positions keeps the number of nodes |
| WorkVisualization.RelaidForgetsPositions | js/work-visualization.js:141-144 | Nodes that differ only in their current positions relayout alike |
| WorkVisualization.ResizeMatchesFreshLayout | js/work-visualization.js:138-146 | A resize gives the layout a fresh initialisation on the new canvas would give |
| WorkVisualization.OvalSize | js/work-visualization.js:92-98 | 68 by 46 while hovered, 60 by 40 otherwise |
| WorkVisualization.DecimalString | js/work-visualization.js:128 | The decimal form is non-empty, all digits, one digit below 10 and two below 100 |
| WorkVisualization.PadStart | js/work-visualization.js:128 | Padding reaches the requested length and keeps a digit string a digit string |
| WorkVisualization.DisplayNum | js/work-visualization.js:128 | The label consists of digits only |
| WorkVisualization.ParseDecimalString | js/work-visualization.js:128 | The decimal form reads back as the number |
| WorkVisualization.ParsePadStart | js/work-visualization.js:128 | Zero-padding keeps a digit string's value |
| WorkVisualization.DisplayNumRoundTrip | js/work-visualization.js:128 | The label reads back as index + 1, and has two characters up to the 99th node |
| WorkVisualization.SixLabels | js/work-visualization.js:128 | The six catalogue nodes are labelled "01" to "06" |
| WorkVisualization.CatalogueFitsLayout | js/work-visualization.js:20-29 | The catalogue has exactly as many records as there are slots |
| WorkVisualization.WorkSketch.constructor | js/work-visualization.js:6-10 | An 800-pixel-high canvas of the window's width, and no nodes |
| WorkVisualization.WorkSketch.InitializeProjects | js/work-visualization.js:18-43 | Succeeds exactly when the catalogue fits the six slots, appending the placed nodes; otherwise it stops with the first six appended |
| WorkVisualization.NodeFor | js/work-visualization.js:30-41 | A node's relative slot lies strictly inside the unit square, so its position lies on the canvas |
| WorkVisualization.WorkSketch.PushNode | js/work-visualization.js:30-41 | Appends the node for the record at its slot |
| WorkVisualization.WorkSketch.DrawProjects | js/work-visualization.js:86-130 | Each node's hover flag is set from the hover test and nothing else changes. Each node is drawn with the oval size for its flag and the label of its one-based position |
| WorkVisualization.WorkSketch.WindowResized | js/work-visualization.js:138-146 | The canvas takes the new width and 800 as height; every node moves to its slot on it |
| WorkVisualization.WorkSketch.GetHoveredProject | js/work-visualization.js:149-156 | Null exactly when no node is hovered; otherwise the first hovered node |
| FooterAnimation.PaintedUpTo | js/footer-animation.js:29-40 | Each round paints at most one column |
| FooterAnimation.PaintedUpToMembers | js/footer-animation.js:29-40 | After i rounds the painted columns are those of rayX .. rayX+i-1 on the canvas |
| FooterAnimation.PaintedUpToIncreasing | js/footer-animation.js:29-40 | The columns are painted left to right |
| FooterAnimation.PaintedColumns | js/footer-animation.js:29-40 | A frame paints exactly the on-canvas columns of the 150-wide ray, left to right, each once, at most 150 |
| FooterAnimation.Advance | js/footer-animation.js:43-48 | One frame either moves the ray 2 columns right, staying within width + 150, or wraps it back to -150 |
| FooterAnimation.AdvanceStaysInRange | js/footer-animation.js:43-48 | From any position not left of the start, one frame leaves the ray within [-150, width + 150] |
| FooterAnimation.Sweep | js/footer-animation.js:43-48 | From the start, after k frames the ray is at -150 + 2k while that stays in range |
| FooterAnimation.SweepFrom | js/footer-animation.js:43-48 | From any start, k frames move the ray 2k columns while that stays in range |
| FooterAnimation.WrapsAfterRightEdge | js/footer-animation.js:46-48 | Past the right edge by more than the ray's width, the next frame puts the ray back at -150 |
| FooterAnimation.ShrinkLeavesRayOutOfRange | js/footer-animation.js:43-53 | A resize can leave the ray beyond width + 150 until the next frame wraps it |
| FooterAnimation.FooterSketch.constructor | js/footer-animation.js:11-15 | A canvas of the window's width and the ray at -150 |
| FooterAnimation.FooterSketch.Draw | js/footer-animation.js:17-49 | Paints the ray's on-canvas columns, then advances the ray by 2 and wraps it past the right edge; the ray stays within [-150, width + 150] |
| FooterAnimation.FooterSketch.WindowResized | js/footer-animation.js:51-53 | The canvas takes the new width; the ray stays where it is |
| TextPhysics.Markup | js/textphysics.js:8-11 | An empty title gives empty markup; any other title's markup starts with a span |
| TextPhysics.MarkupRoundTrip | js/textphysics.js:8-11 | Reading the span markup back gives the title's text: one span per character, in order, with a space as a non-breaking space |
| TextPhysics.Retained | js/textphysics.js:109-114 | Pruning never adds particles |
| TextPhysics.RetainedMembers | js/textphysics.js:109-114 | The particles kept are exactly those not below the canvas |
| TextPhysics.RetainedAppend | js/textphysics.js:109-114 | Pruning a concatenation prunes each part, so the kept particles keep their order |
| TextPhysics.RetainedIdempotent | js/textphysics.js:109-114 | A second prune at the same height removes nothing |
| TextPhysics.RetainedDistinct | js/textphysics.js:109-114 | Pruning keeps the particles distinct |
| TextPhysics.ParticleField.constructor | js/textphysics.js:30-33 | No particles, an empty world, and the container's height |
| TextPhysics.ParticleField.CreateParticle | js/textphysics.js:84-99 | At 40 particles nothing changes. Below that, a new particle at height -10 enters both the world and the list; there are never more than 40 |
| TextPhysics.ParticleField.Move | js/textphysics.js:41 | The engine changes heights only; the same particles stay in the world |
| TextPhysics.ParticleField.ResizeCanvas | js/textphysics.js:30-33 | The canvas takes the new height; the particles are unchanged |
| TextPhysics.ParticleField.Prune | js/textphysics.js:109-114 | The backwards loop leaves exactly the particles not below the canvas, in order, and removes the others from the world too |
| TextPhysics.ParticleField.PruneAt | js/textphysics.js:110-113 | One round removes particle i when it is below the canvas, and keeps it otherwise |
| TextPhysics.ParticleField.RemoveAt | js/textphysics.js:111-112 | Removes particle i from the world and the list, leaving the rest in order |

## Left out

- Drawing is not modelled: p5 and canvas strokes, fills, ellipses, text, gradients and opacities. Only the values the drawing depends on are modelled: painted columns, oval sizes, labels and colours.
- Floating-point arithmetic is modelled as exact reals. The hero hues and the work layout are exact.
- The Matter.js engine is not modelled. Particle heights after a step are a parameter of `TextPhysics.ParticleField.Move`.
- The letter bodies and the floor are not modelled. `world` holds only the particle bodies, the ones the prune loop removes.
- `Math.random` is not modelled: particle x and radius, and the hero nodes' pulse offsets.
- Clocks and real timing are not modelled. The 15 s timeout, the 300 ms cleanup, the 100 ms focus, `setInterval` and `requestAnimationFrame` are events the model is handed.
- The hero network's animation is not modelled: the node and connection `update`/`show` methods, rotation, radii, the activation wave and the core, all trigonometry on floats. Only the node ids and hues and the connection list built by setup are modelled.
- Work section: `generatePathPoints` and `drawPath` are not modelled; they are drawing only. The hover test (distance below 40 from the mouse) is the `isHovered` parameter of `WorkVisualization.WorkSketch.DrawProjects`.
- `WorkVisualization.WorkSketch.GetHoveredProject` returns a copy of the node, not a reference to the shared object.
- `js/hero-title-3d.js` is not part of this model.
- `TextPhysics.MarkupRoundTrip`: the browser's HTML parser is not modelled. `ReadMarkup` is a reader for exactly the markup the split produces, not a general HTML parser.
- The text is split per UTF-16 code unit in the source; in the model it is split per character.
- `console` output is left out, and so is the canvas placement (`parent`, the overlay's CSS).
- `stopPropagation` on the modal content is left out; clicks inside the dialog are not events of the model.
- Wiring the listeners is one flag, `listening`. The close button and backdrop clicks are the `Close` method.
- Modal.ModalManager.Init: each successful init in the source adds every listener again, so after k inits one close-button or backdrop click runs close k times. Those two listeners have no guard. The Escape listener re-reads data-state, so its extra copies find the dialog closed and do nothing (`ModalSteps.EscapeTwiceIsEscapeOnce`). The model keeps one `listening` flag and runs close once per click. By `ModalSteps.CloseTwiceIsCloseOnce`, each extra close adds only one more pending cleanup.
- ModalSteps.Enabled: a detached iframe is taken to be silent; only the iframe in the container fires load or error. In the source a removed iframe that still loads or fails would run its own listeners, calling handleIframeLoad, or handleIframeError for the record it was created with. `ModalSteps.TimeoutMatchesError` and `ModalSteps.LoadThenNoTimeout` rely on this.
- ColorTransitions.Transitions.UpdateBackgroundColor: follows the corrected own-key lookup (`ColorTransitions.ActiveSection`, see Findings), not the truthiness test of js/color-transitions.js:28. A section whose id is an inherited property name such as "constructor" is therefore skipped, where the source would choose it and assign a function as the colour. On pages without such ids the two choices agree (`ColorTransitions.AsWrittenAgreesOnOrdinaryIds`).
- DOM strings the modal writes are enumerations (`DataState`, `AriaHidden`, `Overflow`, `Display`). The error panel is one `ErrorPanel` child holding its retry record and link.
- The readiness branch at the end of `js/color-transitions.js` (DOMContentLoaded or immediate) is not modelled; the constructor of `ColorTransitions.Transitions` is the initialisation.

## Findings

| source | as written | input that shows it | evidently intended | confidence | as-written member | corrected member |
|---|---|---|---|---|---|---|
| js/color-transitions.js:27-30 | `if (sectionColors[sectionId])` tests truthiness on a plain object literal. Names inherited from `Object.prototype` (e.g. "constructor", "toString") are truthy, so such a section is chosen, and line 35 then assigns a function as the background colour | one section `{id: "constructor", offsetTop: 0, offsetHeight: 100}` with the scroll point at 50 | Only sections with their own entry in the colour table can be chosen, so the background is always one of the four colours | not executed | ColorTransitions.InheritedNameIsChosen | ColorTransitions.ActiveSection |
