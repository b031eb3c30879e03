# Esprite, verified

Esprite simulates ESP32 boards on a host: sketches draw on a simulated panel, a window shows the device and
its buttons, firmware can run in a QEMU child, and agents drive everything through line protocols. This Dafny
project models the parts of it whose correctness is not visible from reading one function, and proves what
they promise. `dafny verify dfyconfig.toml` checks it.

The project has four parts, one module per component.

**The rasteriser.** `Pixels` defines canvases, the flipped mount and layers (what a drawing operation leaves at
each coordinate). `Lines`, `Circles`, `Triangles` and `Images` characterise what is painted; `Display` holds the
framebuffer and the display class with the source's own loops, each proved to overlay exactly its layer; what that
comes to in framebuffer cells, upright or turned by 180 degrees, is said without the mount. Lines
are pinned to a closed form, circles to an exact ring, triangles to the convex hull, and streaming and sprites
to one image push. Where the loops' own 32-bit arithmetic matters, the largest bound up to which every input fits is
proved, with a witness one past it; for circles (`RadiusLimit`) that is the radius 715827998, every radius from
715845720 on overflows, and any radius does exactly when a square lies in one of its windows
(`Circles.OverflowsExactly`).

**The device window.** `WindowLayout` is the geometry, with the arithmetic bound that keeps click targets
disjoint and the proof that a shorter edge cannot. `SimWindow` is the input state machine over events, with
invariants of every run, a rule for each event in the board's own keys and click targets, and the grammar of the power
button's queue. `DeviceWindow` is the window object and the
injected input bus, refining that machine and tying each control's line to "held by mouse or key".

**Request/reply links.** `LineFraming` is the common argument that lines survive any chunking. On it stand the
QMP client (`Qmp`), the agent link with its guest agent (`AgentLink`, `GuestAgent`), the persistent session with
the studio's client (`Daemon`, `Studio`), the posted snapshot with the web server that reads it (`HttpPost`), and
the QEMU child's life cycle (`QemuLifecycle`). What the system's calls come to is an input of each operation: a
script says how many bytes each send and receive moves, which is interrupted and which fails, so that chunks,
partial transfers and deadlines are all covered, and results say exactly when an operation succeeds and with what.
Scripts of the two directions of one exchange are separate, and a deadline is where a script ends. In
`QemuLifecycle` the calls that open, spawn and connect may also fail at will; `Os.flawless` says that none does.

**Codecs.** JSON escaping, the brace scanner and its pages (`JsonPages`), multipart extraction (`Multipart`), and
the RGB565 expansion with the PPM decoder (`Ppm`). `Text`, `Decimal` and `CLang` hold searching, numbers and
C strings.

Where the code does less than its documentation says, the model follows the code and the exact condition is
proved:

- Holding the power button by mouse and key together restarts its timer (`peripherals/display/sim_window.cpp:232-235`).
  The queue reads as documented exactly when no second press comes after a long edge: `SimWindow.QueueGrammar`, and
  `SimWindow.SecondPressSplitsTheHold` for a run that breaks it.
- The agent keeps reading an overlong line (`tools/qemu/esprite_qemu_agent/esprite_qemu_agent.c:142-145`), so such a
  line draws several replies: `GuestAgent.RepliesPerLine`, `GuestAgent.ExactlyOneReply`.
- The agent link stays open after a timeout and after a failed send (`backends/qemu/agent_link.cpp:79-88`), so a late
  reply can be taken for a later request's (`AgentLink.LateReplyIsMisread`) and half a line can run into the next one
  (`AgentLink.HalfSentRunsOn`). `AgentLink.AgentLink.Request` says exactly when a reply is one's own.
- A session line with a NUL byte swallows the line behind it (`cli/cli.cpp:1121-1127`): `Daemon.OneReplyPerLine`.
- A posted path that holds `content-length:` can cut the body, and one whose number reads as the all-ones value can
  lose it behind the head (`shims/net/webserver.cpp:130-136`): `HttpPost.ExactExactly` has the exact condition,
  `HttpPost.MarkerInPathCuts` and `HttpPost.NegativeLengthLosesBody` the inputs.
- Calls that stream on past a full window can repaint it once the 32-bit position has wrapped between two of them
  (`peripherals/tft_espi/tft_espi.cpp:173-179`). `Images.ChangesNothing` and `Images.SurplusChunks` say exactly which
  runs change nothing, `Images.RepaintsAfterWrap` is one that does.
- A boot does not ask whether the child outlived the warm-up (`backends/qemu/qemu_backend.cpp:177-211`), so it can
  report success without one: `QemuLifecycle.QemuBackend.Boot` has the exact condition,
  `QemuLifecycle.BootMissesTheEnd` the input.
- A line drawn from its other end can differ where a step falls half way between two pixels:
  `Lines.ReversalPaintsSame`.

## Model

| member | source | states |
|---|---|---|
| Display.Framebuffer.Init | peripherals/display/framebuffer.cpp:6-9 | resizes the shared framebuffer and clears every cell |
| Display.Framebuffer.Fill | peripherals/display/framebuffer.cpp:19-21 | every visible pixel takes the colour, the size stays |
| Display.Framebuffer.Pixel | peripherals/display/framebuffer.cpp:14-17 | reads a cell, and 0 outside the buffer |
| Display.Framebuffer.Blit | peripherals/display/framebuffer.cpp:23-33 | overlays exactly the part of the image that falls inside the framebuffer, whatever the offset |
| Display.Tft.OnScreen | peripherals/tft_espi/tft_espi.cpp:45-48 | a display draws on the shared framebuffer, unrotated |
| Display.Tft.SetRotation | peripherals/tft_espi/tft_espi.cpp:50-55 | keeps the short and the long edge, and re-initialises the framebuffer to the new shape |
| Display.Tft.PutPx | peripherals/tft_espi/tft_espi.cpp:61-74 | on an unrotated screen it changes the one framebuffer cell (x, y), in rotations 2 and 3 the one cell (w-1-x, h-1-y); on a sprite the one cell (x, y) of its own buffer; outside, or on a sprite without one, nothing |
| Display.Tft.InCells | peripherals/tft_espi/tft_espi.cpp:61-74 | what any drawing leaves, told in framebuffer cells: upright in rotations 0 and 1, turned by 180 degrees in 2 and 3 |
| Pixels.CellsOverlaid | peripherals/tft_espi/tft_espi.cpp:61-74 | the same for any device and any layer: each cell takes the colour of the one pixel that falls on it |
| Pixels.FlippedIsHalfTurn | peripherals/tft_espi/tft_espi.cpp:61-74 | drawing the same picture in rotation r and in rotation r+2 leaves two buffers that are half-turns of each other |
| Display.Tft.DrawLine | peripherals/tft_espi/tft_espi.cpp:96-106 | the error walk terminates for all endpoints, visits the closed-form line in order, and paints it and nothing else |
| Lines.LineEnds | peripherals/tft_espi/tft_espi.cpp:96-106 | one more pixel than the longer of the two distances, the first and the last at the given points |
| Lines.LineConnected | peripherals/tft_espi/tft_espi.cpp:96-106 | consecutive pixels are 8-neighbours |
| Lines.LineAccuracy | peripherals/tft_espi/tft_espi.cpp:96-106 | every pixel is in the bounding box and within half a pixel of the ideal line on the shorter axis |
| Lines.LongerAxisUnique | peripherals/tft_espi/tft_espi.cpp:96-106 | one pixel per step of the longer axis |
| Lines.ReversalPaintsSame | peripherals/tft_espi/tft_espi.cpp:96-106 | drawing from the other end paints the same set exactly when no step falls half way between two pixels |
| Lines.LineAdvances | peripherals/tft_espi/tft_espi.cpp:102-104 | one turn of the loop keeps err, x0 and y0 at the closed form |
| Lines.LineStops | peripherals/tft_espi/tft_espi.cpp:101 | the end test holds at the last step and at no earlier one |
| Lines.LineFitsInt32 | peripherals/tft_espi/tft_espi.cpp:97-104 | no 32-bit overflow for coordinates up to 357913941 in magnitude |
| Lines.LineLimitIsTight | peripherals/tft_espi/tft_espi.cpp:97-104 | one more and some line overflows |
| Display.Tft.DrawCircle | peripherals/tft_espi/tft_espi.cpp:107-116 | terminates for every radius, walks one quadrant arc, and paints exactly the ring |
| Circles.RingExact | peripherals/tft_espi/tft_espi.cpp:107-116 | with m the larger coordinate in magnitude, an offset is painted exactly when its squared distance minus R^2 is at least -m and below m (below m-1 on a diagonal) |
| Circles.RingClosed | peripherals/tft_espi/tft_espi.cpp:107-116 | the four arcs join into one closed 8-connected chain from (R,0) around and back |
| Circles.RingSymmetric | peripherals/tft_espi/tft_espi.cpp:110-111 | the painted set has every symmetry of the square, quarter turns included |
| Circles.ArcExact | peripherals/tft_espi/tft_espi.cpp:107-116 | an arc visits each ring point of its quadrant and no other |
| Circles.CircleAdvances | peripherals/tft_espi/tft_espi.cpp:112-114 | one turn of the loop keeps the error term, the ring bound and the visited prefix |
| Circles.CircleFitsInt32 | peripherals/tft_espi/tft_espi.cpp:108-114 | no 32-bit overflow for radii up to 715827998 |
| Circles.CircleLimitIsTight | peripherals/tft_espi/tft_espi.cpp:108-114 | one more, and the walk comes to a point whose error overflows |
| Circles.LargeCirclesOverflow | peripherals/tft_espi/tft_espi.cpp:108-114 | every radius from 715845720 on overflows somewhere on its arc |
| Circles.OverflowsExactly | peripherals/tft_espi/tft_espi.cpp:107-116 | a radius overflows somewhere on its arc exactly when a perfect square lies in one of its rows' windows |
| Circles.TurnFitsExactly | peripherals/tft_espi/tft_espi.cpp:112-114 | below 715845720 a turn leaves 32 bits exactly when the square of its next column lies in the window of its next row |
| RadiusLimit.NoSquare | peripherals/tft_espi/tft_espi.cpp:112-113 | the step up overflows only if a square lies in a narrow window; up to the limit none does |
| Display.Tft.FillTriangle | peripherals/tft_espi/tft_espi.cpp:139-154 | paints exactly the pixels on one side of all three edges within the bounding box |
| Triangles.FilledIsHull | peripherals/tft_espi/tft_espi.cpp:143-152 | the filled pixels are exactly the lattice points of the convex hull of the vertices, degenerate triangles included |
| Triangles.OrderIrrelevant | peripherals/tft_espi/tft_espi.cpp:139-154 | all six vertex orders fill the same set |
| Triangles.VerticesFilled | peripherals/tft_espi/tft_espi.cpp:139-154 | every vertex is filled |
| Triangles.NoGaps | peripherals/tft_espi/tft_espi.cpp:146-153 | every lattice point between two filled points on a segment is filled |
| Triangles.ScanlineRun | peripherals/tft_espi/tft_espi.cpp:146-153 | the filled part of a scanline is one run |
| Triangles.EdgeFitsInt32 | peripherals/tft_espi/tft_espi.cpp:143-150 | the edge functions stay within 32 bits for coordinates up to 23170 in magnitude |
| Triangles.EdgeLimitIsTight | peripherals/tft_espi/tft_espi.cpp:143-150 | and not one further |
| Display.Tft.FillScreen | peripherals/tft_espi/tft_espi.cpp:78-81 | every visible pixel takes the colour |
| Display.Tft.PushImage | peripherals/tft_espi/tft_espi.cpp:155-159 | overlays the image, row-major, at its corner, clipped |
| Images.RowByRow | peripherals/tft_espi/tft_espi.cpp:155-159 | pixel i of an image stands in column i mod w and row i div w |
| Display.Tft.SetAddrWindow | peripherals/tft_espi/tft_espi.cpp:164-166 | sets the window and rewinds its position |
| Display.Tft.PushColors | peripherals/tft_espi/tft_espi.cpp:168-180 | leaves what streaming the data from the saved position leaves, and advances it by the length modulo 2^32 |
| Images.StreamIsImage | peripherals/tft_espi/tft_espi.cpp:155-180 | a full window streamed in any chunks, with surplus below the limit, leaves the buffer one pushImage leaves |
| Images.ChunksPaintWhole | peripherals/tft_espi/tft_espi.cpp:168-180 | chunking does not matter: the chunks stream as their concatenation |
| Images.SurplusIgnored | peripherals/tft_espi/tft_espi.cpp:172-176 | a call gives up at a position exactly when, modulo 2^32, it is behind the full window and below a limit: 2^31 for a window one pixel wide, 2^32 for any other |
| Images.ChangesNothing | peripherals/tft_espi/tft_espi.cpp:168-180 | calls of given lengths leave a device as it is, whatever they carry, exactly when none gets to a pixel the device shows; each call gives up at its first ignored position |
| Images.SurplusChunks | peripherals/tft_espi/tft_espi.cpp:168-180 | calls that all start at ignored positions change no device; for a window in the quadrant devices show, two or more pixels wide, only those change none |
| Images.RepaintsAfterWrap | peripherals/tft_espi/tft_espi.cpp:172-179 | a full 2 by 2 window, 2^32 - 4 ignored pixels, and the next call repaints its first pixel |
| Images.WrapInsideChunk | peripherals/tft_espi/tft_espi.cpp:172-179 | a wrap inside one call repaints nothing |
| Images.NestedSprites | peripherals/tft_espi/tft_espi.cpp:254-272 | an inner sprite pushed into an outer one then on equals the outer pushed, then the inner at the summed offset clipped to the outer, in every mount |
| Display.Tft.CreateSprite | peripherals/tft_espi/tft_espi.cpp:254-260 | a positive size gives a cleared buffer; any other size changes nothing |
| Display.Tft.DeleteSprite | peripherals/tft_espi/tft_espi.cpp:261-265 | drops the buffer; the sprite then draws nowhere |
| Display.Tft.PushSprite | peripherals/tft_espi/tft_espi.cpp:266-272 | composes the sprite into its parent, or an orphan onto the framebuffer past the mount |
| Display.Tft.GetTouch | peripherals/tft_espi/tft_espi.cpp:241-250 | reports the panel point as it is in rotations 0 and 1, and (w-1-x, h-1-y) in 2 and 3; plotting where the sketch was told paints the cell that was touched |
| Pixels.OverlayDetermines | peripherals/tft_espi/tft_espi.cpp:61-74 | a buffer is determined by what was overlaid on it |
| Pixels.OverlayTwice | peripherals/tft_espi/tft_espi.cpp:61-74 | painting twice is painting the upper layer over the lower one |
| WindowLayout.LayoutWindow | peripherals/display/window_layout.cpp:74-174 | the passes over the buttons compute the layout of any board and scale, which the rows below pin to the screen edges, the border and each position |
| WindowLayout.ScreenPlaced | peripherals/display/window_layout.cpp:74-107 | the screen is the board times the scale, each bezel 26 points wide, or 40 on an edge with a nub |
| WindowLayout.NubOnEdge | peripherals/display/window_layout.cpp:117-171 | nub i is the i-th button's, 36 by 12 along its own edge, its click target six points larger all round and up to the window's border |
| WindowLayout.FixedNubPlaced | peripherals/display/window_layout.cpp:148-157 | a nub with its own position is centred that part of the way along its edge, rounded down, or stands at the nearer end where half of it would stick out |
| WindowLayout.FixedNubsOrdered | peripherals/display/window_layout.cpp:148-157 | on one edge a larger position never stands before a smaller one |
| WindowLayout.SlotPlaced | peripherals/display/window_layout.cpp:36-53 | autos on an edge too short for their pitch share it in equal slots, each in the middle of its own or at the nearer end |
| WindowLayout.MoreInCorner | peripherals/display/window_layout.cpp:84-107 | the "..." nub fills the bottom-right corner of a board with battery or rotation and is nowhere on any other |
| WindowLayout.MarkEdges | peripherals/display/window_layout.cpp:74-107 | marks exactly the edges that carry a nub |
| WindowLayout.CountAutos | peripherals/display/window_layout.cpp:109-116 | counts the auto nubs of every edge |
| WindowLayout.PlaceNubs | peripherals/display/window_layout.cpp:117-171 | places every button in declaration order, autos by their index on the edge |
| WindowLayout.ClusterStart | peripherals/display/window_layout.cpp:36-45 | in the clustered band every nub is centred in its slice and no clamp engages |
| WindowLayout.AutosSpaced | peripherals/display/window_layout.h:84-103 | an edge of at least (n-1)*48+36 keeps its n autos a full hit rect apart, in order |
| WindowLayout.ShortEdgeOverlaps | peripherals/display/window_layout.h:84-103 | on any shorter edge some neighbours overlap |
| WindowLayout.SlideNeverClamps | peripherals/display/window_layout.cpp:141-147 | on a long enough bottom edge the slide away from the "..." nub never reaches its left clamp |
| WindowLayout.AutosOrdered | peripherals/display/window_layout.cpp:117-171 | autos of one edge keep declaration order and distance after the slide |
| WindowLayout.AutosDisjoint | peripherals/display/window_layout.cpp:109-171 | no two autos of any edges, and no auto and the "..." nub, share a point |
| WindowLayout.NubInside | peripherals/display/window_layout.cpp:147-170 | exactly when the whole hit rect of a nub lies in the window |
| WindowLayout.NubsInsideAndOffScreen | peripherals/display/window_layout.cpp:147-170 | on a screen of at least 16 points a side every hit rect is inside the window and off the screen |
| WindowLayout.CardsNest | peripherals/display/window_layout.cpp:176-214 | the help and panel cards lie inside any window of non-negative size |
| WindowLayout.HelpCardCentred | peripherals/display/window_layout.cpp:176-189 | a card whose content fits has its exact size and is centred to the point |
| WindowLayout.LayoutPanel | peripherals/display/window_layout.cpp:216-242 | stepping across the card gives the specified controls |
| WindowLayout.PanelControls | peripherals/display/window_layout.cpp:63-70 | every control is absent or nested in the card, left to right and disjoint; the percent readout is whole or absent |
| WindowLayout.PanelComplete | peripherals/display/window_layout.cpp:216-242 | a window with room for the full card shows every control unclipped |
| WindowLayout.PanelStands | peripherals/display/window_layout.cpp:191-242 | there the card stands 12 points off the bottom-right corner and each control at its distance from the card and from its neighbour |
| SimWindow.StepKeepsInv | peripherals/display/sim_window.cpp:347-490 | every event keeps: overlays exclusive, an open one means nothing held or touched, a drag means an open panel, injected values in range |
| SimWindow.RunKeepsInv | peripherals/display/sim_window.cpp:347-490 | so does every run with alternating mouse downs and ups |
| SimWindow.EventsFollowRule | peripherals/display/sim_window.cpp:347-473 | for every control, from the event and the board's own keys and hit rects: what holds it after the event, which overlay is open and whether the screen is touched |
| SimWindow.InputsFollowRule | peripherals/display/sim_window.cpp:354-398 | an event flips charging, USB or the quadrant, sets the battery or moves the touch exactly when it is a press on that control, or a drag |
| SimWindow.RunsFollowRules | peripherals/display/sim_window.cpp:347-490 | so does every event of every run, in the state the events before it left |
| SimWindow.DragLasts | peripherals/display/sim_window.cpp:369-423 | a press on the bar starts a drag, which lasts exactly while the panel stays open and the button down |
| SimWindow.TouchIsPixel | peripherals/display/sim_window.cpp:197-205 | a click on the screen touches the very pixel under it |
| SimWindow.TouchFollows | peripherals/display/sim_window.cpp:197-205 | the touch is the device pixel under the mouse, beside the screen the nearest column or row |
| SimWindow.BatteryFollows | peripherals/display/sim_window.cpp:206-212 | the battery is the part of the way along the bar's inside, empty at its left end and full at its right |
| SimWindow.PwrSteps | peripherals/display/sim_window.cpp:227-248 | one event does to the power button exactly one of four things |
| SimWindow.LongEdgeTimed | peripherals/display/sim_window.cpp:227-248 | a press starts the timer anew; the long edge goes out exactly at the first frame end that finds the button held for 1500 ms or more, on a 32-bit clock |
| SimWindow.OneReleasePerHold | peripherals/display/sim_window.cpp:239-283 | exactly one release edge is queued per completed hold, with overlapping sources and overlays opening mid-hold |
| SimWindow.QueueGrammar | peripherals/display/sim_window.cpp:227-248 | the queue reads as [1] and [2,3] groups, plus a trailing [2] during a long hold, exactly when no second source pressed after a long edge |
| SimWindow.StaysLost | peripherals/display/sim_window.cpp:232-235 | after such a press no continuation reads as groups again |
| SimWindow.SecondPressSplitsTheHold | peripherals/display/sim_window.cpp:227-248 | key 112 held past the threshold and then the nub pressed as well: the two holds are injected as [2, 1], a long press that never ends and a click |
| SimWindow.QueueOfSeparateHolds | peripherals/display/sim_window.cpp:484-490 | holds that never overlap always give groups |
| DeviceWindow.InputBus.Boot | core/runtime.cpp:27-31 | after the boot each gpio control's pin reads 1 when it is active low and 0 when not, on a board with distinct inputs; every other pin is 0, and the button flags are as before |
| DeviceWindow.InputBus.SetPin | core/target.cpp:21-26 | drives one pin to 0 or 1 and ignores pins off the chip |
| DeviceWindow.Window.constructor | peripherals/display/sim_window.cpp:297-345 | a fresh window is in the initial state with every line matching |
| DeviceWindow.Window.PressAction | peripherals/display/sim_window.cpp:227-238 | drives its own control line and no other, or starts the power timer |
| DeviceWindow.Window.ReleaseAction | peripherals/display/sim_window.cpp:239-248 | releases its own line and no other, or queues the release edge |
| DeviceWindow.Window.PwrIsHeld | peripherals/display/sim_window.cpp:219-225 | tells whether the power control is held by mouse or key |
| DeviceWindow.Window.DropKeys | peripherals/display/sim_window.cpp:456-470 | drops the chosen keys; a line falls unless the mouse holds it |
| DeviceWindow.Window.DropMouse | peripherals/display/sim_window.cpp:404-409 | the mouse lets go; the line falls unless a key holds it |
| DeviceWindow.Window.ReleaseAllHolds | peripherals/display/sim_window.cpp:267-283 | refines the abstract release of everything held |
| DeviceWindow.Window.OpenHelp | peripherals/display/sim_window.cpp:294 | refines opening the help overlay |
| DeviceWindow.Window.OpenPanel | peripherals/display/sim_window.cpp:295 | refines opening the panel |
| DeviceWindow.Window.SetTouch | peripherals/display/sim_window.cpp:197-205 | stores the clamped device pixel |
| DeviceWindow.Window.SetBatteryFromX | peripherals/display/sim_window.cpp:206-212 | stores the clamped percentage |
| DeviceWindow.Window.MouseButtonDown | peripherals/display/sim_window.cpp:354-398 | refines the abstract mouse press; every control line equals "held by mouse or key" |
| DeviceWindow.Window.MouseButtonUp | peripherals/display/sim_window.cpp:400-411 | refines the abstract mouse release |
| DeviceWindow.Window.OnKey | peripherals/display/sim_window.cpp:424-455 | refines the abstract key press, whose effect on each control `EventsFollowRule` spells out; the lines follow; Escape with nothing open closes the window |
| DeviceWindow.Window.LinesSay | peripherals/display/sim_window.cpp:227-248 | matching lines in the board's fields: button 0 or 1 is the hold of its control, a gpio pin its level by its polarity |
| DeviceWindow.Window.OnKeyReleased | peripherals/display/sim_window.cpp:456-471 | refines the abstract key release |
| DeviceWindow.Window.EndFrame | peripherals/display/sim_window.cpp:485-490 | queues the long edge once per hold, at the threshold |
| DeviceWindow.Window.Tick | peripherals/display/sim_window.cpp:347-490 | one frame handles its events in order up to and with the first that asks to close, each by its rule, and false says there was one; without one, all of them and the long-press step; then each control's own input says whether it is held |
| SimWindow.FirstCloseIsFirst | peripherals/display/sim_window.cpp:350-436 | the window closes at the first quit, or the first Escape that finds no overlay open in the state reached by then |
| LineFraming.TakenAreEmitted | backends/qemu/qmp.cpp:38-67 | however the bytes were cut, the lines taken are the first lines emitted and the buffer starts the next |
| LineFraming.FirstLineWithin | backends/qemu/qmp.cpp:40-46 | the first newline of what has arrived ends the first line left, and is there exactly when that whole line has arrived; the cut leaves the rest |
| LineFraming.ReachKept | backends/qemu/qmp.cpp:47-66 | appending one chunk leaves the reach of the whole script as it was, however it is cut |
| Qmp.NextReplyIsOwn | backends/qemu/qmp.cpp:111-146 | with one command outstanding the next line that is a reply is the reply to it, events in between or not |
| Qmp.ReplyInTime | backends/qemu/qmp.cpp:111-146 | behind blank lines and events a reply is the outcome exactly when its bytes, newline included, come within reach |
| Qmp.AnswerInTime | backends/qemu/qmp.cpp:111-146 | in the line's own terms: behind blanks and events and in time, a line that returns t is the result t, one that refuses with d the error d |
| Qmp.SeeingMore | backends/qemu/qmp.cpp:38-67 | receiving more never changes an answer already reached |
| Qmp.QmpClient.ReadLine | backends/qemu/qmp.cpp:38-67 | returns the next line left exactly when all its bytes arrive, in whatever chunks and past interrupted calls; otherwise takes none |
| Qmp.QmpClient.WriteLine | backends/qemu/qmp.cpp:83-107 | the command reaches the server exactly when the sends carry it and its newline; otherwise exactly the prefix they carried does |
| Qmp.QmpClient.ReadReply | backends/qemu/qmp.cpp:122-146 | returns the first reply within reach, past blank lines and events; a result is a line whose parse has no error and that result, an error one whose parse has that error, and either is the outstanding command's own |
| Qmp.QmpClient.Execute | backends/qemu/qmp.cpp:228-250 | for every script of sends and receives: a result t exactly from a reply of this very command that returns t, an error d exactly from one that refuses with d, and so whenever it comes in time; a short send or a late reply closes the client with an empty buffer; refused arguments send nothing |
| Qmp.QmpClient.ConnectUnix | backends/qemu/qmp.cpp:157-226 | connected whenever the path fits and the peer greets, takes the capabilities command and returns a result in time; connected means the peer greeted and its reply to that command returned; anything else leaves the client closed |
| Qmp.QmpClient.Close | backends/qemu/qmp.cpp:152-155 | closed with an empty buffer |
| Decimal.PrintReads | tools/qemu/esprite_qemu_agent/esprite_qemu_agent.c:52-59 | reading back a printed number gives the number and the whole token |
| GuestAgent.AllProper | tools/qemu/esprite_qemu_agent/esprite_qemu_agent.c:61-147 | whatever bytes arrive, the agent writes only one-line ok or err replies |
| GuestAgent.RepliesPerLine | tools/qemu/esprite_qemu_agent/esprite_qemu_agent.c:134-145 | a line of L bytes draws ceil(L/128) replies |
| GuestAgent.ExactlyOneReply | tools/qemu/esprite_qemu_agent/esprite_qemu_agent.c:134-145 | exactly one reply exactly when 1 <= L <= 128; a line of 1 to 127 bytes is handled whole |
| GuestAgent.CommandUnderstood | tools/qemu/esprite_qemu_agent/esprite_qemu_agent.c:61-123 | every command that passes the host's checks prints to a line the agent turns into exactly the intended change and reply |
| GuestAgent.PinsMove | tools/qemu/esprite_qemu_agent/esprite_qemu_agent.c:69-90 | a pulse's line holds its pin at the level during the delay and leaves it at the other, counting one event; a gpio's counts one exactly when it newly pulls the pin low; no other pin changes |
| GuestAgent.TapsPress | tools/qemu/esprite_qemu_agent/esprite_qemu_agent.c:106-119 | a tap's line holds the touch at its point during the delay, releases it there and counts one press |
| GuestAgent.CommandLines | backends/qemu/qemu_backend.cpp:261-297 | the lines of a gpio, a pulse, a touch and a tap as they are sent |
| GuestAgent.CommandOrError | tools/qemu/esprite_qemu_agent/esprite_qemu_agent.c:61-123 | every line whatever either amounts to one of the commands, its arguments in range, or changes nothing and is answered with an error |
| GuestAgent.FeedAppend | tools/qemu/esprite_qemu_agent/esprite_qemu_agent.c:130-146 | the reader is insensitive to how its input is split |
| GuestAgent.AgentTask.ReceiveByte | tools/qemu/esprite_qemu_agent/esprite_qemu_agent.c:131-145 | one byte of the task's loop refines one step of the reader |
| GuestAgent.AgentTask.Receive | tools/qemu/esprite_qemu_agent/esprite_qemu_agent.c:130-146 | a run of the loop refines feeding the bytes |
| GuestAgent.AgentTask.Handle | tools/qemu/esprite_qemu_agent/esprite_qemu_agent.c:61-123 | the tokenizing dispatch refines the meaning of a line; what firmware can read during its delay is the state the meaning records |
| AgentLink.WaypointsMonotone | cli/actions.cpp:182-184 | swipe waypoints start and end where asked, never turn back and never leave the span |
| AgentLink.WaypointsSpread | cli/actions.cpp:182-184 | waypoint i is i fifths of the way, rounded toward the start |
| AgentLink.AgentLink.ReadLine | backends/qemu/agent_link.cpp:53-73 | returns the next line of the agent exactly when all its bytes arrive, in whatever chunks; otherwise takes none |
| AgentLink.AgentLink.Request | backends/qemu/agent_link.cpp:75-99 | for every script of sends and receives: after a whole send the agent has handled what it held and this line as one, and the outcome is the first answer within reach of the lines ahead, one banner skipped; that answer is its own, to this line alone, exactly when nothing was owed and nothing half sent; a request that waits in vain leaves the link owing |
| AgentLink.AgentLink.TakeReply | backends/qemu/agent_link.cpp:86-98 | the outcome is the sorted first line ahead, or the second behind a banner, exactly when its bytes arrive |
| AgentLink.AnsweredInTime | backends/qemu/agent_link.cpp:86-98 | with a banner in front or none, a reply is the outcome exactly when its bytes arrive |
| AgentLink.LateReplyIsMisread | backends/qemu/agent_link.cpp:75-99 | a ping times out, and its late "ok esprite-agent v1" is taken for the answer to the next request, a release for one |
| AgentLink.HalfSentRunsOn | backends/qemu/agent_link.cpp:79-85 | what a failed send left runs into the next line: after the "p" of a ping the next ping is an unknown command |
| AgentLink.AgentLink.Inject | backends/qemu/qemu_backend.cpp:261-307 | on a link that owes nothing: ok, with the command's own reply, exactly when the command goes out whole and the reply arrives, behind a banner or not; the guest is then left as the command means |
| AgentLink.AgentLink.Tap | cli/actions.cpp:148-159 | a tap in bounds succeeds exactly when its command goes out and its reply arrives, and has pressed and released there; out of bounds nothing is sent |
| AgentLink.AgentLink.SetPin | cli/actions.cpp:212-218 | a pin and level in range succeed exactly when the command goes out and its reply arrives, and that pin is set; out of range nothing is sent |
| AgentLink.AgentLink.Swipe | cli/actions.cpp:170-190 | a swipe in bounds succeeds exactly when each of its seven commands goes out and is answered in time, and leaves six touches and the release at its end point; out of bounds nothing is sent |
| Daemon.ErrorIsPlain | cli/cli.cpp:1050-1054 | an error reply is one line whatever its message holds |
| Daemon.ItemsPlain | cli/cli.cpp:1249-1257 | the radio reply is one line exactly when no raw JSON line of the radio holds a newline |
| Daemon.AnswerIsPlain | cli/cli.cpp:1167-1297 | of every form of answer the session prints, with any text in it: one line, a list of radio items exactly when no raw JSON line in it holds a newline |
| Daemon.TappedPrints | cli/cli.cpp:1194 | a tap's reply as printed, its numbers signed |
| Daemon.ShotPrints | cli/cli.cpp:1180-1181 | a screenshot's reply as printed, path, width and height in their places |
| Daemon.HidPrints | cli/cli.cpp:1261-1263 | one radio event as printed |
| Daemon.ErrorPrints | cli/cli.cpp:1050-1054 | an error reply as printed, its kind in front of its message |
| Daemon.BootGate | cli/cli.cpp:1136-1166 | until a boot succeeded every reply is an error; a boot succeeds exactly on a known target whose backend comes up, once |
| Daemon.CommandDraws | cli/cli.cpp:1136-1297 | only quit and exit end a session; any command but a boot is refused before a boot, refused by a qemu board exactly when its capabilities do not cover it, refused when there is no such command, and answered by the board otherwise |
| Daemon.BootDraws | cli/cli.cpp:1136-1162 | a boot is refused in a booted session, on an unknown target and when the backend does not come up, each in its words, and otherwise leaves the session booted on that target |
| Daemon.ReplyIsPlain | cli/cli.cpp:1128-1297 | every command draws a one-line reply, whatever texts, paths and labels the handlers put in it, when the radio's raw lines are single lines |
| Daemon.OneReplyPerLine | cli/cli.cpp:1117-1127 | one reply per input line used, exactly unless a short line with a NUL had a line behind it; oversized lines included |
| Daemon.NulFreeAnswersAll | cli/cli.cpp:1117-1131 | without NUL bytes every line read is answered |
| Daemon.NulSwallowsTheNextLine | cli/cli.cpp:1121-1127 | a NUL makes two lines draw one reply |
| Daemon.ServeSnoc | cli/cli.cpp:1117-1298 | each further line adds its own reply or ends the session with none |
| Daemon.ReplyToOwnLine | cli/cli.cpp:1117-1298 | reply k answers line k in the session the lines before it left |
| Daemon.StaysBooted | cli/cli.cpp:1139-1140 | a booted session never changes its target again |
| Daemon.SessionAt | cli/cli.cpp:1117-1298 | before the first boot that succeeds a session is unbooted, after it booted on that very target |
| Daemon.AnswersAfterBoot | cli/cli.cpp:1117-1298 | over a session: the reply to a line behind the first boot is the board's answer to that very line, printed, when the command is one and the board covers it |
| Daemon.RefusedBeforeBoot | cli/cli.cpp:1117-1298 | in front of it every command but a boot draws not_booted |
| Daemon.RepliesArePlain | cli/cli.cpp:1117-1298 | so the output stream frames the replies again |
| Daemon.Stream.Gets | cli/cli.cpp:1118 | the bounded line read: a prefix of the rest, through the first newline |
| Daemon.Stream.Drain | cli/cli.cpp:1122-1123 | reads away the rest of a line |
| Daemon.ReadLine | cli/cli.cpp:1117-1127 | a read and its drain take one line, or two when a NUL hides the newline |
| Daemon.Run | cli/cli.cpp:1117-1298 | prints exactly the session's replies, which `AnswersAfterBoot` and `RefusedBeforeBoot` tell line by line; when a signal is seen before round n, exactly the first n of them |
| Studio.Session.WriteWire | examples/html-studio/server.py:98-105 | the command line reaches the runner exactly when the writes carry all of it, and otherwise exactly the prefix they carried does |
| Studio.Session.AwaitLine | examples/html-studio/server.py:106-115 | buffers the reply line exactly when it is within the size limit and all its bytes arrive |
| Studio.Session.OneLine | examples/html-studio/server.py:116-117 | what is unread is the last command's own reply line and nothing behind it, or nothing at all |
| Studio.Session.Rpc | examples/html-studio/server.py:87-131 | for every script of writes and reads: the reply to this very command exactly when the command goes out and the reply arrives; an exited runner or an oversized command sends nothing; after any other failure the process and the buffer are gone |
| Studio.Session.CloseProcess | examples/html-studio/server.py:70-85 | no process and an empty buffer |
| Studio.Session.Boot | examples/html-studio/server.py:163-195 | a runner that takes the boot line and answers in time is booted, with the first reply of the new runner alone; one it rejects keeps its process, any other failure leaves none |
| HttpPost.SimWifiPost | cli/scenario.cpp:27-76 | reports delivery exactly when the port, the server, the size and the sends allow it; unless the server's receives fail midway, for a clean path the POST handler then sees verb, path and headers, and the exact body when the path does not hold the length marker or the length it gives is at least the real one and not the all-ones value; an oversized or unroutable post changes nothing |
| HttpPost.PostIsExact | shims/net/webserver.cpp:119-173 | for a path without space, CR, LF or the length marker, wherever the server stops reading it has the verb, the path, the headers and the exact body, blank lines included |
| HttpPost.PostArrives | shims/net/webserver.cpp:119-154 | wherever the server stops reading a post to a clean path, the head is in, verb, path and headers are exact, and the body is cut at the length read; when that length is the all-ones value, or there is none, the body is what has arrived |
| HttpPost.ExactExactly | shims/net/webserver.cpp:126-154 | for a clean path the body is exact wherever the server stops exactly when it is empty, or the length read is at least the real one and not the all-ones value |
| HttpPost.NegativeLengthLosesBody | shims/net/webserver.cpp:130-136 | the path "/content-length:-1" reads as no length, and the loop stops with the head, the whole body lost |
| HttpPost.MarkerInPathCuts | shims/net/webserver.cpp:130-133 | a path that holds the marker can lose the whole body |
| HttpPost.LengthRead | shims/net/webserver.cpp:130-133 | the length header is the marker found first |
| HttpPost.HeadEnds | shims/net/webserver.cpp:151 | the first blank line is the head's own whatever the body holds |
| HttpPost.CollectsLines | shims/net/webserver.cpp:161-173 | the header loop collects exactly the printed header lines |
| HttpPost.HeadersComeBack | cli/scenario.cpp:51-53 | the printed headers come back with lower-case keys |
| HttpPost.WebServer.HandleClient | shims/net/webserver.cpp:103-198 | takes a request exactly when any byte arrives; accumulates any chunks until complete, full or cut off by the receives, and parses what it has |
| HttpPost.WebServer.ParseHeaders | shims/net/webserver.cpp:156-173 | the loop builds the specified header map |
| HttpPost.WebServer.Dispatch | shims/net/webserver.cpp:176-195 | a POST route's upload runs before its finish handler; an unknown route runs neither |
| HttpPost.WebServer.RouteRuns | shims/net/webserver.cpp:176-195 | which calls a route draws: the upload's start, write and end with their sizes and then the finish, the finish alone, or not found |
| Multipart.ExtractFilePart | shims/net/webserver.cpp:204-245 | the loop over delimiters finds the first file part or none |
| Multipart.FormGivesFile | shims/net/webserver.cpp:204-245 | behind any preamble and any parts without a file name, the file's content and name come back exactly |
| Multipart.FindsTheFile | shims/net/webserver.cpp:219-243 | the walk over the parts, for any text behind the file |
| Multipart.PartMeans | shims/net/webserver.cpp:225-240 | a part without a file name is passed over; one with it gives up its content byte for byte |
| Multipart.NameIsExact | shims/net/webserver.cpp:233-238 | the file name is what stands between the quotes |
| Multipart.BareBoundary | shims/net/webserver.cpp:206-216 | a bare boundary is read up to its separator |
| Multipart.QuotedBoundary | shims/net/webserver.cpp:209-212 | a quoted one up to its closing quote |
| HttpPost.WebServer.DriveUpload | shims/net/webserver.cpp:247-268 | START, WRITE and END once each, in order, with matching sizes; no callback without a file part |
| JsonPages.JsonEsc | cli/cli_internal.h:12-27 | the loop computes the escaped text |
| JsonPages.JsonEscape | peripherals/lvgl/lvgl_snapshot.cpp:37-51 | the snapshot's escaper computes the same text for a C string |
| JsonPages.EscapesAre | cli/cli_internal.h:12-27 | the escapes themselves: two characters for quote, backslash, newline, return and tab, four hexadecimal digits for any other control byte, every other character as it is |
| JsonPages.EscapedIsPrintable | cli/cli_internal.h:12-27 | escaped text holds no control byte |
| JsonPages.UnescapeInverts | cli/cli_internal.h:12-27 | reading an escaped string body back gives the text and stops at its quote |
| JsonPages.ElementsExact | cli/cli.cpp:487-503 | the scanner recovers a printed array of objects exactly, whatever bytes its strings hold |
| JsonPages.ScanElements | cli/cli.cpp:488-503 | the scanning loop computes those elements |
| JsonPages.PageOf | cli/cli.cpp:504-510 | a page holds elements offset to offset+limit, with total, count and truncated telling the truth |
| JsonPages.BoundedArray | cli/cli.cpp:484-514 | the printed page is that page of the scanned elements |
| JsonPages.PagePrints | cli/cli.cpp:484-514 | a page as printed: items, total, offset, count and truncated in their places |
| JsonPages.PagesConcatenate | cli/cli.cpp:504-510 | successive pages of any positive size put the list back together |
| JsonPages.WidgetIsObject | peripherals/lvgl/lvgl_snapshot.cpp:81-94 | a printed widget is a well-formed object whatever its text holds |
| JsonPages.WidgetReads | peripherals/lvgl/lvgl_snapshot.cpp:37-99 | a printed widget member by member: reference, type, x, y, width, height, and then a label's text or a bar's or arc's value |
| JsonPages.WidgetIsPrintable | peripherals/lvgl/lvgl_snapshot.cpp:81-94 | a printed widget holds no control byte whatever its text holds |
| JsonPages.SnapshotPages | peripherals/lvgl/lvgl_snapshot.cpp:68-99 | paging a snapshot gives back exactly its widgets, in order |
| JsonPages.SnapshotJson | peripherals/lvgl/lvgl_snapshot.cpp:68-99 | numbers and prints the widgets in walking order and binds each reference to its own widget's middle |
| JsonPages.CentreInside | peripherals/lvgl/lvgl_snapshot.cpp:78 | the tap point of a widget lies inside it, negative coordinates included |
| JsonPages.CentreIsMiddle | peripherals/lvgl/lvgl_snapshot.cpp:78 | and is its middle, to half a pixel on either axis |
| Ppm.ChannelsComeBack | peripherals/display/screenshot.cpp:16-19 | widening a pixel's channels and narrowing them again gives the pixel, and every channel is a byte |
| Ppm.ChannelFields | peripherals/display/screenshot.cpp:13-20 | red is the upper five bits, green the middle six, blue the lower five, each spread over 0 to 255 to within one of its steps |
| Ppm.NarrowFields | backends/qemu/screendump.cpp:70-74 | the upper bits of the red byte land in the upper field, green in the middle, blue in the lower |
| Ppm.PureColours | peripherals/display/screenshot.cpp:13-20 | pure red, green and blue are 255 in their own channel, their complements 0 |
| Ppm.ExpandPixels | peripherals/display/screenshot.cpp:13-20 | the loop writes the three bytes of every pixel in order |
| Ppm.ReadToken | backends/qemu/screendump.cpp:8-24 | the scanning loops find the next token past blanks and comments |
| Ppm.ParseDim | backends/qemu/screendump.cpp:26-38 | accepts exactly one to five digits worth 1 to 4096 |
| Ppm.DecodeRgb565 | backends/qemu/screendump.cpp:42-76 | the decoder, with its errors in the order the source reports them |
| Ppm.HeaderComesBack | backends/qemu/screendump.cpp:8-64 | any header a writer can choose, comments included, is read as its width, height and end |
| Ppm.HeaderDecided | backends/qemu/screendump.cpp:8-64 | of any four tokens a header is accepted exactly when they are P6, two sides and 255, and the first fault is the one reported |
| Ppm.SidesEnd | backends/qemu/screendump.cpp:26-38 | 4096 is the largest side; zero, nothing, six digits and stray characters are refused |
| Ppm.RoundTrip | backends/qemu/screendump.cpp:42-76 | expand, write with any header, decode: the same image and size for every image up to 4096 by 4096 |
| Ppm.CutFileIsRefused | backends/qemu/screendump.cpp:64-69 | a file cut anywhere before its last pixel byte is refused |
| Ppm.TruncatedIsRefused | backends/qemu/screendump.cpp:42-69 | so is any accepted text cut short of what its header asks for |
| QemuLifecycle.WiredIffNormalized | backends/qemu/qemu_process.cpp:176-212 | the child gets its own pipe ends as 0, 1, 2 and none besides exactly when all four descriptors were moved above 2 |
| QemuLifecycle.TailKept | backends/qemu/qemu_process.cpp:309-314 | the capture stays a suffix of the output, at most the cap and at least half of it once trimmed |
| QemuLifecycle.QemuProcess.OpenPipes | backends/qemu/qemu_process.cpp:166-190 | two pipes with all ends above the standard streams, or nothing left open |
| QemuLifecycle.QemuProcess.Adopt | backends/qemu/qemu_process.cpp:243-257 | with a spawned child the parent keeps exactly its own two pipe ends, and a new capture starts |
| QemuLifecycle.QemuProcess.SpawnOnly | backends/qemu/qemu_process.cpp:157-258 | spawned when no call fails, on exactly its two pipes; a failure anywhere leaves no child and no descriptor |
| QemuLifecycle.QemuProcess.Start | backends/qemu/qemu_process.cpp:260-286 | running and connected when no call fails and QMP connects before the child dies or a signal comes, and only then can it be; otherwise stopped |
| QemuLifecycle.QemuProcess.Running | backends/qemu/qemu_process.cpp:288-301 | true exactly when the child lives; reaps one that does not |
| QemuLifecycle.QemuProcess.Pump | backends/qemu/qemu_process.cpp:303-324 | appends exactly what the reads bring, keeps the capture's promise, and closes the pipe exactly at its end |
| QemuLifecycle.QemuProcess.SerialWrite | backends/qemu/qemu_process.cpp:326-351 | true exactly when the writes carry all bytes; what they carry is written in order |
| QemuLifecycle.QemuProcess.Stop | backends/qemu/qemu_process.cpp:353-385 | whatever fails on the way, no child, pipe or connection is left |
| QemuLifecycle.QemuBackend.CleanupDir | backends/qemu/qemu_backend.cpp:344-351 | the scratch directory and everything in it are gone |
| QemuLifecycle.QemuBackend.Boot | backends/qemu/qemu_backend.cpp:93-186 | succeeds when the target is known, no call fails, QMP connects and no signal comes; its child then lives exactly unless it ended during the warm-up, and everything it printed there is kept; failure at any step leaves nothing |
| QemuLifecycle.BootMissesTheEnd | backends/qemu/qemu_backend.cpp:177-211 | a child that ends during the warm-up: the boot returns true, there is no child, and the port reads 0 |
| QemuLifecycle.QemuBackend.Shutdown | backends/qemu/qemu_backend.cpp:188-194 | nothing is left; port 0 and no agent |
| QemuLifecycle.QemuBackend.HttpPort | backends/qemu/qemu_backend.cpp:196 | the forwarded port exactly while the child lives, and 0 otherwise |
| QemuLifecycle.QemuBackend.AgentAvailable | backends/qemu/qemu_backend.cpp:259 | true exactly for a capable backend whose child lives |
| QemuLifecycle.QemuBackend.EnsureAgent | backends/qemu/qemu_backend.cpp:326-340 | connected exactly with a capable, living child and an agent that is connected or answers now |
| QemuLifecycle.QemuBackend.SyncFramebuffer | backends/qemu/qemu_backend.cpp:225-257 | succeeds exactly when a living child dumps a picture that decodes, and leaves no dump file behind |
| QemuLifecycle.QemuBackend.Run | backends/qemu/qemu_backend.cpp:93-257 | over any sequence of operations at most one child, one directory and that child's two pipes exist, and the capture keeps its promise |
| Display.Tft.OffScreen | peripherals/tft_espi/tft_espi.cpp:253 | a sprite starts without a buffer, under its parent |
| Display.Tft.PlotFour | peripherals/tft_espi/tft_espi.cpp:110-111 | one visited point is painted with its three quarter turns |
| Display.Tft.PushOne | peripherals/tft_espi/tft_espi.cpp:155-159 | the inner step of pushImage: one pixel of the image lands at its column and row |
| Lines.StepDecides | peripherals/tft_espi/tft_espi.cpp:102-104 | the two error tests step an axis exactly when the closed form does |
| Lines.ReversedPoint | peripherals/tft_espi/tft_espi.cpp:102-104 | the same step counted from the other end is the same pixel exactly when it is no tie |
| Circles.RingStays | peripherals/tft_espi/tft_espi.cpp:112-114 | one step of the walk stays within the ring |
| Images.StreamPaints | peripherals/tft_espi/tft_espi.cpp:172-178 | a stream below the limit overlays exactly its part of the window |
| WindowLayout.PlaceOne | peripherals/display/window_layout.cpp:117-157 | one button of the last pass: its start along its edge, which `FixedNubPlaced`, `SlotPlaced` and `AutosSpaced` place |
| WindowLayout.AutoBounds | peripherals/display/window_layout.cpp:36-53 | where autos can start: on their edge, or at its origin when it is too short for one |
| WindowLayout.AutoPlaced | peripherals/display/window_layout.cpp:125-147 | an auto stays on its screen edge, or right of the window margin after the slide |
| WindowLayout.StartBounds | peripherals/display/window_layout.cpp:117-157 | every nub starts at least six points in and ends on its screen edge; on an edge shorter than a nub it starts at the origin, or left of the "..." nub after the slide |
| WindowLayout.FixedBounds | peripherals/display/window_layout.cpp:148-157 | a nub with a position of its own lies on its edge, or at the origin of one too short for it |
| WindowLayout.AutoLeftOfMore | peripherals/display/window_layout.cpp:141-147 | after the slide every bottom auto ends left of the "..." nub |
| WindowLayout.AutoMissesMore | peripherals/display/window_layout.cpp:109-171 | no auto shares a point with the "..." nub |
| SimWindow.GrammarStep | peripherals/display/sim_window.cpp:227-248 | one event keeps the queue in groups unless a second source presses after the long edge |
| SimWindow.NoOverlapNoRestart | peripherals/display/sim_window.cpp:227-238 | holds that never overlap never restart the timer |
| DeviceWindow.Window.CloseHelp | peripherals/display/sim_window.cpp:292 | refines closing the help overlay |
| DeviceWindow.Window.ClosePanel | peripherals/display/sim_window.cpp:293 | refines closing the panel, ending a battery drag |
| DeviceWindow.Window.ClickPanel | peripherals/display/sim_window.cpp:369-385 | refines a click on the open panel: drag, toggles, rotation, or close |
| DeviceWindow.Window.ClickDevice | peripherals/display/sim_window.cpp:386-397 | refines a click on the device: touch, the first nub hit, or nothing |
| DeviceWindow.Window.PressKeys | peripherals/display/sim_window.cpp:448-454 | afterwards a control is held by its key exactly when it was before or its shortcut is this key and not 0, and the lines of all follow |
| DeviceWindow.Window.Handle | peripherals/display/sim_window.cpp:351-473 | one event refines one step of the abstract machine |
| Qmp.QmpClient.Negotiate | backends/qemu/qmp.cpp:211-226 | succeeds whenever the greeting, the capabilities command and its result get through in time; success means the greeting was one and the reply returned, refused capabilities are a failure |
| GuestAgent.HandledReply | tools/qemu/esprite_qemu_agent/esprite_qemu_agent.c:61-123 | every line draws a one-line ok or err reply |
| GuestAgent.LineFills | tools/qemu/esprite_qemu_agent/esprite_qemu_agent.c:134-145 | how the buffer stands after any line bytes, and how many overflow replies they drew |
| GuestAgent.DrawnReplies | tools/qemu/esprite_qemu_agent/esprite_qemu_agent.c:131-145 | a line behind the bytes the agent still holds draws one reply, to both together, or two when they pass its buffer |
| GuestAgent.FeedGrows | tools/qemu/esprite_qemu_agent/esprite_qemu_agent.c:130-146 | replies already written stay |
| GuestAgent.AgentTask.HandlePin | tools/qemu/esprite_qemu_agent/esprite_qemu_agent.c:67-89 | gpio and pulse refine their meaning, the level held during a pulse's delay included; malformed ones change nothing |
| GuestAgent.AgentTask.HandleTouch | tools/qemu/esprite_qemu_agent/esprite_qemu_agent.c:90-119 | touch and tap refine theirs, the touch held during a tap's delay included |
| AgentLink.AgentLink.Send | backends/qemu/agent_link.cpp:79-85 | the line is with the agent exactly when the sends carry it whole; otherwise exactly the prefix they carried is |
| AgentLink.AgentLink.Drew | backends/qemu/agent_link.cpp:79-88 | a line sent whole ends at a line start and draws one reply, to what the agent held and this line together, or two when they pass its buffer |
| Studio.Session.OneMoreReply | examples/html-studio/server.py:90-94 | a command within the request limit is one whole line to the runner and draws at most one more reply |
| HttpPost.PostIsHead | cli/scenario.cpp:51-53 | the printed request is a head of four clean lines and the body |
| HttpPost.StartLine | shims/net/webserver.cpp:143-150 | the request line gives back the verb and the path |
| HttpPost.PostParses | shims/net/webserver.cpp:143-173 | with the head in, everything but the body is exact however much of the body arrived |
| HttpPost.HeadStays | shims/net/webserver.cpp:126-141 | more bytes do not move the head's end or change the length read |
| HttpPost.WebServer.ParseLine | shims/net/webserver.cpp:164-171 | one header line: lower-case key, value without leading blanks |
| Multipart.ReadPart | shims/net/webserver.cpp:224-241 | one stretch between delimiters is a file part or not |
| Multipart.HeadOfPart | shims/net/webserver.cpp:225 | the part's own blank line is the first one |
| JsonPages.CollectsAll | cli/cli.cpp:488-503 | the scanner collects each printed object whole and nothing between them |
| JsonPages.JoinPage | cli/cli.cpp:504-509 | the slicing loop joins exactly the page's elements |
| Ppm.Channels | peripherals/display/screenshot.cpp:16-19 | one pixel's three widened bytes |
| Ppm.ReadPixels | backends/qemu/screendump.cpp:70-74 | the loop narrows each three bytes to one pixel |
| Ppm.ReadsToken | backends/qemu/screendump.cpp:8-24 | a token behind blanks and comments and in front of a blank is read exactly |
| Ppm.HeaderStable | backends/qemu/screendump.cpp:42-64 | a header read with a byte to spare is read the same from any longer text |
| QemuLifecycle.QemuProcess.Normalize | backends/qemu/qemu_process.cpp:39-45 | moves one descriptor above the standard streams, or leaves it |
| QemuLifecycle.QemuProcess.WaitForExit | backends/qemu/qemu_process.cpp:79-86 | true only when the child is gone |
| QemuLifecycle.QemuProcess.Reap | backends/qemu/qemu_process.cpp:374-379 | retries an interrupted wait until the child is reaped |
| QemuLifecycle.QemuProcess.Keep | backends/qemu/qemu_process.cpp:309-314 | appends a chunk to the capture and keeps its promise |
| QemuLifecycle.QemuBackend.Prepare | backends/qemu/qemu_backend.cpp:102-137 | a directory and a port, or nothing left |
| QemuLifecycle.QemuBackend.Launch | backends/qemu/qemu_backend.cpp:138-175 | a running machine when no call fails and QMP connects, or nothing left |
| QemuLifecycle.QemuBackend.Settle | backends/qemu/qemu_backend.cpp:198-211 | pumps until the deadline, exactly unless a signal comes, and keeps exactly what the child printed until then; a child that ends meanwhile goes unnoticed |
| QemuLifecycle.QemuBackend.Pass | backends/qemu/qemu_backend.cpp:206-208 | one beat of the wait: what is pending is captured, and the child lives on exactly unless it ended in it |
| QemuLifecycle.QemuBackend.Do | backends/qemu/qemu_backend.cpp:93-340 | every operation, whatever its calls return, keeps the backend's invariant |

## Left out

- Drawing of the window, fonts, colours, HiDPI scaling and PNG encoding: presentation over libraries.
- Single-precision rounding in the layout: positions are exact reals truncated to integers.
- 32-bit wrap of coordinate sums in drawing: coordinates are unbounded; the loops' own arithmetic has its exact limits proved, and the address window's casts are modelled as written.
- `drawRoundRect`, `fillCircle`, rectangles and text: sums of the drawing results here.
- Hover and the power button's flash: they feed only the renderer.
- Display.Tft.PushSprite: a sprite parented to itself is excluded, since the source then reads the buffer it is writing.
- DeviceWindow.InputBus.Boot: on a board whose controls share an input the last one seeded decides the pin, so for such boards nothing is promised about the shared pins.
- DeviceWindow.Window.Tick: a frame's mouse downs and ups alternate, as a mouse with one left button delivers them.
- Clocks, and the interleaving of the two directions of a connection: what the sends and the receives of one exchange come to are separate scripts, and a deadline is where a script ends.
- JSON parsing and serialization by the library: functions of a line. `Qmp.Codec` says what a parsed line holds (an event, an error, a result), `Daemon.Board` its command and the handlers' answers.
- Qmp.QmpClient.ConnectUnix: that it connects is promised for a result within reach of the bytes received behind the greeting line; bytes that came along with the greeting can only bring it sooner.
- AgentLink.AgentLink.Request: lines of 1 to 127 bytes without line breaks only, which every command the host prints is.
- AgentLink.AgentLink.Tap: boards up to 4096 points a side, since the agent refuses larger coordinates; `AgentLink.AgentLink.Swipe` likewise.
- AgentLink.AgentLink.Inject: its exact success is stated on a link that owes nothing and holds nothing half sent; on any other it is `AgentLink.AgentLink.Request`'s.
- Connecting the agent socket, and a banner that arrives in the middle of a later exchange: the agent writes its banner once, before any reply.
- The delay inside `pulse` and `tap`: the state in between is recorded as `Handled.asleep`, its length is not.
- Event counters of the guest: unbounded, where the agent has C ints.
- Daemon.ReplyIsPlain: which of its forms a handler answers with, and the texts in it, are a parameter; that the raw lines of a radio hold no newline is the one hypothesis, and `Daemon.AnswerIsPlain` shows it is needed.
- Daemon.AnswersAfterBoot: sessions in which no NUL byte hides a newline; where one does, `Daemon.OneReplyPerLine` counts the replies. `Daemon.RefusedBeforeBoot` and `Daemon.SessionAt` likewise.
- Command handlers of the session, scenario steps, option parsing, capability tables other than a qemu board's, and the BLE bus: easier relatives of the session and framing results.
- HttpPost.WebServer.HandleClient: what handlers send back, and the reply's own partial writes.
- Percent-decoding, query arguments and declared headers of the web server.
- HttpPost.SimWifiPost: the path's form is the caller's; one with spaces or line breaks parses as the code parses it, which is not stated as a promise.
- Multipart.FormGivesFile: a boundary with a newline in it, which no header line can carry, is excluded; so is a part header that begins or ends a line break of its own.
- The widget tree walk, hidden widgets and the ownership of the display: `JsonPages.SnapshotJson` starts from the visible widgets in walking order, with their C-string texts.
- QEMU's argument list: a constant mapping of the spec.
- QemuLifecycle.QemuProcess.Start: QMP appears as connected or not; what its calls return is `Qmp`'s subject. That it succeeds is promised when no system call fails, not for each pattern of failing calls.
- QemuLifecycle.QemuProcess.Running: another process reaping the child is folded into the child's exit.
- QemuLifecycle.QemuBackend.Boot: the environment checks before the scratch directory are one yes or no (`Course.resolved`); files other than the two sockets and the dump are assumed not to appear in it.
- Signals pending at a wait are finitely many, so retried waits end.
- Studio.Session.Rpc: a command is one line without NUL bytes, which the JSON printer guarantees by escaping both.
- HTTP handlers, tokens and assets of the studio, and all browser code.
- Studio.Session.Boot: the capture the studio takes right after the boot, and its own failures.
