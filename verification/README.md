# Canvas ER diagram drag-and-drop, modelled in Dafny

The application draws a fixed entity-relationship diagram of four tables
(Users, Orders, Products, OrderItems) on a canvas. The user can drag a table
into one of three drop zones (code generator, documentation, query builder).
Each zone validates what it receives and appends it to its own list of
dropped records. A demo button feeds three records into the zones without
any pointer interaction.

The model covers the plain logic behind that:

- `Diagram` (`diagram.dfy`) holds the sample entities and the hit-test. The
  hit-test returns the first entity in list order whose closed box contains
  the point. The module also has the hover state of the canvas.
- `Colour` (`colour.dfy`) holds `lightenColor`: per-channel offset, clamping
  to 0..255, and re-packing through the `0x1000000 + …` / `toString(16)` /
  `slice(1)` trick. It also defines base-16 writing and reading, so the
  output can be read back channel by channel.
- `Transfer` (`transfer.dfy`) holds the drag payload, the stored record, the
  entity tag `er-entity` and the three zone names.
- `DragGesture` (`gesture.dfy`) holds the per-press gesture of
  `handleMouseDown` as an explicit state machine. The state is the
  `isDragging` flag, the affordance (attached, position, visible), whether
  the document listeners are attached, whether the native transfer carries
  the payload, and the deliveries sent to zones so far. The events are
  `DragStart`, `DragEnd`, `Move`, `Up`, the browser's `NativeDrop`, and
  `Reveal`, the 50 ms timer set on press that shows the affordance.
- `DropZone` (`dropzone.dfy`) holds the two ways a zone receives a payload.
  The native `drop` prefers `application/json` and falls back to
  `text/plain` only when the JSON entry is empty. The custom `entityDrop`
  event is the other way. Both apply the same tag check and build the same
  record. The module also has the zone label, icon and field-list
  formatting.
- `Store` (`store.dfy`) holds the per-zone record lists of the application:
  the initial state, `handleDrop` (append) and `clearDropZone` (empty).
- `Demo` (`demo.dfy`) holds the demo's fixed schedule of three
  (delay, zone, record) deliveries.
- `Scenarios` (`scenarios.dfy`) wires the pieces together as the application
  does: gesture deliveries reach a zone, the zone validates them, and the
  store appends.

The drag gesture does not deliver at most once. `dragstart` sets the flag.
`dragend` clears it again (src/components/CanvasER.js:268), and the
`mouseup` listener is still attached afterwards. So a native drop followed
by `dragend` and then `mouseup` over the same zone hands the payload to that
zone twice. `DragGesture.DoubleDeliveryTrace` shows that trace. What does
hold is that a gesture sends at most one *fallback* delivery: `mouseup`
detaches its own listener and nothing re-attaches it (`DragGesture.RunInvariant`).

Four facts about the code shape the model:

- The code does not guarantee at most one delivery per gesture (see above).
- `mousemove` never sets the flag. It only moves and shows the affordance.
- The fallback delivery is sent only while the affordance is hidden or out
  of the document. `mouseup` hit-tests the release point (CanvasER.js:289)
  before it removes the affordance (303-305). The affordance is fixed, on
  top (z-index 10000) and takes pointer events. A move or the 50 ms timer
  places it 60 px left of and 20 px above the pointer and shows it, and its
  padded label is larger than that offset. So once it is shown, the
  hit-test finds the affordance and no zone. A release after a move
  therefore delivers nothing unless `dragend` has already removed the
  affordance (`Scenarios.ShownAffordanceBlocksFallback`).
- A press never followed by `mouseup` keeps both document listeners
  attached.

## Model

| member | source | states |
|---|---|---|
| Diagram.SampleEntities | src/components/CanvasER.js:10-51 | four tables with ids 1 to 4 in list order, each a 120 by 100 box with four fields whose first is "id (PK)", and each colour a 24-bit value |
| Diagram.DetectEntityAt | src/components/CanvasER.js:162-174 | the result contains the point and is the first such entity in list order (every entity before it misses); no result exactly when no entity contains the point; all four box edges are inclusive |
| Diagram.UniqueHit | src/components/CanvasER.js:168-173 | when at most one entity contains the point, the hit-test returns an entity exactly when that entity is in the list and contains the point |
| Diagram.SampleBoxesDisjoint | src/components/CanvasER.js:10-51 | no point lies in two of the four sample boxes |
| Diagram.SampleAtMostOneContains | src/components/CanvasER.js:10-51 | at most one sample entity contains any point |
| Diagram.SampleHitOrderIndependent | src/components/CanvasER.js:10-51 | any list holding exactly the sample entities, in any order or with repeats, gives the same hit-test result at every point |
| Diagram.Hover | src/components/CanvasER.js:331-346 | leaving the canvas clears the hover; moving hovers some entity exactly when some entity contains the pointer, and the hovered entity is then the first entity in list order that contains the pointer |
| Colour.ToHex | src/components/CanvasER.js:157-159 | `toString(16)` yields at least one character, all lower-case base-16 digits |
| Colour.ParseToHex | src/components/CanvasER.js:152-159 | reading the base-16 text back with `parseInt` semantics returns the original number |
| Colour.ToHexLeadingOne | src/components/CanvasER.js:157-159 | a number in [16^k, 2·16^k) is written with exactly k+1 digits, the first being '1', which is why the `0x1000000` prefix plus `slice(1)` always leaves six digits |
| Colour.ParseHexDropLeading | src/components/CanvasER.js:157-159 | dropping the leading digit of a numeral subtracts exactly that digit's weight |
| Colour.Clamp | src/components/CanvasER.js:157-159 | the nested conditional clamps to 0..255: in-range values unchanged, negatives to 0, overflow to 255 |
| Colour.PackChannels | src/components/CanvasER.js:154-159 | packing three in-range channels as R·0x10000+G·0x100+B and extracting with the shift/mask formulas gives the channels back |
| Colour.LightenColor | src/components/CanvasER.js:151-160 | the result is '#' followed by exactly six lower-case base-16 digits, and its red, green and blue channels are each clamp(input channel + amt, 0, 255) |
| DragGesture.PayloadFor | src/components/CanvasER.js:208-214 | the payload copies id, name and fields from the entity verbatim, has type 'er-entity' and carries the press time |
| DragGesture.Press | src/components/CanvasER.js:176-216 | a press starts nothing exactly when no entity contains the point; otherwise the payload is built from the first entity hit, the affordance is attached and hidden at (clientX-60, clientY-20), the flag is clear, the listeners are attached and nothing has been delivered |
| DragGesture.Step | src/components/CanvasER.js:219-328 | one event of the listeners: only `dragstart` on an attached affordance sets the flag, only `dragend` clears it, only `mouseup` on attached listeners detaches them, a detached affordance is never re-attached, and the payload never changes |
| DragGesture.Run | src/components/CanvasER.js:219-328 | over any event sequence the payload is fixed, and once the listeners or the affordance are detached they stay detached |
| DragGesture.RunAppend | src/components/CanvasER.js:275-328 | running two event lists in turn is running their concatenation |
| DragGesture.ZoneFound | src/components/CanvasER.js:277-290 | the release finds a zone exactly when there is one below the pointer and the affordance is not both in the document and shown; the zone found is then the one below |
| DragGesture.DragFlag | src/components/CanvasER.js:216-272 | `dragstart` on an attached affordance sets the flag and shows it, and on a detached one changes nothing; `dragend` clears the flag and detaches the affordance; neither delivers anything |
| DragGesture.MoveFollowsPointer | src/components/CanvasER.js:275-282 | while the flag is clear, a move places the affordance at (clientX-60, clientY-20) and shows it; while it is set, the gesture is unchanged; a move never delivers |
| DragGesture.UpDeliversAndCleansUp | src/components/CanvasER.js:284-308 | `mouseup` adds one fallback delivery of the payload to the zone below exactly when the flag is clear, a zone is below and the affordance is not shown in the document; in every other case it delivers nothing; in every branch it detaches the affordance and both listeners |
| DragGesture.DetachedIgnoresPointer | src/components/CanvasER.js:306-311 | once the listeners are removed, any sequence of moves and releases leaves the gesture unchanged |
| DragGesture.StepInvariant | src/components/CanvasER.js:216-308 | one event keeps the payload, keeps all earlier deliveries as a prefix, adds at most one delivery of the same payload, never re-attaches the listeners, and adds a fallback delivery only when it detaches them |
| DragGesture.RunInvariant | src/components/CanvasER.js:216-311 | over any event sequence, earlier deliveries are kept, every new delivery carries the press payload, and at most one fallback delivery is sent, none once the listeners are gone |
| DragGesture.PressedRunDeliversTagged | src/components/CanvasER.js:208-299 | every delivery of a pressed gesture carries the press payload with type 'er-entity', and at most one of them is a fallback delivery |
| DragGesture.DoubleDeliveryTrace | src/components/CanvasER.js:266-299 | the trace dragstart, native drop, dragend, mouseup over the same zone delivers the payload twice, once natively and once by fallback |
| DropZone.HandleEntityDrop | src/components/DropZone.js:12-23 | a record is produced exactly when the payload's type is 'er-entity', and it keeps the payload and adds the receiving zone and the drop time |
| DropZone.HandleDrop | src/components/DropZone.js:50-82 | with both entries empty the result is "no data"; "malformed" exactly when the preferred non-empty entry does not decode; "accepted" exactly when it decodes to a payload of type 'er-entity', whose record keeps that payload and adds zone and time; any other type is rejected carrying exactly the decoded payload's type |
| DropZone.JsonEntryPreferred | src/components/DropZone.js:57-61 | with a non-empty JSON entry the plain-text entry has no influence, even when the JSON entry does not decode |
| DropZone.TextEntryFallback | src/components/DropZone.js:60-63 | with an empty JSON entry, the plain-text entry is handled exactly as a JSON entry would be |
| DropZone.PathsAgree | src/components/DropZone.js:12-82 | when the chosen entry decodes to a payload, the native drop accepts exactly when `entityDrop` with that payload would, and produces the same record |
| DropZone.NativeTransferAccepted | src/components/DropZone.js:57-75 | a tagged payload written under both keys and decoded back is accepted as that payload for the receiving zone |
| DropZone.FormatFieldsList | src/components/DropZone.js:92-94 | no fields join to the empty string and a single field joins to itself |
| DropZone.FormatFieldsListAppend | src/components/DropZone.js:92-94 | the join of two non-empty lists is the two joins with one ", " between them |
| DropZone.FormatFieldsListLength | src/components/DropZone.js:92-94 | the joined text is as long as all fields together plus two characters per gap |
| DropZone.ZoneIcon | src/components/DropZone.js:96-107 | total: each of the three zones has its own icon, and the default icon is returned exactly for the other names |
| DropZone.ZoneAction | src/components/DropZone.js:109-120 | total: the three zones map to "Generate Code", "Create Documentation" and "Build Query", and "Process" is returned exactly for the other names |
| DropZone.KnownZonesDistinguishable | src/components/DropZone.js:96-120 | two different known zones never share a label or an icon |
| Store.InitialStore | src/App.js:7-11 | exactly the three zones, each with an empty list |
| Store.HandleDrop | src/App.js:13-18 | the zone's list grows by one, the old list is its prefix and the new record is last; no other zone changes and no zone is added; the zone must exist |
| Store.ClearDropZone | src/App.js:20-25 | the zone's list becomes empty (the key is added if absent); no other zone changes |
| Store.OperationsPreserveWellFormed | src/App.js:7-25 | appending to or clearing a known zone keeps exactly the three zones |
| Store.ClearIdempotent | src/App.js:20-25 | clearing twice is the same as clearing once |
| Store.DropAfterClear | src/App.js:13-25 | a drop after a clear leaves a list holding exactly that record |
| Store.DropsCommute | src/App.js:13-18 | drops into two different zones give the same store in either order |
| Demo.DemoSchedule | src/components/DemoButton.js:4-45 | three deliveries at 0, 1000 and 2000 ms; each record's dropZone equals the zone it is handed to, and its timestamp and drop time are the clock readings of its own callback |
| Demo.ScheduleShape | src/components/DemoButton.js:4-45 | three deliveries at 0, 1000 and 2000 ms to codeGenerator, documentation and queryBuilder, in strictly increasing delay order to pairwise different zones |
| Demo.RecordsMatchSamples | src/components/DemoButton.js:6-44 | each record's dropZone equals its delivery zone, its type is 'er-entity', its id, name and fields equal those of sample entity 1, 2 or 3 in turn, and its times are those of its own callback |
| Demo.DemoFillsEachZoneOnce | src/components/DemoButton.js:4-45 | starting from the initial store, the demo leaves each zone with exactly its one record: Users, Orders and Products |
| Scenarios.ReceiveEntityDrop | src/components/DropZone.js:12-23 | a tagged payload delivered by `entityDrop` is appended as a record to that zone's list; any other payload leaves the store unchanged; other zones never change |
| Scenarios.GestureDeliveriesAccepted | src/components/DropZone.js:16-22 | for a gesture whose payload carries the entity tag, as every pressed gesture's does, every delivery over any event sequence passes the zone's tag check and becomes a record of that payload for the receiving zone |
| Scenarios.NativeAndFallbackAgree | src/components/CanvasER.js:229-230 | when the payload written to the native transfer decodes back to itself, the native drop gives the zone the same record as the fallback event |
| Scenarios.MovesKeepGesture | src/components/CanvasER.js:275-282 | moves and the reveal timer while the flag is clear keep the gesture listening, undragged and attached as it was, with no new deliveries; after at least one of them a listening gesture's affordance is shown |
| Scenarios.FallbackReleaseDeliversOnce | src/components/CanvasER.js:266-308 | for a listening gesture whose affordance `dragend` has removed, with the flag clear, any moves and then a release over a zone add exactly one delivery, by fallback, of the gesture's payload to that zone, and leave the listeners detached |
| Scenarios.ShownAffordanceBlocksFallback | src/components/CanvasER.js:275-308 | for a listening gesture with the flag clear and the affordance in the document, at least one move or the reveal timer followed by a release over a zone delivers nothing, and still detaches the listeners and the affordance |
| Scenarios.PressInUsersStartsGesture | src/components/CanvasER.js:176-216 | a press anywhere inside the Users box starts a fresh, listening, undragged gesture with the affordance in the document and no deliveries, carrying the Users payload |
| Scenarios.UsersFallbackDragDeliversNothing | src/components/CanvasER.js:176-308 | press inside Users, at least one move with no native drag, release over the code generator: nothing is delivered |
| Scenarios.ReceiveNativeDrop | src/components/DropZone.js:50-82 | when the preferred non-empty transfer entry decodes to a tagged payload, that payload's record is appended to the zone's list; otherwise the store is unchanged; other zones never change |
| Scenarios.UsersDraggedToCodeGenerator | src/components/CanvasER.js:176-272 | press inside Users, a native drag that carries the transfer, a drop on the code generator and `dragend`: exactly one native delivery of the Users payload, and when the transfer decodes back, the initial store's code generator list holds exactly the Users record |
| Scenarios.UsersRecordStored | src/App.js:13-18 | the Users payload received by the code generator zone of the initial store becomes the only stored record, with the Users name and original field list |
| Scenarios.PressInGapStartsNothing | src/components/CanvasER.js:177-178 | a press between the Users and Orders tables starts no gesture |
| Scenarios.DemoPassesValidation | src/components/DemoButton.js:6-44 | every demo payload would pass a zone's tag check, giving a record with the same zone |
| Scenarios.DemoMatchesPressPayload | src/components/DemoButton.js:6-44 | each demo payload is exactly the payload a press on sample entity 1, 2 or 3 builds, given the clock reading |

## Left out

- Canvas drawing (`drawCanvas`, `drawEntity`, `drawRelationships`) is left out. It only draws and has nothing to state beyond `lightenColor`.
- DOM work is left out: creating and styling the affordance and drag image, `setDragImage` and its `try`/`catch`, and `focus`. This is browser plumbing. The affordance is reduced to attached, position and visible.
- The 100 ms drag-image cleanup timer is not modelled. It only removes the off-screen drag image. The 50 ms timer is modelled as the `Reveal` event, because showing the affordance decides whether `mouseup` finds a zone.
- The conversion from client to canvas coordinates through `getBoundingClientRect` is left out. `DragGesture.Press` takes the canvas-local point for the hit-test and the client point for the affordance as separate integer inputs. Fractional pixel positions are not modelled.
- `lightenColor`'s `parseInt` of the colour text and `Math.round(2.55 * percent)` are floating-point and text handling. `Colour.LightenColor` takes the already-parsed 24-bit colour and an integer `amt`.
- `JSON.stringify` and `JSON.parse` are left out. Decoding is a function parameter `string -> Option<Payload>`, where `None` stands for a parse that throws or data whose `type` cannot be read. A missing or non-string `type` appears as a kind string other than 'er-entity'.
- Clock readings (`toISOString`, `toLocaleTimeString`) are opaque strings passed in. In the demo, they are functions of the callback's delay.
- `elementFromPoint(...).closest('.drop-zone')` becomes the `Option<ZoneId>` carried by the `Up` event, with the affordance left aside, followed by `DragGesture.ZoneFound`.
- DragGesture.ZoneFound: layout is not modelled. A shown affordance in the document is taken to cover the release point, as it does when the release is where the last move or the press placed it. A release elsewhere while the affordance is shown is not modelled.
- The browser's events may arrive in any order, with two exceptions: the native-drop rule in the next line, and `DragStart` being ignored once the affordance has left the document. A detached element cannot start a native drag.
- The browser's native drag session is reduced to one assumption. A native drop on a zone (`NativeDrop`) delivers the payload only while the flag is set and only if the `dragstart` event carried a data transfer. Which zone gets it is chosen by the environment.
- The React state hooks, re-rendering, the zones' `isDragOver` hover styling, the `dragover`/`dragenter`/`dragleave` and zone mouse-enter/leave handlers, the JSX lists, and the `alert` text of the action button are presentation. They are left out.
- Console diagnostics appear only as `DropZone.HandleDrop`'s outcome values. `entityDrop`'s silent rejection is `None`.
- The icon glyphs are represented by the enumeration `DropZone.Icon` rather than their characters.
- Timer execution in the demo is left out. Only the ordered schedule of delays, zones and records is modelled.
