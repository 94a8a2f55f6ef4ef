# Whiteboard session model

This is a Dafny model of the per-board session logic of the collaborative whiteboard's `Whiteboard`
component. The session has five fields:

- the selected tool (pen, rectangle, circle, text, eraser);
- the drawing flag;
- the pen's flat coordinate path;
- the local element list;
- the local presence list.

The session is driven by these events:

- toolbar clicks;
- pointer down, move and up on the stage;
- clicks on rendered elements;
- the clear-board button;
- the store's INSERT and DELETE change notifications;
- the channel's presence `sync`, `join` and `leave` events;
- the outcome of the initial element query.

Every handler is a pure function. It returns the next state together with the requests the session
sends to the durable store: `Save(element)`, `DeleteById(id)` and `ClearBoard`.

Modules:

- `Wrappers` (`wrappers.dfy`): `Option`.
- `Elements` (`elements.dfy`): the element record and the list operations on it. These are append,
  remove-by-id and rewrite-the-last-element.
- `Presence` (`presence.dfy`): the presence list and its `sync`/`join`/`leave` updates.
- `Session` (`session.dfy`): state, events, effects, one handler per pointer, click, replication, presence
  and load event, and the dispatcher `Step`, which also applies the toolbar's tool change.
- `Traces` (`traces.dfy`): running a sequence of events, what whole gestures do, and invariants over
  arbitrary event sequences.

Modelling choices:

- State updates are applied synchronously and in event order.
- The fresh `uuidv4()` id and the `prompt()` answer are fields of the events that use them.
- The `confirm()` answer is a field of the clear-board event.
- Pointer coordinates are integers.
- An element's `data` is a record of optional fields. The drag handler writes `width` and `height`
  into whatever element is last in the list, which may not be a shape. For a line, which has no `x`,
  the result is NaN (`Num.NaN`). The commit test `width !== 0 || height !== 0` is true for a missing
  or NaN measure.
- Where the code's behaviour is easy to misread, the model follows the code:
  - The insert handler appends without looking at ids, so an insert is not idempotent. A local commit
    followed by its own echo leaves two copies (`Traces.EchoDuplicates`).
  - A failed load leaves the element list as it was. It does not clear it.
  - The presence list is a list with possible duplicates, not a map keyed by user id.
  - There is no reconnect or resync path in the code.

## Model

| member | source | states |
|---|---|---|
| Elements.LineElement | src/components/Whiteboard.js:221-229 | the committed stroke has type `line`, the given id, the accumulated points, no origin and no size |
| Elements.ShapeCandidate | src/components/Whiteboard.js:161-172 | the rectangle/circle candidate has the fresh id, the tool's type, origin at the pointer and width = height = 0 |
| Elements.TextElement | src/components/Whiteboard.js:177-187 | the text element has type `text`, the pointer as origin, the prompt answer as text and font size 16 |
| Elements.Minus | src/components/Whiteboard.js:207-208 | the subtraction is finite exactly when the origin coordinate is present, and it then undoes adding the origin |
| Elements.Resize | src/components/Whiteboard.js:205-209 | a drag changes only width and height, to pointer minus origin; id, type, origin and all other data fields are kept |
| Elements.ResizeLast | src/components/Whiteboard.js:203-211 | the list keeps its length and all elements but the last; the last one is resized; an empty list is left alone |
| Elements.Append | src/components/Whiteboard.js:79 | the list grows by exactly one, the old list is a prefix, and the multiset gains exactly the new element |
| Elements.RemoveId | src/components/Whiteboard.js:89-91 | no survivor has the deleted id, every element with another id survives, every survivor was in the list, and the list never grows |
| Elements.RemoveIdMultiset | src/components/Whiteboard.js:89-91 | every element with another id keeps its multiplicity; every element with that id is gone |
| Elements.CountId | src/components/Whiteboard.js:89-91 | the id count is zero exactly when no element carries the id |
| Elements.CountIdAppend | src/components/Whiteboard.js:79 | id counts add up over concatenation |
| Elements.RemoveIdAppend | src/components/Whiteboard.js:90 | removal distributes over concatenation, so survivors keep their relative order |
| Elements.RemoveIdAbsent | src/components/Whiteboard.js:90 | deleting an id nobody carries leaves the list unchanged |
| Elements.RemoveIdIdempotent | src/components/Whiteboard.js:90 | deleting the same id twice equals deleting it once |
| Elements.RemoveIdCommute | src/components/Whiteboard.js:89-91 | two deletes give the same list in either order |
| Elements.ResizeLastTwice | src/components/Whiteboard.js:203-211 | two successive drags amount to the last one, because the origin is never rewritten |
| Elements.ResizeLastAppend | src/components/Whiteboard.js:173 | resizing after an append resizes the appended element and nothing before it |
| Elements.HasExtent | src/components/Whiteboard.js:235 | the save test fails only for a box measuring the number zero both ways; an absent, NaN or non-zero width or height passes |
| Elements.ResizedCandidateExtent | src/components/Whiteboard.js:233-237 | a dragged candidate passes the save test exactly when the pointer ended away from its origin |
| Presence.Flatten | src/components/Whiteboard.js:94-95 | a user is in the flattened snapshot exactly when some presence key lists it, and appears as many times as all keys list it together |
| Presence.Sync | src/components/Whiteboard.js:93-97 | after a sync the list holds exactly the users some presence key lists, each as many times as the keys list it together, duplicates included |
| Presence.Join | src/components/Whiteboard.js:98-100 | a join keeps the old list as prefix and appends the joined presences as they are, duplicates included |
| Presence.Matches | src/components/Whiteboard.js:103 | the `find` succeeds exactly when some left presence has the user's id |
| Presence.Leave | src/components/Whiteboard.js:101-105 | no survivor matches a left presence, every non-matching user survives, and the list never grows |
| Presence.LeaveMultiset | src/components/Whiteboard.js:101-105 | every non-matching user keeps its multiplicity; every matching user is gone |
| Presence.FlattenAppend | src/components/Whiteboard.js:95 | flattening distributes over concatenation of snapshots |
| Presence.LeaveAppend | src/components/Whiteboard.js:102-104 | leave distributes over concatenation, so survivors keep their order |
| Presence.LeaveNoMatch | src/components/Whiteboard.js:102-104 | a leave that matches nobody changes nothing |
| Presence.LeaveIdempotent | src/components/Whiteboard.js:101-105 | applying the same leave twice equals applying it once |
| Presence.JoinThenLeave | src/components/Whiteboard.js:98-105 | joining presences and then leaving with the same presences gives what leaving alone would have given |
| Presence.LeaveAllSelf | src/components/Whiteboard.js:103 | a list leaving with itself empties |
| Presence.LeaveAllMatching | src/components/Whiteboard.js:102-104 | a leave empties a list in which every user matches |
| Session.MouseDownStep | src/components/Whiteboard.js:152-192 | eraser: nothing changes and nothing is sent; otherwise drawing starts; pen: path is exactly `[x, y]`; shape: one candidate is appended and nothing is sent; text: one saved text element when the answer is non-empty, otherwise no element and no request |
| Session.MouseMoveStep | src/components/Whiteboard.js:194-213 | never sends anything; while idle nothing changes; pen: path gains exactly `x, y`; shape: only the last element is resized; other tools: nothing changes |
| Session.MouseUpStep | src/components/Whiteboard.js:215-239 | while idle nothing changes; otherwise drawing stops; pen with a path: one `line` with exactly that path is appended and saved once and the path empties; shape: the list is unchanged and the last element is saved exactly when it has an extent; text, eraser, or pen with an empty path: nothing but the flag changes |
| Session.Truthy | src/components/Whiteboard.js:176 | the prompt answer counts as given exactly when it is neither cancelled (`null`) nor the empty string |
| Session.ElementClickStep | src/components/Whiteboard.js:241-245 | the state never changes; exactly one delete request is sent when the eraser is selected, none otherwise |
| Session.ClearClickStep | src/components/Whiteboard.js:247-260 | the local state never changes; a clear request is sent exactly when the user confirms |
| Session.InsertStep | src/components/Whiteboard.js:70-81 | only the element list changes; it grows by exactly one with the notified row last and no id check |
| Session.DeleteStep | src/components/Whiteboard.js:82-92 | only the element list changes, to `RemoveId` of it: no survivor has the id, every element with another id survives in order, and an absent id is a no-op |
| Session.LoadStep | src/components/Whiteboard.js:52-65 | a failure leaves the state unchanged; rows replace the list wholesale; a `null` result empties it |
| Session.PresenceStep | src/components/Whiteboard.js:93-105 | presence events change only the presence list: sync replaces it by the flattened snapshot, join appends, leave removes exactly the matching users and keeps the rest in order |
| Session.Step | src/components/Whiteboard.js:412-452 | a toolbar click changes only the tool and sends nothing; no other event changes the tool |
| Session.StepFacts | src/components/Whiteboard.js:70-245 | each event sends at most one request; remote events send none; presence events and the other events never touch each other's fields; every saved element is already in the local list |
| Traces.IdleMoves | src/components/Whiteboard.js:194-195 | any run of pointer moves while not drawing changes nothing and sends nothing |
| Traces.PenMoves | src/components/Whiteboard.js:200-201 | while the pen is down, moves only extend the path, by exactly two coordinates per move |
| Traces.ShapeMoves | src/components/Whiteboard.js:202-211 | while a shape is dragged, moves only resize the last element, to the last position, and send nothing |
| Traces.PenGesture | src/components/Whiteboard.js:158-232 | a pen gesture appends and saves exactly one line whose points are the down position followed by every move (2 × (1 + moves) coordinates), even with no movement, and ends idle with an empty path |
| Traces.ShapeGesture | src/components/Whiteboard.js:160-237 | a shape gesture leaves exactly one new element, the candidate sized to the last position; it is saved once when it has an extent and never otherwise |
| Traces.ShapeGestureDegenerate | src/components/Whiteboard.js:233-237 | a shape gesture sends nothing exactly when it never moved or ended at its origin, and the candidate stays in the list either way |
| Traces.TextClick | src/components/Whiteboard.js:174-190 | a text click commits and saves one text element for a non-empty answer and nothing otherwise; the following pointer-up sends nothing |
| Traces.EraserGesture | src/components/Whiteboard.js:153 | with the eraser and nothing being drawn, a whole pointer gesture changes nothing and sends nothing |
| Traces.StrokeExample | src/components/Whiteboard.js:158-232 | pointer positions (0,0), (5,0), (5,5) commit exactly one line with points `[0,0,5,0,5,5]`, saved once |
| Traces.RunKeepsEvenPath | src/components/Whiteboard.js:159-232 | every event sequence preserves an even path length |
| Traces.InitialPathEven | src/components/Whiteboard.js:31 | starting from the initial session the path length is always even |
| Traces.DrawingLeavesPresence | src/components/Whiteboard.js:93-105 | a sequence without presence events leaves the presence list unchanged |
| Traces.RemoteRunSendsNothing | src/components/Whiteboard.js:52-105 | replicated, presence and load events never cause a request to the store |
| Traces.SyncIsAuthoritative | src/components/Whiteboard.js:93-97 | whatever came before, a sync leaves exactly the flattened snapshot |
| Traces.LoadIsAuthoritative | src/components/Whiteboard.js:52-65 | whatever came before, a successful load leaves exactly the returned rows (none for `null`), a failed one leaves the session as it was, and neither sends anything |
| Traces.EraseRoundTrip | src/components/Whiteboard.js:241-245 | an eraser click sends one delete request and removes nothing locally; the returning delete notification then leaves exactly the list without that id; with another tool the click does nothing |
| Traces.DeletesEmpty | src/components/Whiteboard.js:82-92 | delete notifications covering every id held empty the list and send nothing |
| Traces.ClearRoundTrip | src/components/Whiteboard.js:247-260 | a confirmed clear sends one clear request and leaves the local list alone; once delete notifications for every id held have arrived, in any order, the list is empty |
| Traces.PresenceConvergenceExample | src/components/Whiteboard.js:93-100 | joins of U1 and U2 followed by a snapshot holding only U1 leave exactly `[U1]` |
| Traces.EchoDuplicates | src/components/Whiteboard.js:78-80 | a committed stroke followed by its own insert notification is held twice |
| Traces.DeleteRemovesDuplicates | src/components/Whiteboard.js:89-91 | a delete notification removes every copy of the id, duplicates included |
| Traces.DeletesCommuteAndRepeat | src/components/Whiteboard.js:89-91 | two delete notifications give the same result in either order, and a repeated one is harmless |
| Traces.InsertsCommuteAsMultiset | src/components/Whiteboard.js:78-80 | two insert notifications give the same multiset in either order; a repeated one appends the same row a second time |
| Traces.LeaveTwice | src/components/Whiteboard.js:101-105 | the same leave delivered twice equals delivering it once |

## Left out

- Store and channel I/O is not modelled. This covers the queries, inserts and deletes in `saveElement`, `deleteElement`, `clearBoard` and `loadElements`, channel subscribe and unsubscribe, and `track` in `joinPresence`. Saves, deletes and clears appear only as emitted effects, and the load outcome is an event.
- Write failures are caught and logged by the source. The model has no rollback either, so a failed save leaves the element in the local list.
- The extra row columns (`whiteboard_id`, `created_by`, `created_at`) are not modelled, and neither is the `created_at` ordering of the initial query. Elements carry only `id`, `type` and `data`.
- An element `type` string other than `line`, `rectangle`, `circle` or `text` is not modelled. Such rows would render as nothing.
- Pointer coordinates are integers. Konva's floating-point positions and the circle's centre/radius arithmetic in `renderElement` are rendering and are not modelled.
- The JavaScript drag mutates the last element object in place. The model replaces it by value. No other reference to that object, such as an already sent save request, is affected.
- React artefacts are not modelled: asynchronous batching, stale closures (mouse-up reads the list captured at render time) and `useEffect` lifecycle.
- `prompt`, `confirm` and `uuidv4` are not modelled. Their results are supplied as event fields.
- Board sharing (`shareWhiteboard` and its modal) is not modelled. It is a profile lookup plus a permission insert.
- The header's online count and avatar overflow display are presentation and are not modelled.
- src/components/Dashboard.js is not part of this model. It is board listing and creation over the store.
- src/app/page.js is not part of this model. It is authentication-driven view routing.
- Reconnect resync and board clearing as seen by a later load are properties of the store and transport, not of this code, so they are not modelled.
