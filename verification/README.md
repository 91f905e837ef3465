# REveScene change tracking and streaming, in Dafny

This project models how an EVE-7 scene (`REveScene`) collects the changes
made to its elements and streams them to its web clients, and how the list
of scenes (`REveSceneList`) drives all scenes at once. It covers these
parts of the scene:

- the accepting-changes window (`BeginAcceptingChanges` /
  `EndAcceptingChanges`);
- the subscriber registry (`AddSubscriber` / `RemoveSubscriber`);
- the three pending collections (changed, added, removed) and `IsChanged`;
- the full snapshot (`StreamElements` with its depth-first
  `StreamJsonRecurse`);
- the incremental diff (`StreamRepresentationChanges`);
- the shared two-pass binary packing;
- delivery to subscribers (`SendChangesToSubscribers`).

For the list it covers the accept broadcast (`AcceptChanges`) and the sync
tick (`ProcessSceneChanges`).

Everything is functional. A scene is an immutable record, and every
operation returns the next record. The source's `assert`s become
`requires`.

| file | module | contents |
|---|---|---|
| `elements.dfy` | `Elements` | The element tree, with a `SceneRoot` role standing for `fScene == this`. Also the change bits and clearing of change stamps. |
| `wire.dfy` | `Wire` | Abstract wire records in place of JSON text; the encoder `WriteCoreJson`; sends as trace events. |
| `packing.dfy` | `Packing` | The two-pass packing: first-pass entries (`fElsWithBinaryData`), the running total, the write loop, and the final size check. |
| `ordering.dfy` | `Ordering` | The iteration order of a pending set. |
| `scene.dfy` | `Scenes` | Scene state, the window, the registry and the pending collections. |
| `streaming.dfy` | `Streaming` | Snapshot, diff, and delivery. |
| `scene_list.dfy` | `SceneLists` | The scene list. |

The JSON a scene produces is a `Json` value:

- `Snapshot`: the scene id, the commands, the total binary size and the records.
- `Changes`: the scene id, the removed ids, the changed count, the total binary size and the records.

Each record is one of:

- `Full`: a core encoding;
- `Change`: id, change bits, and optional visibility, colour-selection and object-properties parts.

A record may announce a slice of the binary frame (`RenderRef(offset, size)`). The binary frame is a byte sequence. The contracts tie the two together:

- each listed payload sits in the frame at the offset its record announced;
- the frame's length is the announced total;
- every record that announces a slice has its payload listed. The one exception is a nested scene's record in a snapshot (see below).

## Model

| member | source | states |
|---|---|---|
| Scenes.BeginAcceptingChanges | graf3d/eve7/src/REveScene.cxx:90-95 | Afterwards the scene accepts exactly when it already accepted or has at least one subscriber; no other field changes |
| Scenes.EndAcceptingChanges | graf3d/eve7/src/REveScene.cxx:119-124 | Afterwards the scene never accepts; an idle scene is returned unchanged; no other field changes |
| Scenes.BeginIsIdempotent | graf3d/eve7/src/REveScene.cxx:90-95 | Opening an already opened window changes nothing |
| Scenes.WindowRoundTrip | graf3d/eve7/src/REveScene.cxx:119-124 | Closing after opening returns an idle scene to exactly its previous state |
| Scenes.NoSubscribersNoWindow | graf3d/eve7/src/REveScene.cxx:94 | An idle scene without subscribers stays idle when asked to accept |
| Scenes.AddSubscriber | graf3d/eve7/src/REveScene.cxx:68-77 | Requires a non-null client and an idle scene; the client is appended after the existing ones; nothing else changes |
| Scenes.Without | graf3d/eve7/src/REveScene.cxx:83-87 | The kept clients are exactly those whose id differs, and there are never more of them than before |
| Scenes.WithoutAppend | graf3d/eve7/src/REveScene.cxx:87 | Removal distributes over concatenation, so the kept clients stay in their original relative order |
| Scenes.WithoutIdempotent | graf3d/eve7/src/REveScene.cxx:87 | Removing an id twice is removing it once |
| Scenes.RemoveSubscriber | graf3d/eve7/src/REveScene.cxx:79-88 | Requires an idle scene; the registry becomes `Without(subscribers, id)`, the clients with another id in their original order; with no client of that id the scene is unchanged; nothing but the registry changes |
| Scenes.RemoveUndoesAdd | graf3d/eve7/src/REveScene.cxx:68-88 | Removing the id of a freshly added client with a new id restores the scene |
| Scenes.SceneElementChanged | graf3d/eve7/src/REveScene.cxx:97-102 | Requires an accepting scene; the changed set gains the element; nothing else changes |
| Scenes.SceneElementAdded | graf3d/eve7/src/REveScene.cxx:104-109 | Requires an accepting scene; the added set gains the element; nothing else changes |
| Scenes.SceneElementRemoved | graf3d/eve7/src/REveScene.cxx:112-117 | Requires an accepting scene; the id is appended at the end of the removed list; nothing else changes |
| Scenes.ReportingTwiceIsReportingOnce | graf3d/eve7/src/REveScene.cxx:97-109 | Reporting the same changed or added element twice leaves the scene as reporting it once does |
| Scenes.RemovingTwiceKeepsBoth | graf3d/eve7/src/REveScene.cxx:112-117 | Reporting the same removed id twice keeps both entries, in order |
| Scenes.IsChanged | graf3d/eve7/src/REveScene.cxx:325-330 | True exactly when the three collections hold at least one entry between them; it is a pure predicate of the scene |
| Scenes.ReportMarksChanged | graf3d/eve7/src/REveScene.cxx:97-117 | After any of the three reports the scene counts as changed |
| Elements.ClearStamps | graf3d/eve7/src/REveScene.cxx:272 | Resetting the stamps of the named elements keeps each element's id, role, visibility flags and render data, and its number of children. A named element's stamps become zero. Clearing no ids changes nothing. The per-element contract for the whole tree is `ClearStampsFind` |
| Elements.ClearStampsTwice | graf3d/eve7/src/REveScene.cxx:272 | Clearing the same stamps twice leaves the tree as clearing them once does |
| Elements.ClearStampsFind | graf3d/eve7/src/REveScene.cxx:272 | Clearing stamps keeps every element of the tree and all its data except the stamps; an element's stamps become zero exactly when it was in the cleared set |
| Ordering.Ascending | graf3d/eve7/src/REveScene.cxx:235 | The iteration order of a pending set visits every member exactly once, and no other id |
| Packing.Push | graf3d/eve7/src/REveScene.cxx:194-199 | A counted payload is listed at the running total, which then grows by its size; the records grow by one; the first-pass invariant is kept |
| Packing.PackedOrdered | graf3d/eve7/src/REveScene.cxx:169-172 | Listed payloads follow the order of the records that announced them |
| Packing.PushCovered | graf3d/eve7/src/REveScene.cxx:194-199 | A record that announces a slice and is counted has its payload listed, and stays so as more are pushed |
| Packing.WriteAll | graf3d/eve7/src/REveScene.cxx:169-172 | The write loop puts the payloads one after another from the current position; the returned position is that position plus their sizes |
| Packing.PackBinary | graf3d/eve7/src/REveScene.cxx:166-173 | The frame's length equals the announced total (the source's final assert), the total is a multiple of 4, the frame is the payloads in list order, and each payload sits at its offset |
| Streaming.StreamJsonRecurse | graf3d/eve7/src/REveScene.cxx:180-206 | Emits one record per visited element, parent before children. Each record is its element's full encoding and announces a slice of the render data's length exactly when the element has render data. Each listed payload is its element's render data. A nested scene gets only its own record, with no count and no children. Every announcing record except a nested scene's has its payload listed, and no listed payload belongs to a nested scene below the argument |
| Streaming.StreamJsonRecurseAll | graf3d/eve7/src/REveScene.cxx:202-205 | The children are streamed one after another, in order. Each record is its element's full encoding, and every announcing record except a nested scene's has its payload listed. No payload they list belongs to a nested scene |
| Streaming.Finish | graf3d/eve7/src/REveScene.cxx:166-175 | Packs the frame, which has the total's length, with every payload at the offset its record announced, in record order |
| Streaming.StreamElements | graf3d/eve7/src/REveScene.cxx:131-178 | The snapshot header names the scene, carries the commands only when there are any, and carries the frame's length. The records are the full encodings of the scene itself and then of its walk. The frame agrees with the records. Every announcing record except a nested scene's is covered, and no listed payload belongs to a nested scene, so the frame and its total leave nested scenes' render data out. Only the output changes |
| Streaming.SnapshotCarriesEveryPayload | graf3d/eve7/src/REveScene.cxx:189-199 | Every visited element that has render data and is not a nested scene has a listed payload equal to that data. The payload sits in the frame at the slice its record announces |
| Streaming.SnapshotOmitsNestedPayloads | graf3d/eve7/src/REveScene.cxx:189-199 | A nested scene below the snapshot's own scene has no listed payload, so none of its render data reaches the frame or the total |
| Streaming.NestedSceneIsOpaque | graf3d/eve7/src/REveScene.cxx:186-192 | A nested scene contributes exactly its own record and no payload, whatever it contains |
| Streaming.EmptySceneSnapshot | graf3d/eve7/src/REveScene.cxx:160-175 | A scene with no children and no render data streams one record and an empty frame |
| Streaming.ChangeEntry | graf3d/eve7/src/REveScene.cxx:237-272 | A changed element's record carries its id and bits. Visibility is present exactly when `kCBVisibility` is set. The element's structured-only encoding (id, role, visibility flags, no slice) is present exactly when `kCBColorSelection` is set. Its full, counted encoding is present exactly when `kCBObjProps` is set, and it announces a slice of the render data's length exactly when the element has render data |
| Streaming.AddedEntry | graf3d/eve7/src/REveScene.cxx:275-285 | An added element always gets its full encoding: its id, role and visibility flags, and a slice of its render data's length exactly when it has render data. That slice is listed |
| Streaming.TransBBoxCarriesNothing | graf3d/eve7/src/REveScene.cxx:254-256 | Setting `kCBTransBBox` changes only the reported bits and no payload |
| Streaming.ChangedEntries | graf3d/eve7/src/REveScene.cxx:235-273 | One record per changed element, in iteration order, each carrying that element's encodings as its bits select, all covered |
| Streaming.AddedEntries | graf3d/eve7/src/REveScene.cxx:275-285 | One record per added element, in iteration order, each that element's full encoding, all covered |
| Streaming.DiffPass | graf3d/eve7/src/REveScene.cxx:235-285 | The records are one per changed element and then one per added element, no element twice in either run. Each record carries its element's encodings. Each listed payload is the render data of the element that announced it. Every announcing record is covered |
| Streaming.StreamRepresentationChanges | graf3d/eve7/src/REveScene.cxx:213-310 | Afterwards the pending collections are empty. The tree is exactly the old tree with the changed elements' stamps cleared. The same ids are found before and after, with the same data. The header carries the old removed list in order, the changed count and the frame's length. The records list the changed and then the added elements, each with that element's encodings. The frame agrees with them |
| Streaming.SendChangesToSubscribers | graf3d/eve7/src/REveScene.cxx:312-323 | To each subscriber in registry order, the JSON and then, only when the frame is not empty, the frame. Every event goes to a subscriber |
| SceneLists.AcceptChanges | graf3d/eve7/src/REveScene.cxx:485-495 | Every scene has its window opened (or closed) as `BeginAcceptingChanges` (or `EndAcceptingChanges`) does; nothing else of any scene changes |
| SceneLists.AcceptRoundTrip | graf3d/eve7/src/REveScene.cxx:485-495 | Broadcasting on then off returns an idle list to itself |
| SceneLists.ProcessScene | graf3d/eve7/src/REveScene.cxx:551-555 | A changed scene becomes its `StreamRepresentationChanges` form, and its events are exactly `SendChangesToSubscribers` of that form. A quiet scene is untouched and silent. Sends happen exactly for changed scenes with subscribers |
| SceneLists.ProcessSceneChanges | graf3d/eve7/src/REveScene.cxx:545-557 | Each scene is replaced by its iteration. Afterwards nothing is pending anywhere. Every event delivers a changed scene's fresh output to one of its subscribers. A quiet list sends nothing |
| SceneLists.TickSplits | graf3d/eve7/src/REveScene.cxx:549-556 | The tick sends in list order: over two lists in a row it sends what the first list's tick sends, then what the second's sends |
| SceneLists.TickScenesSplit | graf3d/eve7/src/REveScene.cxx:549-556 | Over two lists in a row, the tick leaves the scenes as the two lists' ticks do, in the same order |
| SceneLists.TickOfOne | graf3d/eve7/src/REveScene.cxx:549-556 | A tick over one scene is that scene's iteration |
| SceneLists.SecondTickIsSilent | graf3d/eve7/src/REveScene.cxx:545-557 | A tick right after a tick changes nothing and sends nothing |
| SceneLists.ChangedSceneIsSent | graf3d/eve7/src/REveScene.cxx:552-555 | A changed scene with subscribers is sent to on the tick |
| SceneLists.SubscriberIsSent | graf3d/eve7/src/REveScene.cxx:315-321 | Every subscriber of a scene is sent its structured frame, and its binary frame too when that is not empty |
| SceneLists.SubscriberHears | graf3d/eve7/src/REveScene.cxx:315-321 | A changed scene's iteration sends its fresh JSON to every subscriber, and its binary frame too when that is not empty |
| SceneLists.HeardOnTick | graf3d/eve7/src/REveScene.cxx:549-556 | Whatever one scene's iteration sends is sent on the tick |
| SceneLists.EverySubscriberHears | graf3d/eve7/src/REveScene.cxx:545-557 | On a tick, every subscriber of every changed scene receives that scene's fresh JSON, and its binary frame when that is not empty |

## Where the model follows the code

- Only the elements in the changed set have their stamps cleared by the
  diff (line 272). Added elements keep theirs.
- The removed collection is a list (line 116). A repeated id is kept twice
  and sent twice.
- A nested scene's record is still encoded with the running offset
  (line 183), before the nested-scene test at line 189. If that scene had
  render data of its own, its record would announce a slice whose bytes
  are not in the frame. The model reproduces this. The coverage contracts
  of the snapshot therefore exempt records of scene roots other than the
  scene being streamed. The scene's own record has no such exemption.
- An element both changed and added gets two diff records, one in each run.

## Left out

- The destructor (`~REveScene`, lines 49-55): it reaches the global viewer and scene lists.
- `REveSceneList::DestroyScenes` (lines 471-480): it relies on element destruction and deny-destroy counts, which are not part of this model.
- The commented-out `Repaint`, `RetransHierarchically`, `RepaintChangedScenes`, `RepaintAllScenes` and `DestroyElementRenderers` (lines 333-450 and 496-537): they are not live code.
- The constructors, `CollectSceneParents` (lines 61-64) and the empty `ProcessChanges` (lines 126-129): they have no behaviour to state.
- The `printf` diagnostics: they are output only.
- JSON text: records are abstract datatypes. The header's `content` strings and the key names are not modelled.
- Wire.WriteCoreJson: `REveElement::WriteCoreJson` is not part of this model. It is a concrete stand-in whose stated contract is: the record carries the element's id, role and visibility flags; the size is the render data's length for a non-negative offset and zero for offset -1; it is a multiple of 4; a slice at that offset is announced exactly when the size is positive.
- `fRenderData->Write`: a payload is written as its bytes verbatim.
- JSON key merging: when `kCBColorSelection` and `kCBObjProps` are both set, the source writes both encodings into one JSON object, so the later overwrites the earlier's keys. The model keeps them as two separate parts of the record.
- The change-bit values (`kCBColorSelection` = 1, `kCBTransBBox` = 2, `kCBObjProps` = 4, `kCBVisibility` = 8) and `ClearStamps`: these come from `REveElement`, which is not part of this model. Clearing stamps is modelled as setting the change bits to zero.
- `fWebWindow->Send` / `SendBinary`: transport I/O, recorded as a trace of events.
- Ordering.Ascending: the source iterates its `std::set`s of element pointers in pointer order, which is not visible. The model iterates in ascending element id. Like the source's order, this visits every member exactly once, but it is not claimed to be the same order.
- Dangling element pointers: the source dereferences the pending element pointers. The model requires that every pending changed or added id names an element in the scene's tree. A dangling pointer is undefined behaviour and is outside the model.
- Streaming.StreamRepresentationChanges: it requires every pending changed or added id to be found in the scene's tree. In the source the pointers only need to be live. An element reported changed or added, then detached from the tree in the same window but not destroyed, is still streamed by lines 235-285. The model has no store of elements outside the tree, so it does not cover that case. The same requirement applies to `DiffPass` and `ProcessSceneChanges`.
- Element ids are taken to be unique within a scene's tree, since each element gets its own id. With a repeated id, `Find` resolves the first match in pre-order, while `ClearStamps` clears every node with that id.
- Integer widths: `rd_size`, `actual_binary_size` and `fTotalBinarySize` are 32-bit signed `Int_t` (lines 167, 170, 183, 262 and 278), while the model's sizes and totals are unbounded. Frames of 2^31 bytes or more, where the signed counters would overflow, are outside the model.
- `fTotalBinarySize` is not stored separately. It is the length of the binary frame, and the streaming contracts show that it equals the first pass's total.
