# AirNote: a Dafny model of the flashcard core

AirNote is a visionOS flashcard app. Each card carries an English word, its
Japanese meaning, a part of speech, a memo, a colour name and a pose in
space. The app shows its cards in two places: the main window, as
hand-built card entities, and an immersive space, as cards built from a
3D model template. In both places the user can move, flip and delete cards.

This project models the sequential logic under the rendering.

| File | Module | Models |
|---|---|---|
| `basics.dfy` | `Basics` | shared wrappers (`Option`, `Outcome`, `Run`) and opaque poses |
| `seqs.dfy` | `Seqs` | an order-preserving filter and the subsequence relation |
| `cards.dfy` | `Cards` | the `Card` record and its keyed JSON codec, at record level |
| `store.dfy` | `Store` | `CardStore`: add, remove, clear, save and load over one snapshot slot, plus the colour filter and the position commit that both views use |
| `mailbox.dfy` | `Mailbox` | `AppModel`'s two one-slot request mailboxes |
| `textures.dfy` | `Textures` | font sizes, the colour-name fallback, and what each card face shows |
| `entities.dfy` | `Entities` | entity trees, the nearest-ancestor lookup, the pre-order descendant search, and the material-name dispatch for textures |
| `modeled_card.dfy` | `ModeledCard` | `ModeledNoteCardEntity`: construction from a template, and flip |
| `note_card.dfy` | `NoteCard` | `NoteCardEntity`: its node tree and the flip toggle |
| `immersive.dfy` | `Immersive` | `ImmersiveView`: drag, tap, and rebuilding the entities |
| `main_view.dfy` | `MainView` | `ContentView`: rendering, the tap walk, and the drag commit |

## Modelling choices

**Floats.** `Float` values are IEEE-754 single-precision bit patterns (`bv32`) and are only copied.
- The store's fixed position (0, 1.5, -1.6) is `0x00000000, 0x3FC00000, 0xBFCCCCCD`.
- The lifted position (0, 0, -0.5) is `0, 0, 0xBF000000`.
- The one float property the code depends on is finiteness. JSON encoding refuses NaN and infinity, and that refusal is the failing branch of `saveCards`.

**Persistence.** The UserDefaults slot is an `Option<Blob>`. A blob holds either the encoded records or unreadable bytes. JSON is modelled as a map from coding key to value.
- A UUID is stored as its 36-character text.
- A rotation shorter than four numbers makes decoding trap (`Trap`). The trap reaches `loadCards` as `Crashed`, because `try?` catches thrown errors but not traps.

**Entities.** Entities are immutable trees. Each node has:
- a name;
- a kind: plain, model, note card carrying its card and flip state, or modeled card carrying its card and flip animation;
- a transform;
- optional materials;
- animation names;
- an ordered list of children.

**Hit tests.** A gesture's hit is its parent chain `[hit, parent, grandparent, …]`. Walking `parent` from the hit node visits exactly these nodes.

**Traps.** `fatalError` and out-of-range indexing become `Crashed` / `Trap` results. They are not preconditions.

**Effects.** Gestures and callbacks are functions from one state record to the next. A flip in the immersive space only plays an animation, so it returns the request to play it.

**Duplicated formulas.** `NoteCardEntity` repeats `TextureGenerator`'s font-size formulas, at RealityKitEntities/NoteCardEntity.swift lines 135, 162 and 179. Both sources use the single `Textures` definition.

**Three points of the code worth stating, since a reader might expect otherwise:**
- `Card` has no size field; only the add-card request carries one;
- loading can trap, because a short rotation array is indexed without a length check;
- neither view writes a card's rotation back after a move.

## Model

| member | source | states |
|---|---|---|
| Seqs.Filter | AirNote-VisionPro2/ImmersiveView.swift:96 | the kept elements are exactly those that satisfy the predicate, with their multiplicities and in their original order; a predicate that keeps every element gives back the input |
| Cards.UuidRoundTrip | Models/Card.swift:30 | parsing a UUID's text form gives back the same UUID, so decoding keeps the stored id and does not generate a fresh one |
| Cards.EncodeCard | Models/Card.swift:41-51 | encoding succeeds exactly when every float is finite; the record holds exactly the eight coding keys and no size key, each text field under its own key; the position is written as [x, y, z] and the rotation as [imag.x, imag.y, imag.z, real]; an error names the position before the rotation |
| Cards.WrongEntry | Models/Card.swift:30-37 | a keyed decode of an unusable entry throws key-not-found for a missing key, value-not-found for a null, and type-mismatch otherwise |
| Cards.DecodeText | Models/Card.swift:31-35 | a text key decodes exactly when present and textual; otherwise it throws the error for that kind of entry |
| Cards.DecodeFloats | Models/Card.swift:37 | a float-array key decodes exactly when present and numeric; otherwise it throws the error for that kind of entry |
| Cards.DecodeId | Models/Card.swift:30 | the id decodes exactly when its text is a well-formed UUID in either case, and the result is that UUID |
| Cards.DecodePosition | Models/Card.swift:36 | a position decodes from an array of exactly three numbers, in order |
| Cards.DecodeCard | Models/Card.swift:28-39 | a record decodes exactly when all eight keys hold values of their types, the id is a well-formed UUID, the position has three numbers and the rotation at least four; it traps exactly when everything but the rotation's length is right and the rotation is shorter than four; a decoded card takes every field from its key, the position as [x, y, z] and the rotation from indices 0 to 3 as ix, iy, iz, r |
| Cards.ExtraRotationIgnored | Models/Card.swift:37-38 | numbers past the fourth in the rotation array do not change the result of decoding |
| Cards.CardRoundTrip | Models/Card.swift:28-51 | decoding the encoding of a finite card gives back the same card |
| Cards.MissingKeyFails | Models/Card.swift:30-37 | a record missing any of the eight keys fails to decode with a thrown error, not a trap |
| Cards.ExtraKeyIgnored | Models/Card.swift:14-16 | keys other than the eight coding keys do not affect decoding |
| Cards.EncodeCards | Models/CardStore.swift:40 | an array encodes exactly when every card does, record by record in order |
| Cards.FirstUndecodable | Models/CardStore.swift:48 | the first record of an array that does not decode: every record before it decodes, and there is none exactly when every record decodes |
| Cards.DecodeCards | Models/CardStore.swift:48 | an array decodes exactly when every record does, one card per record in order; otherwise the first record that fails decides whether the whole decode throws or traps |
| Cards.CardsRoundTrip | Models/CardStore.swift:38-52 | decoding the encoding of an array of finite cards gives back the same array |
| Store.Shared | Models/CardStore.swift:13-18 | the shared store starts with no cards, no filters and no just-added id, over whatever the slot holds |
| Store.SaveCards | Models/CardStore.swift:38-43 | saving never changes the in-memory store; the slot gets the encoding when every card encodes and is left as it was otherwise |
| Store.LoadCards | Models/CardStore.swift:45-52 | stored data that decodes replaces the cards, and nothing else changes; a missing slot, unreadable bytes or a decoding error leave the store unchanged; a trap while decoding crashes |
| Store.AddCard | Models/CardStore.swift:23-31 | appends exactly one card and leaves every earlier card unchanged; the new card is the given card with position (0, 1.5, -1.6); justAddedCardID is its id; the result is saved |
| Store.RemoveCard | Models/CardStore.swift:33-36 | the remaining cards are exactly those with a different id, in their original order and with their multiplicities; an absent id leaves the list unchanged; the result is saved |
| Store.ClearAllCards | Models/CardStore.swift:54-57 | leaves no cards and stores the encoding of the empty list |
| Store.IndexOfId | AirNote-VisionPro2/ImmersiveView.swift:35 | the first index holding the id, or none exactly when no card has it |
| Store.CommitPosition | AirNote-VisionPro2/ImmersiveView.swift:35-37 | the first card with the id takes the new position; its other fields and every other card stay as they were, and the list is saved; a missing id changes nothing |
| Store.CardsToDisplay | AirNote-VisionPro2/ImmersiveView.swift:92-97 | with no filter the displayed cards are the stored cards in order; otherwise they are exactly the cards whose colour is selected, as an order-preserving subsequence with their multiplicities |
| Store.LoadAfterSave | Models/CardStore.swift:38-52 | loading, in a fresh store, what was saved from finite cards gives back those cards |
| Store.FailedSaveKeepsSnapshot | Models/CardStore.swift:38-43 | when some card cannot be encoded, saving leaves the store and its slot unchanged |
| Store.ClearedStoreReloadsEmpty | Models/CardStore.swift:45-57 | after clearing, a fresh load finds no cards |
| Store.AddedCardSurvivesReload | Models/CardStore.swift:23-52 | after adding a card, a fresh load gives the earlier cards followed by the added card at (0, 1.5, -1.6) |
| Store.AddKeepsIdsUnique | Models/CardStore.swift:23-31 | adding a card with a fresh id keeps ids unique, and the new id occurs only at the end |
| Store.RemoveKeepsIdsUnique | Models/CardStore.swift:33-36 | removing keeps ids unique, and no card with the removed id remains |
| Store.CommitKeepsIdsUnique | AirNote-VisionPro2/ImmersiveView.swift:35-37 | a position commit keeps ids unique |
| Mailbox.Initial | AirNote-VisionPro2/AppModel.swift:30-37 | the space starts closed and both slots start empty |
| Mailbox.RequestAddCard | AirNote-VisionPro2/AppModel.swift:41-43 | the add slot holds the new request; the flip slot and the space state are untouched |
| Mailbox.DidAddCard | AirNote-VisionPro2/AppModel.swift:46-48 | the add slot is emptied; nothing else changes |
| Mailbox.RequestFlipAll | AirNote-VisionPro2/AppModel.swift:51-53 | the flip slot holds front exactly when toFront is true, and back otherwise; nothing else changes |
| Mailbox.DidFlipAll | AirNote-VisionPro2/AppModel.swift:56-58 | the flip slot is emptied; nothing else changes |
| Mailbox.AddRequestLastWriteWins | AirNote-VisionPro2/AppModel.swift:41-48 | a second send overwrites an unconsumed first one, and consuming leaves the slot as if neither had been sent |
| Mailbox.SlotsIndependent | AirNote-VisionPro2/AppModel.swift:30-58 | sends to the two slots commute, and consuming one slot keeps the other's request |
| Textures.FrontFontSize | RealityKitEntities/TextureGenerator.swift:17 | 128 points for at most five characters; always within [64, 128]; 64 exactly from sixteen characters on; six points less per character in between |
| Textures.BackEnglishFontSize | RealityKitEntities/TextureGenerator.swift:40 | 64 points for at most five characters; always within [32, 64]; 32 exactly from thirteen characters on; four points less per character in between |
| Textures.BackJapaneseFontSize | RealityKitEntities/TextureGenerator.swift:49 | 96 points for at most five characters; always within [42, 96]; 42 exactly from sixteen characters on; five points less per character in between |
| Textures.FrontFontSizeNonIncreasing | RealityKitEntities/TextureGenerator.swift:17 | a longer front text never gets a larger font |
| Textures.BackEnglishFontSizeNonIncreasing | RealityKitEntities/TextureGenerator.swift:40 | a longer English word never gets a larger font |
| Textures.BackJapaneseFontSizeNonIncreasing | RealityKitEntities/TextureGenerator.swift:49 | a longer Japanese text never gets a larger font |
| Textures.CardColor | RealityKitEntities/TextureGenerator.swift:78-85 | pink, blue, green and gray each map to their own colour, and every other name maps to beige |
| Textures.ImageWithText | RealityKitEntities/TextureGenerator.swift:6-29 | the front face shows the text on the given background at the front font size for that text |
| Textures.GeneratedBackSide | RealityKitEntities/TextureGenerator.swift:31-73 | the memo frame is drawn exactly when the memo is non-empty; the back shows the given texts at the English and Japanese font sizes for them |
| Textures.NoteCardBackSide | RealityKitEntities/NoteCardEntity.swift:149-206 | the hand-built card always draws the memo frame, even for an empty memo, and uses the same font sizes as the generated back |
| Textures.BackSidesDifferOnlyForEmptyMemo | RealityKitEntities/TextureGenerator.swift:57-68 | the two back-side drawings agree exactly when the memo is non-empty |
| Entities.PlacedAt | AirNote-VisionPro2/ImmersiveView.swift:101-103 | a placed entity takes the card's position and rotation; its scale and everything else are kept |
| Entities.NearestFrom | AirNote-VisionPro2/ImmersiveView.swift:122-131 | the first node of the requested type at or above the start, and none exactly when no such node is in the chain |
| Entities.FindNearestAncestor | AirNote-VisionPro2/ImmersiveView.swift:122-131 | the walk returns the node itself when it has the type, otherwise the closest ancestor that has it, and nil when none does |
| Entities.FindAllDescendants | RealityKitEntities/ModeledNoteCardEntity.swift:107-118 | the result is the pre-order listing of the descendants filtered by type; a node is in it exactly when it has the type and lies strictly below the root; the root itself is never in it |
| Entities.TypedDescendantsIsFilteredForest | RealityKitEntities/ModeledNoteCardEntity.swift:109-118 | the recursive search (each child, then its own descendants, children left to right) equals the type filter of the pre-order listing |
| Entities.PreOrderHoldsExactlyBelow | RealityKitEntities/ModeledNoteCardEntity.swift:111-116 | the pre-order listing holds exactly the nodes strictly below the root |
| Entities.NotBelowItself | RealityKitEntities/ModeledNoteCardEntity.swift:111-116 | no node lies below itself, so the search never returns the node it starts from |
| Entities.FindEntity | RealityKitEntities/ModeledNoteCardEntity.swift:15 | a found node has the name and lies below the root; nothing is found exactly when no node below has the name |
| Entities.Retexture | RealityKitEntities/ModeledNoteCardEntity.swift:66-81 | a model part whose first material is named BackMaterial gets the front texture; one named FrontMaterial gets the back texture; any other part is unchanged |
| Entities.ApplyTextures | RealityKitEntities/ModeledNoteCardEntity.swift:44-83 | nothing changes when a texture is missing or the tree has no model parts; the root node itself is never retextured |
| Entities.ApplyTexturesPointwise | RealityKitEntities/ModeledNoteCardEntity.swift:65-81 | every node below the root keeps its place in the tree and becomes its retextured self |
| ModeledCard.FrontImage | RealityKitEntities/ModeledNoteCardEntity.swift:46 | the front shows the English word on the card's colour, sized by the front font-size rule |
| ModeledCard.BackImage | RealityKitEntities/ModeledNoteCardEntity.swift:50-52 | the back shows the card's English, Japanese, part of speech and memo on its colour, each text sized by its back font-size rule, with the memo frame exactly when the memo is non-empty |
| ModeledCard.FlipAnimationOf | RealityKitEntities/ModeledNoteCardEntity.swift:20-25 | the flip animation is "default subtree animation", present exactly when the template's "flip" node has it |
| ModeledCard.Control | RealityKitEntities/ModeledNoteCardEntity.swift:88-101 | each control is a model entity with the given name (deleteButton or dragHandle) and no children |
| ModeledCard.TexturedModel | RealityKitEntities/ModeledNoteCardEntity.swift:18-29 | the copied base model keeps its own root node, and only nodes below it can be retextured |
| ModeledCard.TexturedModelRetexturesParts | RealityKitEntities/ModeledNoteCardEntity.swift:44-81 | a base model with no model parts is copied unchanged; otherwise every node below its root keeps its place and is retextured with this card's front and back faces |
| ModeledCard.MadeCardIsTextured | RealityKitEntities/ModeledNoteCardEntity.swift:18-29 | the base model of a built card is the template's "_default" node with the same tree shape, and each node below it is retextured with the card's faces |
| ModeledCard.Assemble | RealityKitEntities/ModeledNoteCardEntity.swift:27-30 | the card node carries its card and flip animation; its children are the base model, the delete button and the drag handle, in that order |
| ModeledCard.Make | RealityKitEntities/ModeledNoteCardEntity.swift:12-33 | construction traps exactly when the template has no "_default" node; otherwise the card has three children: the textured copy of "_default", then the delete button, then the drag handle |
| ModeledCard.Flip | RealityKitEntities/ModeledNoteCardEntity.swift:39-42 | flip does nothing without a flip animation; otherwise it plays that animation on the base model |
| ModeledCard.MadeCardFlips | RealityKitEntities/ModeledNoteCardEntity.swift:20-42 | a card assembled as the initializer does flips exactly when its template carries the flip animation |
| NoteCard.Make | RealityKitEntities/NoteCardEntity.swift:13-102 | a new card is not flipped; deleteButton is a child of the front plane; dragHandle is a child of the base; the front plane shows the English word on cream at the front font size; the back plane is turned half a turn about y and always carries the memo frame |
| NoteCard.TargetAngle | RealityKitEntities/NoteCardEntity.swift:110-111 | the target angle is a half turn exactly when the card is flipped |
| NoteCard.Flip | RealityKitEntities/NoteCardEntity.swift:108-122 | flip toggles isFlipped; the base keeps its scale and translation and is rotated about y to the target angle; nothing else changes |
| NoteCard.FlipTwiceRestoresFace | RealityKitEntities/NoteCardEntity.swift:108-109 | two flips restore the card's kind and flip state |
| NoteCard.FlipTimesParity | RealityKitEntities/NoteCardEntity.swift:108-109 | after n flips the card shows the face opposite to where it started exactly when n is odd |
| Immersive.DragTargetOf | AirNote-VisionPro2/ImmersiveView.swift:23-27 | a drag target exists exactly when a modeled card is at or above the hit node and the hit node is not the delete button; the target is the nearest such card |
| Immersive.DragChanged | AirNote-VisionPro2/ImmersiveView.swift:22-33 | a target is chosen only while nothing is dragged; once chosen it is never replaced; the dragged entity follows the location and only its translation changes; nothing else changes |
| Immersive.DragEnded | AirNote-VisionPro2/ImmersiveView.swift:34-40 | the matching card takes the entity's position through the commit; the drag is cleared in every case |
| Immersive.TapDecision | AirNote-VisionPro2/ImmersiveView.swift:46-54 | a tap is ignored during a drag or away from any card; otherwise a tap on the delete button deletes the nearest card and any other tap flips it |
| Immersive.Tap | AirNote-VisionPro2/ImmersiveView.swift:46-54 | a delete tap is the store's removal of that card, saved, with the filters and the just-added marker kept: no card with that id is left and the others stay in order; any other tap changes nothing |
| Immersive.BuildEntities | AirNote-VisionPro2/ImmersiveView.swift:99-105 | one entity per displayed card, in order, each the card built from that card and the template, placed at its card's position and rotation; building crashes exactly when there is a card to build and no "_default" node |
| Immersive.UpdateCardEntities | AirNote-VisionPro2/ImmersiveView.swift:87-118 | nothing happens during a drag or before the template is loaded; otherwise each filtered card is built from the template and placed at its pose, in order, and justAddedCardID is cleared; the template and the drag state are never changed |
| Immersive.RefreshContent | AirNote-VisionPro2/ImmersiveView.swift:65-72 | the scene shows the built entities, except during a drag, when it is left as it is |
| Immersive.DragFreezesScene | AirNote-VisionPro2/ImmersiveView.swift:65-89 | once a drag has started, neither a rebuild nor a refresh changes anything |
| Immersive.DeleteButtonNeverStartsDrag | AirNote-VisionPro2/ImmersiveView.swift:23-27 | on any card assembled as the initializer does, a drag from the delete button picks no target, while a drag from the drag handle picks the card |
| Immersive.TapOnDeleteButtonRemovesCard | AirNote-VisionPro2/ImmersiveView.swift:47-49 | tapping the delete button of any card assembled as the initializer does, outside a drag, removes that card's id from the store |
| Immersive.BuiltCardsHaveWorkingControls | AirNote-VisionPro2/ImmersiveView.swift:22-54 | every card the rebuild places carries its card and the template's flip animation; a drag from its delete button picks no target, one from its drag handle picks the card, and outside a drag a tap on its delete button removes that card |
| Immersive.DragSessionMovesOnlyThatCard | AirNote-VisionPro2/ImmersiveView.swift:22-40 | a complete drag stores the last location as the dragged card's position and moves no other card |
| MainView.Placed | AirNote-VisionPro2/ContentView.swift:19-21 | each rendered card is a fresh, unflipped card entity at the card's stored position and rotation |
| MainView.Rebind | AirNote-VisionPro2/ContentView.swift:24-26 | a dragged card is rebound to the last new entity with its id, or kept as it is when there is none |
| MainView.Scene | AirNote-VisionPro2/ContentView.swift:17-22 | one placed entity per stored card, in order |
| MainView.Render | AirNote-VisionPro2/ContentView.swift:14-28 | every stored card is rendered, with no colour filter, as the hand-built card for it at its pose; the dragged card is rebound; the store is untouched |
| MainView.ControlAction | AirNote-VisionPro2/ContentView.swift:38-61 | a delete button or drag handle acts exactly when a card entity is at or above it: the delete button removes that card and the drag handle starts moving it |
| MainView.FallbackFlip | AirNote-VisionPro2/ContentView.swift:67-69 | with no acting control, the card flips exactly when the hit node's grandparent is a card entity |
| MainView.TapFrom | AirNote-VisionPro2/ContentView.swift:34-70 | the first acting control on the walk decides the tap; with none, the grandparent rule applies |
| MainView.WalkTap | AirNote-VisionPro2/ContentView.swift:34-70 | the walk's loop gives the same outcome as the first-acting-control rule; without an action, no node on the chain could act |
| MainView.Tap | AirNote-VisionPro2/ContentView.swift:34-70 | a tap on a chain without a card changes nothing; the first control on the walk that finds its card decides the tap; with no acting control the grandparent rule decides; the store can only lose a card found on the chain, and only a card on the chain, lifted to (0, 0, -0.5), can become the moved card |
| MainView.FirstActingControlDecides | AirNote-VisionPro2/ContentView.swift:37-63 | whichever control is the first on the walk to find its card, the walk's outcome is that control's action |
| MainView.ApplyTap | AirNote-VisionPro2/ContentView.swift:39-69 | a removal updates the store and toggles the redraw flag; a drag start records the card lifted to (0, 0, -0.5) and moves it there in the scene; a flip turns that card in the scene and leaves the redraw flag alone |
| MainView.CommitDrag | AirNote-VisionPro2/ContentView.swift:129-141 | with the id still stored: the first matching card takes the position, the store is saved, the drag is cleared and the redraw flag toggles; without it nothing changes and the drag stays set |
| MainView.Appear | AirNote-VisionPro2/ContentView.swift:125-127 | appearing loads the stored cards and crashes exactly when loading does |
| MainView.RenderedCardChains | RealityKitEntities/NoteCardEntity.swift:40-98 | the parent chains from the glyph, delete button, front plane, back plane and drag handle of a rendered card, with the names and kinds of their nodes |
| MainView.RenderedSceneIsPlaced | AirNote-VisionPro2/ContentView.swift:14-47 | each rendered entry is the hand-built card for its stored card, moved to the card's position, and a tap on its delete button removes that card |
| MainView.TapOnDeleteButtonRemoves | AirNote-VisionPro2/ContentView.swift:39-47 | tapping a rendered card's delete button removes that card |
| MainView.TapOnGlyphRemoves | AirNote-VisionPro2/ContentView.swift:37-63 | tapping the glyph on the delete button removes the card, because the walk reaches the button one step up |
| MainView.TapOnDragHandleStartsDrag | AirNote-VisionPro2/ContentView.swift:49-57 | tapping the drag handle starts moving its card |
| MainView.DragHandleMovesCardForward | AirNote-VisionPro2/ContentView.swift:129-138 | a drag-handle tap followed by the commit stores (0, 0, -0.5) as the first matching card's position and changes no other card |
| MainView.TapOnFaceFlips | AirNote-VisionPro2/ContentView.swift:67-69 | tapping either face of a rendered card flips it |
| MainView.TapOnCardNodeDoesNothing | AirNote-VisionPro2/ContentView.swift:67-69 | tapping the card node itself does nothing, since no card is two levels up |
| MainView.NoControlActs | AirNote-VisionPro2/ContentView.swift:59-63 | a chain without control names passes through the walk without any action |

## Left out

- Rendering. Image drawing, fonts, rectangles, meshes, collision shapes, materials' colours and RGB values are not modelled. Faces record only their texts, integer font sizes, colour name and memo frame.
- Texture resource creation. In the immersive card, a failed texture creation returns early; the model takes the two textures as optional inputs. In the hand-built card it traps (`try!`), which is not modelled.
- Persistence bytes. UserDefaults, the `"savedCards"` key and the JSON text are not modelled. The slot holds the encoded records or an unreadable blob.
- SIMD3 decoding. The platform decoder is taken to accept exactly three numbers.
- `findEntity(named:)`. This platform search is taken as the first match in pre-order among the descendants.
- Control offsets and plane offsets. The fixed positions of the delete button, drag handle, glyph and planes are not modelled. These nodes carry the identity transform, apart from the back plane's half turn.
- Coordinate conversion. `value.convert` is an input: the drag location is given already converted. The force-unwrapped parent of a dragged entity is assumed present.
- Timing. `Task`, `MainActor`, the 10 ms and 0.3 s delays, asynchronous template loading and NotificationCenter delivery are not modelled. Each callback is one step.
- Triggering. When SwiftUI runs each callback (`onChange`, the redraw trigger) is not modelled.
- `flip(toFront:)` and `playStickAnimation()`. They are called from the immersive view but not defined in ModeledNoteCardEntity.swift, so the flip-all notification handler and the just-added animation are left out. The just-added marker is still cleared.
- Consuming `addCardRequest` and `flipAllRequest`. Neither view reads them, so only the mailbox operations are modelled.
- The size field. It exists only in `AddCardRequestData`; cards have none, and no size default or scaling is modelled.
- `Card.init(english:…)`. The memberwise initializer with a random UUID is not modelled; cards are given with their ids.
- `String.count`. It is taken as the number of characters in the Dafny string, with no grapheme clustering.
- Replacement materials. The material that replaces a textured part is taken to have no name.
- SwiftUI views. AddCardView, MainMenuView, CardListView, CardDetailView and the App entry point are layout that only forwards to the operations above.
- Object identity. Entities are values, not references. A drag in the main window moves the tapped entity wherever an equal entity appears in the scene. In the immersive space a drag moves the copy held as the dragged entity: the card's entry in the built entities keeps its old pose until the next rebuild, where the app moves the one shared entity.
- MainView.WalkTap: requires that every card entity in the hit chain has its base entity as a child. The card initializer always adds it, so every real chain meets this.
- MainView.TapFrom: has the same requirement as WalkTap, for the same reason.
- MainView.ControlAction: has the same requirement as WalkTap, for the same reason.
- MainView.Tap: has the same requirement as WalkTap, for the same reason.
