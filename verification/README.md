# Image text editor: overlay text list, in Dafny

This project models the core of an in-browser image-annotation editor.
The user clicks on an image to place editable text overlays. Each overlay
can then be typed into, focused, blurred (an empty one is deleted) and
dragged with the mouse while drag mode is on.

The model has four modules:

- `Wrappers` defines `Option`, the model of a TypeScript field that may be
  `undefined` and is read with `?? 0`.
- `TextList` models `component/InputTextList.tsx`. It holds the ordered
  `seq<Item>` of annotations, each with optional committed offsets
  (`offsetX`/`offsetY`) and optional live offsets
  (`currentOffsetX`/`currentOffsetY`). It also holds the drag bookkeeping
  (`DragState`: `dragging`, `activeIndex`, `initX`, `initY`). Every event
  handler is a pure function from the old state to the new one. The
  `dragable` prop is a parameter of the three document handlers.
- `Editor` models `component/Editor.tsx`. It holds the toolbar selections
  and their defaults, the toggles, and the construction of a new item from
  a click on the image.
- `App` joins the two into one state driven by a sequence of events. It
  proves that every reachable state draws each item at its live offset.
  It also holds the concrete scenarios: create, blur-delete, a drag
  gesture, and drag mode turned off mid-drag.

Where the editor's evident intent and its code differ, the model follows
the code:

- Focus does not clear the other items' resize handles.
- `mouseup` does not check `dragging`.
- Committing a drag copies the live offset into the committed one rather
  than adding a delta. A live offset that is absent stays absent.
- New items carry no offsets, rather than zero offsets. The list reads
  them as 0.

Blur issues two list writes from the same closure. Both are computed from
the list the handler saw, and React batches them, so the second write
wins. `BlurWrites` lists the two writes and `Batch` keeps the last one.

## Model

| member | source | states |
|---|---|---|
| `TextList.UpdateAt` | component/InputTextList.tsx:82-87 | the `map` rewrite keeps the length, applies the update at the matching index only, and leaves the list unchanged for an index past the end |
| `TextList.RemoveAt` | component/InputTextList.tsx:106-108 | `slice`/`concat` drops exactly element `index`, and later elements shift down by one; an index past the end (slice clamping) leaves the list unchanged |
| `TextList.BatchesCompose` | component/InputTextList.tsx:103-109 | the batched writes of two handlers, committed one after the other, leave the same state as one batch of all their writes in order, since the last write wins |
| `TextList.AddText` | component/InputTextList.tsx:64-65 | appending grows the list by exactly one, the new item is last, and every earlier item is unchanged |
| `TextList.AddAllAppends` | component/InputTextList.tsx:64-65 | any number of successive appends yields the old list followed by the new items in call order, so the length grows by the number of calls |
| `TextList.ChangeText` | component/InputTextList.tsx:77-89 | typing replaces only the text of item `index`; its other fields, all other items and the length are unchanged; a stale index changes nothing |
| `TextList.ChangeTextLastWins` | component/InputTextList.tsx:77-89 | two successive text changes on one item equal the second change alone |
| `TextList.ChangeTextSameValue` | component/InputTextList.tsx:77-89 | writing back an item's current text leaves the list unchanged |
| `TextList.BlurWrites` | component/InputTextList.tsx:96-110 | blur issues one write, or two exactly when the textarea is empty; the first is the list with only item `index`'s resize handle hidden, and the second is the list with item `index` removed |
| `TextList.Blur` | component/InputTextList.tsx:91-111 | an empty blur at an in-range index removes exactly that item and shifts later items down with their fields unchanged; a non-empty blur sets only that item's resize to none and keeps the length; an out-of-range index changes nothing |
| `TextList.BlurEmptyReinsert` | component/InputTextList.tsx:105-109 | an empty blur loses exactly the blurred item: re-inserting it at its index restores the original list |
| `TextList.FocusThenBlurHides` | component/InputTextList.tsx:96-125 | for every index and text, a focus followed by a blur has the same effect as the blur alone; with text it leaves the handle hidden, and without text it deletes the item |
| `TextList.BlurUndoesFocus` | component/InputTextList.tsx:96-125 | a non-empty blur undoes a focus on an item whose handle was hidden |
| `TextList.Focus` | component/InputTextList.tsx:113-126 | focus shows the resize handle of item `index` only; no other item, not even another item's resize flag, is touched |
| `TextList.SelectActive` | component/InputTextList.tsx:203-206 | pressing on an item records it as the active index and changes no other drag field, whatever the drag mode |
| `TextList.MouseDown` | component/InputTextList.tsx:137-142 | with drag mode on, a document mouse-down starts dragging at the pointer position and keeps the active index; with it off, nothing changes |
| `TextList.MouseMove` | component/InputTextList.tsx:163-187 | while dragging in drag mode, the active item's live offset and transform become its committed offset (absent read as 0) plus the pointer's displacement from where it went down; no committed offset, no other item and no drag field changes; otherwise nothing changes |
| `TextList.MouseUp` | component/InputTextList.tsx:145-160 | in drag mode, release clears `dragging` whether or not a drag was in progress, and copies the active item's live offsets into its committed offsets; other items are unchanged; with drag mode off, nothing changes |
| `TextList.MouseUpIdempotent` | component/InputTextList.tsx:145-160 | releasing twice yields the same state as releasing once |
| `TextList.DragDisabledFreezes` | component/InputTextList.tsx:137-187 | with drag mode off, mouse-down, mouse-move and mouse-up leave both the list and the drag state unchanged |
| `TextList.DragGesture` | component/InputTextList.tsx:131-206 | select, press, move, release on one item adds the pointer's displacement to its committed offset, leaves its live offset equal to it, stops dragging and leaves every other item unchanged |
| `TextList.AddTextKeepsTranslates` | component/InputTextList.tsx:64-65 | appending an item drawn at its live offset keeps every item drawn at its live offset |
| `TextList.TextEventsKeepTranslates` | component/InputTextList.tsx:77-126 | text change, focus and blur keep every item's transform equal to its live offset |
| `TextList.DragEventsKeepTranslates` | component/InputTextList.tsx:145-187 | mouse-move and mouse-up keep every item's transform equal to its live offset |
| `Editor.ToggleDragable` | component/Editor.tsx:56-60 | the drag toggle negates drag mode and leaves the other selections alone |
| `Editor.ToggleBold` | component/Editor.tsx:74-78 | the bold toggle negates bold and leaves the other selections alone |
| `Editor.PickColor` | component/Editor.tsx:62-66 | the colour input replaces the colour and nothing else |
| `Editor.PickFontSize` | component/Editor.tsx:68-72 | the size input replaces the font size and nothing else |
| `Editor.PickFont` | component/Editor.tsx:80-84 | the font selector replaces the font family and nothing else |
| `Editor.NewItem` | component/Editor.tsx:36-54 | a click places an item at `top = pageY - box.top` and `left = pageX - box.left`, or at the page coordinates when the box is absent; it has empty text, a shown resize handle, the current colour, size and font, and weight "bold" exactly when bold is on (else "normal"); it has no transform and none of the four offset fields, so the list reads its offsets as 0 |
| `Editor.TogglesAreInvolutions` | component/Editor.tsx:58-78 | toggling drag mode twice, or bold twice, restores the toolbar |
| `Editor.DefaultClick` | component/Editor.tsx:56-80 | the editor starts with drag mode off, and a click then yields an item in colour "#000000", 16px, normal weight, "Arial" |
| `App.StepKeepsRendered` | component/InputTextList.tsx:168-180 | every event keeps each item's transform equal to its live offset, and an item with no transform has no live offset |
| `App.RunKeepsRendered` | component/InputTextList.tsx:168-180 | any sequence of events from such a state keeps every item drawn at its live offset |
| `App.InitialIsRendered` | component/InputTextList.tsx:51 | the initial empty list satisfies that invariant |
| `App.PickedStyleReachesNewItem` | component/Editor.tsx:41-84 | after picking a colour, size and font, the next click appends one item in exactly that colour, size and font, and leaves the earlier items unchanged |
| `App.PointerEventsNeedDragMode` | component/InputTextList.tsx:138-164 | with the toolbar's drag mode off, document pointer events change neither the toolbar, the list nor the drag state |
| `App.CreateScenario` | component/Editor.tsx:36-54 | a click at (80, 50) on a box at the origin with red 16px Arial creates one empty, resizable item at top 50, left 80 with exactly that style |
| `App.BlurScenario` | component/InputTextList.tsx:105-109 | blurring the first of two items while it is empty leaves only the second, unchanged |
| `App.DragScenario` | component/InputTextList.tsx:131-187 | pressing item 1 at (100, 100) and moving to (130, 145) gives live offset (30, 45) with committed offset still 0; releasing commits (30, 45); item 0 is untouched |
| `App.ToggleOffScenario` | component/InputTextList.tsx:163-167 | after drag mode is turned off mid-drag, further pointer motion changes nothing in the list |

## Left out

- Image loading (`showImg`, `FileReader`, the file input) is browser I/O.
- The deferred focus on the newest textarea after `addText`, and the `textItemRefs` DOM refs, are rendering and scheduling side effects.
- Registering and removing the document listeners is not modelled. The model assumes they are installed for the component's lifetime.
- DOM event propagation is not modelled. The item's `onHandleMouseDown` (with `stopPropagation`) and the document's `mousedown` are separate events, and their order is chosen by the event sequence.
- The refs are synchronised through `useEffect` (`inputTextListRef`, `dragableRef`). The model lets every handler see the latest committed list and drag mode, ignoring the render lag in between.
- The handlers' own closures are not modelled either: the list a handler closes over is taken to be the latest committed one.
- The blur handler reads `event.target.value`, the textarea's text. This is taken as a parameter of `Blur` rather than read from the item.
- `boxWidth`/`boxHeight` are optional fields of the item type that the core never reads or writes, so the model omits them.
- CSS details are not modelled: cursor styles, the JSX, and the formatting of the `translate(...px, ...px)` string (kept as an integer pair).
- `Editor.NewItem` stores the font size as an integer number of pixels rather than the string `size + "px"`.
- `Editor.PickFontSize` takes an integer. `Number(...)` parsing of the input and fractional pixel coordinates are floating point and are not modelled.
- app/page.tsx is an older variant of the editor whose list prop the current list component does not accept. It is not part of this model.
- component/InputTextItem.tsx (a `showTool` toggle unused by the list) is not part of this model.
