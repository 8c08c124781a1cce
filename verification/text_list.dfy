/** The overlay text list of component/InputTextList.tsx: an ordered
    sequence of text annotations plus the bookkeeping of the document-level
    drag listeners. Every event handler is a pure rewrite of that state. */
module TextList {
  import opened Wrappers

  /** Whether the textarea shows its resize handle (shown while focused). */
  datatype Resize = NoResize | BothResize

  /** A pixel displacement, also used for the CSS `translate(x, y)`. */
  datatype Offset = Offset(x: int, y: int)

  /** The `positionStyle` of an item: where it was placed, how it is drawn,
      and the `transform` the drag handler writes. `fontSizePx` is the
      number rendered as `<n>px`; `translate` is absent until the first move. */
  datatype Style = Style(
    top: int,
    left: int,
    color: string,
    fontSizePx: int,
    fontWeight: string,
    fontFamily: string,
    translate: Option<Offset>)

  /** One annotation. The four offsets may be absent: items created by the
      editor omit them, and the list reads them with `?? 0`. */
  datatype Item = Item(
    value: string,
    style: Style,
    resize: Resize,
    offsetX: Option<int>,
    offsetY: Option<int>,
    currentOffsetX: Option<int>,
    currentOffsetY: Option<int>)

  /** The drag refs: whether a drag is in progress, which item it moves,
      and where the pointer went down. */
  datatype DragState = DragState(dragging: bool, activeIndex: nat, initX: int, initY: int)

  /** Everything the list component keeps: the items and the drag refs. */
  datatype ListState = ListState(items: seq<Item>, drag: DragState)

  /** The refs' initial values and the initial empty list. */
  const InitialDrag := DragState(false, 0, 0, 0)
  const InitialList := ListState([], InitialDrag)

  /** The committed drag displacement, absent offsets read as 0. */
  function BaseOffset(item: Item): Offset
  {
    Offset(item.offsetX.GetOr(0), item.offsetY.GetOr(0))
  }

  /** The displacement of the drag in progress, absent offsets read as 0. */
  function LiveOffset(item: Item): Offset
  {
    Offset(item.currentOffsetX.GetOr(0), item.currentOffsetY.GetOr(0))
  }

  /** The rendered transform agrees with the live offset: an item that was
      never moved has neither, and a moved one has both, equal. */
  predicate TranslateMatchesLive(item: Item)
  {
    match item.style.translate
    case None => item.currentOffsetX.None? && item.currentOffsetY.None?
    case Some(t) => item.currentOffsetX == Some(t.x) && item.currentOffsetY == Some(t.y)
  }

  predicate AllTranslatesMatchLive(items: seq<Item>)
  {
    forall j :: 0 <= j < |items| ==> TranslateMatchesLive(items[j])
  }

  /** `items.map((el, i) => i === index ? f(el) : el)`: rewrites the element
      at `index` and keeps every other one; an index past the end matches
      nothing. */
  function UpdateAt<T>(items: seq<T>, index: nat, f: T -> T): (r: seq<T>)
    ensures |r| == |items|
    ensures forall j :: 0 <= j < |r| ==> r[j] == if j == index then f(items[j]) else items[j]
    decreases |items|
  {
    if |items| == 0 then []
    else
      var last := |items| - 1;
      UpdateAt(items[..last], index, f) + [if last == index then f(items[last]) else items[last]]
  }

  /** `list.slice(0, index).concat(list.slice(index + 1))`, with the
      clamping `slice` applies to an index past the end. */
  function RemoveAt<T>(items: seq<T>, index: nat): (r: seq<T>)
    ensures index < |items| ==> |r| == |items| - 1
    ensures index < |items| ==> forall j :: 0 <= j < index ==> r[j] == items[j]
    ensures index < |items| ==> forall j :: index <= j < |r| ==> r[j] == items[j + 1]
    ensures index >= |items| ==> r == items
  {
    var cut := if index <= |items| then index else |items|;
    var rest := if index + 1 <= |items| then index + 1 else |items|;
    items[..cut] + items[rest..]
  }

  /** The writes React batches within one handler: the last one wins. */
  function Batch<T>(current: T, writes: seq<T>): T
  {
    if |writes| == 0 then current else writes[|writes| - 1]
  }

  /** Two handlers' batches applied one after the other commit the same
      state as one batch holding both handlers' writes in order. */
  lemma BatchesCompose<T>(current: T, first: seq<T>, second: seq<T>)
    ensures Batch(Batch(current, first), second) == Batch(current, first + second)
  {
  }

  // ---------------------------------------------------------------------
  // Text events
  // ---------------------------------------------------------------------

  /** `addText`: appends the new item at the end. */
  function AddText(items: seq<Item>, item: Item): (r: seq<Item>)
    ensures |r| == |items| + 1
    ensures r[|items|] == item
    ensures r[..|items|] == items
  {
    items + [item]
  }

  /** A batch of `addText` calls, one after the other. */
  function AddAll(items: seq<Item>, news: seq<Item>): seq<Item>
    decreases |news|
  {
    if |news| == 0 then items else AddAll(AddText(items, news[0]), news[1..])
  }

  function SetValue(value: string): Item -> Item
  {
    (el: Item) => el.(value := value)
  }

  function SetResize(resize: Resize): Item -> Item
  {
    (el: Item) => el.(resize := resize)
  }

  /** `onHandleInputTextChange`: replaces the text of the item at `index`;
      a stale index leaves the list as it is. */
  function ChangeText(items: seq<Item>, index: nat, value: string): (r: seq<Item>)
    ensures |r| == |items|
    ensures forall j :: 0 <= j < |r| && j != index ==> r[j] == items[j]
    ensures index < |items| ==> r[index].value == value
    ensures index < |items| ==> r[index].(value := items[index].value) == items[index]
    ensures index >= |items| ==> r == items
  {
    UpdateAt(items, index, SetValue(value))
  }

  /** The two list writes `onHandleInputTextBlur` issues from one closure:
      hide the resize handle, then, if the textarea is empty, delete. Both
      are computed from the list the handler saw. */
  function BlurWrites(items: seq<Item>, index: nat, value: string): (w: seq<seq<Item>>)
    ensures 1 <= |w| <= 2
    ensures |w| == 2 <==> value == ""
    ensures |w[0]| == |items|
    ensures forall j :: 0 <= j < |items| ==>
      w[0][j] == if j == index then items[j].(resize := NoResize) else items[j]
    ensures value == "" ==> w[1] == RemoveAt(items, index)
  {
    [UpdateAt(items, index, SetResize(NoResize))]
      + (if value == "" then [RemoveAt(items, index)] else [])
  }

  /** `onHandleInputTextBlur`, after batching: an empty textarea removes
      its item (the hidden handle is overwritten by the removal); otherwise
      only that item's resize handle is hidden. */
  function Blur(items: seq<Item>, index: nat, value: string): (r: seq<Item>)
    ensures value == "" && index < |items| ==>
      && |r| == |items| - 1
      && r[..index] == items[..index]
      && forall j :: index <= j < |r| ==> r[j] == items[j + 1]
    ensures value != "" ==>
      && |r| == |items|
      && (forall j :: 0 <= j < |r| && j != index ==> r[j] == items[j])
      && (index < |items| ==> r[index] == items[index].(resize := NoResize))
    ensures index >= |items| ==> r == items
  {
    Batch(items, BlurWrites(items, index, value))
  }

  /** `onHandleInputTextFocus`: shows the resize handle of the item at
      `index`; no other item's handle is touched. */
  function Focus(items: seq<Item>, index: nat): (r: seq<Item>)
    ensures |r| == |items|
    ensures forall j :: 0 <= j < |r| && j != index ==> r[j] == items[j]
    ensures index < |items| ==> r[index] == items[index].(resize := BothResize)
    ensures index >= |items| ==> r == items
  {
    UpdateAt(items, index, SetResize(BothResize))
  }

  // ---------------------------------------------------------------------
  // Drag events (document listeners, gated by `dragable`)
  // ---------------------------------------------------------------------

  /** `onHandleMouseDown` on an item: records which item a drag moves.
      It is not gated by `dragable`. */
  function SelectActive(drag: DragState, index: nat): (r: DragState)
    ensures r.activeIndex == index
    ensures r.(activeIndex := drag.activeIndex) == drag
  {
    drag.(activeIndex := index)
  }

  /** `mousedown` on the document: starts a drag at the pointer position. */
  function MouseDown(drag: DragState, dragable: bool, clientX: int, clientY: int): (r: DragState)
    ensures !dragable ==> r == drag
    ensures dragable ==> r.dragging && r.initX == clientX && r.initY == clientY
    ensures r.activeIndex == drag.activeIndex
  {
    if !dragable then drag
    else drag.(dragging := true, initX := clientX, initY := clientY)
  }

  /** The item moved by `(dx, dy)` from its committed offset: live offset
      and transform both become the committed offset plus the delta. */
  function Moved(dx: int, dy: int): Item -> Item
  {
    (el: Item) =>
      var p := Offset(el.offsetX.GetOr(0) + dx, el.offsetY.GetOr(0) + dy);
      el.(style := el.style.(translate := Some(p)),
          currentOffsetX := Some(p.x), currentOffsetY := Some(p.y))
  }

  /** `mousemove` on the document: while dragging, the active item's live
      offset and transform follow the pointer's displacement from where it
      went down; the committed offsets never change. */
  function MouseMove(s: ListState, dragable: bool, clientX: int, clientY: int): (r: ListState)
    ensures r.drag == s.drag
    ensures !dragable || !s.drag.dragging ==> r == s
    ensures |r.items| == |s.items|
    ensures forall j :: 0 <= j < |r.items| ==>
      r.items[j].offsetX == s.items[j].offsetX && r.items[j].offsetY == s.items[j].offsetY
    ensures forall j :: 0 <= j < |r.items| && j != s.drag.activeIndex ==> r.items[j] == s.items[j]
    ensures dragable && s.drag.dragging && s.drag.activeIndex < |s.items| ==>
      var a := s.drag.activeIndex;
      var p := Offset(BaseOffset(s.items[a]).x + (clientX - s.drag.initX),
                      BaseOffset(s.items[a]).y + (clientY - s.drag.initY));
      && LiveOffset(r.items[a]) == p
      && r.items[a].style.translate == Some(p)
      && r.items[a] == s.items[a].(style := s.items[a].style.(translate := Some(p)),
                                   currentOffsetX := Some(p.x), currentOffsetY := Some(p.y))
  {
    if !dragable then s
    else
      var dx := clientX - s.drag.initX;
      var dy := clientY - s.drag.initY;
      if s.drag.dragging then
        s.(items := UpdateAt(s.items, s.drag.activeIndex, Moved(dx, dy)))
      else s
  }

  /** The live offset becomes the committed one (absent stays absent). */
  function Committed(el: Item): Item
  {
    el.(offsetX := el.currentOffsetX, offsetY := el.currentOffsetY)
  }

  /** `mouseup` on the document: ends the drag and commits the active
      item's live offset. It does not look at `dragging`. */
  function MouseUp(s: ListState, dragable: bool): (r: ListState)
    ensures !dragable ==> r == s
    ensures dragable ==> r.drag == s.drag.(dragging := false)
    ensures |r.items| == |s.items|
    ensures forall j :: 0 <= j < |r.items| && j != s.drag.activeIndex ==> r.items[j] == s.items[j]
    ensures dragable && s.drag.activeIndex < |s.items| ==>
      var a := s.drag.activeIndex;
      && r.items[a].offsetX == s.items[a].currentOffsetX
      && r.items[a].offsetY == s.items[a].currentOffsetY
      && r.items[a].(offsetX := s.items[a].offsetX, offsetY := s.items[a].offsetY) == s.items[a]
  {
    if !dragable then s
    else s.(drag := s.drag.(dragging := false),
            items := UpdateAt(s.items, s.drag.activeIndex, Committed))
  }

  // ---------------------------------------------------------------------
  // Properties relating several events
  // ---------------------------------------------------------------------

  /** Adding items one at a time appends them all, in call order. */
  lemma {:induction false} AddAllAppends(items: seq<Item>, news: seq<Item>)
    ensures AddAll(items, news) == items + news
    ensures |AddAll(items, news)| == |items| + |news|
    decreases |news|
  {
    if |news| > 0 {
      AddAllAppends(AddText(items, news[0]), news[1..]);
      assert AddText(items, news[0]) + news[1..] == items + news;
    }
  }

  /** Typing twice into the same item keeps only the last text. */
  lemma ChangeTextLastWins(items: seq<Item>, index: nat, first: string, second: string)
    ensures ChangeText(ChangeText(items, index, first), index, second) == ChangeText(items, index, second)
  {
  }

  /** Writing back the text an item already has changes nothing. */
  lemma ChangeTextSameValue(items: seq<Item>, index: nat)
    requires index < |items|
    ensures ChangeText(items, index, items[index].value) == items
  {
  }

  /** Deleting on an empty blur loses exactly the blurred item: putting
      it back at its index restores the list. */
  lemma BlurEmptyReinsert(items: seq<Item>, index: nat)
    requires index < |items|
    ensures var r := Blur(items, index, "");
      r[..index] + [items[index]] + r[index..] == items
  {
    var r := Blur(items, index, "");
    assert r[index..] == items[index + 1..];
    assert items == items[..index] + [items[index]] + items[index + 1..];
  }

  /** A focus is forgotten by the next blur of the same item: with text,
      both leave the handle hidden; without, both delete the item. */
  lemma FocusThenBlurHides(items: seq<Item>, index: nat, value: string)
    ensures Blur(Focus(items, index), index, value) == Blur(items, index, value)
  {
  }

  /** Blurring with text undoes a focus on an item whose handle was hidden. */
  lemma BlurUndoesFocus(items: seq<Item>, index: nat, value: string)
    requires value != ""
    requires index < |items| && items[index].resize == NoResize
    ensures Blur(Focus(items, index), index, value) == items
  {
  }

  /** Releasing the pointer twice gives the same list as releasing it once. */
  lemma MouseUpIdempotent(s: ListState, dragable: bool)
    ensures MouseUp(MouseUp(s, dragable), dragable) == MouseUp(s, dragable)
  {
  }

  /** With drag mode off, no pointer event changes anything. */
  lemma DragDisabledFreezes(s: ListState, x: int, y: int)
    ensures MouseDown(s.drag, false, x, y) == s.drag
    ensures MouseMove(s, false, x, y) == s
    ensures MouseUp(s, false) == s
  {
  }

  /** A whole gesture on item `a`: select it, press at `(x0, y0)`, move
      to `(x1, y1)`, release. The committed offset grows by the pointer's
      displacement and the live offset equals it afterwards. */
  lemma DragGesture(items: seq<Item>, drag: DragState, a: nat, x0: int, y0: int, x1: int, y1: int)
    requires a < |items|
    ensures
      var d := MouseDown(SelectActive(drag, a), true, x0, y0);
      var moved := MouseMove(ListState(items, d), true, x1, y1);
      var up := MouseUp(moved, true);
      && !up.drag.dragging
      && |up.items| == |items|
      && BaseOffset(up.items[a]) == Offset(BaseOffset(items[a]).x + (x1 - x0), BaseOffset(items[a]).y + (y1 - y0))
      && LiveOffset(up.items[a]) == BaseOffset(up.items[a])
      && (forall j :: 0 <= j < |items| && j != a ==> up.items[j] == items[j])
  {
  }

  // ---------------------------------------------------------------------
  // The rendered transform always shows the live offset
  // ---------------------------------------------------------------------

  lemma AddTextKeepsTranslates(items: seq<Item>, item: Item)
    requires AllTranslatesMatchLive(items) && TranslateMatchesLive(item)
    ensures AllTranslatesMatchLive(AddText(items, item))
  {
  }

  lemma TextEventsKeepTranslates(items: seq<Item>, index: nat, value: string)
    requires AllTranslatesMatchLive(items)
    ensures AllTranslatesMatchLive(ChangeText(items, index, value))
    ensures AllTranslatesMatchLive(Focus(items, index))
    ensures AllTranslatesMatchLive(Blur(items, index, value))
  {
    var r := Blur(items, index, value);
    if value == "" && index < |items| {
      assert forall j :: 0 <= j < |r| ==> r[j] == items[if j < index then j else j + 1];
    }
  }

  lemma DragEventsKeepTranslates(s: ListState, dragable: bool, x: int, y: int)
    requires AllTranslatesMatchLive(s.items)
    ensures AllTranslatesMatchLive(MouseMove(s, dragable, x, y).items)
    ensures AllTranslatesMatchLive(MouseUp(s, dragable).items)
  {
  }
}
