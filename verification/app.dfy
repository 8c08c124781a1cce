/** The editor and its text list together, driven by a sequence of user
    events. The order in which the browser fires them (for instance the
    item's mouse-down before the document's) is left to the sequence. */
module App {
  import opened Wrappers
  import TextList
  import Editor

  datatype AppState = AppState(toolbar: Editor.Toolbar, list: TextList.ListState)

  const Initial := AppState(Editor.DefaultToolbar, TextList.InitialList)

  datatype Event =
    | ToggleDrag
    | ToggleBold
    | PickColor(color: string)
    | PickFontSize(size: int)
    | PickFont(font: string)
    | ClickImage(pageX: int, pageY: int, box: Option<Editor.Rect>)
    | TypeText(index: nat, value: string)
    | FocusText(index: nat)
    | BlurText(index: nat, value: string)
    | PressText(index: nat)
    | PointerDown(clientX: int, clientY: int)
    | PointerMove(clientX: int, clientY: int)
    | PointerUp

  /** One event, dispatched to the handler that owns it; the list's
      `dragable` prop is the toolbar's drag mode. */
  function Step(s: AppState, e: Event): AppState
  {
    var items := s.list.items;
    var drag := s.list.drag;
    var on := s.toolbar.dragable;
    match e
    case ToggleDrag => s.(toolbar := Editor.ToggleDragable(s.toolbar))
    case ToggleBold => s.(toolbar := Editor.ToggleBold(s.toolbar))
    case PickColor(c) => s.(toolbar := Editor.PickColor(s.toolbar, c))
    case PickFontSize(n) => s.(toolbar := Editor.PickFontSize(s.toolbar, n))
    case PickFont(f) => s.(toolbar := Editor.PickFont(s.toolbar, f))
    case ClickImage(x, y, box) =>
      s.(list := s.list.(items := TextList.AddText(items, Editor.NewItem(s.toolbar, x, y, box))))
    case TypeText(i, v) => s.(list := s.list.(items := TextList.ChangeText(items, i, v)))
    case FocusText(i) => s.(list := s.list.(items := TextList.Focus(items, i)))
    case BlurText(i, v) => s.(list := s.list.(items := TextList.Blur(items, i, v)))
    case PressText(i) => s.(list := s.list.(drag := TextList.SelectActive(drag, i)))
    case PointerDown(x, y) => s.(list := s.list.(drag := TextList.MouseDown(drag, on, x, y)))
    case PointerMove(x, y) => s.(list := TextList.MouseMove(s.list, on, x, y))
    case PointerUp => s.(list := TextList.MouseUp(s.list, on))
  }

  function Run(s: AppState, events: seq<Event>): AppState
    decreases |events|
  {
    if |events| == 0 then s else Run(Step(s, events[0]), events[1..])
  }

  /** What every reachable state satisfies: each item is drawn at its live
      offset (no transform and no live offset until it is first moved). */
  predicate Rendered(s: AppState)
  {
    TextList.AllTranslatesMatchLive(s.list.items)
  }

  /** Every single event keeps items drawn at their live offset. */
  lemma StepKeepsRendered(s: AppState, e: Event)
    requires Rendered(s)
    ensures Rendered(Step(s, e))
  {
    var items := s.list.items;
    match e
    case ClickImage(x, y, box) =>
      TextList.AddTextKeepsTranslates(items, Editor.NewItem(s.toolbar, x, y, box));
    case TypeText(i, v) => TextList.TextEventsKeepTranslates(items, i, v);
    case FocusText(i) => TextList.TextEventsKeepTranslates(items, i, "");
    case BlurText(i, v) => TextList.TextEventsKeepTranslates(items, i, v);
    case PointerMove(x, y) => TextList.DragEventsKeepTranslates(s.list, s.toolbar.dragable, x, y);
    case PointerUp => TextList.DragEventsKeepTranslates(s.list, s.toolbar.dragable, 0, 0);
    case _ =>
  }

  /** From any state that draws every item at its live offset, any
      sequence of events keeps it so. */
  lemma {:induction false} RunKeepsRendered(s: AppState, events: seq<Event>)
    requires Rendered(s)
    ensures Rendered(Run(s, events))
    decreases |events|
  {
    if |events| > 0 {
      StepKeepsRendered(s, events[0]);
      RunKeepsRendered(Step(s, events[0]), events[1..]);
    }
  }

  lemma InitialIsRendered()
    ensures Rendered(Initial)
  {
  }

  /** The colour, size and font picked in the toolbar are the style of
      the next item placed by a click. */
  lemma PickedStyleReachesNewItem(s: AppState, color: string, size: int, font: string, x: int, y: int, box: Option<Editor.Rect>)
    ensures
      var picked := Run(s, [PickColor(color), PickFontSize(size), PickFont(font)]);
      var clicked := Step(picked, ClickImage(x, y, box));
      var n := |s.list.items|;
      && |clicked.list.items| == n + 1
      && clicked.list.items[n].style.color == color
      && clicked.list.items[n].style.fontSizePx == size
      && clicked.list.items[n].style.fontFamily == font
      && clicked.list.items[..n] == s.list.items
  {
    var s1 := Step(s, PickColor(color));
    var s2 := Step(s1, PickFontSize(size));
    var s3 := Step(s2, PickFont(font));
    var picks := [PickColor(color), PickFontSize(size), PickFont(font)];
    assert picks[1..] == [PickFontSize(size), PickFont(font)];
    assert picks[1..][1..] == [PickFont(font)];
    assert Run(s2, [PickFont(font)]) == Run(s3, []);
    assert Run(s1, picks[1..]) == Run(s2, [PickFont(font)]);
    assert Run(s, picks) == s3;
    assert s3.list == s.list;
    assert s3.toolbar.color == color && s3.toolbar.fontSize == size && s3.toolbar.font == font;
  }

  /** With drag mode off, pointer events leave the whole state unchanged. */
  lemma PointerEventsNeedDragMode(s: AppState, e: Event)
    requires !s.toolbar.dragable
    requires e.PointerDown? || e.PointerMove? || e.PointerUp?
    ensures Step(s, e) == s
  {
  }

  /** A click at page (80, 50) on a container at the page origin, with red
      16px Arial, gives one empty, resizable item at top 50, left 80. */
  lemma CreateScenario()
    ensures
      var t := Editor.Toolbar(false, "#ff0000", 16, false, "Arial");
      var s := Run(AppState(t, TextList.InitialList), [ClickImage(80, 50, Some(Editor.Rect(0, 0)))]);
      var items := s.list.items;
      && |items| == 1
      && items[0].style.top == 50 && items[0].style.left == 80
      && items[0].style.color == "#ff0000" && items[0].style.fontSizePx == 16
      && items[0].style.fontWeight == "normal" && items[0].style.fontFamily == "Arial"
      && items[0].value == "" && items[0].resize == TextList.BothResize
  {
  }

  /** Two items; blurring the first while it is empty leaves only the
      second, unchanged, at index 0. */
  lemma BlurScenario(a: TextList.Item, b: TextList.Item)
    ensures TextList.Blur([a, b], 0, "") == [b]
  {
  }

  /** With drag mode on, item 1 is pressed at (100, 100) and moved to
      (130, 145): the live offset is (30, 45) during the move, and after
      release the committed offset is (30, 45) too. */
  lemma DragScenario(t: Editor.Toolbar, drag: TextList.DragState)
    requires t.dragable
    ensures
      var it := Editor.NewItem(t, 0, 0, None);
      var s0 := AppState(t, TextList.ListState([it, it], drag));
      var moving := Run(s0, [PressText(1), PointerDown(100, 100), PointerMove(130, 145)]);
      var done := Step(moving, PointerUp);
      && TextList.LiveOffset(moving.list.items[1]) == TextList.Offset(30, 45)
      && TextList.BaseOffset(moving.list.items[1]) == TextList.Offset(0, 0)
      && TextList.BaseOffset(done.list.items[1]) == TextList.Offset(30, 45)
      && TextList.LiveOffset(done.list.items[1]) == TextList.Offset(30, 45)
      && done.list.items[0] == it
      && !done.list.drag.dragging
  {
  }

  /** Turning drag mode off mid-gesture freezes the item: further motion
      changes nothing. */
  lemma ToggleOffScenario(s: AppState, x: int, y: int)
    requires s.toolbar.dragable && s.list.drag.dragging
    ensures
      var off := Step(s, ToggleDrag);
      Step(off, PointerMove(x, y)).list == s.list
  {
  }
}
