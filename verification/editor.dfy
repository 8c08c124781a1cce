/** The editor of component/Editor.tsx: the toolbar selections and the
    click on the image that builds a new text item for the list. */
module Editor {
  import opened Wrappers
  import TextList

  /** The part of the container's bounding box the click handler reads. */
  datatype Rect = Rect(left: int, top: int)

  /** The toolbar's selections: drag mode, colour, font size in pixels,
      bold, and font family. */
  datatype Toolbar = Toolbar(dragable: bool, color: string, fontSize: int, bold: bool, font: string)

  /** The toolbar as the editor first renders it. */
  const DefaultToolbar := Toolbar(false, "#000000", 16, false, "Arial")

  /** `oppositeDragable`: flips drag mode and nothing else. */
  function ToggleDragable(t: Toolbar): (r: Toolbar)
    ensures r.dragable != t.dragable
    ensures r.(dragable := t.dragable) == t
  {
    t.(dragable := !t.dragable)
  }

  /** `oppositeFontBold`: flips bold and nothing else. */
  function ToggleBold(t: Toolbar): (r: Toolbar)
    ensures r.bold != t.bold
    ensures r.(bold := t.bold) == t
  {
    t.(bold := !t.bold)
  }

  /** The colour, size and font inputs overwrite their own selection. */
  function PickColor(t: Toolbar, color: string): (r: Toolbar)
    ensures r.color == color && r.(color := t.color) == t
  {
    t.(color := color)
  }

  function PickFontSize(t: Toolbar, size: int): (r: Toolbar)
    ensures r.fontSize == size && r.(fontSize := t.fontSize) == t
  {
    t.(fontSize := size)
  }

  function PickFont(t: Toolbar, font: string): (r: Toolbar)
    ensures r.font == font && r.(font := t.font) == t
  {
    t.(font := font)
  }

  /** The font weight the toolbar's bold toggle selects. */
  function Weight(bold: bool): string
  {
    if bold then "bold" else "normal"
  }

  /** `onHandleImgClick`: the item placed at page coordinates `(pageX, pageY)`.
      Its position is relative to the container box, or to the origin when
      the box is absent; it starts empty, with its resize handle shown, in
      the current toolbar style, and without any offset or transform. */
  function NewItem(t: Toolbar, pageX: int, pageY: int, box: Option<Rect>): (item: TextList.Item)
    ensures box.Some? ==> item.style.top == pageY - box.value.top && item.style.left == pageX - box.value.left
    ensures box.None? ==> item.style.top == pageY && item.style.left == pageX
    ensures item.value == "" && item.resize == TextList.BothResize
    ensures item.style.color == t.color && item.style.fontSizePx == t.fontSize && item.style.fontFamily == t.font
    ensures item.style.fontWeight == "bold" <==> t.bold
    ensures item.style.fontWeight == "bold" || item.style.fontWeight == "normal"
    ensures TextList.BaseOffset(item) == TextList.Offset(0, 0)
    ensures TextList.LiveOffset(item) == TextList.Offset(0, 0)
    ensures TextList.TranslateMatchesLive(item)
    ensures item.style.translate.None?
    ensures item.offsetX.None? && item.offsetY.None?
    ensures item.currentOffsetX.None? && item.currentOffsetY.None?
  {
    var left := if box.Some? then box.value.left else 0;
    var top := if box.Some? then box.value.top else 0;
    TextList.Item(
      "",
      TextList.Style(pageY - top, pageX - left, t.color, t.fontSize, Weight(t.bold), t.font, None),
      TextList.BothResize,
      None, None, None, None)
  }

  /** Flipping a toggle twice restores the toolbar. */
  lemma TogglesAreInvolutions(t: Toolbar)
    ensures ToggleDragable(ToggleDragable(t)) == t
    ensures ToggleBold(ToggleBold(t)) == t
  {
  }

  /** A click on a fresh editor: the item carries the default style, black
      Arial at 16px in normal weight, and drag mode starts off. */
  lemma DefaultClick(pageX: int, pageY: int, box: Option<Rect>)
    ensures !DefaultToolbar.dragable
    ensures var item := NewItem(DefaultToolbar, pageX, pageY, box);
      && item.style.color == "#000000" && item.style.fontSizePx == 16
      && item.style.fontWeight == "normal" && item.style.fontFamily == "Arial"
  {
  }
}
