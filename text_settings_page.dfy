/**
 * The text-settings page: the list of text elements being edited, the current selection, the
 * property panel that mirrors the selected element, bulk editing, nudging and dragging, the list of
 * uploaded fonts and the font lookup of `getTextElementStyle`, which no part of the page calls. Every
 * change to the element list is written to the `lovable.dev.textElements` storage slot, modelled as
 * a field.
 */
module TextSettingsPage {
  import opened Wrappers
  import opened Types
  import DraggableResizableText
  import Collections

  // ---------------------------------------------------------------------------------------------
  // Element properties
  // ---------------------------------------------------------------------------------------------

  /** The properties `updateElementProperty` is called with, each with its new value. */
  datatype Property =
    | Text(text: string)
    | FontSize(size: real)
    | FontColor(color: string)
    | FontFamily(family: string)
    | Align(align: TextAlign)
    | X(x: real)
    | Y(y: real)
    | Width(width: real)
    | Height(height: real)

  /** The property names, without values. */
  datatype Field = TextField | FontSizeField | FontColorField | FontFamilyField | AlignField
    | XField | YField | WidthField | HeightField

  function FieldOf(p: Property): Field {
    match p
    case Text(_) => TextField
    case FontSize(_) => FontSizeField
    case FontColor(_) => FontColorField
    case FontFamily(_) => FontFamilyField
    case Align(_) => AlignField
    case X(_) => XField
    case Y(_) => YField
    case Width(_) => WidthField
    case Height(_) => HeightField
  }

  /** The element holds the value `p` assigns. */
  predicate Holds(el: TextElement, p: Property) {
    match p
    case Text(t) => el.text == t
    case FontSize(s) => el.fontSize == s
    case FontColor(c) => el.fontColor == c
    case FontFamily(f) => el.fontFamily == Some(f)
    case Align(a) => el.textAlign == Some(a)
    case X(x) => el.x == x
    case Y(y) => el.y == y
    case Width(w) => el.width == Some(w)
    case Height(h) => el.height == Some(h)
  }

  /** The two elements agree on every field except possibly `f`. */
  predicate AgreeExcept(a: TextElement, b: TextElement, f: Field) {
    && a.id == b.id && a.fontWeight == b.fontWeight && a.lineHeight == b.lineHeight
    && (f != TextField ==> a.text == b.text)
    && (f != FontSizeField ==> a.fontSize == b.fontSize)
    && (f != FontColorField ==> a.fontColor == b.fontColor)
    && (f != FontFamilyField ==> a.fontFamily == b.fontFamily)
    && (f != AlignField ==> a.textAlign == b.textAlign)
    && (f != XField ==> a.x == b.x)
    && (f != YField ==> a.y == b.y)
    && (f != WidthField ==> a.width == b.width)
    && (f != HeightField ==> a.height == b.height)
  }

  /** `{ ...element, [property]: value }`: the named field takes the value, nothing else changes. */
  function SetProperty(el: TextElement, p: Property): (r: TextElement)
    ensures Holds(r, p) && AgreeExcept(el, r, FieldOf(p))
  {
    match p
    case Text(t) => el.(text := t)
    case FontSize(s) => el.(fontSize := s)
    case FontColor(c) => el.(fontColor := c)
    case FontFamily(f) => el.(fontFamily := Some(f))
    case Align(a) => el.(textAlign := Some(a))
    case X(x) => el.(x := x)
    case Y(y) => el.(y := y)
    case Width(w) => el.(width := Some(w))
    case Height(h) => el.(height := Some(h))
  }

  /** An element that already holds a value is left as it is by assigning it. */
  lemma SetPropertyWhenHeld(el: TextElement, p: Property)
    requires Holds(el, p)
    ensures SetProperty(el, p) == el
  {
  }

  /** Assignments to two different fields commute. */
  lemma SetPropertiesCommute(el: TextElement, p: Property, q: Property)
    requires FieldOf(p) != FieldOf(q)
    ensures SetProperty(SetProperty(el, p), q) == SetProperty(SetProperty(el, q), p)
  {
  }

  /** JavaScript truthiness of an optional id: present and not empty. */
  predicate IdSet(id: Option<string>) {
    id.Some? && id.value != []
  }

  /**
   * `updateElementProperty(id, property, value)`: nothing when the id is null or empty, otherwise
   * every element with that id gets the value and every other element is kept; length and order
   * are kept.
   */
  function UpdateProperty(els: seq<TextElement>, id: Option<string>, p: Property): (r: seq<TextElement>)
    ensures !IdSet(id) ==> r == els
    ensures |r| == |els|
    ensures forall i :: 0 <= i < |els| ==> r[i].id == els[i].id
    ensures IdSet(id) ==> forall i :: 0 <= i < |els| && els[i].id == id.value ==>
      Holds(r[i], p) && AgreeExcept(els[i], r[i], FieldOf(p))
    ensures forall i :: 0 <= i < |els| && (!IdSet(id) || els[i].id != id.value) ==> r[i] == els[i]
  {
    if !IdSet(id) then els
    else seq(|els|, i requires 0 <= i < |els| => if els[i].id == id.value then SetProperty(els[i], p) else els[i])
  }

  /** Applying the same update twice is applying it once. */
  lemma UpdatePropertyIdempotent(els: seq<TextElement>, id: Option<string>, p: Property)
    ensures UpdateProperty(UpdateProperty(els, id, p), id, p) == UpdateProperty(els, id, p)
  {
    var once := UpdateProperty(els, id, p);
    var twice := UpdateProperty(once, id, p);
    forall i | 0 <= i < |els| ensures twice[i] == once[i] {
      if IdSet(id) && els[i].id == id.value {
        SetPropertyWhenHeld(once[i], p);
      }
    }
  }

  /** Updates of two different fields of the same element commute (so `x` then `y` is `y` then `x`). */
  lemma UpdatePropertiesCommute(els: seq<TextElement>, id: Option<string>, p: Property, q: Property)
    requires FieldOf(p) != FieldOf(q)
    ensures UpdateProperty(UpdateProperty(els, id, p), id, q) == UpdateProperty(UpdateProperty(els, id, q), id, p)
  {
    var pq := UpdateProperty(UpdateProperty(els, id, p), id, q);
    var qp := UpdateProperty(UpdateProperty(els, id, q), id, p);
    forall i | 0 <= i < |els| ensures pq[i] == qp[i] {
      if IdSet(id) && els[i].id == id.value {
        SetPropertiesCommute(els[i], p, q);
      }
    }
  }

  /** The bulk-edit branch of the change handlers: every element gets the value. */
  function BulkUpdate(els: seq<TextElement>, p: Property): (r: seq<TextElement>)
    ensures |r| == |els|
    ensures forall i :: 0 <= i < |els| ==> Holds(r[i], p) && AgreeExcept(els[i], r[i], FieldOf(p))
  {
    seq(|els|, i requires 0 <= i < |els| => SetProperty(els[i], p))
  }

  /** A bulk change is the per-element update at every element's own id, on a list where that id is unique. */
  lemma BulkUpdateIsUpdateOfEach(els: seq<TextElement>, p: Property, i: nat)
    requires i < |els| && els[i].id != []
    requires forall j :: 0 <= j < |els| && j != i ==> els[j].id != els[i].id
    ensures BulkUpdate(els, p)[i] == UpdateProperty(els, Some(els[i].id), p)[i]
    ensures forall j :: 0 <= j < |els| && j != i ==> UpdateProperty(els, Some(els[i].id), p)[j] == els[j]
  {
  }

  // ---------------------------------------------------------------------------------------------
  // Removing, adding, finding
  // ---------------------------------------------------------------------------------------------

  function ElementId(el: TextElement): string {
    el.id
  }

  /** `filter(element => element.id !== id)`: exactly the elements with another id, in their order. */
  function RemoveById(els: seq<TextElement>, id: string): (r: seq<TextElement>)
    ensures |r| <= |els|
    ensures forall e :: e in r <==> e in els && e.id != id
  {
    Collections.RemoveKey(els, ElementId, id)
  }

  /** The selection after removing `id`: the first remaining element, or none, if it was the one selected. */
  function SelectionAfterRemove(selected: Option<string>, id: string, remaining: seq<TextElement>): (r: Option<string>)
    ensures selected != Some(id) ==> r == selected
    ensures selected == Some(id) && |remaining| > 0 ==> r == Some(remaining[0].id)
    ensures selected == Some(id) && |remaining| == 0 ==> r == None
  {
    if selected == Some(id) then (if |remaining| > 0 then Some(remaining[0].id) else None) else selected
  }

  /** After a removal nothing selects the removed id. */
  lemma SelectionLeavesRemovedId(els: seq<TextElement>, selected: Option<string>, id: string)
    ensures SelectionAfterRemove(selected, id, RemoveById(els, id)) != Some(id)
  {
    var rest := RemoveById(els, id);
    if selected == Some(id) && |rest| > 0 {
      assert rest[0] in rest;
    }
  }

  /** The element `handleAddTextElement` creates, and the one seeded when storage is empty. */
  function NewElement(id: string, text: string): (el: TextElement)
    ensures el.id == id && el.text == text && el.x == 50.0 && el.y == 50.0 && el.fontSize == 24.0
    ensures el.fontColor == "#000000" && el.fontFamily == Some(DefaultFont)
    ensures el.width == Some(200.0) && el.height == Some(40.0) && el.textAlign == Some(Left)
    ensures el.fontWeight == None && el.lineHeight == None
  {
    TextElement(id, text, 50.0, 50.0, 24.0, "#000000", Some(DefaultFont), None, Some(Left), Some(200.0), Some(40.0), None)
  }

  const DefaultFont: string := "Arial"

  /** `i` is the first index of an element with that id. */
  predicate FirstWithId(els: seq<TextElement>, id: string, i: int) {
    0 <= i < |els| && els[i].id == id && forall j :: 0 <= j < i ==> els[j].id != id
  }

  /** `textElements.find(element => element.id === id)`: the first element with that id. */
  function FindById(els: seq<TextElement>, id: string): (r: Option<TextElement>)
    ensures r.Some? <==> exists i :: 0 <= i < |els| && els[i].id == id
    ensures r.Some? ==> exists i :: FirstWithId(els, id, i) && els[i] == r.value
    decreases |els|
  {
    if |els| == 0 then None
    else if els[0].id == id then
      assert FirstWithId(els, id, 0);
      Some(els[0])
    else
      var r := FindById(els[1..], id);
      assert forall i :: 1 <= i < |els| ==> els[i] == els[1..][i - 1];
      if r.Some? then
        var k :| FirstWithId(els[1..], id, k) && els[1..][k] == r.value;
        assert FirstWithId(els, id, k + 1) by {
          forall j | 0 <= j < k + 1 ensures els[j].id != id {
            if j > 0 { assert els[j] == els[1..][j - 1]; }
          }
        }
        r
      else
        r
  }

  // ---------------------------------------------------------------------------------------------
  // Nudging, pointer mapping, fonts
  // ---------------------------------------------------------------------------------------------

  datatype Direction = MoveUp | MoveDown | MoveLeft | MoveRight

  /** The position `moveElement` computes from the panel's x and y. */
  function Nudge(x: real, y: real, dir: Direction, amount: real): (r: (real, real))
    ensures dir == MoveUp ==> r == (x, DraggableResizableText.Max(0.0, y - amount))
    ensures dir == MoveDown ==> r == (x, DraggableResizableText.Min(100.0, y + amount))
    ensures dir == MoveLeft ==> r == (DraggableResizableText.Max(0.0, x - amount), y)
    ensures dir == MoveRight ==> r == (DraggableResizableText.Min(100.0, x + amount), y)
  {
    match dir
    case MoveUp => (x, DraggableResizableText.Max(0.0, y - amount))
    case MoveDown => (x, DraggableResizableText.Min(100.0, y + amount))
    case MoveLeft => (DraggableResizableText.Max(0.0, x - amount), y)
    case MoveRight => (DraggableResizableText.Min(100.0, x + amount), y)
  }

  /** A nudge by a non-negative amount keeps a position inside the canvas inside it, moving one axis only. */
  lemma NudgeStaysOnCanvas(x: real, y: real, dir: Direction, amount: real)
    requires 0.0 <= x <= 100.0 && 0.0 <= y <= 100.0 && amount >= 0.0
    ensures var (nx, ny) := Nudge(x, y, dir, amount);
      && 0.0 <= nx <= 100.0 && 0.0 <= ny <= 100.0
      && (nx == x || ny == y)
      && (dir == MoveUp || dir == MoveDown ==> nx == x)
      && (dir == MoveLeft || dir == MoveRight ==> ny == y)
  {
  }

  /** The canvas element's bounding rectangle. */
  datatype CanvasRect = CanvasRect(left: real, top: real, width: DraggableResizableText.Positive, height: DraggableResizableText.Positive)

  /** A pointer position as clamped percentages of the canvas rectangle. */
  function PointerPercent(p: DraggableResizableText.Point, rect: CanvasRect): (r: (real, real))
    ensures 0.0 <= r.0 <= 100.0 && 0.0 <= r.1 <= 100.0
    ensures var rawX := (p.x - rect.left) / rect.width * 100.0;
      && (0.0 <= rawX <= 100.0 ==> r.0 == rawX)
      && (rawX < 0.0 ==> r.0 == 0.0)
      && (rawX > 100.0 ==> r.0 == 100.0)
    ensures var rawY := (p.y - rect.top) / rect.height * 100.0;
      && (0.0 <= rawY <= 100.0 ==> r.1 == rawY)
      && (rawY < 0.0 ==> r.1 == 0.0)
      && (rawY > 100.0 ==> r.1 == 100.0)
  {
    (DraggableResizableText.ClampPercent((p.x - rect.left) / rect.width * 100.0),
     DraggableResizableText.ClampPercent((p.y - rect.top) / rect.height * 100.0))
  }

  /** A font the picker offers: the name shown and stored, and the CSS family it stands for. */
  datatype FontDef = FontDef(name: string, family: string)

  const DefaultFonts: seq<FontDef> := [
    FontDef("Arial", "Arial, sans-serif"),
    FontDef("Helvetica", "Helvetica, sans-serif"),
    FontDef("Times New Roman", "Times New Roman, serif"),
    FontDef("Courier New", "Courier New, monospace"),
    FontDef("Georgia", "Georgia, serif"),
    FontDef("Poppins", "Poppins, sans-serif"),
    FontDef("Magnolia Script", "Magnolia Script, cursive"),
    FontDef("Celandine", "Celandine, cursive")
  ]

  /** `i` is the first index of a font with that name. */
  predicate FirstNamed(fonts: seq<FontDef>, name: string, i: int) {
    0 <= i < |fonts| && fonts[i].name == name && forall j :: 0 <= j < i ==> fonts[j].name != name
  }

  /** The family of the first font named `name`, else the name itself. */
  function LookupFamily(fonts: seq<FontDef>, name: string): (r: string)
    ensures (forall i :: 0 <= i < |fonts| ==> fonts[i].name != name) ==> r == name
    ensures forall i :: FirstNamed(fonts, name, i) ==> r == fonts[i].family
    decreases |fonts|
  {
    if |fonts| == 0 then name
    else if fonts[0].name == name then fonts[0].family
    else
      assert forall i :: 1 <= i < |fonts| ==> fonts[i] == fonts[1..][i - 1];
      LookupFamily(fonts[1..], name)
  }

  /** The CSS family for an element: default fonts are searched before uploaded ones. */
  function ElementFamily(uploaded: seq<FontDef>, fontFamily: Option<string>): (r: Option<string>)
    ensures fontFamily.None? ==> r.None?
    ensures fontFamily.Some? ==> r == Some(LookupFamily(DefaultFonts + uploaded, fontFamily.value))
  {
    match fontFamily
    case None => None
    case Some(name) => Some(LookupFamily(DefaultFonts + uploaded, name))
  }

  /** A default font can not be overridden by uploading a font of the same name. */
  lemma DefaultFontsShadowUploaded(uploaded: seq<FontDef>, i: nat)
    requires i < |DefaultFonts|
    ensures ElementFamily(uploaded, Some(DefaultFonts[i].name)) == Some(DefaultFonts[i].family)
  {
    var all := DefaultFonts + uploaded;
    assert all[i] == DefaultFonts[i];
    assert forall j :: 0 <= j < i ==> all[j].name != DefaultFonts[i].name;
  }

  /** An uploaded name shared by no default font resolves to the first uploaded font of that name. */
  lemma UploadedFontResolves(uploaded: seq<FontDef>, k: nat)
    requires k < |uploaded|
    requires forall i :: 0 <= i < |DefaultFonts| ==> DefaultFonts[i].name != uploaded[k].name
    requires forall j :: 0 <= j < k ==> uploaded[j].name != uploaded[k].name
    ensures ElementFamily(uploaded, Some(uploaded[k].name)) == Some(uploaded[k].family)
  {
    var all := DefaultFonts + uploaded;
    var n := |DefaultFonts|;
    assert all[n + k] == uploaded[k];
    forall j | 0 <= j < n + k ensures all[j].name != uploaded[k].name {
      if j < n { assert all[j] == DefaultFonts[j]; } else { assert all[j] == uploaded[j - n]; }
    }
  }

  // ---------------------------------------------------------------------------------------------
  // The page
  // ---------------------------------------------------------------------------------------------

  /** The property panel's own state: the values its inputs show. */
  datatype Panel = Panel(text: string, x: real, y: real, fontSize: real, fontColor: string,
                         fontFamily: Option<string>, align: Option<TextAlign>)

  const InitialPanel: Panel := Panel([], 50.0, 50.0, 16.0, "#000000", Some(DefaultFont), Some(Left))

  /**
   * The effect that runs whenever the selection or the list changes: a selected element that is
   * found is copied into the panel (its alignment excepted).
   */
  function Reconcile(panel: Panel, els: seq<TextElement>, selected: Option<string>): (r: Panel)
    ensures r.align == panel.align
    ensures !IdSet(selected) || FindById(els, selected.value).None? ==> r == panel
    ensures IdSet(selected) && FindById(els, selected.value).Some? ==>
      var e := FindById(els, selected.value).value;
      r == Panel(e.text, e.x, e.y, e.fontSize, e.fontColor, e.fontFamily, panel.align)
  {
    if IdSet(selected) then
      match FindById(els, selected.value)
      case Some(e) => panel.(text := e.text, x := e.x, y := e.y, fontSize := e.fontSize, fontColor := e.fontColor, fontFamily := e.fontFamily)
      case None => panel
    else panel
  }

  /**
   * The page's state. Each handler method makes the handler's state updates and then runs the
   * panel effect once on the resulting state, as React does after the handler's render.
   */
  class Page {
    var textElements: seq<TextElement>
    /** The `lovable.dev.textElements` slot. */
    var storedElements: Option<seq<TextElement>>
    var selectedId: Option<string>
    var panel: Panel
    var isBulkEdit: bool
    var isDragging: bool
    var dragStart: DraggableResizableText.Point
    var uploadedFonts: seq<FontDef>
    /** The `lovable.dev.uploadedFonts` slot. */
    var storedFonts: Option<seq<FontDef>>
    var templateImage: Option<string>
    /** The `lovable.dev.savedTemplate` and `lovable.dev.savedTextElements` slots. */
    var savedTemplate: Option<string>
    var savedTextElements: Option<seq<TextElement>>

    /** Every element list shown has been written to storage. */
    predicate Valid()
      reads this
    {
      storedElements == Some(textElements)
    }

    /**
     * Mounting the page: stored fonts, template and elements are loaded; with no stored elements a
     * "Sample Text" element is created, stored and selected.
     */
    constructor Mount(elementsSlot: Option<seq<TextElement>>, fontsSlot: Option<seq<FontDef>>,
                      templateSlot: Option<string>, newId: string)
      ensures Valid()
      ensures elementsSlot.Some? ==> textElements == elementsSlot.value && selectedId == None && panel == InitialPanel
      ensures elementsSlot.None? ==>
        && textElements == [NewElement(newId, "Sample Text")]
        && selectedId == Some(newId)
        && panel == Reconcile(InitialPanel, textElements, selectedId)
      ensures uploadedFonts == fontsSlot.GetOr([]) && storedFonts == fontsSlot
      ensures templateImage == (if templateSlot.Some? && templateSlot.value != [] then templateSlot else None)
      ensures !isBulkEdit && !isDragging && savedTemplate == None && savedTextElements == None
    {
      uploadedFonts := fontsSlot.GetOr([]);
      storedFonts := fontsSlot;
      templateImage := if templateSlot.Some? && templateSlot.value != [] then templateSlot else None;
      isBulkEdit := false;
      isDragging := false;
      dragStart := DraggableResizableText.Point(0.0, 0.0);
      savedTemplate := None;
      savedTextElements := None;
      panel := InitialPanel;
      if elementsSlot.Some? {
        textElements := elementsSlot.value;
        storedElements := elementsSlot;
        selectedId := None;
      } else {
        var initial := NewElement(newId, "Sample Text");
        textElements := [initial];
        storedElements := Some([initial]);
        selectedId := Some(newId);
        panel := Reconcile(InitialPanel, [initial], Some(newId));
      }
    }

    /** The panel effect, run on the current selection and list. */
    method Sync()
      modifies this`panel
      ensures panel == Reconcile(old(panel), textElements, selectedId)
    {
      if IdSet(selectedId) {
        var found := FindById(textElements, selectedId.value);
        if found.Some? {
          var e := found.value;
          panel := panel.(text := e.text, x := e.x, y := e.y, fontSize := e.fontSize, fontColor := e.fontColor, fontFamily := e.fontFamily);
        }
      }
    }

    /** `updateElementProperty`: the list update, written to storage. */
    method UpdateElementProperty(id: Option<string>, p: Property)
      modifies this`textElements, this`storedElements
      requires Valid()
      ensures Valid()
      ensures textElements == UpdateProperty(old(textElements), id, p)
    {
      if !IdSet(id) {
        return;
      }
      var updated := UpdateProperty(textElements, id, p);
      textElements := updated;
      storedElements := Some(updated);
    }

    /** `handleAddTextElement`: a "New Text" element is appended, stored, selected and shown. */
    method HandleAddTextElement(newId: string)
      modifies this
      requires Valid()
      ensures Valid()
      ensures textElements == old(textElements) + [NewElement(newId, "New Text")]
      ensures selectedId == Some(newId)
      ensures var e := NewElement(newId, "New Text");
        panel == Reconcile(Panel(e.text, e.x, e.y, e.fontSize, e.fontColor, e.fontFamily, old(panel).align), textElements, selectedId)
      ensures isBulkEdit == old(isBulkEdit) && isDragging == old(isDragging) && dragStart == old(dragStart)
      ensures uploadedFonts == old(uploadedFonts) && storedFonts == old(storedFonts) && templateImage == old(templateImage)
      ensures savedTemplate == old(savedTemplate) && savedTextElements == old(savedTextElements)
    {
      var e := NewElement(newId, "New Text");
      var updated := textElements + [e];
      textElements := updated;
      storedElements := Some(updated);
      selectedId := Some(newId);
      panel := Panel(e.text, e.x, e.y, e.fontSize, e.fontColor, e.fontFamily, panel.align);
      Sync();
    }

    /** `handleSelectElement`: the element becomes selected and, when found, fills the panel, alignment included. */
    method HandleSelectElement(id: string)
      modifies this`selectedId, this`panel
      requires Valid()
      ensures selectedId == Some(id)
      ensures FindById(textElements, id).Some? ==> var e := FindById(textElements, id).value;
        panel == Reconcile(Panel(e.text, e.x, e.y, e.fontSize, e.fontColor, e.fontFamily, e.textAlign), textElements, selectedId)
      ensures FindById(textElements, id).None? ==> panel == old(panel)
    {
      selectedId := Some(id);
      var found := FindById(textElements, id);
      if found.Some? {
        var e := found.value;
        panel := Panel(e.text, e.x, e.y, e.fontSize, e.fontColor, e.fontFamily, e.textAlign);
      }
      Sync();
    }

    /** `handleRemoveElement`: the elements with that id are dropped; a removed selection moves to the first remaining element. */
    method HandleRemoveElement(id: string)
      modifies this`textElements, this`storedElements, this`selectedId, this`panel
      requires Valid()
      ensures Valid()
      ensures textElements == RemoveById(old(textElements), id)
      ensures selectedId == SelectionAfterRemove(old(selectedId), id, textElements)
      ensures panel == Reconcile(old(panel), textElements, selectedId)
    {
      var updated := RemoveById(textElements, id);
      textElements := updated;
      storedElements := Some(updated);
      if selectedId == Some(id) {
        selectedId := if |updated| > 0 then Some(updated[0].id) else None;
      }
      Sync();
    }

    /**
     * The text, font-size, colour, font-family and alignment change handlers: the panel shows the
     * value; in bulk mode every element gets it, otherwise only the selected one.
     */
    method HandleChange(p: Property)
      modifies this`textElements, this`storedElements, this`panel
      requires Valid()
      requires p.Text? || p.FontSize? || p.FontColor? || p.FontFamily? || p.Align?
      ensures Valid()
      ensures isBulkEdit ==> textElements == BulkUpdate(old(textElements), p)
      ensures !isBulkEdit ==> textElements == UpdateProperty(old(textElements), selectedId, p)
      ensures panel == Reconcile(ShowInPanel(old(panel), p), textElements, selectedId)
    {
      panel := ShowInPanel(panel, p);
      if isBulkEdit {
        var updated := BulkUpdate(textElements, p);
        textElements := updated;
        storedElements := Some(updated);
      } else {
        UpdateElementProperty(selectedId, p);
      }
      Sync();
    }

    /** The alignment buttons: the panel shows the alignment and only the selected element gets it, bulk mode or not. */
    method HandleAlignButton(a: TextAlign)
      modifies this`textElements, this`storedElements, this`panel
      requires Valid()
      ensures Valid()
      ensures textElements == UpdateProperty(old(textElements), selectedId, Align(a))
      ensures panel == Reconcile(old(panel).(align := Some(a)), textElements, selectedId)
    {
      panel := panel.(align := Some(a));
      UpdateElementProperty(selectedId, Align(a));
      Sync();
    }

    /** `onTextMove` from the canvas: x, then y, of the element with that id. */
    method OnTextMove(id: string, x: real, y: real)
      modifies this`textElements, this`storedElements, this`panel
      requires Valid()
      ensures Valid()
      ensures textElements == UpdateProperty(UpdateProperty(old(textElements), Some(id), X(x)), Some(id), Y(y))
      ensures panel == Reconcile(old(panel), textElements, selectedId)
    {
      UpdateElementProperty(Some(id), X(x));
      UpdateElementProperty(Some(id), Y(y));
      Sync();
    }

    /** `onTextResize` from the canvas: width, then height, of the element with that id. */
    method OnTextResize(id: string, width: real, height: real)
      modifies this`textElements, this`storedElements, this`panel
      requires Valid()
      ensures Valid()
      ensures textElements == UpdateProperty(UpdateProperty(old(textElements), Some(id), Width(width)), Some(id), Height(height))
      ensures panel == Reconcile(old(panel), textElements, selectedId)
    {
      UpdateElementProperty(Some(id), Width(width));
      UpdateElementProperty(Some(id), Height(height));
      Sync();
    }

    /**
     * `moveElement(direction, amount)`: with a selection, the panel position is nudged, shown and
     * written to x and y of the selected element; without one, nothing happens.
     */
    method MoveElement(dir: Direction, amount: real)
      modifies this`textElements, this`storedElements, this`panel
      requires Valid()
      ensures Valid()
      ensures !IdSet(selectedId) ==> textElements == old(textElements) && panel == old(panel)
      ensures IdSet(selectedId) ==> var (nx, ny) := Nudge(old(panel).x, old(panel).y, dir, amount);
        && textElements == UpdateProperty(UpdateProperty(old(textElements), selectedId, X(nx)), selectedId, Y(ny))
        && panel == Reconcile(old(panel).(x := nx, y := ny), textElements, selectedId)
    {
      if !IdSet(selectedId) {
        return;
      }
      var newX := panel.x;
      var newY := panel.y;
      match dir {
        case MoveUp => newY := DraggableResizableText.Max(0.0, panel.y - amount);
        case MoveDown => newY := DraggableResizableText.Min(100.0, panel.y + amount);
        case MoveLeft => newX := DraggableResizableText.Max(0.0, panel.x - amount);
        case MoveRight => newX := DraggableResizableText.Min(100.0, panel.x + amount);
      }
      panel := panel.(x := newX, y := newY);
      UpdateElementProperty(selectedId, X(newX));
      UpdateElementProperty(selectedId, Y(newY));
      Sync();
    }

    /** `handleMouseDown`: a left-button press selects the element and starts a drag. */
    method HandleMouseDown(button: int, elementId: string, pointer: DraggableResizableText.Point, canvas: Option<CanvasRect>)
      modifies this`isDragging, this`selectedId, this`dragStart, this`panel
      ensures button != 0 ==> selectedId == old(selectedId) && isDragging == old(isDragging) && dragStart == old(dragStart) && panel == old(panel)
      ensures button == 0 ==> isDragging && selectedId == Some(elementId) && panel == Reconcile(old(panel), textElements, selectedId)
      ensures button == 0 && canvas.Some? ==>
        dragStart == DraggableResizableText.Point(pointer.x - canvas.value.left, pointer.y - canvas.value.top)
      ensures canvas.None? ==> dragStart == old(dragStart)
    {
      if button != 0 {
        return;
      }
      isDragging := true;
      selectedId := Some(elementId);
      if canvas.Some? {
        dragStart := DraggableResizableText.Point(pointer.x - canvas.value.left, pointer.y - canvas.value.top);
      }
      Sync();
    }

    /** `handleMouseMove` and the global move listener: while dragging a selection, it follows the pointer, clamped. */
    method HandleMouseMove(pointer: DraggableResizableText.Point, canvas: Option<CanvasRect>)
      modifies this`textElements, this`storedElements, this`panel
      requires Valid()
      ensures Valid()
      ensures !isDragging || !IdSet(selectedId) || canvas.None? ==> textElements == old(textElements) && panel == old(panel)
      ensures isDragging && IdSet(selectedId) && canvas.Some? ==>
        var (px, py) := PointerPercent(pointer, canvas.value);
        && textElements == UpdateProperty(UpdateProperty(old(textElements), selectedId, X(px)), selectedId, Y(py))
        && panel == Reconcile(old(panel).(x := px, y := py), textElements, selectedId)
    {
      if !isDragging || !IdSet(selectedId) {
        return;
      }
      if canvas.Some? {
        var (x, y) := PointerPercent(pointer, canvas.value);
        UpdateElementProperty(selectedId, X(x));
        UpdateElementProperty(selectedId, Y(y));
        panel := panel.(x := x, y := y);
        Sync();
      }
    }

    /** `handleMouseUp` and the global up listener: the drag ends. */
    method HandleMouseUp()
      modifies this`isDragging
      ensures !isDragging
    {
      isDragging := false;
    }

    /** The bulk-edit switch. */
    method SetBulkEdit(on: bool)
      modifies this`isBulkEdit
      ensures isBulkEdit == on
    {
      isBulkEdit := on;
    }

    /** `handleFontUpload`: the font is appended to the uploaded fonts and stored. */
    method HandleFontUpload(name: string, family: string)
      modifies this`uploadedFonts, this`storedFonts
      ensures uploadedFonts == old(uploadedFonts) + [FontDef(name, family)]
      ensures storedFonts == Some(uploadedFonts)
    {
      uploadedFonts := uploadedFonts + [FontDef(name, family)];
      storedFonts := Some(uploadedFonts);
    }

    /** `handleSaveComplete`: with a template, the template and the elements are saved as the complete template. */
    method HandleSaveComplete()
      modifies this`savedTemplate, this`savedTextElements, this`storedElements
      requires Valid()
      ensures Valid()
      ensures templateImage.Some? ==> savedTemplate == templateImage && savedTextElements == Some(textElements)
      ensures templateImage.None? ==> savedTemplate == old(savedTemplate) && savedTextElements == old(savedTextElements)
    {
      if templateImage.Some? {
        savedTemplate := templateImage;
        savedTextElements := Some(textElements);
        storedElements := Some(textElements);
      }
    }
  }

  /** The panel value a change handler shows before the list is updated. */
  function ShowInPanel(panel: Panel, p: Property): (r: Panel)
    requires p.Text? || p.FontSize? || p.FontColor? || p.FontFamily? || p.Align?
    ensures r.x == panel.x && r.y == panel.y
    ensures p.Text? ==> r.text == p.text
    ensures p.FontSize? ==> r.fontSize == p.size
    ensures p.FontColor? ==> r.fontColor == p.color
    ensures p.FontFamily? ==> r.fontFamily == Some(p.family)
    ensures p.Align? ==> r.align == Some(p.align)
    ensures !p.Text? ==> r.text == panel.text
    ensures !p.FontSize? ==> r.fontSize == panel.fontSize
    ensures !p.FontColor? ==> r.fontColor == panel.fontColor
    ensures !p.FontFamily? ==> r.fontFamily == panel.fontFamily
    ensures !p.Align? ==> r.align == panel.align
  {
    match p
    case Text(t) => panel.(text := t)
    case FontSize(s) => panel.(fontSize := s)
    case FontColor(c) => panel.(fontColor := c)
    case FontFamily(f) => panel.(fontFamily := Some(f))
    case Align(a) => panel.(align := Some(a))
  }
}
