/**
 * The batch export page: a table of certificate batches and a preview dialog that steps through one
 * batch's recipients, showing each recipient's name and the text elements with `{name}` filled in.
 * The page starts with no batches, no template and no elements and nothing in it loads them; the
 * handlers are modelled as written. The download button only shows a notice and is not modelled.
 */
module ExportPage2 {
  import opened Wrappers
  import opened Types
  import NameToken
  import JsStrings

  /** The text element of this page: a text and where and how to draw it. */
  datatype PreviewElement = PreviewElement(
    text: string, x: real, y: real, fontSize: real, fontFamily: string, fontColor: string, textAlign: string)

  /** What Previous leaves the index at: one back, never below the first recipient. */
  function StepPrev(i: nat): (r: nat)
    ensures i > 0 ==> r == i - 1
    ensures i == 0 ==> r == 0
  {
    if i > 0 then i - 1 else i
  }

  /** What Next leaves the index at in a batch of `n`: one forward, never past the last recipient. */
  function StepNext(i: nat, n: nat): (r: nat)
    ensures i < n - 1 ==> r == i + 1
    ensures i >= n - 1 ==> r == i
  {
    if i < n - 1 then i + 1 else i
  }

  /** The index names a recipient of a non-empty batch, or is 0. */
  predicate InRange(i: nat, n: nat) {
    i == 0 || i < n
  }

  /** Both steps keep the index in range; unlike the certificate preview, neither wraps round. */
  lemma StepsStayInRange(i: nat, n: nat)
    requires InRange(i, n)
    ensures InRange(StepPrev(i), n) && InRange(StepNext(i, n), n)
    ensures n > 0 ==> StepNext(n - 1, n) == n - 1
    ensures StepPrev(0) == 0
  {
  }

  /** Away from the ends, Previous undoes Next and Next undoes Previous. */
  lemma StepsUndo(i: nat, n: nat)
    ensures i + 1 < n ==> StepPrev(StepNext(i, n)) == i
    ensures 0 < i < n ==> StepNext(StepPrev(i), n) == i
  {
  }

  /** `disabled={currentRecipientIndex === 0}`. */
  predicate PrevDisabled(i: nat) {
    i == 0
  }

  /** `disabled={currentRecipientIndex === selectedBatch.recipients.length - 1}`. */
  predicate NextDisabled(i: nat, n: nat) {
    i == n - 1
  }

  /**
   * The buttons are disabled exactly when their handler would do nothing, as long as the index names a
   * recipient; an empty batch leaves Next enabled although it moves nothing.
   */
  lemma ButtonsMatchHandlers(i: nat, n: nat)
    requires i < n
    ensures StepPrev(i) != i <==> !PrevDisabled(i)
    ensures StepNext(i, n) != i <==> !NextDisabled(i, n)
    ensures !NextDisabled(0, 0) && StepNext(0, 0) == 0
  {
  }

  /** `el.text.replace(/\{name\}/g, name)` as evidently intended: every `{name}` becomes the name. */
  function PreviewTexts(elements: seq<PreviewElement>, name: string): (r: seq<string>)
    ensures |r| == |elements|
    ensures forall k :: 0 <= k < |r| ==> r[k] == NameToken.SubstituteName(elements[k].text, name)
  {
    seq(|elements|, k requires 0 <= k < |elements| => NameToken.SubstituteName(elements[k].text, name))
  }

  /** A text without `{name}` is previewed unchanged. */
  lemma PreviewTextWithoutToken(elements: seq<PreviewElement>, name: string, k: nat)
    requires k < |elements| && !NameToken.HasToken(elements[k].text)
    ensures PreviewTexts(elements, name)[k] == elements[k].text
  {
    NameToken.SubstituteWithoutToken(elements[k].text, name);
  }

  /** A text made of pieces joined by `{name}` shows the name between the pieces, braces and all. */
  lemma PreviewTextsFillName(elements: seq<PreviewElement>, name: string, pieces: seq<string>, k: nat)
    requires k < |elements|
    requires |pieces| >= 1 && forall j :: 0 <= j < |pieces| ==> !NameToken.HasToken(pieces[j])
    requires elements[k].text == JsStrings.Join(pieces, NameToken.Token)
    ensures PreviewTexts(elements, name)[k] == JsStrings.Join(pieces, name)
  {
    NameToken.SubstituteJoinedPieces(pieces, name);
  }

  /** What the dialog shows inside the template: the recipient's name and the filled-in texts. */
  datatype Shown = Shown(name: string, texts: seq<string>)

  /** Nothing without a template or when the index names no recipient. */
  function PreviewContent(templateImage: string, batch: Batch, i: nat, elements: seq<PreviewElement>): (r: Option<Shown>)
    ensures r.Some? <==> templateImage != "" && i < |batch.recipients|
    ensures r.Some? ==> r.value.name == batch.recipients[i].name
    ensures r.Some? ==> r.value.texts == PreviewTexts(elements, batch.recipients[i].name)
  {
    if templateImage != "" && i < |batch.recipients| then
      var name := batch.recipients[i].name;
      Some(Shown(name, PreviewTexts(elements, name)))
    else None
  }

  /** The page's state. */
  class Page {
    var batches: seq<Batch>
    var selectedBatch: Option<Batch>
    var currentRecipientIndex: nat
    var templateImage: string
    var textElements: seq<PreviewElement>

    constructor()
      ensures batches == [] && selectedBatch == None && currentRecipientIndex == 0
      ensures templateImage == "" && textElements == []
      ensures Valid()
    {
      batches := [];
      selectedBatch := None;
      currentRecipientIndex := 0;
      templateImage := "";
      textElements := [];
    }

    /** The number of recipients of the open batch. */
    function Count(): nat
      reads this
    {
      if selectedBatch.Some? then |selectedBatch.value.recipients| else 0
    }

    /** With the dialog closed the index is 0; with it open the index is 0 or names a recipient. */
    predicate Valid()
      reads this
    {
      (selectedBatch.None? ==> currentRecipientIndex == 0) && InRange(currentRecipientIndex, Count())
    }

    /** `handlePreviewBatch`: the dialog opens on the batch at its first recipient. */
    method HandlePreviewBatch(batch: Batch)
      modifies this`selectedBatch, this`currentRecipientIndex
      ensures selectedBatch == Some(batch) && currentRecipientIndex == 0
      ensures Valid()
    {
      selectedBatch := Some(batch);
      currentRecipientIndex := 0;
    }

    /** `handleClosePreview`: the dialog closes and the index goes back to 0. */
    method HandleClosePreview()
      modifies this`selectedBatch, this`currentRecipientIndex
      ensures selectedBatch == None && currentRecipientIndex == 0
      ensures Valid()
    {
      selectedBatch := None;
      currentRecipientIndex := 0;
    }

    /** `handlePrevPreview`: one back when not at the first recipient. */
    method HandlePrevPreview()
      modifies this`currentRecipientIndex
      ensures currentRecipientIndex == StepPrev(old(currentRecipientIndex))
      ensures old(Valid()) ==> Valid()
    {
      if currentRecipientIndex > 0 {
        currentRecipientIndex := currentRecipientIndex - 1;
      }
    }

    /** `handleNextPreview`: one forward when a batch is open and the last recipient is not reached. */
    method HandleNextPreview()
      modifies this`currentRecipientIndex
      ensures selectedBatch.None? ==> currentRecipientIndex == old(currentRecipientIndex)
      ensures selectedBatch.Some? ==> currentRecipientIndex == StepNext(old(currentRecipientIndex), Count())
      ensures old(Valid()) ==> Valid()
    {
      if selectedBatch.Some? && currentRecipientIndex < |selectedBatch.value.recipients| - 1 {
        currentRecipientIndex := currentRecipientIndex + 1;
      }
    }

    /** What the open dialog shows; nothing while it is closed. */
    function Content(): (r: Option<Shown>)
      reads this
      ensures selectedBatch.None? ==> r.None?
      ensures selectedBatch.Some? ==> r == PreviewContent(templateImage, selectedBatch.value, currentRecipientIndex, textElements)
    {
      if selectedBatch.Some? then PreviewContent(templateImage, selectedBatch.value, currentRecipientIndex, textElements)
      else None
    }
  }

  /** Opening a batch with a template shows its first recipient; Next then shows the second. */
  method OpenAndStep(page: Page, batch: Batch)
    requires page.templateImage != "" && |batch.recipients| >= 2
    modifies page
    ensures page.Content() == Some(Shown(batch.recipients[1].name, PreviewTexts(page.textElements, batch.recipients[1].name)))
  {
    page.HandlePreviewBatch(batch);
    assert page.Content().value.name == batch.recipients[0].name;
    page.HandleNextPreview();
  }
}
