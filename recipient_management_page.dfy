/**
 * The administrator's recipient table: records kept in the `certigen.recipients` storage slot, whose
 * printed status can be toggled and which can be deleted by id. Every change writes the new list to the
 * slot and shows it. The toast messages and the navigation to the add page are not modelled.
 */
module RecipientManagementPage {
  import opened Wrappers
  import Collections

  datatype Recipient = Recipient(
    id: string,
    certificateNumber: string,
    name: string,
    email: Option<string>,
    title: string,
    creationDate: string,
    printed: bool)

  /** The two records the table starts with when nothing is stored. */
  const InitialRecipients: seq<Recipient> := [
    Recipient("1", "CERT-001", "John Doe", Some("john@example.com"), "Certificate of Excellence", "2025-03-15", false),
    Recipient("2", "CERT-002", "Jane Smith", Some("jane@example.com"), "Certificate of Achievement", "2025-03-20", true)
  ]

  /** The initial state: the stored list, or the two sample records. */
  function Load(slot: Option<seq<Recipient>>): (r: seq<Recipient>)
    ensures slot.Some? ==> r == slot.value
    ensures slot.None? ==> r == InitialRecipients
  {
    if slot.Some? then slot.value else InitialRecipients
  }

  /** One step of the `map` in `togglePrintStatus`. */
  function Toggle(r: Recipient, id: string): (t: Recipient)
    ensures t.id == r.id
    ensures r.id == id ==> t == r.(printed := !r.printed)
    ensures r.id != id ==> t == r
  {
    if r.id == id then r.(printed := !r.printed) else r
  }

  /** `togglePrintStatus`'s new list: the records with this id have their status flipped, the others are unchanged. */
  function TogglePrinted(recipients: seq<Recipient>, id: string): (r: seq<Recipient>)
    ensures |r| == |recipients|
    ensures forall i :: 0 <= i < |r| ==> r[i].id == recipients[i].id
    ensures forall i :: 0 <= i < |r| && recipients[i].id == id ==> r[i] == recipients[i].(printed := !recipients[i].printed)
    ensures forall i :: 0 <= i < |r| && recipients[i].id != id ==> r[i] == recipients[i]
  {
    seq(|recipients|, i requires 0 <= i < |recipients| => Toggle(recipients[i], id))
  }

  /** Toggling the same id twice restores the list. */
  lemma ToggleTwice(recipients: seq<Recipient>, id: string)
    ensures TogglePrinted(TogglePrinted(recipients, id), id) == recipients
  {
    var once := TogglePrinted(recipients, id);
    var twice := TogglePrinted(once, id);
    forall i | 0 <= i < |recipients| ensures twice[i] == recipients[i] {
      assert once[i].id == recipients[i].id;
    }
  }

  /** Toggling an id no record has changes nothing. */
  lemma ToggleAbsentId(recipients: seq<Recipient>, id: string)
    requires forall i :: 0 <= i < |recipients| ==> recipients[i].id != id
    ensures TogglePrinted(recipients, id) == recipients
  {
    var r := TogglePrinted(recipients, id);
    assert forall i :: 0 <= i < |r| ==> r[i] == recipients[i];
  }

  /** Toggles of different ids do not interfere. */
  lemma TogglesCommute(recipients: seq<Recipient>, a: string, b: string)
    ensures TogglePrinted(TogglePrinted(recipients, a), b) == TogglePrinted(TogglePrinted(recipients, b), a)
  {
    var ab := TogglePrinted(TogglePrinted(recipients, a), b);
    var ba := TogglePrinted(TogglePrinted(recipients, b), a);
    forall i | 0 <= i < |recipients| ensures ab[i] == ba[i] {
      assert TogglePrinted(recipients, a)[i].id == recipients[i].id;
      assert TogglePrinted(recipients, b)[i].id == recipients[i].id;
    }
  }

  /** `recipients.find(r => r.id === id)` finds a record. */
  predicate HasId(recipients: seq<Recipient>, id: string) {
    exists i :: 0 <= i < |recipients| && recipients[i].id == id
  }

  function RecipientId(r: Recipient): string {
    r.id
  }

  /**
   * `deleteRecipient`'s outcome: nothing when no record has the id (and nothing is saved), otherwise
   * the list without the records with that id.
   */
  function Deletion(recipients: seq<Recipient>, id: string): (r: Option<seq<Recipient>>)
    ensures r.None? <==> !HasId(recipients, id)
    ensures r.Some? ==> forall x :: x in r.value <==> x in recipients && x.id != id
  {
    if HasId(recipients, id) then Some(Collections.RemoveKey(recipients, RecipientId, id)) else None
  }

  /** Deleting a known id removes at least one record. */
  lemma DeletionShortens(recipients: seq<Recipient>, id: string)
    requires HasId(recipients, id)
    ensures |Deletion(recipients, id).value| < |recipients|
  {
    var k :| 0 <= k < |recipients| && recipients[k].id == id;
    Collections.RemovePresentKeyShortens(recipients, RecipientId, id, k);
  }

  /** The remaining records keep their order: deleting from two parts deletes from each part. */
  lemma DeletionKeepsOrder(a: seq<Recipient>, b: seq<Recipient>, id: string)
    requires HasId(a + b, id)
    ensures Deletion(a + b, id).value == Collections.RemoveKey(a, RecipientId, id) + Collections.RemoveKey(b, RecipientId, id)
  {
    Collections.RemoveKeyAppend(a, b, RecipientId, id);
  }

  /** Records before the first one with the id stay where they are. */
  lemma DeletionKeepsUntouchedPrefix(a: seq<Recipient>, b: seq<Recipient>, id: string)
    requires forall i :: 0 <= i < |a| ==> a[i].id != id
    requires HasId(b, id)
    ensures HasId(a + b, id)
    ensures Deletion(a + b, id).value == a + Collections.RemoveKey(b, RecipientId, id)
  {
    var k :| 0 <= k < |b| && b[k].id == id;
    assert (a + b)[|a| + k] == b[k];
    Collections.RemoveKeyAppend(a, b, RecipientId, id);
    Collections.RemoveAbsentKey(a, RecipientId, id);
  }

  /** The page's state and its storage slot. */
  class Page {
    var recipients: seq<Recipient>
    /** `certigen.recipients`. */
    var slot: Option<seq<Recipient>>
    var previewOpen: bool
    var previewRecipient: Option<Recipient>

    constructor(slot0: Option<seq<Recipient>>)
      ensures recipients == Load(slot0) && slot == slot0
      ensures !previewOpen && previewRecipient == None
    {
      recipients := Load(slot0);
      slot := slot0;
      previewOpen := false;
      previewRecipient := None;
    }

    /** What is shown is what is stored. */
    predicate Saved()
      reads this
    {
      slot == Some(recipients)
    }

    /** `saveRecipients`: the list is written to the slot and shown. */
    method SaveRecipients(updated: seq<Recipient>)
      modifies this`recipients, this`slot
      ensures slot == Some(updated) && recipients == updated
      ensures Saved()
    {
      slot := Some(updated);
      recipients := updated;
    }

    /** `togglePrintStatus`: the flipped list is saved. */
    method TogglePrintStatus(id: string)
      modifies this`recipients, this`slot
      ensures recipients == TogglePrinted(old(recipients), id)
      ensures Saved()
    {
      var updated := TogglePrinted(recipients, id);
      SaveRecipients(updated);
    }

    /** `deleteRecipient`: an unknown id leaves the list and the slot alone; a known one is removed and saved. */
    method DeleteRecipient(id: string)
      modifies this`recipients, this`slot
      ensures var d := Deletion(old(recipients), id);
        && (d.None? ==> recipients == old(recipients) && slot == old(slot))
        && (d.Some? ==> recipients == d.value && Saved())
    {
      if HasId(recipients, id) {
        var updated := Collections.RemoveKey(recipients, RecipientId, id);
        SaveRecipients(updated);
      }
    }

    /** `previewRecipientCertificate`: the dialog opens on this record. */
    method PreviewRecipientCertificate(r: Recipient)
      modifies this`previewOpen, this`previewRecipient
      ensures previewOpen && previewRecipient == Some(r)
    {
      previewRecipient := Some(r);
      previewOpen := true;
    }
  }
}
