/**
 * The data-input page: a list of recipients built by hand or imported from a CSV file. The rows a
 * CSV parser produced, the ids (`Date.now()` and `Math.random()`) and the answer to the confirmation
 * dialog are inputs.
 */
module DataInputPage {
  import opened Wrappers
  import opened JsStrings
  import Collections

  datatype Recipient = Recipient(id: string, name: string, description: Option<string>)

  /** A parsed CSV row: its `name` and `description` columns, when present. */
  datatype Row = Row(name: Option<string>, description: Option<string>)

  /** How the CSV parser finished: with its rows (when the result holds an array), or with an error message. */
  datatype ParseOutcome = Parsed(data: Option<seq<Row>>) | ParseFailed(message: string)

  /** The picked file's type and name. */
  datatype FileInfo = FileInfo(mimeType: string, name: string)

  /** `value.trim() || undefined`: the trimmed text, absent when it is blank. */
  function TrimmedOrAbsent(value: string): (r: Option<string>)
    ensures r.None? <==> IsBlank(value)
    ensures r.Some? ==> r.value == Trim(value) && r.value != []
  {
    TrimEmptyIffBlank(value);
    if Trim(value) == [] then None else Some(Trim(value))
  }

  /** The record `handleAddRecipient` builds, or the error when the name is blank. */
  function NewRecipient(id: string, name: string, description: string): (r: Result<Recipient, string>)
    ensures r.Err? <==> IsBlank(name)
    ensures r.Err? ==> r.error == "Please enter a name"
    ensures r.Ok? ==> r.value == Recipient(id, Trim(name), TrimmedOrAbsent(description)) && r.value.name != []
  {
    TrimEmptyIffBlank(name);
    if Trim(name) == [] then Err("Please enter a name")
    else Ok(Recipient(id, Trim(name), TrimmedOrAbsent(description)))
  }

  function RecipientId(r: Recipient): string {
    r.id
  }

  /** `recipients.filter(recipient => recipient.id !== id)`. */
  function RemoveRecipient(recipients: seq<Recipient>, id: string): (r: seq<Recipient>)
    ensures forall x :: x in r <==> x in recipients && x.id != id
  {
    Collections.RemoveKey(recipients, RecipientId, id)
  }

  /** The row filter: the name is present and not blank. */
  predicate HasName(row: Row) {
    row.name.Some? && !IsBlank(row.name.value)
  }

  /** The rows the import keeps, in order. */
  function KeptRows(rows: seq<Row>): (r: seq<Row>)
    ensures forall x :: x in r <==> x in rows && HasName(x)
  {
    Collections.FilterMembers(rows, HasName);
    Collections.Filter(rows, HasName)
  }

  /** The recipient a kept row becomes. */
  function RowRecipient(id: string, row: Row): (r: Recipient)
    requires HasName(row)
    ensures r.id == id && r.name == Trim(row.name.value) && r.name != []
    ensures r.description == (if row.description.Some? then TrimmedOrAbsent(row.description.value) else None)
  {
    TrimEmptyIffBlank(row.name.value);
    Recipient(id, Trim(row.name.value), if row.description.Some? then TrimmedOrAbsent(row.description.value) else None)
  }

  /** The recipients one parsed file yields; `ids(k)` is the id given to the `k`-th kept row. */
  function ImportRows(rows: seq<Row>, ids: nat -> string): (r: seq<Recipient>)
    ensures |r| == |KeptRows(rows)|
    ensures forall k :: 0 <= k < |r| ==> HasName(KeptRows(rows)[k]) && r[k] == RowRecipient(ids(k), KeptRows(rows)[k])
  {
    var kept := KeptRows(rows);
    Collections.FilterAllKept(rows, HasName);
    seq(|kept|, k requires 0 <= k < |kept| => RowRecipient(ids(k), kept[k]))
  }

  /** Every imported recipient has a non-empty, trimmed name. */
  lemma ImportedNamesTrimmed(rows: seq<Row>, ids: nat -> string)
    ensures forall k :: 0 <= k < |ImportRows(rows, ids)| ==>
      ImportRows(rows, ids)[k].name != [] && Trim(ImportRows(rows, ids)[k].name) == ImportRows(rows, ids)[k].name
  {
    var r := ImportRows(rows, ids);
    forall k | 0 <= k < |r| ensures Trim(r[k].name) == r[k].name {
      TrimIdempotent(KeptRows(rows)[k].name.value);
    }
  }

  /** Rows are imported in file order: the rows of two parts of a file are the rows of the first part, then those of the second. */
  lemma ImportKeepsRowOrder(a: seq<Row>, b: seq<Row>)
    ensures KeptRows(a + b) == KeptRows(a) + KeptRows(b)
  {
    Collections.FilterAppend(a, b, HasName);
  }

  /** A file whose every row has a name imports every row. */
  lemma ImportKeepsNamedRows(rows: seq<Row>)
    requires forall i :: 0 <= i < |rows| ==> HasName(rows[i])
    ensures KeptRows(rows) == rows
  {
    Collections.FilterKeepsAll(rows, HasName);
  }

  /** `file.type !== 'text/csv' && !file.name.endsWith('.csv')` rejects the file. */
  predicate AcceptsFile(file: FileInfo) {
    file.mimeType == "text/csv" || EndsWith(file.name, ".csv")
  }

  /** A name ending in ".csv" is accepted whatever the type, and the CSV type whatever the name. */
  lemma AcceptsFileByNameOrType(mimeType: string, stem: string)
    ensures AcceptsFile(FileInfo(mimeType, stem + ".csv"))
    ensures AcceptsFile(FileInfo("text/csv", stem))
  {
    assert (stem + ".csv")[|stem + ".csv"| - |".csv"|..] == ".csv";
  }

  lemma AcceptsFileExamples()
    ensures AcceptsFile(FileInfo("text/csv", "people.txt"))
    ensures AcceptsFile(FileInfo("application/vnd.ms-excel", "people.csv"))
    ensures !AcceptsFile(FileInfo("text/plain", "people.txt"))
    ensures !AcceptsFile(FileInfo("text/plain", "csv"))
  {
    assert "people.csv"[|"people.csv"| - 4..] == ".csv";
    assert "people.txt"[|"people.txt"| - 4..] != ".csv" by {
      assert "people.txt"[|"people.txt"| - 4..][1] == 't';
    }
  }

  class Page {
    var recipients: seq<Recipient>
    /** The two form fields of the manual-entry tab. */
    var name: string
    var description: string
    var csvError: Option<string>

    constructor()
      ensures recipients == [] && name == [] && description == [] && csvError == None
    {
      recipients := [];
      name := [];
      description := [];
      csvError := None;
    }

    /** `handleAddRecipient`: a blank name is refused; otherwise the recipient is appended and the form cleared. */
    method HandleAddRecipient(newId: string) returns (r: Result<Recipient, string>)
      modifies this`recipients, this`name, this`description
      ensures r == NewRecipient(newId, old(name), old(description))
      ensures r.Err? ==> recipients == old(recipients) && name == old(name) && description == old(description)
      ensures r.Ok? ==> recipients == old(recipients) + [r.value] && name == [] && description == []
    {
      if Trim(name) == [] {
        TrimEmptyIffBlank(name);
        return Err("Please enter a name");
      }
      TrimEmptyIffBlank(name);
      var added := Recipient(newId, Trim(name), if Trim(description) == [] then None else Some(Trim(description)));
      TrimEmptyIffBlank(description);
      recipients := recipients + [added];
      name := [];
      description := [];
      r := Ok(added);
    }

    /** `handleRemoveRecipient`. */
    method HandleRemoveRecipient(id: string)
      modifies this`recipients
      ensures recipients == RemoveRecipient(old(recipients), id)
    {
      recipients := RemoveRecipient(recipients, id);
    }

    /**
     * `handleFileUpload` when a file is picked: the error is cleared and a file of the wrong kind
     * refused. An accepted file starts the parse, and the handler hands its callback the recipient
     * list as it stands at the pick.
     */
    method HandleFileUpload(file: Option<FileInfo>) returns (captured: Option<seq<Recipient>>)
      modifies this`csvError
      ensures captured.Some? <==> file.Some? && AcceptsFile(file.value)
      ensures captured.Some? ==> captured.value == recipients
      ensures file.Some? && !AcceptsFile(file.value) ==> csvError == Some("Please upload a valid CSV file")
      ensures !(file.Some? && !AcceptsFile(file.value)) ==> csvError == None
    {
      csvError := None;
      captured := None;
      if file.None? {
        return;
      }
      if !AcceptsFile(file.value) {
        csvError := Some("Please upload a valid CSV file");
        return;
      }
      captured := Some(recipients);
    }

    /**
     * The parser's `complete` or `error` callback: a failed parse or a file with no named row sets an
     * error; otherwise the list becomes the one captured at the pick followed by the imported
     * recipients, whatever was added or removed meanwhile.
     */
    method OnParseComplete(captured: seq<Recipient>, outcome: ParseOutcome, ids: nat -> string)
      modifies this`recipients, this`csvError
      ensures outcome.ParseFailed? ==>
        recipients == old(recipients) && csvError == Some("Error parsing CSV: " + outcome.message)
      ensures outcome.Parsed? && outcome.data.None? ==> recipients == old(recipients) && csvError == old(csvError)
      ensures outcome.Parsed? && outcome.data.Some? ==>
        var imported := ImportRows(outcome.data.value, ids);
        && (|imported| == 0 ==> recipients == old(recipients) && csvError == Some("No valid recipients found in CSV"))
        && (|imported| > 0 ==> recipients == captured + imported && csvError == old(csvError))
    {
      match outcome {
        case ParseFailed(message) =>
          csvError := Some("Error parsing CSV: " + message);
        case Parsed(data) =>
          if data.Some? {
            var parsed := ImportRows(data.value, ids);
            if |parsed| == 0 {
              csvError := Some("No valid recipients found in CSV");
              return;
            }
            recipients := captured + parsed;
          }
      }
    }

    /** `handleClearAll`: nothing on an empty list; otherwise the list is emptied when the dialog is confirmed. */
    method HandleClearAll(confirmed: bool)
      modifies this`recipients
      ensures |old(recipients)| == 0 || !confirmed ==> recipients == old(recipients)
      ensures |old(recipients)| > 0 && confirmed ==> recipients == []
    {
      if |recipients| == 0 {
        return;
      }
      if confirmed {
        recipients := [];
      }
    }
  }

  /** A name the form and the import keep as it is: not empty, no blank at either end. */
  predicate Unpadded(name: string) {
    name != [] && !IsWhitespace(name[0]) && !IsWhitespace(name[|name| - 1])
  }

  /**
   * A recipient entered by hand while a file is being parsed: the import replaces the list with the
   * one captured at the pick plus the file's rows, so the hand-entered recipient is gone.
   */
  method ManualEntryDuringParseIsLost(file: FileInfo, manual: string, imported: string, ids: nat -> string)
    returns (during: seq<Recipient>, final: seq<Recipient>)
    requires AcceptsFile(file) && Unpadded(manual) && Unpadded(imported)
    ensures during == [Recipient("manual", manual, None)]
    ensures final == [Recipient(ids(0), imported, None)]
  {
    var page := new Page();
    var captured := page.HandleFileUpload(Some(file));
    assert captured == Some([]);
    page.name := manual;
    NewRecipientUnpadded("manual", manual);
    var added := page.HandleAddRecipient("manual");
    during := page.recipients;
    ImportOneNamedRow(imported, ids);
    page.OnParseComplete(captured.value, Parsed(Some([Row(Some(imported), None)])), ids);
    final := page.recipients;
  }

  /** A name without surrounding blanks and no description is added as it is. */
  lemma NewRecipientUnpadded(id: string, name: string)
    requires Unpadded(name)
    ensures NewRecipient(id, name, []) == Ok(Recipient(id, name, None))
  {
    TrimUnpadded(name);
    assert TrimmedOrAbsent([]) == None;
  }

  /** A file of one row whose name has no surrounding blanks imports that one recipient. */
  lemma ImportOneNamedRow(name: string, ids: nat -> string)
    requires Unpadded(name)
    ensures ImportRows([Row(Some(name), None)], ids) == [Recipient(ids(0), name, None)]
  {
    TrimUnpadded(name);
    ImportKeepsNamedRows([Row(Some(name), None)]);
  }
}
