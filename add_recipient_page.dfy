/**
 * The page that adds certificate recipients to the `certigen.recipients` storage slot: one record from
 * a form, or a batch of generated records once a CSV file has been picked (the file's contents are not
 * read; the batch size is drawn at random). The id (`Date.now()`), today's date, the random draw and the
 * one-and-a-half-second delay before the batch is written are inputs.
 */
module AddRecipientPage {
  import opened Wrappers
  import opened JsStrings
  import opened RecipientManagementPage
  import DataInputPage

  datatype FormData = FormData(name: string, certificateNumber: string, title: string)

  /** The three inputs, by their `name` attribute. */
  datatype Field = Name | CertificateNumber | Title

  /** `setFormData(prev => ({ ...prev, [name]: value }))`: one field changes. */
  function SetField(form: FormData, field: Field, value: string): (r: FormData)
    ensures field == Name ==> r == form.(name := value)
    ensures field == CertificateNumber ==> r == form.(certificateNumber := value)
    ensures field == Title ==> r == form.(title := value)
  {
    match field
    case Name => form.(name := value)
    case CertificateNumber => form.(certificateNumber := value)
    case Title => form.(title := value)
  }

  /** The message of a refused submit. */
  const FillAllFields: string := "Please fill in all fields"

  /**
   * `handleSubmit`'s record: refused when a field is the empty string (fields are not trimmed);
   * otherwise the form's fields, no email, and not yet printed.
   */
  function NewRecord(form: FormData, id: string, date: string): (r: Result<Recipient, string>)
    ensures r.Err? <==> form.name == [] || form.certificateNumber == [] || form.title == []
    ensures r.Err? ==> r.error == FillAllFields
    ensures r.Ok? ==> r.value == Recipient(id, form.certificateNumber, form.name, None, form.title, date, false)
  {
    if form.name == [] || form.certificateNumber == [] || form.title == [] then Err(FillAllFields)
    else Ok(Recipient(id, form.certificateNumber, form.name, None, form.title, date, false))
  }

  /** A name of spaces is accepted and stored as it is. */
  lemma BlankNameAccepted(id: string, date: string)
    ensures NewRecord(FormData(" ", "C-1", "T"), id, date) == Ok(Recipient(id, "C-1", " ", None, "T", date, false))
  {
  }

  /** The number of a batch record: "BATCH-" and the index padded with zeros to three digits. */
  function BatchNumber(index: nat): (r: string)
    ensures StartsWith(r, "BATCH-") && r[6..] == PadStart(NatToString(index), 3, '0')
  {
    var r := "BATCH-" + PadStart(NatToString(index), 3, '0');
    assert r[..6] == "BATCH-";
    r
  }

  /** The padded digits still denote the index. */
  lemma PaddedDigitsValue(index: nat)
    ensures AllDigits(PadStart(NatToString(index), 3, '0'))
    ensures DigitsValue(PadStart(NatToString(index), 3, '0')) == index
  {
    var s := NatToString(index);
    DigitsValueOfNatToString(index);
    if |s| < 3 {
      DigitsValueLeadingZeros(3 - |s|, s);
    }
  }

  /** Different indices get different numbers, however long they are. */
  lemma BatchNumberInjective(a: nat, b: nat)
    requires BatchNumber(a) == BatchNumber(b)
    ensures a == b
  {
    PaddedDigitsValue(a);
    PaddedDigitsValue(b);
  }

  /** Numbers have at least three digits; below 1000 exactly three. */
  lemma BatchNumberLength(index: nat)
    ensures |BatchNumber(index)| >= 9
    ensures index < 1000 ==> |BatchNumber(index)| == 9
  {
    if index < 1000 {
      NatToStringShort(index);
    }
  }

  lemma {:induction false} NatToStringShort(n: nat)
    requires n < 1000
    ensures |NatToString(n)| <= 3
  {
    if n >= 10 {
      NatToStringShort(n / 10);
    }
  }

  /** The first record after an empty list is number "BATCH-001"; four-digit indices are not cut. */
  lemma BatchNumberExamples()
    ensures BatchNumber(1) == "BATCH-001"
    ensures BatchNumber(42) == "BATCH-042"
    ensures BatchNumber(1234) == "BATCH-1234"
  {
    BatchNumberOne();
    BatchNumberFortyTwo();
    BatchNumberFourDigits();
  }

  lemma BatchNumberOne()
    ensures BatchNumber(1) == "BATCH-001"
  {
    assert NatToString(1) == "1";
    assert Repeat('0', 2) == "00";
  }

  lemma BatchNumberFortyTwo()
    ensures BatchNumber(42) == "BATCH-042"
  {
    assert NatToString(4) == "4";
    assert NatToString(42) == "42";
    assert Repeat('0', 1) == "0";
  }

  lemma BatchNumberFourDigits()
    ensures BatchNumber(1234) == "BATCH-1234"
  {
    assert NatToString(1) == "1";
    assert NatToString(12) == "12";
    assert NatToString(123) == "123";
    assert NatToString(1234) == "1234";
  }

  const BatchTitle: string := "Certificate of Completion"

  /** The `i`-th generated record after `existing` stored ones: index `existing + i + 1`. */
  function BatchRecord(existing: nat, i: nat, stamp: string, date: string): (r: Recipient)
    ensures r.certificateNumber == BatchNumber(existing + i + 1)
    ensures r.name == "CSV Import " + NatToString(existing + i + 1)
    ensures r.id == "batch-" + stamp + "-" + NatToString(i)
    ensures r.title == BatchTitle && !r.printed && r.email == None && r.creationDate == date
  {
    var index := existing + i + 1;
    Recipient("batch-" + stamp + "-" + NatToString(i), BatchNumber(index), "CSV Import " + NatToString(index), None, BatchTitle, date, false)
  }

  /** The first `n` generated records, in order. */
  function BatchRecords(existing: nat, n: nat, stamp: string, date: string): (r: seq<Recipient>)
    ensures |r| == n
    ensures forall j :: 0 <= j < n ==> r[j] == BatchRecord(existing, j, stamp, date)
    decreases n
  {
    if n == 0 then [] else BatchRecords(existing, n - 1, stamp, date) + [BatchRecord(existing, n - 1, stamp, date)]
  }

  /** The records of a batch have pairwise different certificate numbers. */
  lemma BatchNumbersDistinct(existing: nat, n: nat, stamp: string, date: string, j: nat, k: nat)
    requires j < n && k < n && j != k
    ensures BatchRecords(existing, n, stamp, date)[j].certificateNumber != BatchRecords(existing, n, stamp, date)[k].certificateNumber
  {
    RecordIndex(existing, n, stamp, date, j);
    RecordIndex(existing, n, stamp, date, k);
  }

  /** The index a batch number carries after its "BATCH-" prefix. */
  function NumberIndex(number: string): int {
    if |number| >= 6 && AllDigits(number[6..]) then DigitsValue(number[6..]) else -1
  }

  lemma RecordIndex(existing: nat, n: nat, stamp: string, date: string, j: nat)
    requires j < n
    ensures NumberIndex(BatchRecords(existing, n, stamp, date)[j].certificateNumber) == existing + j + 1
  {
    RecordNumber(existing, n, stamp, date, j);
    BatchNumberIndex(existing + j + 1);
  }

  lemma RecordNumber(existing: nat, n: nat, stamp: string, date: string, j: nat)
    requires j < n
    ensures BatchRecords(existing, n, stamp, date)[j].certificateNumber == BatchNumber(existing + j + 1)
  {
    assert BatchRecords(existing, n, stamp, date)[j] == BatchRecord(existing, j, stamp, date);
  }

  /** A batch number carries its index. */
  lemma BatchNumberIndex(index: nat)
    ensures NumberIndex(BatchNumber(index)) == index
  {
    var digits := BatchNumber(index)[6..];
    assert digits == PadStart(NatToString(index), 3, '0');
    PaddedDigitsValue(index);
  }

  /** The records of a batch have pairwise different ids. */
  lemma BatchIdsDistinct(existing: nat, n: nat, stamp: string, date: string, j: nat, k: nat)
    requires j < n && k < n && j != k
    ensures BatchRecords(existing, n, stamp, date)[j].id != BatchRecords(existing, n, stamp, date)[k].id
  {
    var prefix := "batch-" + stamp + "-";
    var a, b := prefix + NatToString(j), prefix + NatToString(k);
    if a == b {
      assert a[|prefix|..] == NatToString(j) && b[|prefix|..] == NatToString(k);
      NatToStringInjective(j, k);
    }
  }

  /** A second batch continues the numbering of the first: its numbers are all new. */
  lemma NextBatchNumbersAreNew(existing: nat, n: nat, m: nat, stamp: string, stamp2: string, date: string, j: nat, k: nat)
    requires j < n && k < m
    ensures BatchRecords(existing, n, stamp, date)[j].certificateNumber
      != BatchRecords(existing + n, m, stamp2, date)[k].certificateNumber
  {
    var next := existing + n;
    BatchNumbered(existing, n, stamp, date);
    BatchNumbered(next, m, stamp2, date);
    BatchesApart(BatchRecords(existing, n, stamp, date), BatchRecords(next, m, stamp2, date), existing + 1, next + 1, j, k);
  }

  /** The records of `rs` are numbered from `first` on, in order. */
  ghost predicate NumberedFrom(rs: seq<Recipient>, first: nat) {
    forall j :: 0 <= j < |rs| ==> NumberIndex(rs[j].certificateNumber) == first + j
  }

  /** The records of a batch are numbered from `existing + 1` on. */
  lemma BatchNumbered(existing: nat, n: nat, stamp: string, date: string)
    ensures NumberedFrom(BatchRecords(existing, n, stamp, date), existing + 1)
  {
    forall j | 0 <= j < n {
      RecordIndex(existing, n, stamp, date, j);
    }
  }

  /** Two runs of records numbered one after the other share no number. */
  lemma BatchesApart(rs: seq<Recipient>, ts: seq<Recipient>, first: nat, next: nat, j: nat, k: nat)
    requires NumberedFrom(rs, first) && NumberedFrom(ts, next) && first + |rs| <= next
    requires j < |rs| && k < |ts|
    ensures rs[j].certificateNumber != ts[k].certificateNumber
  {
    assert NumberIndex(rs[j].certificateNumber) < NumberIndex(ts[k].certificateNumber);
  }

  /** `Math.floor(Math.random() * 5) + 3` for a draw in [0, 1). */
  function BatchSize(random: real): (r: nat)
    requires 0.0 <= random < 1.0
    ensures 3 <= r <= 7
  {
    (random * 5.0).Floor + 3
  }

  /** The loop of the import: one record per index, pushed in order. */
  method GenerateBatch(existing: nat, batchSize: nat, stamp: string, date: string) returns (batch: seq<Recipient>)
    ensures batch == BatchRecords(existing, batchSize, stamp, date)
  {
    batch := [];
    var i := 0;
    while i < batchSize
      invariant 0 <= i <= batchSize
      invariant batch == BatchRecords(existing, i, stamp, date)
    {
      var index := existing + i + 1;
      batch := batch + [Recipient("batch-" + stamp + "-" + NatToString(i), "BATCH-" + PadStart(NatToString(index), 3, '0'),
                                  "CSV Import " + NatToString(index), None, BatchTitle, date, false)];
      i := i + 1;
    }
  }

  /** How a file pick starts: no file (nothing happens), a refused type, or an accepted file. */
  datatype UploadStart = NoFile | Refused(message: string) | Accepted

  /** The type check of `handleFileUpload`: only the exact type "text/csv" passes; the file name is not looked at. */
  function CheckFile(file: Option<DataInputPage.FileInfo>): (r: UploadStart)
    ensures file.None? <==> r == NoFile
    ensures file.Some? ==> (r == Accepted <==> file.value.mimeType == "text/csv")
    ensures r.Refused? ==> r.message == "Please upload a CSV file"
  {
    if file.None? then NoFile
    else if file.value.mimeType != "text/csv" then Refused("Please upload a CSV file")
    else Accepted
  }

  /** This check is stricter than the data-input page's: a ".csv" file of another type is refused here only. */
  lemma StricterThanDataInput(file: DataInputPage.FileInfo)
    ensures CheckFile(Some(file)) == Accepted ==> DataInputPage.AcceptsFile(file)
    ensures DataInputPage.AcceptsFile(DataInputPage.FileInfo("application/vnd.ms-excel", "people.csv"))
    ensures CheckFile(Some(DataInputPage.FileInfo("application/vnd.ms-excel", "people.csv"))).Refused?
  {
    DataInputPage.AcceptsFileExamples();
  }

  /** The form and the storage slot it writes to. */
  class Page {
    var form: FormData
    var isUploading: bool
    /** `certigen.recipients`. */
    var slot: Option<seq<Recipient>>

    constructor(slot0: Option<seq<Recipient>>)
      ensures form == FormData([], [], []) && !isUploading && slot == slot0
    {
      form := FormData([], [], []);
      isUploading := false;
      slot := slot0;
    }

    /** `handleInputChange`. */
    method HandleInputChange(field: Field, value: string)
      modifies this`form
      ensures form == SetField(old(form), field, value)
    {
      form := SetField(form, field, value);
    }

    /**
     * `handleSubmit`: a refused form writes nothing; an accepted one appends its record to the stored
     * list (the empty list when nothing is stored, so the table's sample records are not kept).
     */
    method HandleSubmit(newId: string, date: string) returns (r: Result<Recipient, string>)
      modifies this`slot
      ensures r == NewRecord(form, newId, date)
      ensures r.Err? ==> slot == old(slot)
      ensures r.Ok? ==> slot == Some(old(slot).GetOr([]) + [r.value])
    {
      if form.name == [] || form.certificateNumber == [] || form.title == [] {
        return Err(FillAllFields);
      }
      var newRecipient := Recipient(newId, form.certificateNumber, form.name, None, form.title, date, false);
      var existing := slot.GetOr([]);
      slot := Some(existing + [newRecipient]);
      r := Ok(newRecipient);
    }

    /** `handleFileUpload` up to the timer: an accepted file starts the import. */
    method HandleFileUpload(file: Option<DataInputPage.FileInfo>) returns (r: UploadStart)
      modifies this`isUploading
      ensures r == CheckFile(file)
      ensures r == Accepted ==> isUploading
      ensures r != Accepted ==> isUploading == old(isUploading)
    {
      r := CheckFile(file);
      if r == Accepted {
        isUploading := true;
      }
    }

    /** The timer callback: a batch of the drawn size is appended after the stored records. */
    method FinishImport(random: real, stamp: string, date: string) returns (batchSize: nat)
      requires 0.0 <= random < 1.0
      modifies this`slot, this`isUploading
      ensures batchSize == BatchSize(random) && 3 <= batchSize <= 7
      ensures var existing := old(slot).GetOr([]);
        slot == Some(existing + BatchRecords(|existing|, batchSize, stamp, date))
      ensures !isUploading
    {
      var existing := slot.GetOr([]);
      batchSize := BatchSize(random);
      var newRecipients := GenerateBatch(|existing|, batchSize, stamp, date);
      slot := Some(existing + newRecipients);
      isUploading := false;
    }
  }
}
