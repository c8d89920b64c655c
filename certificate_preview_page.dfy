/**
 * The certificate preview: the latest stored certificate batch, one recipient at a time, drawn on the
 * saved template with the saved text elements. Prev and Next cycle through the batch; "Generate All"
 * marks the batch as generated in storage and reloads the page. The JPG and PDF exports and the
 * canvas lookup in the document are not modelled.
 */
module CertificatePreviewPage {
  import opened Wrappers
  import opened Types

  /** `handleNext`: one step forward, from the last recipient back to the first. */
  function Next(i: nat, n: nat): (r: nat)
    requires n > 0
    ensures r < n
    ensures i + 1 < n ==> r == i + 1
    ensures i + 1 == n ==> r == 0
  {
    (i + 1) % n
  }

  /** `handlePrev`: one step back, from the first recipient to the last. */
  function Prev(i: nat, n: nat): (r: nat)
    requires n > 0
    ensures i < n ==> r < n
    ensures i == 0 ==> r == n - 1
    ensures i > 0 ==> r == i - 1
  {
    if i == 0 then n - 1 else i - 1
  }

  /** Prev undoes Next, and Next undoes Prev. */
  lemma PrevAfterNext(i: nat, n: nat)
    requires i < n
    ensures Prev(Next(i, n), n) == i
    ensures Next(Prev(i, n), n) == i
  {
  }

  /** `k` presses of Next. */
  function NextTimes(i: nat, n: nat, k: nat): (r: nat)
    requires n > 0
    decreases k
  {
    if k == 0 then i else Next(NextTimes(i, n, k - 1), n)
  }

  /** Before the end of the batch, `k` presses of Next move `k` places. */
  lemma {:induction false} NextTimesSteps(i: nat, n: nat, k: nat)
    requires i + k < n
    ensures NextTimes(i, n, k) == i + k
    decreases k
  {
    if k > 0 {
      NextTimesSteps(i, n, k - 1);
    }
  }

  /** Presses add up. */
  lemma {:induction false} NextTimesCompose(i: nat, n: nat, a: nat, b: nat)
    requires n > 0
    ensures NextTimes(i, n, a + b) == NextTimes(NextTimes(i, n, a), n, b)
    decreases b
  {
    if b > 0 {
      NextTimesCompose(i, n, a, b - 1);
    }
  }

  /** `n` presses of Next come back to where they started. */
  lemma FullCycle(i: nat, n: nat)
    requires i < n
    ensures NextTimes(i, n, n) == i
  {
    var toLast := n - 1 - i;
    assert toLast + (1 + i) == n;
    NextTimesSteps(i, n, toLast);
    NextTimesCompose(i, n, toLast, 1 + i);
    NextTimesCompose(n - 1, n, 1, i);
    WrapFromLast(n);
    NextTimesSteps(0, n, i);
  }

  /** One press on the last recipient goes to the first. */
  lemma WrapFromLast(n: nat)
    requires n > 0
    ensures NextTimes(n - 1, n, 1) == 0
  {
    assert NextTimes(n - 1, n, 0) == n - 1;
  }

  /** The batch shown: the last one stored, or none. */
  function LatestBatch(batches: seq<Batch>): (r: Option<Batch>)
    ensures r.None? <==> |batches| == 0
    ensures r.Some? ==> r.value == batches[|batches| - 1]
  {
    if |batches| > 0 then Some(batches[|batches| - 1]) else None
  }

  /** A batch just appended is the one the preview shows. */
  lemma AppendedBatchIsShown(batches: seq<Batch>, b: Batch)
    ensures LatestBatch(batches + [b]) == Some(b)
  {
  }

  /** A storage string is truthy when it is present and not empty. */
  predicate Truthy(s: Option<string>) {
    s.Some? && s.value != ""
  }

  /** `savedTemplate || currentTemplate || ""`. */
  function TemplateUrl(saved: Option<string>, current: Option<string>): (r: string)
    ensures Truthy(saved) ==> r == saved.value
    ensures !Truthy(saved) && Truthy(current) ==> r == current.value
    ensures r == "" <==> !Truthy(saved) && !Truthy(current)
  {
    if Truthy(saved) then saved.value else if Truthy(current) then current.value else ""
  }

  /**
   * `JSON.parse(savedElements || textElements || "[]")`: the first slot that is present. A stored list
   * is never an empty string, so a present slot is used even when it holds an empty list.
   */
  function ElementsFallback(saved: Option<seq<TextElement>>, current: Option<seq<TextElement>>): (r: seq<TextElement>)
    ensures saved.Some? ==> r == saved.value
    ensures saved.None? && current.Some? ==> r == current.value
    ensures saved.None? && current.None? ==> r == []
  {
    if saved.Some? then saved.value else if current.Some? then current.value else []
  }

  /** An empty template string falls through to the current template; an empty saved element list does not. */
  lemma FallbacksDiffer(current: string, els: seq<TextElement>)
    requires current != "" && |els| > 0
    ensures TemplateUrl(Some(""), Some(current)) == current
    ensures ElementsFallback(Some([]), Some(els)) == []
  {
  }

  /** `k` is the first batch with this id, as `findIndex` returns it. */
  predicate FirstIdAt(batches: seq<Batch>, id: string, k: int) {
    && 0 <= k < |batches| && batches[k].id == id
    && forall j :: 0 <= j < k ==> batches[j].id != id
  }

  predicate HasBatchId(batches: seq<Batch>, id: string) {
    exists k :: 0 <= k < |batches| && batches[k].id == id
  }

  /** The list `handleGenerateAll` stores: the first batch with the id marked generated, the rest as they were. */
  function MarkGenerated(batches: seq<Batch>, id: string): (r: seq<Batch>)
    ensures |r| == |batches|
    ensures !HasBatchId(batches, id) ==> r == batches
    ensures forall k :: FirstIdAt(batches, id, k) ==> r == batches[k := batches[k].(status := Generated)]
    decreases |batches|
  {
    if |batches| == 0 then []
    else if batches[0].id == id then [batches[0].(status := Generated)] + batches[1..]
    else
      var rest := MarkGenerated(batches[1..], id);
      assert forall k :: FirstIdAt(batches, id, k) ==> [batches[0]] + rest == batches[k := batches[k].(status := Generated)] by {
        forall k | FirstIdAt(batches, id, k) ensures [batches[0]] + rest == batches[k := batches[k].(status := Generated)] {
          FirstIdAtTail(batches, id, k);
          UpdateAfterHead(batches, k, batches[k].(status := Generated));
        }
      }
      NoIdInTail(batches, id);
      [batches[0]] + rest
  }

  /** Past a head with another id, the first match moves one place down the tail. */
  lemma FirstIdAtTail(batches: seq<Batch>, id: string, k: int)
    requires |batches| > 0 && batches[0].id != id && FirstIdAt(batches, id, k)
    ensures k >= 1 && FirstIdAt(batches[1..], id, k - 1)
  {
  }

  /** Without the id anywhere, the tail lacks it too. */
  lemma NoIdInTail(batches: seq<Batch>, id: string)
    requires |batches| > 0
    ensures !HasBatchId(batches, id) ==> !HasBatchId(batches[1..], id)
  {
    if HasBatchId(batches[1..], id) {
      var k :| 0 <= k < |batches[1..]| && batches[1..][k].id == id;
      assert batches[k + 1].id == id;
    }
  }

  /** Updating past the head is updating the tail. */
  lemma UpdateAfterHead(s: seq<Batch>, k: int, v: Batch)
    requires 1 <= k < |s|
    ensures [s[0]] + s[1..][k - 1 := v] == s[k := v]
  {
  }

  /** Marking twice is marking once. */
  lemma MarkGeneratedIdempotent(batches: seq<Batch>, id: string)
    ensures MarkGenerated(MarkGenerated(batches, id), id) == MarkGenerated(batches, id)
  {
    if HasBatchId(batches, id) {
      var k := FirstIndexOf(batches, id);
      var once := MarkGenerated(batches, id);
      assert FirstIdAt(once, id, k);
    }
  }

  /** The index `findIndex` returns when some batch has the id. */
  function FirstIndexOf(batches: seq<Batch>, id: string): (k: nat)
    requires HasBatchId(batches, id)
    ensures FirstIdAt(batches, id, k)
    decreases |batches|
  {
    if batches[0].id == id then 0
    else
      assert HasBatchId(batches[1..], id) by {
        var j :| 0 <= j < |batches| && batches[j].id == id;
        assert batches[1..][j - 1].id == id;
      }
      var k := FirstIndexOf(batches[1..], id);
      assert forall j :: 1 <= j <= k ==> batches[j] == batches[1..][j - 1];
      k + 1
  }

  /** When the shown batch's id is its own, Generate All marks exactly the shown batch. */
  lemma ShownBatchMarked(batches: seq<Batch>)
    requires |batches| > 0
    requires forall j :: 0 <= j < |batches| - 1 ==> batches[j].id != batches[|batches| - 1].id
    ensures var last := batches[|batches| - 1];
      MarkGenerated(batches, last.id) == batches[..|batches| - 1] + [last.(status := Generated)]
  {
    var n := |batches| - 1;
    assert FirstIdAt(batches, batches[n].id, n);
    assert batches[n := batches[n].(status := Generated)] == batches[..n] + [batches[n].(status := Generated)];
  }

  /** `findIndex` over the parsed array. */
  method FindIndex(a: array<Batch>, id: string) returns (idx: int)
    ensures -1 <= idx < a.Length
    ensures idx >= 0 ==> FirstIdAt(a[..], id, idx)
    ensures idx == -1 <==> !HasBatchId(a[..], id)
  {
    var i := 0;
    while i < a.Length
      invariant 0 <= i <= a.Length
      invariant forall j :: 0 <= j < i ==> a[j].id != id
    {
      if a[i].id == id {
        return i;
      }
      i := i + 1;
    }
    idx := -1;
  }

  /** The page: the batch storage slot and the index of the recipient shown. */
  class Page {
    /** `certigen.certificateBatches`. */
    var batchesSlot: Option<seq<Batch>>
    var current: nat

    constructor(slot: Option<seq<Batch>>)
      ensures batchesSlot == slot && current == 0
    {
      batchesSlot := slot;
      current := 0;
    }

    /** The batch the page renders (`|| '[]'` reads a missing slot as the empty list). */
    function Shown(): Option<Batch>
      reads this
    {
      LatestBatch(batchesSlot.GetOr([]))
    }

    /**
     * The page renders a recipient: there is a batch, it has recipients and the index is one of them.
     * Rendering reads the shown recipient's name, so the buttons exist only in this state.
     */
    predicate ShowsRecipient()
      reads this
    {
      Shown().Some? && current < |Shown().value.recipients|
    }

    function Recipient(): BatchRecipient
      reads this
      requires ShowsRecipient()
    {
      Shown().value.recipients[current]
    }

    /** Prev: the index moves one back, cyclically, and still names a recipient. */
    method HandlePrev()
      requires ShowsRecipient()
      modifies this`current
      ensures current == Prev(old(current), |Shown().value.recipients|)
      ensures ShowsRecipient()
    {
      current := Prev(current, |Shown().value.recipients|);
    }

    /** Next: the index moves one forward, cyclically, and still names a recipient. */
    method HandleNext()
      requires ShowsRecipient()
      modifies this`current
      ensures current == Next(old(current), |Shown().value.recipients|)
      ensures ShowsRecipient()
    {
      current := (current + 1) % |Shown().value.recipients|;
    }

    /**
     * `handleGenerateAll`: the first stored batch with the shown batch's id is marked generated and
     * the list saved; the reload starts again at the first recipient. Without such a batch nothing happens.
     */
    method HandleGenerateAll()
      requires Shown().Some?
      modifies this`batchesSlot, this`current
      ensures var stored := old(batchesSlot).GetOr([]); var id := old(Shown()).value.id;
        && (HasBatchId(stored, id) ==> batchesSlot == Some(MarkGenerated(stored, id)) && current == 0)
        && (!HasBatchId(stored, id) ==> batchesSlot == old(batchesSlot) && current == old(current))
    {
      var stored := batchesSlot.GetOr([]);
      var id := Shown().value.id;
      var batches := new Batch[|stored|](i requires 0 <= i < |stored| => stored[i]);
      assert batches[..] == stored;
      var idx := FindIndex(batches, id);
      if idx >= 0 {
        batches[idx] := batches[idx].(status := Generated);
        assert batches[..] == stored[idx := stored[idx].(status := Generated)];
        batchesSlot := Some(batches[..]);
        current := 0;
      }
    }
  }
}
