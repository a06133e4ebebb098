/**
 * The write operations of src/lib/formulaService.ts. The backend (session,
 * table and bucket) is given as oracle parameters holding each response,
 * and every operation returns the list of requests it sent, in order.
 */
module FormulaService {
  import opened Wrappers
  import opened Strings
  import opened Records
  import opened FormulaRows
  import opened Storage

  const NOT_AUTHENTICATED := "Not authenticated"
  const UPLOAD_FAILED := "Image upload failed: "
  const CREATE_FAILED := "Could not create formula: "
  const EXAMPLES_UPDATE_FAILED := "Failed to update formula with examples: "
  const FETCH_FAILED := "Could not fetch current formula state for update."
  const DELETE_FAILED := "Failed to delete formula record: "
  /** What the runtime throws when an image is stored past the end of the examples. */
  const MISSING_EXAMPLE := "Cannot set properties of undefined (setting 'imageUrl')"

  /** A request sent to the backend. */
  datatype Call =
    | InsertRow(columns: FormulaColumns)
    | SelectExamples(id: int)
    | UpdateRow(id: int, columns: FormulaColumns)
    | DeleteRow(id: int)
    | Bucket(request: StorageCall)

  function Bucketed(cs: seq<StorageCall>): (r: seq<Call>)
    ensures |r| == |cs| && forall k :: 0 <= k < |cs| ==> r[k] == Bucket(cs[k])
  {
    seq(|cs|, k requires 0 <= k < |cs| => Bucket(cs[k]))
  }

  /** The name an example image is stored under, up to its timestamp and extension. */
  function ImageName(formulaId: int, index: nat): (name: string)
    ensures StartsWith(name, "formula-")
  {
    "formula-" + IntToString(formulaId) + "-ex" + NatToString(index)
  }

  /** `example.imageUrl` is truthy. */
  predicate HasImage(e: Example) {
    e.imageUrl.Some? && e.imageUrl.value != ""
  }

  // ---------------------------------------------------------------------
  // processImagesForExamples

  /**
   * What `processImagesForExamples` does from file index `i` on, given the
   * examples as they stand: for each file, remove the example's old image,
   * upload, and store the new URL; the first failure ends the loop.
   * `upload(k)` is the bucket's answer for the file at index `k`.
   */
  function ProcessFrom(ex: seq<Example>, files: seq<bool>, formulaId: int,
                       upload: nat -> Result<string>, i: nat): (Result<seq<Example>>, seq<StorageCall>)
    decreases |files| - i
  {
    if i >= |files| then (Ok(ex), [])
    else if !files[i] then ProcessFrom(ex, files, formulaId, upload, i + 1)
    else
      var sent := (if i < |ex| then DeleteIfSet(ex[i].imageUrl) else []) + [Upload(ImageName(formulaId, i))];
      match upload(i)
      case Err(m) => (Err(UPLOAD_FAILED + m), sent)
      case Ok(url) =>
        if i >= |ex| then (Err(MISSING_EXAMPLE), sent)
        else
          var rest := ProcessFrom(ex[i := ex[i].(imageUrl := Some(url))], files, formulaId, upload, i + 1);
          (rest.0, sent + rest.1)
  }

  /**
   * Processing succeeds iff every file index is an example index whose upload
   * succeeds; then exactly the examples with a file get their new URL and the
   * others are unchanged.
   */
  lemma {:induction false} ProcessFromSpec(ex: seq<Example>, files: seq<bool>, formulaId: int,
                                           upload: nat -> Result<string>, i: nat)
    ensures var r := ProcessFrom(ex, files, formulaId, upload, i).0;
      (r.Ok? <==> forall k :: i <= k < |files| && files[k] ==> k < |ex| && upload(k).Ok?) &&
      (r.Ok? ==> |r.value| == |ex|) &&
      (r.Ok? ==> forall k :: 0 <= k < |ex| ==>
          r.value[k] == if i <= k < |files| && files[k] then ex[k].(imageUrl := Some(upload(k).value)) else ex[k])
    decreases |files| - i
  {
    if i < |files| {
      if !files[i] {
        ProcessFromSpec(ex, files, formulaId, upload, i + 1);
      } else if upload(i).Ok? && i < |ex| {
        ProcessFromSpec(ex[i := ex[i].(imageUrl := Some(upload(i).value))], files, formulaId, upload, i + 1);
      }
    }
  }

  /** `processImagesForExamples(examples, files, formulaId)`. */
  method ProcessImagesForExamples(examples: seq<Example>, files: seq<bool>, formulaId: int,
                                  upload: nat -> Result<string>)
    returns (r: Result<seq<Example>>, sent: seq<StorageCall>)
    ensures (r, sent) == ProcessFrom(examples, files, formulaId, upload, 0)
    ensures r.Ok? <==> forall k :: 0 <= k < |files| && files[k] ==> k < |examples| && upload(k).Ok?
    ensures r.Ok? ==> |r.value| == |examples|
    ensures r.Ok? ==> forall k :: 0 <= k < |examples| ==>
        r.value[k] == if k < |files| && files[k] then examples[k].(imageUrl := Some(upload(k).value)) else examples[k]
  {
    var processed := examples;
    sent := [];
    var i := 0;
    while i < |files|
      invariant 0 <= i <= |files|
      invariant ProcessFrom(examples, files, formulaId, upload, 0).0 == ProcessFrom(processed, files, formulaId, upload, i).0
      invariant ProcessFrom(examples, files, formulaId, upload, 0).1 == sent + ProcessFrom(processed, files, formulaId, upload, i).1
    {
      if files[i] {
        var step := (if i < |processed| then DeleteIfSet(processed[i].imageUrl) else []) + [Upload(ImageName(formulaId, i))];
        sent := sent + step;
        match upload(i)
        case Err(m) =>
          r := Err(UPLOAD_FAILED + m);
          ProcessFromSpec(examples, files, formulaId, upload, 0);
          return;
        case Ok(url) =>
          if i >= |processed| {
            r := Err(MISSING_EXAMPLE);
            ProcessFromSpec(examples, files, formulaId, upload, 0);
            return;
          }
          processed := processed[i := processed[i].(imageUrl := Some(url))];
      }
      i := i + 1;
    }
    assert sent + [] == sent;
    r := Ok(processed);
    ProcessFromSpec(examples, files, formulaId, upload, 0);
  }

  /** With no file, processing changes nothing and sends nothing. */
  lemma NoFilesNoRequests(examples: seq<Example>, files: seq<bool>, formulaId: int, upload: nat -> Result<string>, i: nat)
    requires forall k :: 0 <= k < |files| ==> !files[k]
    ensures ProcessFrom(examples, files, formulaId, upload, i) == (Ok(examples), [])
    decreases |files| - i
  {
    if i < |files| {
      NoFilesNoRequests(examples, files, formulaId, upload, i + 1);
    }
  }

  // ---------------------------------------------------------------------
  // Image removal loops

  /** One `deleteImage` per URL, in order. */
  function DeleteAll(urls: seq<string>): (r: seq<StorageCall>)
    ensures |r| <= |urls|
  {
    if urls == [] then [] else DeleteAll(urls[..|urls| - 1]) + DeleteImage(urls[|urls| - 1])
  }

  lemma DeleteAllSnoc(urls: seq<string>, u: string)
    ensures DeleteAll(urls + [u]) == DeleteAll(urls) + DeleteImage(u)
  {
    assert (urls + [u])[..|urls|] == urls;
  }

  /** The truthy image URLs of the examples, in order. */
  function ImageUrls(examples: seq<Example>): (urls: seq<string>)
    ensures |urls| <= |examples|
  {
    if examples == [] then []
    else
      var e := examples[|examples| - 1];
      ImageUrls(examples[..|examples| - 1]) + (if HasImage(e) then [e.imageUrl.value] else [])
  }

  /** A URL is listed iff it is non-empty and some example carries it. */
  lemma {:induction false} ImageUrlsSpec(examples: seq<Example>, u: string)
    ensures u in ImageUrls(examples) <==> u != "" && exists e :: e in examples && e.imageUrl == Some(u)
  {
    if examples != [] {
      var init := examples[..|examples| - 1];
      ImageUrlsSpec(init, u);
      assert forall x :: x in examples <==> x in init || x == examples[|examples| - 1];
    }
  }

  /** The loop that removes every example's image (`deleteFormula`, and the clean-up of `addFormula`). */
  method DeleteExampleImages(examples: seq<Example>) returns (sent: seq<StorageCall>)
    ensures sent == DeleteAll(ImageUrls(examples))
  {
    sent := [];
    for i := 0 to |examples|
      invariant sent == DeleteAll(ImageUrls(examples[..i]))
    {
      assert examples[..i + 1][..i] == examples[..i];
      if HasImage(examples[i]) {
        DeleteAllSnoc(ImageUrls(examples[..i]), examples[i].imageUrl.value);
        sent := sent + DeleteImage(examples[i].imageUrl.value);
      } else {
        assert ImageUrls(examples[..i + 1]) == ImageUrls(examples[..i]);
      }
    }
    assert examples[..|examples|] == examples;
  }

  /** `newExamples.some(newEx => newEx.imageUrl === e.imageUrl)`. */
  predicate Kept(e: Example, next: seq<Example>) {
    exists n :: n in next && n.imageUrl == e.imageUrl
  }

  /** A current example's image is stale when it is set and no new example carries the same URL. */
  predicate Stale(e: Example, next: seq<Example>) {
    HasImage(e) && !Kept(e, next)
  }

  /** The stale image URLs of `updateFormula`, in the order of the current examples. */
  function StaleUrls(current: seq<Example>, next: seq<Example>): (urls: seq<string>)
    ensures |urls| <= |current|
  {
    if current == [] then []
    else
      var e := current[|current| - 1];
      StaleUrls(current[..|current| - 1], next) + (if Stale(e, next) then [e.imageUrl.value] else [])
  }

  /**
   * A URL is removed by `updateFormula` iff it is non-empty, some current
   * example carries it and no new example does.
   */
  lemma {:induction false} StaleUrlsSpec(current: seq<Example>, next: seq<Example>, u: string)
    ensures u in StaleUrls(current, next) <==>
      u != "" && (exists e :: e in current && e.imageUrl == Some(u)) &&
      forall n :: n in next ==> n.imageUrl != Some(u)
  {
    if current != [] {
      var init := current[..|current| - 1];
      StaleUrlsSpec(init, next, u);
      assert forall x :: x in current <==> x in init || x == current[|current| - 1];
    }
  }

  lemma StaleUrlsStep(current: seq<Example>, next: seq<Example>, i: nat)
    requires i < |current|
    ensures StaleUrls(current[..i + 1], next) ==
      StaleUrls(current[..i], next) + (if Stale(current[i], next) then [current[i].imageUrl.value] else [])
  {
    assert current[..i + 1][..i] == current[..i];
  }

  /** The loop of `updateFormula` that removes images no new example keeps. */
  method DeleteStaleImages(current: seq<Example>, next: seq<Example>) returns (sent: seq<StorageCall>)
    ensures sent == DeleteAll(StaleUrls(current, next))
  {
    sent := [];
    for i := 0 to |current|
      invariant sent == DeleteAll(StaleUrls(current[..i], next))
    {
      var e := current[i];
      StaleUrlsStep(current, next, i);
      ghost var before := StaleUrls(current[..i], next);
      if HasImage(e) {
        var stillPresent := Kept(e, next);
        if !stillPresent {
          DeleteAllSnoc(before, e.imageUrl.value);
          sent := sent + DeleteImage(e.imageUrl.value);
        } else {
          assert StaleUrls(current[..i + 1], next) == before;
        }
      } else {
        assert StaleUrls(current[..i + 1], next) == before;
      }
    }
    assert current[..|current|] == current;
  }

  // ---------------------------------------------------------------------
  // The exported operations

  /** The edit that writes only the examples (`{ examples: ... }`). */
  function ExamplesOnly(examples: seq<Example>): (p: FormulaPatch)
    ensures ToColumns(p).examples == Some(examples) && ToColumns(p).titleEn.None?
  {
    FormulaPatch(None, None, None, None, None, None, Some(examples), None, None)
  }

  /**
   * `addFormula(formula, files)`: insert the record without examples, process
   * the images against the new id, then write the examples; if that write
   * fails, remove every image and fail. `insert` is the new id or an error,
   * `update` the stored row or an error.
   */
  method AddFormula(signedIn: bool, formula: Formula, files: seq<bool>,
                    insert: Result<int>, upload: nat -> Result<string>, update: Result<FormulaRow>)
    returns (r: Result<Formula>, sent: seq<Call>)
    ensures !signedIn ==> r == Err(NOT_AUTHENTICATED) && sent == []
    ensures signedIn ==> |sent| > 0 && sent[0] == InsertRow(ToColumns(PatchOf(formula).(examples := Some([]))))
    ensures signedIn && insert.Err? ==> r == Err(CREATE_FAILED + insert.message) && |sent| == 1
    ensures r.Ok? ==> signedIn && insert.Ok? && update.Ok? && r == Ok(FromRow(Some(update.value)).value)
    ensures r.Ok? ==> var p := ProcessFrom(formula.examples, files, insert.value, upload, 0);
      p.0.Ok? && sent == [sent[0]] + Bucketed(p.1) + [UpdateRow(insert.value, ToColumns(ExamplesOnly(p.0.value)))]
    ensures signedIn && insert.Ok? ==>
      var p := ProcessFrom(formula.examples, files, insert.value, upload, 0);
      && (p.0.Err? ==> r == Err(p.0.message) && sent == [sent[0]] + Bucketed(p.1))
      && (p.0.Ok? && update.Err? ==>
            r == Err(EXAMPLES_UPDATE_FAILED + update.message) &&
            sent == [sent[0]] + Bucketed(p.1) + [UpdateRow(insert.value, ToColumns(ExamplesOnly(p.0.value)))] +
                    Bucketed(DeleteAll(ImageUrls(p.0.value))))
      && (p.0.Ok? && update.Ok? ==> r.Ok?)
  {
    if !signedIn {
      return Err(NOT_AUTHENTICATED), [];
    }
    sent := [InsertRow(ToColumns(PatchOf(formula).(examples := Some([]))))];
    if insert.Err? {
      return Err(CREATE_FAILED + insert.message), sent;
    }
    var id := insert.value;
    var processed, uploads := ProcessImagesForExamples(formula.examples, files, id, upload);
    sent := sent + Bucketed(uploads);
    if processed.Err? {
      return Err(processed.message), sent;
    }
    sent := sent + [UpdateRow(id, ToColumns(ExamplesOnly(processed.value)))];
    if update.Err? {
      var cleanup := DeleteExampleImages(processed.value);
      return Err(EXAMPLES_UPDATE_FAILED + update.message), sent + Bucketed(cleanup);
    }
    r := Ok(FromRow(Some(update.value)).value);
  }

  /**
   * `updateFormula(id, patch, files)`: read the stored examples, remove the
   * images no new example keeps, process the new images, then write the
   * patch with the processed examples. `fetch` is the stored examples column
   * (`None` for `NULL`) or an error.
   */
  method UpdateFormula(signedIn: bool, id: int, patch: FormulaPatch, files: seq<bool>,
                       fetch: Result<Option<seq<Example>>>, upload: nat -> Result<string>,
                       update: Result<FormulaRow>)
    returns (r: Result<Formula>, sent: seq<Call>)
    ensures !signedIn ==> r == Err(NOT_AUTHENTICATED) && sent == []
    ensures signedIn ==> |sent| > 0 && sent[0] == SelectExamples(id)
    ensures signedIn && fetch.Err? ==> r == Err(FETCH_FAILED) && sent == [SelectExamples(id)]
    ensures r.Ok? ==> signedIn && fetch.Ok? && update.Ok? && r == Ok(FromRow(Some(update.value)).value)
    ensures r.Ok? ==>
      var next := patch.examples.GetOr([]);
      var p := ProcessFrom(next, files, id, upload, 0);
      p.0.Ok? &&
      sent == [SelectExamples(id)] + Bucketed(DeleteAll(StaleUrls(fetch.value.GetOr([]), next))) +
              Bucketed(p.1) + [UpdateRow(id, ToColumns(patch).(examples := Some(p.0.value)))]
    ensures signedIn && fetch.Ok? ==>
      var next := patch.examples.GetOr([]);
      var p := ProcessFrom(next, files, id, upload, 0);
      var before := [SelectExamples(id)] + Bucketed(DeleteAll(StaleUrls(fetch.value.GetOr([]), next))) + Bucketed(p.1);
      && (p.0.Err? ==> r == Err(p.0.message) && sent == before)
      && (p.0.Ok? ==> sent == before + [UpdateRow(id, ToColumns(patch).(examples := Some(p.0.value)))])
      && (p.0.Ok? && update.Err? ==> r == Err(update.message))
      && (p.0.Ok? && update.Ok? ==> r.Ok?)
  {
    if !signedIn {
      return Err(NOT_AUTHENTICATED), [];
    }
    sent := [SelectExamples(id)];
    if fetch.Err? {
      return Err(FETCH_FAILED), sent;
    }
    var current := fetch.value.GetOr([]);
    var next := patch.examples.GetOr([]);
    var removed := DeleteStaleImages(current, next);
    sent := sent + Bucketed(removed);
    var processed, uploads := ProcessImagesForExamples(next, files, id, upload);
    sent := sent + Bucketed(uploads);
    if processed.Err? {
      return Err(processed.message), sent;
    }
    sent := sent + [UpdateRow(id, ToColumns(patch).(examples := Some(processed.value)))];
    if update.Err? {
      return Err(update.message), sent;
    }
    r := Ok(FromRow(Some(update.value)).value);
  }

  /**
   * An update whose patch has no `examples` key writes an empty examples list
   * and removes every stored example image.
   */
  lemma UpdateWithoutExamplesClears(id: int, patch: FormulaPatch, files: seq<bool>,
                                    stored: seq<Example>, upload: nat -> Result<string>)
    requires patch.examples.None? && forall k :: 0 <= k < |files| ==> !files[k]
    ensures StaleUrls(stored, patch.examples.GetOr([])) == ImageUrls(stored)
    ensures ProcessFrom(patch.examples.GetOr([]), files, id, upload, 0) == (Ok([]), [])
  {
    StaleOfNothing(stored);
    NoFilesNoRequests([], files, id, upload, 0);
  }

  lemma {:induction false} StaleOfNothing(current: seq<Example>)
    ensures StaleUrls(current, []) == ImageUrls(current)
  {
    if current != [] {
      StaleOfNothing(current[..|current| - 1]);
    }
  }

  /** An image kept by some new example is never removed. */
  lemma KeptImageSurvives(current: seq<Example>, next: seq<Example>, u: string)
    requires exists n :: n in next && n.imageUrl == Some(u)
    ensures u !in StaleUrls(current, next)
  {
    StaleUrlsSpec(current, next, u);
  }

  /**
   * `deleteFormula(id)`: read the stored examples; when that succeeds and
   * the column is set, remove their images; then delete the row whatever
   * the read gave. `remove` is the delete's error, if any.
   */
  method DeleteFormula(signedIn: bool, id: int, fetch: Result<Option<seq<Example>>>, remove: Option<string>)
    returns (r: Result<()>, sent: seq<Call>)
    ensures !signedIn ==> r == Err(NOT_AUTHENTICATED) && sent == []
    ensures signedIn ==> r == (if remove.Some? then Err(DELETE_FAILED + remove.value) else Ok(()))
    ensures signedIn ==>
      var images := if fetch.Ok? && fetch.value.Some? then ImageUrls(fetch.value.value) else [];
      sent == [SelectExamples(id)] + Bucketed(DeleteAll(images)) + [DeleteRow(id)]
  {
    if !signedIn {
      return Err(NOT_AUTHENTICATED), [];
    }
    sent := [SelectExamples(id)];
    if fetch.Ok? && fetch.value.Some? {
      var removed := DeleteExampleImages(fetch.value.value);
      sent := sent + Bucketed(removed);
    } else {
      assert DeleteAll([]) == [];
      assert Bucketed([]) == [];
    }
    sent := sent + [DeleteRow(id)];
    if remove.Some? {
      return Err(DELETE_FAILED + remove.value), sent;
    }
    r := Ok(());
  }
}
