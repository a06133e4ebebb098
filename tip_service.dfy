/**
 * The write operations of src/lib/tipService.ts, with the session, table
 * and bucket given as oracle parameters; every operation returns the list
 * of requests it sent, in order.
 */
module TipService {
  import opened Wrappers
  import opened Strings
  import opened Records
  import opened TipRows
  import opened Storage

  const NOT_AUTHENTICATED := "Not authenticated"
  const UPLOAD_FAILED := "Image upload failed: "
  const CREATE_FAILED := "Could not create tip: "
  const IMAGE_UPDATE_FAILED := "Failed to update tip with image details: "
  const FETCH_FAILED := "Could not retrieve current tip to update."
  const DELETE_FAILED := "Failed to delete tip record: "

  /** A request sent to the backend. */
  datatype Call =
    | InsertRow(columns: TipColumns)
    | SelectImage(id: int)
    | UpdateRow(id: int, columns: TipColumns)
    | DeleteRow(id: int)
    | Bucket(request: StorageCall)

  function Bucketed(cs: seq<StorageCall>): (r: seq<Call>)
    ensures |r| == |cs| && forall k :: 0 <= k < |cs| ==> r[k] == Bucket(cs[k])
  {
    seq(|cs|, k requires 0 <= k < |cs| => Bucket(cs[k]))
  }

  /** The name a tip image is stored under, up to its timestamp and extension. */
  function ImageName(tipId: int): (name: string)
    ensures StartsWith(name, "tip-")
  {
    "tip-" + IntToString(tipId)
  }

  /** A payload that writes no column. */
  const NO_COLUMNS := TipColumns(None, None, None, None, None, None, None, None, None, None, None, None, None, None)

  /** The columns with `image_url` set to the given value. */
  function WithImage(c: TipColumns, url: Option<string>): (r: TipColumns)
    ensures r.imageUrl == Some(url)
    ensures r.(imageUrl := c.imageUrl) == c
  {
    c.(imageUrl := Some(url))
  }

  /** `if (url) await deleteImage(url)` on the stored `image_url`. */
  function RemoveStored(url: Option<string>): (r: seq<Call>)
    ensures url.None? || url.value == "" ==> r == []
    ensures |r| <= 1
  {
    Bucketed(DeleteIfSet(url))
  }

  /**
   * `addTip(tip, file)`: insert the tip without `image_url`; with a file,
   * upload it against the new id and write its URL, removing the upload
   * again if that write fails. `insert` and `update` are the rows the
   * table returns, or its errors.
   */
  method AddTip(signedIn: bool, tip: Tip, file: bool, insert: Result<TipRow>,
                upload: Result<string>, update: Result<TipRow>)
    returns (r: Result<Tip>, sent: seq<Call>)
    ensures !signedIn ==> r == Err(NOT_AUTHENTICATED) && sent == []
    ensures signedIn ==> |sent| > 0 && sent[0] == InsertRow(ToColumns(PatchOf(tip)).(imageUrl := None))
    ensures forall k :: 0 <= k < |sent| && sent[k].InsertRow? ==> sent[k].columns.imageUrl.None?
    ensures signedIn && insert.Err? ==> r == Err(CREATE_FAILED + insert.message) && |sent| == 1
    ensures signedIn && insert.Ok? && !file ==>
      r == Ok(FromRow(Some(insert.value)).value) && |sent| == 1
    ensures signedIn && insert.Ok? && file && upload.Err? ==>
      r == Err(UPLOAD_FAILED + upload.message) && sent == [sent[0], Bucket(Upload(ImageName(insert.value.id)))]
    ensures signedIn && insert.Ok? && file && upload.Ok? ==>
      var written := [sent[0], Bucket(Upload(ImageName(insert.value.id))),
                      UpdateRow(insert.value.id, WithImage(NO_COLUMNS, Some(upload.value)))];
      if update.Ok? then r == Ok(FromRow(Some(update.value)).value) && sent == written
      else r == Err(IMAGE_UPDATE_FAILED + update.message) &&
           sent == written + Bucketed(DeleteImage(upload.value))
  {
    if !signedIn {
      return Err(NOT_AUTHENTICATED), [];
    }
    var initialRow := ToColumns(PatchOf(tip));
    initialRow := initialRow.(imageUrl := None);
    sent := [InsertRow(initialRow)];
    if insert.Err? {
      return Err(CREATE_FAILED + insert.message), sent;
    }
    var inserted := insert.value;
    if file {
      sent := sent + [Bucket(Upload(ImageName(inserted.id)))];
      if upload.Err? {
        return Err(UPLOAD_FAILED + upload.message), sent;
      }
      sent := sent + [UpdateRow(inserted.id, WithImage(NO_COLUMNS, Some(upload.value)))];
      if update.Err? {
        return Err(IMAGE_UPDATE_FAILED + update.message), sent + Bucketed(DeleteImage(upload.value));
      }
      return Ok(FromRow(Some(update.value)).value), sent;
    }
    r := Ok(FromRow(Some(inserted)).value);
  }

  /** The edit asks to clear the image: its visual explanation is present with an empty URL. */
  predicate ClearsImage(patch: TipPatch) {
    patch.visualExplanation.Some? && patch.visualExplanation.value.Some? &&
    patch.visualExplanation.value.value.imageUrl == ""
  }

  /** The stored `image_url` is truthy. */
  predicate HasStoredImage(stored: Option<string>) {
    stored.Some? && stored.value != ""
  }

  /**
   * `updateTip(id, patch, file)`: read the stored `image_url`; with a file,
   * remove the old image, upload the new one and write its URL; without a
   * file, an edit that clears the image removes the old one and writes
   * `NULL`; otherwise the image column is whatever the edit itself writes.
   * `fetch` is the stored `image_url` (`None` for `NULL`) or an error.
   */
  method UpdateTip(signedIn: bool, id: int, patch: TipPatch, file: bool, fetch: Result<Option<string>>,
                   upload: Result<string>, update: Result<TipRow>)
    returns (r: Result<Tip>, sent: seq<Call>)
    ensures !signedIn ==> r == Err(NOT_AUTHENTICATED) && sent == []
    ensures signedIn ==> |sent| > 0 && sent[0] == SelectImage(id)
    ensures signedIn && fetch.Err? ==> r == Err(FETCH_FAILED) && sent == [SelectImage(id)]
    ensures signedIn && fetch.Ok? && file ==>
      var removal := [SelectImage(id)] + RemoveStored(fetch.value) + [Bucket(Upload(ImageName(id)))];
      if upload.Err? then r == Err(UPLOAD_FAILED + upload.message) && sent == removal
      else sent == removal + [UpdateRow(id, WithImage(ToColumns(patch), Some(upload.value)))]
    ensures signedIn && fetch.Ok? && !file && ClearsImage(patch) && HasStoredImage(fetch.value) ==>
      sent == [SelectImage(id)] + RemoveStored(fetch.value) + [UpdateRow(id, WithImage(ToColumns(patch), None))]
    ensures signedIn && fetch.Ok? && !file && !(ClearsImage(patch) && HasStoredImage(fetch.value)) ==>
      sent == [SelectImage(id), UpdateRow(id, ToColumns(patch))]
    ensures r.Ok? ==> update.Ok? && r == Ok(FromRow(Some(update.value)).value)
    ensures signedIn && fetch.Ok? && (!file || upload.Ok?) ==>
      r == if update.Ok? then Ok(FromRow(Some(update.value)).value) else Err(update.message)
  {
    if !signedIn {
      return Err(NOT_AUTHENTICATED), [];
    }
    sent := [SelectImage(id)];
    if fetch.Err? {
      return Err(FETCH_FAILED), sent;
    }
    var oldImageUrl := fetch.value;
    var updateData := ToColumns(patch);
    if file {
      if HasStoredImage(oldImageUrl) {
        sent := sent + Bucketed(DeleteImage(oldImageUrl.value));
      }
      sent := sent + [Bucket(Upload(ImageName(id)))];
      if upload.Err? {
        return Err(UPLOAD_FAILED + upload.message), sent;
      }
      updateData := WithImage(updateData, Some(upload.value));
    } else if ClearsImage(patch) && HasStoredImage(oldImageUrl) {
      sent := sent + Bucketed(DeleteImage(oldImageUrl.value));
      updateData := WithImage(updateData, None);
    }
    sent := sent + [UpdateRow(id, updateData)];
    if update.Err? {
      return Err(update.message), sent;
    }
    r := Ok(FromRow(Some(update.value)).value);
  }

  /**
   * Without a file, an edit that points the tip at a different, non-empty
   * URL writes that URL but leaves the old image in the bucket.
   */
  lemma NewUrlWithoutFileKeepsOldImage(patch: TipPatch, url: string)
    requires patch.visualExplanation == Some(Some(VisualExplanation(url))) && url != ""
    ensures !ClearsImage(patch)
    ensures ToColumns(patch).imageUrl == Some(Some(url))
  {
  }

  /**
   * `deleteTip(id)`: read the stored `image_url`; when that succeeds and the
   * URL is set, remove the image; then delete the row whatever the read
   * gave. `remove` is the delete's error, if any.
   */
  method DeleteTip(signedIn: bool, id: int, fetch: Result<Option<string>>, remove: Option<string>)
    returns (r: Result<()>, sent: seq<Call>)
    ensures !signedIn ==> r == Err(NOT_AUTHENTICATED) && sent == []
    ensures signedIn ==> r == (if remove.Some? then Err(DELETE_FAILED + remove.value) else Ok(()))
    ensures signedIn && fetch.Ok? ==> sent == [SelectImage(id)] + RemoveStored(fetch.value) + [DeleteRow(id)]
    ensures signedIn && fetch.Err? ==> sent == [SelectImage(id), DeleteRow(id)]
  {
    if !signedIn {
      return Err(NOT_AUTHENTICATED), [];
    }
    sent := [SelectImage(id)];
    if fetch.Ok? && HasStoredImage(fetch.value) {
      sent := sent + Bucketed(DeleteImage(fetch.value.value));
    }
    sent := sent + [DeleteRow(id)];
    if remove.Some? {
      return Err(DELETE_FAILED + remove.value), sent;
    }
    r := Ok(());
  }
}
