/**
 * `DELETE /api/images/{id}`: look the record up, remove its binary from the
 * object store, then remove the record.
 */
module ImageByIdRoute {
  import opened Types
  import opened Stores
  import opened ImagesRoute

  /** What the object store reports for `destroy(publicId)`. */
  datatype DestroyReply = Destroyed | DestroyError(message: string)

  const DeleteFailed := "Failed to delete image"

  /**
   * The `DELETE` handler. `id` is `None` when the path parameter is missing
   * or not a well-formed ObjectId; `reachable` is false when the lookup
   * fails; `deleteOk` is false when `deleteOne` fails.
   */
  function Remove(st: StoreState, id: Option<Id>, reachable: bool, destroy: DestroyReply, deleteOk: bool): (o: Outcome)
  {
    if id.None? then Outcome(st, Failure(400, "Invalid image ID", None))
    else if !reachable then Outcome(st, Failure(500, DeleteFailed, None))
    else match FindRecord(st.records, id.value)
      case None => Outcome(st, Failure(404, "Image not found", None))
      case Some(k) =>
        match destroy
        case DestroyError(_) => Outcome(st, Failure(500, DeleteFailed, None))
        case Destroyed =>
          var destroyed := st.(blobs := st.blobs - {st.records[k].publicId});
          if !deleteOk then Outcome(destroyed, Failure(500, DeleteFailed, None))
          else Outcome(destroyed.(records := RemoveAt(st.records, k)), Success("Image deleted successfully", None))
  }

  /** Deleting keeps the `_id`s unique; the store stays well formed whatever the outcome. */
  lemma RemoveKeepsWellFormed(st: StoreState, id: Option<Id>, reachable: bool, destroy: DestroyReply, deleteOk: bool)
    requires WellFormed(st)
    ensures WellFormed(Remove(st, id, reachable, destroy, deleteOk).state)
  {
    if id.Some? && FindRecord(st.records, id.value).Some? {
      RemoveAtWellFormed(st, FindRecord(st.records, id.value).value);
    }
  }

  /** Deleting an `_id` that has no record answers 404 and changes nothing. */
  lemma RemoveMissing(st: StoreState, id: Id, destroy: DestroyReply, deleteOk: bool)
    requires id !in IdsOf(st.records)
    ensures Remove(st, Some(id), true, destroy, deleteOk) == Outcome(st, Failure(404, "Image not found", None))
  {
  }

  /**
   * A successful delete removes exactly the record with that `_id` and its
   * binary, and a later listing never includes it.
   */
  lemma RemoveExisting(st: StoreState, k: nat, page: Option<int>, limit: Option<int>)
    requires WellFormed(st) && k < |st.records|
    ensures var o := Remove(st, Some(st.records[k].id), true, Destroyed, true);
      && o.response == Success("Image deleted successfully", None)
      && o.state.records == st.records[..k] + st.records[k + 1..]
      && o.state.blobs == st.blobs - {st.records[k].publicId}
      && st.records[k].id !in IdsOf(o.state.records)
      && (Get(o.state.records, page, limit, true).ImageList? ==>
            forall r :: r in Get(o.state.records, page, limit, true).images ==> r.id != st.records[k].id)
  {
    var id := st.records[k].id;
    var found := FindRecord(st.records, id);
    assert found == Some(k);
    var o := Remove(st, Some(id), true, Destroyed, true);
    RemoveAtWellFormed(st, k);
    var resp := Get(o.state.records, page, limit, true);
    if resp.ImageList? {
      forall r | r in resp.images ensures r.id != id {
        assert r in multiset(o.state.records);
      }
    }
  }

  /** Deleting the same `_id` twice: the first call succeeds, the second answers 404 and changes nothing. */
  lemma RemoveTwice(st: StoreState, k: nat)
    requires WellFormed(st) && k < |st.records|
    ensures var first := Remove(st, Some(st.records[k].id), true, Destroyed, true);
      && first.response.Success?
      && Remove(first.state, Some(st.records[k].id), true, Destroyed, true)
         == Outcome(first.state, Failure(404, "Image not found", None))
  {
    RemoveExisting(st, k, None, None);
    var first := Remove(st, Some(st.records[k].id), true, Destroyed, true);
    RemoveMissing(first.state, st.records[k].id, Destroyed, true);
  }

  /** When `deleteOne` fails after the binary was destroyed, the record stays and points at a missing binary. */
  lemma RemoveLeavesDanglingRecord(st: StoreState, k: nat)
    requires WellFormed(st) && k < |st.records|
    ensures var o := Remove(st, Some(st.records[k].id), true, Destroyed, false);
      && o.state.records == st.records
      && st.records[k].publicId !in o.state.blobs
      && o.response == Failure(500, DeleteFailed, None)
  {
    var found := FindRecord(st.records, st.records[k].id);
    assert found == Some(k);
  }

  /** The `DELETE` handler on the stores: destroy the binary first, then delete the record. */
  method Delete(db: Stores, id: Option<Id>, reachable: bool, destroy: DestroyReply, deleteOk: bool) returns (response: Response)
    requires db.Valid()
    modifies db
    ensures db.Valid()
    ensures Outcome(db.State(), response) == Remove(old(db.State()), id, reachable, destroy, deleteOk)
  {
    if id.None? {
      return Failure(400, "Invalid image ID", None);
    }
    if !reachable {
      return Failure(500, DeleteFailed, None);
    }
    var found := FindRecord(db.records, id.value);
    if found.None? {
      return Failure(404, "Image not found", None);
    }
    var k := found.value;
    if destroy.DestroyError? {
      return Failure(500, DeleteFailed, None);
    }
    db.blobs := db.blobs - {db.records[k].publicId};
    if !deleteOk {
      return Failure(500, DeleteFailed, None);
    }
    RemoveAtWellFormed(db.State(), k);
    db.records := RemoveAt(db.records, k);
    return Success("Image deleted successfully", None);
  }
}
