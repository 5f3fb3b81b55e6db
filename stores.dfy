/**
 * The two external services the server handlers write to: the document
 * database's `images` collection and the object store that keeps the image
 * binaries. Both are modelled as mutable state owned by one object.
 */
module Stores {
  import opened Types

  /** The contents of both stores at one instant. */
  datatype StoreState = StoreState(
    records: seq<ImageRecord>,  // the `images` collection, in insertion order
    blobs: set<string>,         // public ids of the binaries held by the object store
    nextId: Id)                 // the next `_id` the database will hand out

  /** `_id`s are unique and were all handed out before `nextId`. */
  predicate WellFormed(st: StoreState)
  {
    && UniqueIds(st.records)
    && forall i :: 0 <= i < |st.records| ==> st.records[i].id < st.nextId
  }

  /** Index of the record with `_id == id`, if there is one. */
  function FindRecord(records: seq<ImageRecord>, id: Id): (r: Option<nat>)
    ensures r.Some? ==> r.value < |records| && records[r.value].id == id
    ensures r.None? ==> forall i :: 0 <= i < |records| ==> records[i].id != id
  {
    if records == [] then None
    else if records[0].id == id then Some(0)
    else match FindRecord(records[1..], id)
      case None => None
      case Some(k) => Some(k + 1)
  }

  /** `records` without the record at position `k`. */
  function RemoveAt(records: seq<ImageRecord>, k: nat): (r: seq<ImageRecord>)
    requires k < |records|
    ensures |r| == |records| - 1
  {
    records[..k] + records[k + 1..]
  }

  class Stores {
    var records: seq<ImageRecord>
    var blobs: set<string>
    var nextId: Id

    function State(): StoreState
      reads this
    {
      StoreState(records, blobs, nextId)
    }

    predicate Valid()
      reads this
    {
      WellFormed(State())
    }

    constructor ()
      ensures Valid() && State() == StoreState([], {}, 0)
    {
      records, blobs, nextId := [], {}, 0;
    }
  }

  /** Removing a record keeps the `_id`s unique and below `nextId`. */
  lemma RemoveAtWellFormed(st: StoreState, k: nat)
    requires WellFormed(st) && k < |st.records|
    ensures WellFormed(st.(records := RemoveAt(st.records, k)))
    ensures forall i :: 0 <= i < |RemoveAt(st.records, k)| ==> RemoveAt(st.records, k)[i].id != st.records[k].id
  {
    var r := RemoveAt(st.records, k);
    forall i | 0 <= i < |r|
      ensures r[i] == if i < k then st.records[i] else st.records[i + 1]
    {
    }
  }
}
