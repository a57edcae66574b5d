/**
 * Soft-delete tables: the persistence store of every entity, keyed by id.
 * A record is never removed; deleting it sets its `deleted` flag, and the
 * lookups and listings of the services treat a deleted record as absent.
 */
module Tables {
  import opened Wrappers
  import opened Failures

  type Id = string

  /** A stored record with the `deleted` column every entity table carries. */
  datatype Row<T> = Row(value: T, deleted: bool)

  type Table<T> = map<Id, Row<T>>

  /** The store's refusal of an update whose key is missing, represented by a fixed text (its cause). */
  const UpdateMissing := "Record to update not found."
  /** The store's refusal of a delete whose key is missing, represented by a fixed text (its cause). */
  const DeleteMissing := "Record to delete does not exist."

  /** The store's refusal of a date column given something that is not a date, represented by a fixed text. */
  const InvalidDate := "Invalid value for argument `date`"

  /** The record exists and has not been soft-deleted. */
  predicate Live<T>(t: Table<T>, id: Id) {
    id in t && !t[id].deleted
  }

  /** The lookup shared by every `getXById`: nothing for a missing or a deleted record. */
  function Find<T>(t: Table<T>, id: Id): (r: Option<T>)
    ensures r.Some? <==> Live(t, id)
    ensures r.Some? ==> r.value == t[id].value
  {
    if id in t && !t[id].deleted then Some(t[id].value) else None
  }

  /**
   * `update({ where: { id }, data })`: rewrites the value of the record with `f`, whether or not it is
   * deleted, and fails when there is no record with that id.
   */
  function Update<T>(t: Table<T>, id: Id, f: T -> T): (r: Result<Table<T>, Failure>)
    ensures r.Err? <==> id !in t
    ensures r.Err? ==> r.error == Plain(UpdateMissing)
    ensures r.Ok? ==> r.value.Keys == t.Keys
    ensures r.Ok? ==> r.value[id].value == f(t[id].value) && r.value[id].deleted == t[id].deleted
    ensures r.Ok? ==> forall k :: k in t && k != id ==> r.value[k] == t[k]
  {
    if id in t then Ok(t[id := Row(f(t[id].value), t[id].deleted)]) else Err(Plain(UpdateMissing))
  }

  /** Soft delete, `update({ where: { id }, data: { deleted: true } })`: only the flag changes. */
  function SoftDelete<T>(t: Table<T>, id: Id): (r: Result<Table<T>, Failure>)
    ensures r.Err? <==> id !in t
    ensures r.Err? ==> r.error == Plain(UpdateMissing)
    ensures r.Ok? ==> r.value.Keys == t.Keys
    ensures r.Ok? ==> r.value[id].value == t[id].value && r.value[id].deleted
    ensures r.Ok? ==> forall k :: k in t && k != id ==> r.value[k] == t[k]
  {
    if id in t then Ok(t[id := t[id].(deleted := true)]) else Err(Plain(UpdateMissing))
  }

  /** The ids of a listing. */
  function IdsOf<T>(r: seq<(Id, T)>): set<Id> {
    set i | 0 <= i < |r| :: r[i].0
  }

  /** The records of `ids`, in the order of `ids`, each paired with its id. */
  function Rows<T>(t: Table<T>, ids: seq<Id>): (r: seq<(Id, T)>)
    requires forall i :: 0 <= i < |ids| ==> ids[i] in t
    ensures |r| == |ids|
    ensures forall i :: 0 <= i < |r| ==> r[i] == (ids[i], t[ids[i]].value)
  {
    if ids == [] then [] else [(ids[0], t[ids[0]].value)] + Rows(t, ids[1..])
  }

  /** After a soft delete the record is hidden from the lookup and every other lookup is unchanged. */
  lemma DeleteHides<T>(t: Table<T>, id: Id)
    requires id in t
    ensures SoftDelete(t, id).Ok?
    ensures Find(SoftDelete(t, id).value, id).None?
    ensures forall k :: k != id ==> Find(SoftDelete(t, id).value, k) == Find(t, k)
  {
  }

  /** Deleting twice leaves the table as deleting once. */
  lemma DeleteIsIdempotent<T>(t: Table<T>, id: Id)
    requires id in t
    ensures SoftDelete(SoftDelete(t, id).value, id) == SoftDelete(t, id)
  {
    var once := SoftDelete(t, id).value;
    assert once[id := once[id].(deleted := true)] == once;
  }

  /** An update never revives a deleted record nor hides a live one. */
  lemma UpdateKeepsLiveness<T>(t: Table<T>, id: Id, f: T -> T, k: Id)
    requires Update(t, id, f).Ok?
    ensures Live(Update(t, id, f).value, k) <==> Live(t, k)
  {
  }
}
