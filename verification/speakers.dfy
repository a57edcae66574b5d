/**
 * The speakers service, identical in the monolith (monolith/src/modules/speakers/service.ts)
 * and in the speaker service (microservices/speaker-service/src/modules/speakers/service.ts).
 */
module Speakers {
  import opened Wrappers
  import opened Failures
  import opened Tables
  import opened Domain
  import opened Sorting
  import opened SpeakerSchemas

  /** `getSpeakerById`: nothing for a missing or deleted speaker, otherwise the stored speaker. */
  function GetSpeakerById(speakers: Table<Speaker>, id: Id): (r: Option<Speaker>)
    ensures r.Some? <==> id in speakers && !speakers[id].deleted
    ensures r.Some? ==> r.value == speakers[id].value
  {
    Find(speakers, id)
  }

  function SpeakerName(speakers: Table<Speaker>, id: Id): string {
    if id in speakers then speakers[id].value.name else ""
  }

  /** `listSpeakers`: every non-deleted speaker, once each, by ascending name in the database's collation. */
  method ListSpeakers(speakers: Table<Speaker>, collate: (string, string) -> bool) returns (r: seq<(Id, Speaker)>)
    requires TotalPreorder(collate)
    ensures forall id :: id in IdsOf(r) <==> Live(speakers, id)
    ensures forall i :: 0 <= i < |r| ==> r[i].0 in speakers && r[i].1 == speakers[r[i].0].value
    ensures forall i, j :: 0 <= i < j < |r| ==> r[i].0 != r[j].0
    ensures forall i, j :: 0 <= i < j < |r| ==> collate(r[i].1.name, r[j].1.name)
  {
    var le := Alphabetical((id: Id) => SpeakerName(speakers, id), collate);
    AlphabeticalIsTotalPreorder((id: Id) => SpeakerName(speakers, id), collate);
    var ids := SortedSelection(speakers.Keys, (id: Id) => Live(speakers, id), le);
    r := Rows(speakers, ids);
    forall id | Live(speakers, id) ensures id in IdsOf(r) {
      var i :| 0 <= i < |ids| && ids[i] == id;
      assert r[i].0 == id;
    }
    forall i, j | 0 <= i < j < |r| ensures collate(r[i].1.name, r[j].1.name) {
      assert le(ids[i], ids[j]);
    }
  }

  /** `createSpeaker`: the validated body is stored under a new id. */
  function CreateSpeaker(speakers: Table<Speaker>, id: Id, input: SpeakerInput): (r: Table<Speaker>)
    requires id !in speakers
    ensures r.Keys == speakers.Keys + {id}
    ensures GetSpeakerById(r, id) == Some(Speaker(input.name, input.avatar, input.description))
    ensures forall k :: k in speakers ==> r[k] == speakers[k]
  {
    speakers[id := Row(Speaker(input.name, input.avatar, input.description), false)]
  }

  /** The speaker after an update: supplied fields replace the stored ones. */
  function ApplySpeakerPatch(s: Speaker, p: SpeakerPatch): (r: Speaker)
    ensures r.name == p.name.GetOr(s.name)
    ensures r.avatar == (if p.avatar.Some? then p.avatar else s.avatar)
    ensures r.description == p.description.GetOr(s.description)
  {
    Speaker(p.name.GetOr(s.name), if p.avatar.Some? then p.avatar else s.avatar, p.description.GetOr(s.description))
  }

  /** `updateSpeaker`: only the supplied fields of that one speaker change. */
  function UpdateSpeaker(speakers: Table<Speaker>, id: Id, p: SpeakerPatch): (r: Result<Table<Speaker>, Failure>)
    ensures r.Err? <==> id !in speakers
    ensures r.Err? ==> r.error == Plain(UpdateMissing)
    ensures r.Ok? ==> r.value.Keys == speakers.Keys && r.value[id].deleted == speakers[id].deleted
    ensures r.Ok? ==> r.value[id].value == ApplySpeakerPatch(speakers[id].value, p)
    ensures r.Ok? ==> forall k :: k in speakers && k != id ==> r.value[k] == speakers[k]
  {
    Update(speakers, id, (s: Speaker) => ApplySpeakerPatch(s, p))
  }

  /** An update with nothing supplied leaves the speaker as it was. */
  lemma EmptyPatchIsIdentity(s: Speaker)
    ensures ApplySpeakerPatch(s, SpeakerPatch(None, None, None)) == s
  {
  }

  /** Applying the same update twice is applying it once. */
  lemma PatchIsIdempotent(s: Speaker, p: SpeakerPatch)
    ensures ApplySpeakerPatch(ApplySpeakerPatch(s, p), p) == ApplySpeakerPatch(s, p)
  {
  }

  /** `deleteSpeaker`: a soft delete; the speaker stays stored and its lookup becomes empty. */
  function DeleteSpeaker(speakers: Table<Speaker>, id: Id): (r: Result<Table<Speaker>, Failure>)
    ensures r.Err? <==> id !in speakers
    ensures r.Ok? ==> r.value.Keys == speakers.Keys && r.value[id] == Row(speakers[id].value, true)
    ensures r.Ok? ==> GetSpeakerById(r.value, id).None?
    ensures r.Ok? ==> forall k :: k in speakers && k != id ==> r.value[k] == speakers[k]
  {
    SoftDelete(speakers, id)
  }

  /** A deleted speaker disappears from the listing and nothing else does. */
  lemma DeleteHidesFromListing(speakers: Table<Speaker>, id: Id, k: Id)
    requires id in speakers
    ensures Live(DeleteSpeaker(speakers, id).value, k) <==> Live(speakers, k) && k != id
  {
  }
}
