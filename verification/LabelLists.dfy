/**
 * The label list both front-end label stores keep (web/src/stores/label.ts and
 * frontend/src/stores/label.ts): the tests their `find`, `findIndex` and
 * `filter` calls apply, and the local effect of a delete.
 */
module LabelLists {
  import opened Wrappers
  import opened JsArrays
  import opened Store

  /** `label => label.id === id`. */
  function HasId(id: int): LabelRow -> bool
  {
    (l: LabelRow) => l.id == id
  }

  /** `label => label.label === name`. */
  function HasName(name: string): LabelRow -> bool
  {
    (l: LabelRow) => l.name == name
  }

  /** `label => label.id !== id`. */
  function OtherId(id: int): LabelRow -> bool
  {
    (l: LabelRow) => l.id != id
  }

  /** The list after a delete: every label with the id goes, the rest keep their order. */
  function WithoutId(labels: seq<LabelRow>, id: int): (r: seq<LabelRow>)
    ensures forall l :: l in r <==> l in labels && l.id != id
  {
    FilterMembers(labels, OtherId(id));
    Filter(labels, OtherId(id))
  }

  /** Deleting an id no label carries leaves the list as it was. */
  lemma WithoutAbsentId(labels: seq<LabelRow>, id: int)
    requires forall k :: 0 <= k < |labels| ==> labels[k].id != id
    ensures WithoutId(labels, id) == labels
  {
    FilterKeepsAll(labels, OtherId(id));
  }

  /** `getLabelById`: the first label with the id, if any. */
  function LabelById(labels: seq<LabelRow>, id: int): (r: Option<LabelRow>)
    ensures r.Some? ==> r.value in labels && r.value.id == id
    ensures r.None? <==> forall k :: 0 <= k < |labels| ==> labels[k].id != id
  {
    FindFirst(labels, HasId(id))
  }

  /** `getLabelByName`: the first label with the name, if any. */
  function LabelByName(labels: seq<LabelRow>, name: string): (r: Option<LabelRow>)
    ensures r.Some? ==> r.value in labels && r.value.name == name
    ensures r.None? <==> forall k :: 0 <= k < |labels| ==> labels[k].name != name
  {
    FindFirst(labels, HasName(name))
  }

  /** With ids kept unique, the label a lookup finds is the only one with that id. */
  lemma LabelByIdUnique(labels: seq<LabelRow>, id: int, k: nat)
    requires forall i, j :: 0 <= i < j < |labels| ==> labels[i].id != labels[j].id
    requires k < |labels| && labels[k].id == id
    ensures LabelById(labels, id) == Some(labels[k])
  {
    var r := LabelById(labels, id);
    var i := FindIndex(labels, HasId(id));
    assert i != -1;
    assert labels[i].id == id;
  }

  /** A lookup right after a delete finds nothing. */
  lemma DeletedNotFound(labels: seq<LabelRow>, id: int)
    ensures LabelById(WithoutId(labels, id), id).None?
  {
    var r := WithoutId(labels, id);
    forall k | 0 <= k < |r| ensures r[k].id != id {
      assert r[k] in r;
    }
  }
}
