/**
 * The older front end's label store (frontend/src/stores/label.ts): the label
 * list, the select options derived from it, and the local updates after a
 * create or delete. No statistics are refreshed. Every action sets `loading`
 * first and clears it whether the awaited call succeeds or fails.
 */
module FrontLabelStore {
  import opened Wrappers
  import opened JsArrays
  import opened Store
  import opened ApiClient
  import opened LabelLists

  /** One entry of `labelOptions`: `{ value, label, id }`, where value and label are both the label's name. */
  datatype LabelOption = LabelOption(value: string, caption: string, id: int)

  function OptionFor(l: LabelRow): LabelOption
  {
    LabelOption(l.name, l.name, l.id)
  }

  /** `labelOptions`: one option per label, in list order, showing and selecting the label's name. */
  function LabelOptions(labels: seq<LabelRow>): (r: seq<LabelOption>)
    ensures |r| == |labels|
    ensures forall k :: 0 <= k < |labels| ==> r[k].value == labels[k].name && r[k].caption == labels[k].name && r[k].id == labels[k].id
  {
    Map(labels, OptionFor)
  }

  class LabelStore {
    var labels: seq<LabelRow>
    var loading: bool

    constructor ()
      ensures labels == [] && !loading && !HasLabels()
    {
      labels := [];
      loading := false;
    }

    /** `hasLabels`. */
    predicate HasLabels()
      reads this
    {
      |labels| > 0
    }

    method SetLoading(value: bool)
      modifies this`loading
      ensures loading == value
    {
      loading := value;
    }

    /** `fetchLabels`: the server's list replaces the local one. */
    method FetchLabels(response: Result<seq<LabelRow>, ApiError>) returns (r: Result<seq<LabelRow>, ApiError>)
      modifies this
      ensures r == response && !loading
      ensures labels == if response.Ok? then response.value else old(labels)
    {
      SetLoading(true);
      if response.Ok? {
        labels := response.value;
      }
      r := response;
      SetLoading(false);
    }

    /** `createLabel`: the created label is appended and becomes the last option. */
    method CreateLabel(created: Result<LabelRow, ApiError>) returns (r: Result<LabelRow, ApiError>)
      modifies this
      ensures r == created && !loading
      ensures created.Ok? ==> labels == old(labels) + [created.value] && HasLabels()
      ensures created.Ok? ==> LabelOptions(labels)[|labels| - 1] == OptionFor(created.value)
      ensures created.Err? ==> labels == old(labels)
    {
      SetLoading(true);
      if created.Ok? {
        labels := labels + [created.value];
      }
      r := created;
      SetLoading(false);
    }

    /** `deleteLabel`: every label with the id goes, the rest keep their order. */
    method DeleteLabel(id: int, deleted: Option<ApiError>) returns (r: Option<ApiError>)
      modifies this
      ensures r == deleted && !loading
      ensures deleted.None? ==> labels == WithoutId(old(labels), id) && GetLabelById(id).None?
      ensures deleted.Some? ==> labels == old(labels)
    {
      SetLoading(true);
      if deleted.None? {
        DeletedNotFound(labels, id);
        labels := WithoutId(labels, id);
      }
      r := deleted;
      SetLoading(false);
    }

    /** `getLabelById`: the first label with the id, or nothing. */
    function GetLabelById(id: int): (r: Option<LabelRow>)
      reads this
      ensures r.Some? ==> r.value in labels && r.value.id == id
      ensures r.None? <==> forall k :: 0 <= k < |labels| ==> labels[k].id != id
    {
      LabelById(labels, id)
    }

    /** `getLabelByName`: the first label with the name, or nothing. */
    function GetLabelByName(name: string): (r: Option<LabelRow>)
      reads this
      ensures r.Some? ==> r.value in labels && r.value.name == name
      ensures r.None? <==> forall k :: 0 <= k < |labels| ==> labels[k].name != name
    {
      LabelByName(labels, name)
    }
  }
}
