/**
 * The older front end's `useBatchAnnotation` composable (frontend/): the same
 * batch state and selection handling as the web one, without pagination, and
 * with a filter that clears the selection whenever it runs and succeeds, the
 * refresh after a bulk update included. The requests go through a `batchApi`
 * service module that is not part of this model, so each action records the
 * arguments it hands to that module rather than a request body.
 */
module FrontBatch {
  import opened Wrappers
  import opened Strs
  import opened JsArrays
  import opened Store
  import opened ApiClient
  import opened BatchRequests
  import opened BatchSelection

  class BatchState {
    var filterOptions: FilterOptions
    var filteredTexts: seq<TextRow>
    var totalCount: int
    var selectedTextIds: seq<int>
    var isLoading: bool
    var isUpdating: bool
    var isPreviewMode: bool

    /** Every field `resetState` restores holds its initial value. */
    predicate Pristine()
      reads this
    {
      filterOptions == InitialOptions && filteredTexts == [] && totalCount == 0 && selectedTextIds == []
      && !isPreviewMode
    }

    constructor ()
      ensures Pristine() && !isLoading && !isUpdating
    {
      filterOptions := InitialOptions;
      filteredTexts := [];
      totalCount := 0;
      selectedTextIds := [];
      isLoading := false;
      isUpdating := false;
      isPreviewMode := false;
    }

    /** `isSelected`. */
    predicate IsSelected(id: int)
      reads this
    {
      id in selectedTextIds
    }

    /** `selectAll`: the ids of the shown texts, in their order. */
    method SelectAll()
      modifies this`selectedTextIds
      ensures selectedTextIds == Ids(filteredTexts)
      ensures forall id :: IsSelected(id) <==> exists k :: 0 <= k < |filteredTexts| && filteredTexts[k].id == id
    {
      selectedTextIds := Map(filteredTexts, (t: TextRow) => t.id);
      forall id ensures IsSelected(id) <==> exists k :: 0 <= k < |filteredTexts| && filteredTexts[k].id == id {
        SelectAllMembers(filteredTexts, id);
      }
    }

    /** `clearSelection`. */
    method ClearSelection()
      modifies this`selectedTextIds
      ensures selectedTextIds == [] && forall id :: !IsSelected(id)
    {
      selectedTextIds := [];
    }

    /** `toggleSelection`: splices out the id where `indexOf` finds it, or pushes it. */
    method ToggleSelection(id: int)
      modifies this`selectedTextIds
      ensures selectedTextIds == Toggled(old(selectedTextIds), id)
      ensures NoDup(old(selectedTextIds)) ==> NoDup(selectedTextIds) && (IsSelected(id) <==> !old(IsSelected(id)))
    {
      ghost var before := selectedTextIds;
      var index := IndexOf(selectedTextIds, id);
      if index > -1 {
        RemoveFirstAt(selectedTextIds, id, index);
        selectedTextIds := SpliceOne(selectedTextIds, index);
      } else {
        selectedTextIds := selectedTextIds + [id];
      }
      if NoDup(before) {
        ToggledMembers(before, id);
      }
    }

    /**
     * `filterTexts()`: nothing happens without filter conditions; otherwise the
     * current options go to `batchApi.filter`, a successful answer replaces the
     * shown texts and count and empties the selection, and a failed one keeps them.
     */
    method FilterTexts(response: Result<AnnotationList, ApiError>) returns (sent: Option<FilterOptions>)
      modifies this`filteredTexts, this`totalCount, this`selectedTextIds, this`isLoading
      ensures !HasConditions(filterOptions) ==> sent.None? && unchanged(this)
      ensures HasConditions(filterOptions) ==> sent == Some(filterOptions) && !isLoading
      ensures HasConditions(filterOptions) && response.Ok? ==>
        filteredTexts == response.value.items && totalCount == response.value.total && selectedTextIds == []
      ensures response.Err? ==>
        filteredTexts == old(filteredTexts) && totalCount == old(totalCount) && selectedTextIds == old(selectedTextIds)
    {
      if !HasConditions(filterOptions) {
        return None;
      }
      isLoading := true;
      sent := Some(filterOptions);
      if response.Ok? {
        filteredTexts := response.value.items;
        totalCount := response.value.total;
        selectedTextIds := [];
      }
      isLoading := false;
    }

    /**
     * `previewFilter()`: like `filterTexts()`, through `batchApi.preview`, whose
     * answer carries the texts and their total under other names; it also turns
     * preview mode on, whether or not the answer arrives.
     */
    method PreviewFilter(response: Result<Preview, ApiError>) returns (sent: Option<FilterOptions>)
      modifies this`filteredTexts, this`totalCount, this`selectedTextIds, this`isLoading, this`isPreviewMode
      ensures !HasConditions(filterOptions) ==> sent.None? && unchanged(this)
      ensures HasConditions(filterOptions) ==> sent == Some(filterOptions) && isPreviewMode && !isLoading
      ensures HasConditions(filterOptions) && response.Ok? ==>
        filteredTexts == response.value.texts && totalCount == response.value.totalCount && selectedTextIds == []
      ensures response.Err? ==>
        filteredTexts == old(filteredTexts) && totalCount == old(totalCount) && selectedTextIds == old(selectedTextIds)
    {
      if !HasConditions(filterOptions) {
        return None;
      }
      isLoading := true;
      isPreviewMode := true;
      sent := Some(filterOptions);
      if response.Ok? {
        filteredTexts := response.value.texts;
        totalCount := response.value.totalCount;
        selectedTextIds := [];
      }
      isLoading := false;
    }

    /**
     * `updateLabelsByFilter(u)`: with filter conditions, hands the options and `u`
     * to `batchApi.updateByFilter`; on success `filterTexts()` runs again
     * (`refresh` is the server's answer to it) and the server's result is returned.
     */
    method UpdateLabelsByFilter(u: UpdateOptions, response: Result<BulkResult, ApiError>, refresh: Result<AnnotationList, ApiError>)
      returns (sent: Option<(FilterOptions, UpdateOptions)>, r: Option<BulkResult>)
      modifies this`filteredTexts, this`totalCount, this`selectedTextIds, this`isLoading, this`isUpdating
      ensures !HasConditions(filterOptions) ==> sent.None? && r.None? && unchanged(this)
      ensures HasConditions(filterOptions) ==>
        sent == Some((filterOptions, u)) && !isUpdating && (response.Ok? <==> r.Some?) && (response.Ok? ==> r == Some(response.value))
      ensures HasConditions(filterOptions) && response.Ok? && refresh.Ok? ==>
        filteredTexts == refresh.value.items && totalCount == refresh.value.total && selectedTextIds == []
      ensures response.Err? || refresh.Err? ==>
        filteredTexts == old(filteredTexts) && totalCount == old(totalCount) && selectedTextIds == old(selectedTextIds)
    {
      if !HasConditions(filterOptions) {
        return None, None;
      }
      isUpdating := true;
      sent := Some((filterOptions, u));
      if response.Ok? {
        var _ := FilterTexts(refresh);
        r := Some(response.value);
      } else {
        r := None;
      }
      isUpdating := false;
    }

    /**
     * `updateLabelsBySelection(u)`: with a selection, hands the selected ids and
     * `u` to `batchApi.updateByIds`; on success the refresh runs `filterTexts()`,
     * which does nothing without filter conditions, so the selection is emptied
     * only when there are conditions and the refresh succeeds.
     */
    method UpdateLabelsBySelection(u: UpdateOptions, response: Result<BulkResult, ApiError>, refresh: Result<AnnotationList, ApiError>)
      returns (sent: Option<(seq<int>, UpdateOptions)>, r: Option<BulkResult>)
      modifies this`filteredTexts, this`totalCount, this`selectedTextIds, this`isLoading, this`isUpdating
      ensures old(selectedTextIds) == [] ==> sent.None? && r.None? && unchanged(this)
      ensures old(selectedTextIds) != [] ==>
        sent == Some((old(selectedTextIds), u)) && !isUpdating &&
        (response.Ok? <==> r.Some?) && (response.Ok? ==> r == Some(response.value))
      ensures old(selectedTextIds) != [] && response.Ok? && refresh.Ok? && HasConditions(filterOptions) ==>
        filteredTexts == refresh.value.items && totalCount == refresh.value.total && selectedTextIds == []
      ensures !HasConditions(filterOptions) || response.Err? || refresh.Err? ==>
        filteredTexts == old(filteredTexts) && totalCount == old(totalCount) && selectedTextIds == old(selectedTextIds)
    {
      if selectedTextIds == [] {
        return None, None;
      }
      isUpdating := true;
      sent := Some((selectedTextIds, u));
      if response.Ok? {
        var _ := FilterTexts(refresh);
        r := Some(response.value);
      } else {
        r := None;
      }
      isUpdating := false;
    }

    /** `addLabelsToFiltered`: a filter update that only adds `labels`. */
    method AddLabelsToFiltered(labels: seq<string>, response: Result<BulkResult, ApiError>, refresh: Result<AnnotationList, ApiError>)
      returns (sent: Option<(FilterOptions, UpdateOptions)>, r: Option<BulkResult>)
      modifies this`filteredTexts, this`totalCount, this`selectedTextIds, this`isLoading, this`isUpdating
      ensures HasConditions(filterOptions) <==> sent == Some((filterOptions, UpdateOptions(Some(labels), None)))
      ensures r.Some? <==> HasConditions(filterOptions) && response.Ok?
    {
      sent, r := UpdateLabelsByFilter(UpdateOptions(Some(labels), None), response, refresh);
    }

    /** `removeLabelsFromFiltered`: a filter update that only removes `labels`. */
    method RemoveLabelsFromFiltered(labels: seq<string>, response: Result<BulkResult, ApiError>, refresh: Result<AnnotationList, ApiError>)
      returns (sent: Option<(FilterOptions, UpdateOptions)>, r: Option<BulkResult>)
      modifies this`filteredTexts, this`totalCount, this`selectedTextIds, this`isLoading, this`isUpdating
      ensures HasConditions(filterOptions) <==> sent == Some((filterOptions, UpdateOptions(None, Some(labels))))
      ensures r.Some? <==> HasConditions(filterOptions) && response.Ok?
    {
      sent, r := UpdateLabelsByFilter(UpdateOptions(None, Some(labels)), response, refresh);
    }

    /** `addLabelsToSelected`: a selection update that only adds `labels`. */
    method AddLabelsToSelected(labels: seq<string>, response: Result<BulkResult, ApiError>, refresh: Result<AnnotationList, ApiError>)
      returns (sent: Option<(seq<int>, UpdateOptions)>, r: Option<BulkResult>)
      modifies this`filteredTexts, this`totalCount, this`selectedTextIds, this`isLoading, this`isUpdating
      ensures old(selectedTextIds) != [] <==> sent == Some((old(selectedTextIds), UpdateOptions(Some(labels), None)))
      ensures r.Some? <==> old(selectedTextIds) != [] && response.Ok?
    {
      sent, r := UpdateLabelsBySelection(UpdateOptions(Some(labels), None), response, refresh);
    }

    /** `removeLabelsFromSelected`: a selection update that only removes `labels`. */
    method RemoveLabelsFromSelected(labels: seq<string>, response: Result<BulkResult, ApiError>, refresh: Result<AnnotationList, ApiError>)
      returns (sent: Option<(seq<int>, UpdateOptions)>, r: Option<BulkResult>)
      modifies this`filteredTexts, this`totalCount, this`selectedTextIds, this`isLoading, this`isUpdating
      ensures old(selectedTextIds) != [] <==> sent == Some((old(selectedTextIds), UpdateOptions(None, Some(labels))))
      ensures r.Some? <==> old(selectedTextIds) != [] && response.Ok?
    {
      sent, r := UpdateLabelsBySelection(UpdateOptions(None, Some(labels)), response, refresh);
    }

    /** `resetState`: every field but the two busy flags back to its initial value. */
    method ResetState()
      modifies this`filterOptions, this`filteredTexts, this`totalCount, this`selectedTextIds, this`isPreviewMode
      ensures Pristine() && !HasConditions(filterOptions)
    {
      filterOptions := InitialOptions;
      filteredTexts := [];
      totalCount := 0;
      selectedTextIds := [];
      isPreviewMode := false;
      InitialHasNoConditions();
    }

    /** `setIncludeKeywords`; a non-empty list is a filter condition. */
    method SetIncludeKeywords(keywords: seq<string>)
      modifies this`filterOptions
      ensures filterOptions == old(filterOptions).(includeKeywords := Some(keywords))
      ensures keywords != [] ==> HasConditions(filterOptions)
    {
      filterOptions := filterOptions.(includeKeywords := Some(keywords));
    }

    /** `setExcludeKeywords`. */
    method SetExcludeKeywords(keywords: seq<string>)
      modifies this`filterOptions
      ensures filterOptions == old(filterOptions).(excludeKeywords := Some(keywords))
      ensures keywords != [] ==> HasConditions(filterOptions)
    {
      filterOptions := filterOptions.(excludeKeywords := Some(keywords));
    }

    /** `setIncludeLabels`. */
    method SetIncludeLabels(labels: seq<string>)
      modifies this`filterOptions
      ensures filterOptions == old(filterOptions).(includeLabels := Some(labels))
      ensures labels != [] ==> HasConditions(filterOptions)
    {
      filterOptions := filterOptions.(includeLabels := Some(labels));
    }

    /** `setExcludeLabels`. */
    method SetExcludeLabels(labels: seq<string>)
      modifies this`filterOptions
      ensures filterOptions == old(filterOptions).(excludeLabels := Some(labels))
      ensures labels != [] ==> HasConditions(filterOptions)
    {
      filterOptions := filterOptions.(excludeLabels := Some(labels));
    }

    /** `setUnlabeledOnly`. */
    method SetUnlabeledOnly(unlabeledOnly: bool)
      modifies this`filterOptions
      ensures filterOptions == old(filterOptions).(unlabeledOnly := Some(unlabeledOnly))
      ensures unlabeledOnly ==> HasConditions(filterOptions)
    {
      filterOptions := filterOptions.(unlabeledOnly := Some(unlabeledOnly));
    }
  }
}
