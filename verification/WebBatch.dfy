/**
 * The web front end's `useBatchAnnotation` composable: the reactive batch
 * state as a class whose fields the actions reassign, with pagination. Every
 * server answer an action awaits is a parameter (`Ok` with the response body or
 * `Err` with the `ApiError` the service rejects with); each action returns the
 * request body it sends, or `None` when it sends nothing. Toasts are left out.
 */
module WebBatch {
  import opened Wrappers
  import opened Strs
  import opened JsArrays
  import opened JsValues
  import opened Store
  import opened ApiClient
  import opened BatchRequests
  import opened BatchSelection

  /** `currentPage`: `page || 1`. */
  function CurrentPage(o: FilterOptions): (r: int)
    ensures r != 0
    ensures o.page.None? ==> r == 1
  {
    NumOr(o.page, 1)
  }

  /** `pageSize`: `perPage || 50`, which is never 0, so the page count is always defined. */
  function PageSize(o: FilterOptions): (r: int)
    ensures r != 0
    ensures o.perPage.None? ==> r == 50
  {
    NumOr(o.perPage, 50)
  }

  /** `totalPages`: just enough pages of `PageSize(o)` texts to hold `totalCount` of them. */
  function TotalPages(totalCount: int, o: FilterOptions): (r: int)
    ensures PageSize(o) > 0 ==> (r - 1) * PageSize(o) < totalCount <= r * PageSize(o)
  {
    CeilDiv(totalCount, PageSize(o))
  }

  /** No matches means no pages, and any match means at least one. */
  lemma TotalPagesEmpty(totalCount: int, o: FilterOptions)
    requires totalCount >= 0 && PageSize(o) > 0
    ensures TotalPages(totalCount, o) >= 0
    ensures TotalPages(totalCount, o) == 0 <==> totalCount == 0
  {
    CeilDivPages(totalCount, PageSize(o));
  }

  /** The pager shows the page and page size the filter request asks the server for. */
  lemma PagerMatchesRequest(o: FilterOptions)
    ensures FilterRequest(o).page == CurrentPage(o) && FilterRequest(o).perPage == PageSize(o)
  {
  }

  class BatchState {
    var filterOptions: FilterOptions
    var filteredTexts: seq<TextRow>
    var totalCount: int
    var selectedTextIds: seq<int>
    var isLoading: bool
    var isUpdating: bool
    var isPreviewMode: bool

    /** Every field `resetState` restores holds its initial value. */
    predicate Pristine()
      reads this
    {
      filterOptions == InitialOptions && filteredTexts == [] && totalCount == 0 && selectedTextIds == []
      && !isPreviewMode
    }

    constructor ()
      ensures Pristine() && !isLoading && !isUpdating
    {
      filterOptions := InitialOptions;
      filteredTexts := [];
      totalCount := 0;
      selectedTextIds := [];
      isLoading := false;
      isUpdating := false;
      isPreviewMode := false;
    }

    /** `isSelected`. */
    predicate IsSelected(id: int)
      reads this
    {
      id in selectedTextIds
    }

    /** `selectAll`: the ids of the shown texts, in their order. */
    method SelectAll()
      modifies this`selectedTextIds
      ensures selectedTextIds == Ids(filteredTexts)
      ensures forall id :: IsSelected(id) <==> exists k :: 0 <= k < |filteredTexts| && filteredTexts[k].id == id
    {
      selectedTextIds := Map(filteredTexts, (t: TextRow) => t.id);
      forall id ensures IsSelected(id) <==> exists k :: 0 <= k < |filteredTexts| && filteredTexts[k].id == id {
        SelectAllMembers(filteredTexts, id);
      }
    }

    /** `clearSelection`. */
    method ClearSelection()
      modifies this`selectedTextIds
      ensures selectedTextIds == [] && forall id :: !IsSelected(id)
    {
      selectedTextIds := [];
    }

    /**
     * `toggleSelection`: splices out the id where `indexOf` finds it, or pushes it.
     * A repeat-free selection stays repeat-free and the id's selection flips.
     */
    method ToggleSelection(id: int)
      modifies this`selectedTextIds
      ensures selectedTextIds == Toggled(old(selectedTextIds), id)
      ensures NoDup(old(selectedTextIds)) ==> NoDup(selectedTextIds) && (IsSelected(id) <==> !old(IsSelected(id)))
    {
      ghost var before := selectedTextIds;
      var index := IndexOf(selectedTextIds, id);
      if index > -1 {
        RemoveFirstAt(selectedTextIds, id, index);
        selectedTextIds := SpliceOne(selectedTextIds, index);
      } else {
        selectedTextIds := selectedTextIds + [id];
      }
      if NoDup(before) {
        ToggledMembers(before, id);
      }
    }

    /**
     * `filterTexts(resetPage)`: nothing happens without filter conditions. Otherwise
     * a reset moves to page 1 before the request is built; a successful answer
     * replaces the shown texts and count, and clears the selection only on a reset.
     */
    method FilterTexts(resetPage: bool, response: Result<AnnotationList, ApiError>) returns (sent: Option<AdvancedSearch>)
      modifies this`filterOptions, this`filteredTexts, this`totalCount, this`selectedTextIds, this`isLoading
      ensures !HasConditions(old(filterOptions)) ==> sent.None? && unchanged(this)
      ensures HasConditions(old(filterOptions)) ==>
        filterOptions == (if resetPage then old(filterOptions).(page := Some(1)) else old(filterOptions)) &&
        sent == Some(FilterRequest(filterOptions)) && !isLoading
      ensures HasConditions(old(filterOptions)) && response.Ok? ==>
        filteredTexts == response.value.items && totalCount == response.value.total &&
        selectedTextIds == (if resetPage then [] else old(selectedTextIds))
      ensures response.Err? ==>
        filteredTexts == old(filteredTexts) && totalCount == old(totalCount) && selectedTextIds == old(selectedTextIds)
    {
      if !HasConditions(filterOptions) {
        return None;
      }
      if resetPage {
        filterOptions := filterOptions.(page := Some(1));
      }
      isLoading := true;
      sent := Some(FilterRequest(filterOptions));
      if response.Ok? {
        filteredTexts := response.value.items;
        totalCount := response.value.total;
        if resetPage {
          selectedTextIds := [];
        }
      }
      isLoading := false;
    }

    /**
     * `previewFilter`: with filter conditions, enters preview mode, asks for the
     * first 100 matches and, on success, shows them with the full count and an
     * empty selection.
     */
    method PreviewFilter(response: Result<AnnotationList, ApiError>) returns (sent: Option<AdvancedSearch>)
      modifies this`filteredTexts, this`totalCount, this`selectedTextIds, this`isLoading, this`isPreviewMode
      ensures !HasConditions(filterOptions) ==> sent.None? && unchanged(this)
      ensures HasConditions(filterOptions) ==> sent == Some(PreviewRequest(filterOptions)) && isPreviewMode && !isLoading
      ensures HasConditions(filterOptions) && response.Ok? ==>
        var p := PreviewOf(response.value);
        filteredTexts == p.texts && totalCount == p.totalCount && selectedTextIds == []
      ensures response.Err? ==>
        filteredTexts == old(filteredTexts) && totalCount == old(totalCount) && selectedTextIds == old(selectedTextIds)
    {
      if !HasConditions(filterOptions) {
        return None;
      }
      isLoading := true;
      isPreviewMode := true;
      sent := Some(PreviewRequest(filterOptions));
      if response.Ok? {
        var p := PreviewOf(response.value);
        filteredTexts := p.texts;
        totalCount := p.totalCount;
        selectedTextIds := [];
      }
      isLoading := false;
    }

    /**
     * `updateLabelsByFilter`: with filter conditions, sends the bulk update for the
     * current filter; on success the current page is filtered again (`refresh` is
     * the server's answer to that) and the server's result is returned.
     */
    method UpdateLabelsByFilter(u: UpdateOptions, response: Result<BulkResult, ApiError>, refresh: Result<AnnotationList, ApiError>)
      returns (sent: Option<BulkUpdate>, r: Option<BulkResult>)
      modifies this`filterOptions, this`filteredTexts, this`totalCount, this`selectedTextIds, this`isLoading, this`isUpdating
      ensures !HasConditions(old(filterOptions)) ==> sent.None? && r.None? && unchanged(this)
      ensures HasConditions(old(filterOptions)) ==>
        sent == Some(UpdateByFilterRequest(old(filterOptions), u)) && !isUpdating &&
        filterOptions == old(filterOptions) && selectedTextIds == old(selectedTextIds)
      ensures HasConditions(old(filterOptions)) && response.Ok? ==> r == Some(response.value) && !isLoading
      ensures HasConditions(old(filterOptions)) && response.Ok? && refresh.Ok? ==>
        filteredTexts == refresh.value.items && totalCount == refresh.value.total
      ensures response.Err? ==> r.None? && filteredTexts == old(filteredTexts) && totalCount == old(totalCount) && isLoading == old(isLoading)
      ensures refresh.Err? ==> filteredTexts == old(filteredTexts) && totalCount == old(totalCount)
    {
      if !HasConditions(filterOptions) {
        return None, None;
      }
      isUpdating := true;
      sent := Some(UpdateByFilterRequest(filterOptions, u));
      if response.Ok? {
        var _ := FilterTexts(false, refresh);
        r := Some(response.value);
      } else {
        r := None;
      }
      isUpdating := false;
    }

    /**
     * `updateLabelsBySelection`: with a selection, sends the bulk update for the
     * selected ids; on success the refresh runs `filterTexts()`, which does nothing
     * unless there are filter conditions, so without them the shown texts stay as
     * they were.
     */
    method UpdateLabelsBySelection(u: UpdateOptions, response: Result<BulkResult, ApiError>, refresh: Result<AnnotationList, ApiError>)
      returns (sent: Option<BulkUpdate>, r: Option<BulkResult>)
      modifies this`filterOptions, this`filteredTexts, this`totalCount, this`selectedTextIds, this`isLoading, this`isUpdating
      ensures old(selectedTextIds) == [] ==> sent.None? && r.None? && unchanged(this)
      ensures old(selectedTextIds) != [] ==>
        sent == Some(UpdateByIdsRequest(old(selectedTextIds), u)) && !isUpdating &&
        filterOptions == old(filterOptions) && selectedTextIds == old(selectedTextIds) &&
        (response.Ok? <==> r.Some?) && (response.Ok? ==> r == Some(response.value))
      ensures old(selectedTextIds) != [] && response.Ok? && refresh.Ok? && HasConditions(filterOptions) ==>
        filteredTexts == refresh.value.items && totalCount == refresh.value.total
      ensures !HasConditions(filterOptions) || response.Err? || refresh.Err? ==>
        filteredTexts == old(filteredTexts) && totalCount == old(totalCount)
    {
      if selectedTextIds == [] {
        return None, None;
      }
      isUpdating := true;
      sent := Some(UpdateByIdsRequest(selectedTextIds, u));
      if response.Ok? {
        var _ := FilterTexts(false, refresh);
        r := Some(response.value);
      } else {
        r := None;
      }
      isUpdating := false;
    }

    /** `resetState`: every field but the two busy flags back to its initial value. */
    method ResetState()
      modifies this`filterOptions, this`filteredTexts, this`totalCount, this`selectedTextIds, this`isPreviewMode
      ensures Pristine() && !HasConditions(filterOptions)
    {
      filterOptions := InitialOptions;
      filteredTexts := [];
      totalCount := 0;
      selectedTextIds := [];
      isPreviewMode := false;
      InitialHasNoConditions();
    }

    /** `setIncludeKeywords`; a non-empty list is a filter condition. */
    method SetIncludeKeywords(keywords: seq<string>)
      modifies this`filterOptions
      ensures filterOptions == old(filterOptions).(includeKeywords := Some(keywords))
      ensures keywords != [] ==> HasConditions(filterOptions)
    {
      filterOptions := filterOptions.(includeKeywords := Some(keywords));
    }

    /** `setExcludeKeywords`. */
    method SetExcludeKeywords(keywords: seq<string>)
      modifies this`filterOptions
      ensures filterOptions == old(filterOptions).(excludeKeywords := Some(keywords))
      ensures keywords != [] ==> HasConditions(filterOptions)
    {
      filterOptions := filterOptions.(excludeKeywords := Some(keywords));
    }

    /** `setIncludeLabels`. */
    method SetIncludeLabels(labels: seq<string>)
      modifies this`filterOptions
      ensures filterOptions == old(filterOptions).(includeLabels := Some(labels))
      ensures labels != [] ==> HasConditions(filterOptions)
    {
      filterOptions := filterOptions.(includeLabels := Some(labels));
    }

    /** `setExcludeLabels`. */
    method SetExcludeLabels(labels: seq<string>)
      modifies this`filterOptions
      ensures filterOptions == old(filterOptions).(excludeLabels := Some(labels))
      ensures labels != [] ==> HasConditions(filterOptions)
    {
      filterOptions := filterOptions.(excludeLabels := Some(labels));
    }

    /** `setUnlabeledOnly`. */
    method SetUnlabeledOnly(unlabeledOnly: bool)
      modifies this`filterOptions
      ensures filterOptions == old(filterOptions).(unlabeledOnly := Some(unlabeledOnly))
      ensures unlabeledOnly ==> HasConditions(filterOptions)
    {
      filterOptions := filterOptions.(unlabeledOnly := Some(unlabeledOnly));
    }

    /** `handlePageChange`: moves to `page`, then filters again keeping the selection. */
    method HandlePageChange(page: int, response: Result<AnnotationList, ApiError>) returns (sent: Option<AdvancedSearch>)
      modifies this`filterOptions, this`filteredTexts, this`totalCount, this`selectedTextIds, this`isLoading
      ensures filterOptions == old(filterOptions).(page := Some(page))
      ensures selectedTextIds == old(selectedTextIds)
      ensures HasConditions(filterOptions) ==> sent.Some? && sent.value.page == CurrentPage(filterOptions)
      ensures HasConditions(filterOptions) && response.Ok? ==>
        filteredTexts == response.value.items && totalCount == response.value.total
    {
      filterOptions := filterOptions.(page := Some(page));
      sent := FilterTexts(false, response);
    }

    /** `handlePageSizeChange`: takes the new page size, goes back to page 1, then filters again. */
    method HandlePageSizeChange(size: int, response: Result<AnnotationList, ApiError>) returns (sent: Option<AdvancedSearch>)
      modifies this`filterOptions, this`filteredTexts, this`totalCount, this`selectedTextIds, this`isLoading
      ensures filterOptions == old(filterOptions).(perPage := Some(size), page := Some(1))
      ensures CurrentPage(filterOptions) == 1
      ensures selectedTextIds == old(selectedTextIds)
      ensures HasConditions(filterOptions) ==>
        sent.Some? && sent.value.page == 1 && sent.value.perPage == PageSize(filterOptions)
      ensures HasConditions(filterOptions) && response.Ok? ==>
        filteredTexts == response.value.items && totalCount == response.value.total
    {
      filterOptions := filterOptions.(perPage := Some(size), page := Some(1));
      sent := FilterTexts(false, response);
    }
  }
}
