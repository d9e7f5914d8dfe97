/**
 * The request builders of `BatchAnnotationService`: how batch filter options
 * and label changes become the `AdvancedSearchRequest` and
 * `BulkUpdateLabelsRequest` bodies sent to the server. Sending them is left to
 * the caller; every builder here only computes the body.
 */
module BatchRequests {
  import opened Wrappers
  import opened Strs
  import opened JsValues
  import opened Store

  /** `BatchFilterOptions`: every field may be missing. */
  datatype FilterOptions = FilterOptions(
    includeKeywords: Option<seq<string>>,
    excludeKeywords: Option<seq<string>>,
    includeLabels: Option<seq<string>>,
    excludeLabels: Option<seq<string>>,
    unlabeledOnly: Option<bool>,
    page: Option<int>,
    perPage: Option<int>)

  /** `BatchUpdateOptions`. */
  datatype UpdateOptions = UpdateOptions(addLabels: Option<seq<string>>, removeLabels: Option<seq<string>>)

  /** `AdvancedSearchRequest` as the builders fill it; `None` is an undefined field. */
  datatype AdvancedSearch = AdvancedSearch(
    query: Option<string>,
    excludeQuery: Option<string>,
    keywords: Option<seq<string>>,
    excludeKeywords: Option<seq<string>>,
    labels: Option<string>,
    excludeLabels: Option<string>,
    unlabeledOnly: Option<bool>,
    page: int,
    perPage: int)

  /** `BulkUpdateLabelsRequest`: a target (criteria or ids) and the label changes. */
  datatype BulkUpdate = BulkUpdate(
    searchCriteria: Option<AdvancedSearch>,
    textIds: Option<seq<int>>,
    labelsToAdd: Option<string>,
    labelsToRemove: Option<string>)

  /** `BulkUpdateLabelsResponse`. */
  datatype BulkResult = BulkResult(updatedCount: int, message: string)

  /** What `previewFilter` hands back. */
  datatype Preview = Preview(texts: seq<TextRow>, totalCount: nat)

  const Comma: string := ","
  const Space: string := " "

  /** `xs?.join(sep) || undefined`: a missing list and a list that joins to `''` both give undefined. */
  function JoinedOrAbsent(xs: Option<seq<string>>, sep: string): (r: Option<string>)
    ensures r.Some? ==> xs.Some? && r.value == Join(xs.value, sep) && r.value != []
  {
    match xs
    case None => None
    case Some(ys) => if Join(ys, sep) == [] then None else Some(Join(ys, sep))
  }

  /** Which lists are dropped: the missing one, the empty one and the list holding only `''`. */
  lemma {:induction false} JoinedAbsentWhen(xs: Option<seq<string>>, sep: string)
    requires sep != []
    ensures JoinedOrAbsent(xs, sep).None? <==> xs.None? || xs.value == [] || xs.value == [[]]
  {
    if xs.Some? {
      JoinEmpty(xs.value, sep);
      if |xs.value| == 1 {
        assert xs.value == [xs.value[0]];
      }
    }
  }

  /** A list that is sent comes back whole when the server splits it at the separator. */
  lemma {:induction false} JoinedRoundTrip(xs: seq<string>, sep: char)
    requires xs != [] && xs != [[]]
    requires forall k :: 0 <= k < |xs| ==> sep !in xs[k]
    ensures var r := JoinedOrAbsent(Some(xs), [sep]); r.Some? && Split(r.value, sep) == xs
  {
    JoinedAbsentWhen(Some(xs), [sep]);
    SplitJoin(xs, sep);
  }

  /** `filterTexts`: keyword lists pass through, label lists are comma-joined, page 1 and 50 per page by default. */
  function FilterRequest(o: FilterOptions): (r: AdvancedSearch)
    ensures r.query.None? && r.excludeQuery.None?
    ensures r.keywords == o.includeKeywords && r.excludeKeywords == o.excludeKeywords
    ensures r.page != 0 && r.perPage != 0
    ensures o.page.None? ==> r.page == 1
    ensures o.perPage.None? ==> r.perPage == 50
  {
    AdvancedSearch(
      None, None,
      o.includeKeywords, o.excludeKeywords,
      JoinedOrAbsent(o.includeLabels, Comma), JoinedOrAbsent(o.excludeLabels, Comma),
      o.unlabeledOnly,
      NumOr(o.page, 1), NumOr(o.perPage, 50))
  }

  /** The label lists of a filter reach the server intact when no label holds a comma. */
  lemma FilterLabelsRoundTrip(o: FilterOptions)
    requires o.includeLabels.Some? && o.includeLabels.value != [] && o.includeLabels.value != [[]]
    requires forall k :: 0 <= k < |o.includeLabels.value| ==> ',' !in o.includeLabels.value[k]
    ensures FilterRequest(o).labels.Some? && Split(FilterRequest(o).labels.value, ',') == o.includeLabels.value
  {
    JoinedRoundTrip(o.includeLabels.value, ',');
  }

  /** `updateLabelsByFilter`: keywords become space-joined queries, and a batch takes 1000 per page by default. */
  function UpdateByFilterRequest(f: FilterOptions, u: UpdateOptions): (r: BulkUpdate)
    ensures r.searchCriteria.Some? && r.textIds.None?
    ensures r.searchCriteria.value.keywords.None? && r.searchCriteria.value.excludeKeywords.None?
    ensures f.perPage.None? ==> r.searchCriteria.value.perPage == 1000
  {
    var criteria := AdvancedSearch(
      JoinedOrAbsent(f.includeKeywords, Space), JoinedOrAbsent(f.excludeKeywords, Space),
      None, None,
      JoinedOrAbsent(f.includeLabels, Comma), JoinedOrAbsent(f.excludeLabels, Comma),
      f.unlabeledOnly,
      NumOr(f.page, 1), NumOr(f.perPage, 1000));
    BulkUpdate(Some(criteria), None, JoinedOrAbsent(u.addLabels, Comma), JoinedOrAbsent(u.removeLabels, Comma))
  }

  /**
   * A bulk update by filter targets the same labels, unlabelled flag and page as
   * a filter with the same options would, and the same page size whenever one is set.
   */
  lemma UpdateMatchesFilter(f: FilterOptions, u: UpdateOptions)
    ensures var c := UpdateByFilterRequest(f, u).searchCriteria.value; var s := FilterRequest(f);
      c.labels == s.labels && c.excludeLabels == s.excludeLabels && c.unlabeledOnly == s.unlabeledOnly && c.page == s.page &&
      (f.perPage.Some? && f.perPage.value != 0 ==> c.perPage == s.perPage)
  {
  }

  /** Keywords without spaces reach the server as a query that splits back into them. */
  lemma QueryRoundTrip(f: FilterOptions, u: UpdateOptions)
    requires f.includeKeywords.Some? && f.includeKeywords.value != [] && f.includeKeywords.value != [[]]
    requires forall k :: 0 <= k < |f.includeKeywords.value| ==> ' ' !in f.includeKeywords.value[k]
    ensures var q := UpdateByFilterRequest(f, u).searchCriteria.value.query; q.Some? && Split(q.value, ' ') == f.includeKeywords.value
  {
    JoinedRoundTrip(f.includeKeywords.value, ' ');
  }

  /** `updateLabelsByIds`: the ids are the target and no search criteria are sent. */
  function UpdateByIdsRequest(ids: seq<int>, u: UpdateOptions): (r: BulkUpdate)
    ensures r.searchCriteria.None? && r.textIds == Some(ids)
    ensures r.labelsToAdd == JoinedOrAbsent(u.addLabels, Comma) && r.labelsToRemove == JoinedOrAbsent(u.removeLabels, Comma)
  {
    BulkUpdate(None, Some(ids), JoinedOrAbsent(u.addLabels, Comma), JoinedOrAbsent(u.removeLabels, Comma))
  }

  /** A bulk request never carries both targets: criteria for a filter, ids for a selection. */
  lemma {:induction false} OneTarget(f: FilterOptions, ids: seq<int>, u: UpdateOptions)
    ensures var a := UpdateByFilterRequest(f, u); a.searchCriteria.Some? && a.textIds.None?
    ensures var b := UpdateByIdsRequest(ids, u); b.searchCriteria.None? && b.textIds.Some?
  {
  }

  /** `addLabelsToFiltered`: only labels to add. */
  function AddToFiltered(f: FilterOptions, labels: seq<string>): (r: BulkUpdate)
    ensures r.labelsToRemove.None? && r.searchCriteria.Some?
    ensures labels != [] && labels != [[]] ==> r.labelsToAdd.Some?
  {
    JoinedAbsentWhen(Some(labels), Comma);
    UpdateByFilterRequest(f, UpdateOptions(Some(labels), None))
  }

  /** `removeLabelsFromFiltered`: only labels to remove. */
  function RemoveFromFiltered(f: FilterOptions, labels: seq<string>): (r: BulkUpdate)
    ensures r.labelsToAdd.None? && r.searchCriteria.Some?
    ensures labels != [] && labels != [[]] ==> r.labelsToRemove.Some?
  {
    JoinedAbsentWhen(Some(labels), Comma);
    UpdateByFilterRequest(f, UpdateOptions(None, Some(labels)))
  }

  /** `addLabelsToTexts`: only labels to add, for the given ids. */
  function AddToTexts(ids: seq<int>, labels: seq<string>): (r: BulkUpdate)
    ensures r.labelsToRemove.None? && r.textIds == Some(ids)
    ensures labels != [] && labels != [[]] ==> r.labelsToAdd.Some?
  {
    JoinedAbsentWhen(Some(labels), Comma);
    UpdateByIdsRequest(ids, UpdateOptions(Some(labels), None))
  }

  /** `removeLabelsFromTexts`: only labels to remove, for the given ids. */
  function RemoveFromTexts(ids: seq<int>, labels: seq<string>): (r: BulkUpdate)
    ensures r.labelsToAdd.None? && r.textIds == Some(ids)
    ensures labels != [] && labels != [[]] ==> r.labelsToRemove.Some?
  {
    JoinedAbsentWhen(Some(labels), Comma);
    UpdateByIdsRequest(ids, UpdateOptions(None, Some(labels)))
  }

  /** The search `previewFilter` sends: the filter's own, on page 1 with 100 per page. */
  function PreviewRequest(f: FilterOptions): (r: AdvancedSearch)
    ensures r.page == 1 && r.perPage == 100
    ensures r == FilterRequest(f).(page := 1, perPage := 100)
  {
    FilterRequest(f.(page := Some(1), perPage := Some(100)))
  }

  /** What `previewFilter` returns for the page the server sent. */
  function PreviewOf(list: AnnotationList): (r: Preview)
    ensures r.texts == list.items && r.totalCount == list.total
  {
    Preview(list.items, list.total)
  }
}
