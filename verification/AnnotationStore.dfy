/**
 * The web front end's annotation store (web/src/stores/annotation.ts): the
 * current page of annotation records, the record being edited, the search
 * parameters and the match count, with the local updates that follow each
 * create, update and delete. Server answers are parameters; an `Err` is the
 * error the awaited call throws, which every action rethrows after clearing
 * `loading`.
 */
module AnnotationStore {
  import opened Wrappers
  import opened JsArrays
  import opened JsValues
  import opened Store
  import opened ApiClient

  /** `SearchRequest` as the store keeps it; `None` is a missing key. */
  datatype SearchParams = SearchParams(
    query: Option<string>,
    labels: Option<string>,
    unlabeledOnly: Option<bool>,
    page: Option<int>,
    perPage: Option<int>)

  /** The parameters a new store starts from and `resetSearch` restores. */
  const InitialSearch: SearchParams := SearchParams(None, None, Some(false), Some(1), Some(50))

  /** A partial update that sets nothing. */
  const NoParams: SearchParams := SearchParams(None, None, None, None, None)

  /** `{ ...a, ...b }`: every key `b` has wins, every other key keeps `a`'s value. */
  function Merge(a: SearchParams, b: SearchParams): (r: SearchParams)
    ensures r.query == (if b.query.Some? then b.query else a.query)
    ensures r.labels == (if b.labels.Some? then b.labels else a.labels)
    ensures r.unlabeledOnly == (if b.unlabeledOnly.Some? then b.unlabeledOnly else a.unlabeledOnly)
    ensures r.page == (if b.page.Some? then b.page else a.page)
    ensures r.perPage == (if b.perPage.Some? then b.perPage else a.perPage)
  {
    SearchParams(
      if b.query.Some? then b.query else a.query,
      if b.labels.Some? then b.labels else a.labels,
      if b.unlabeledOnly.Some? then b.unlabeledOnly else a.unlabeledOnly,
      if b.page.Some? then b.page else a.page,
      if b.perPage.Some? then b.perPage else a.perPage)
  }

  /** Merging nothing changes nothing, merging the same update twice is merging it once, and merges compose. */
  lemma MergeLaws(a: SearchParams, b: SearchParams, c: SearchParams)
    ensures Merge(a, NoParams) == a
    ensures Merge(Merge(a, b), b) == Merge(a, b)
    ensures Merge(Merge(a, b), c) == Merge(a, Merge(b, c))
  {
  }

  /**
   * `totalPages`: `Math.ceil(total / per_page)`, which is a number only when a
   * non-zero page size is set; the model gives `None` where JavaScript gives
   * `NaN` or `Infinity`.
   */
  function TotalPages(total: int, perPage: Option<int>): (r: Option<int>)
    ensures r.Some? <==> perPage.Some? && perPage.value != 0
    ensures r.Some? && perPage.value > 0 ==> (r.value - 1) * perPage.value < total <= r.value * perPage.value
  {
    if perPage.Some? && perPage.value != 0 then Some(CeilDiv(total, perPage.value)) else None
  }

  /** `a => a.id === id`. */
  function HasTextId(id: int): TextRow -> bool
  {
    (a: TextRow) => a.id == id
  }

  /** `a => a.id !== id`. */
  function OtherTextId(id: int): TextRow -> bool
  {
    (a: TextRow) => a.id != id
  }

  /**
   * Deleting the record just created, whose id no listed record carried, gives
   * back the list as it was before the create.
   */
  lemma CreateThenDeleteRestores(annotations: seq<TextRow>, created: TextRow)
    requires forall k :: 0 <= k < |annotations| ==> annotations[k].id != created.id
    ensures Filter([created] + annotations, OtherTextId(created.id)) == annotations
  {
    FilterAppend([created], annotations, OtherTextId(created.id));
    FilterKeepsAll(annotations, OtherTextId(created.id));
  }

  class AnnotationStore {
    var annotations: seq<TextRow>
    var currentAnnotation: Option<TextRow>
    var searchParams: SearchParams
    var total: int
    var loading: bool

    constructor ()
      ensures annotations == [] && currentAnnotation.None? && searchParams == InitialSearch && total == 0 && !loading
    {
      annotations := [];
      currentAnnotation := None;
      searchParams := InitialSearch;
      total := 0;
      loading := false;
    }

    /** `hasAnnotations`. */
    predicate HasAnnotations()
      reads this
    {
      |annotations| > 0
    }

    method SetLoading(value: bool)
      modifies this`loading
      ensures loading == value
    {
      loading := value;
    }

    /**
     * `searchAnnotations(params)`: the partial parameters are merged in before the
     * request (and stay merged if it fails); a response replaces the records and
     * the count.
     */
    method SearchAnnotations(params: Option<SearchParams>, response: Result<AnnotationList, ApiError>)
      returns (sent: SearchParams, r: Result<AnnotationList, ApiError>)
      modifies this`searchParams, this`annotations, this`total, this`loading
      ensures searchParams == (if params.Some? then Merge(old(searchParams), params.value) else old(searchParams))
      ensures sent == searchParams && r == response && !loading
      ensures response.Ok? ==> annotations == response.value.items && total == response.value.total
      ensures response.Err? ==> annotations == old(annotations) && total == old(total)
    {
      SetLoading(true);
      if params.Some? {
        searchParams := Merge(searchParams, params.value);
      }
      sent := searchParams;
      if response.Ok? {
        annotations := response.value.items;
        total := response.value.total;
      }
      r := response;
      SetLoading(false);
    }

    /** `createAnnotation`: the new record goes first and the count grows by one. */
    method CreateAnnotation(created: Result<TextRow, ApiError>) returns (r: Result<TextRow, ApiError>)
      modifies this`annotations, this`total, this`loading
      ensures r == created && !loading
      ensures created.Ok? ==> annotations == [created.value] + old(annotations) && total == old(total) + 1
      ensures created.Ok? ==> total - |annotations| == old(total) - |old(annotations)|
      ensures created.Err? ==> annotations == old(annotations) && total == old(total)
    {
      SetLoading(true);
      if created.Ok? {
        annotations := [created.value] + annotations;
        total := total + 1;
      }
      r := created;
      SetLoading(false);
    }

    /**
     * `updateAnnotation`: the first record with the id is replaced by the server's
     * version, and so is the record being edited when it has that id.
     */
    method UpdateAnnotation(id: int, updated: Result<TextRow, ApiError>) returns (r: Result<TextRow, ApiError>)
      modifies this`annotations, this`currentAnnotation, this`loading
      ensures r == updated && !loading
      ensures updated.Ok? ==> annotations == ReplaceFirst(old(annotations), HasTextId(id), updated.value)
      ensures updated.Ok? ==> var i := FindIndex(old(annotations), HasTextId(id));
        (i == -1 ==> annotations == old(annotations)) &&
        (i != -1 ==> annotations[i] == updated.value && forall k :: 0 <= k < |annotations| && k != i ==> annotations[k] == old(annotations)[k])
      ensures updated.Ok? ==>
        currentAnnotation == (if old(currentAnnotation).Some? && old(currentAnnotation).value.id == id then Some(updated.value) else old(currentAnnotation))
      ensures updated.Err? ==> annotations == old(annotations) && currentAnnotation == old(currentAnnotation)
    {
      SetLoading(true);
      if updated.Ok? {
        ReplaceFirstFacts(annotations, HasTextId(id), updated.value);
        var index := FindIndex(annotations, HasTextId(id));
        if index != -1 {
          annotations := annotations[index := updated.value];
        }
        if currentAnnotation.Some? && currentAnnotation.value.id == id {
          currentAnnotation := Some(updated.value);
        }
      }
      r := updated;
      SetLoading(false);
    }

    /**
     * `deleteAnnotation`: every record with the id leaves the list, the count drops
     * by one whether or not such a record was listed, and the record being edited
     * is dropped when it has the id.
     */
    method DeleteAnnotation(id: int, deleted: Option<ApiError>) returns (r: Option<ApiError>)
      modifies this`annotations, this`total, this`currentAnnotation, this`loading
      ensures r == deleted && !loading
      ensures deleted.None? ==>
        annotations == Filter(old(annotations), OtherTextId(id)) && total == old(total) - 1 &&
        (forall a :: a in annotations <==> a in old(annotations) && a.id != id) &&
        |annotations| == |old(annotations)| - |Filter(old(annotations), HasTextId(id))|
      ensures deleted.None? ==>
        currentAnnotation == (if old(currentAnnotation).Some? && old(currentAnnotation).value.id == id then None else old(currentAnnotation))
      ensures deleted.Some? ==> annotations == old(annotations) && total == old(total) && currentAnnotation == old(currentAnnotation)
    {
      SetLoading(true);
      if deleted.None? {
        FilterMembers(annotations, OtherTextId(id));
        FilterComplement(annotations, OtherTextId(id), HasTextId(id));
        annotations := Filter(annotations, OtherTextId(id));
        total := total - 1;
        if currentAnnotation.Some? && currentAnnotation.value.id == id {
          currentAnnotation := None;
        }
      }
      r := deleted;
      SetLoading(false);
    }

    /** `getAnnotation`: the fetched record becomes the one being edited. */
    method GetAnnotation(id: int, fetched: Result<TextRow, ApiError>) returns (r: Result<TextRow, ApiError>)
      modifies this`currentAnnotation, this`loading
      ensures r == fetched && !loading
      ensures currentAnnotation == if fetched.Ok? then Some(fetched.value) else old(currentAnnotation)
    {
      SetLoading(true);
      if fetched.Ok? {
        currentAnnotation := Some(fetched.value);
      }
      r := fetched;
      SetLoading(false);
    }

    /**
     * `bulkLabelAnnotations` and `importTexts`, which differ only in the call:
     * after the call succeeds the search runs again with the current parameters;
     * a failed refresh fails the whole action.
     */
    method CallThenRefresh(call: Result<nat, ApiError>, refresh: Result<AnnotationList, ApiError>) returns (r: Result<nat, ApiError>)
      modifies this`searchParams, this`annotations, this`total, this`loading
      ensures searchParams == old(searchParams) && !loading
      ensures call.Err? ==> r == call && annotations == old(annotations) && total == old(total)
      ensures call.Ok? && refresh.Ok? ==> r == call && annotations == refresh.value.items && total == refresh.value.total
      ensures call.Ok? && refresh.Err? ==> r == Err(refresh.error) && annotations == old(annotations) && total == old(total)
    {
      SetLoading(true);
      if call.Err? {
        SetLoading(false);
        return call;
      }
      var _, s := SearchAnnotations(None, refresh);
      r := if s.Ok? then call else Err(s.error);
      SetLoading(false);
    }

    method SetCurrentAnnotation(a: Option<TextRow>)
      modifies this`currentAnnotation
      ensures currentAnnotation == a
    {
      currentAnnotation := a;
    }

    /** `resetSearch`: page 1, 50 per page, all texts; a query or label filter set before is dropped. */
    method ResetSearch()
      modifies this`searchParams
      ensures searchParams == InitialSearch
      ensures TotalPages(total, searchParams.perPage) == Some(CeilDiv(total, 50))
    {
      searchParams := InitialSearch;
    }
  }
}
