/**
 * Request validation of the annotation API (app/schemas.py): the comma-separated
 * label normalisation shared by several validators, the bulk-label validators,
 * the cross-field check of a bulk label update, and the bounds of a search request.
 */
module Schemas {
  import opened Wrappers
  import opened Strs

  /** The comma pieces of `v`, stripped, with the empty ones dropped. */
  function Pieces(v: string): (r: seq<string>)
    ensures forall i :: 0 <= i < |r| ==> r[i] != [] && Stripped(r[i], PySpace) && ',' !in r[i]
  {
    var stripped := StripAll(Split(v, ','), PySpace);
    CleanPieces(Split(v, ','), stripped);
    NonEmpty(stripped)
  }

  lemma CleanPieces(parts: seq<string>, stripped: seq<string>)
    requires forall i :: 0 <= i < |parts| ==> ',' !in parts[i]
    requires stripped == StripAll(parts, PySpace)
    ensures forall i :: 0 <= i < |stripped| ==> Stripped(stripped[i], PySpace) && ',' !in stripped[i]
  {
    forall i | 0 <= i < |stripped|
      ensures Stripped(stripped[i], PySpace) && ',' !in stripped[i]
    {
      var x := Strip(parts[i], PySpace);
      assert stripped[i] == x;
      assert ',' !in parts[i];
    }
  }

  /** A list of labels as the validators emit it: pieces that are non-empty, stripped, comma-free and distinct. */
  predicate CleanLabels(ls: seq<string>)
  {
    NoDup(ls) && forall i :: 0 <= i < |ls| ==> ls[i] != [] && Stripped(ls[i], PySpace) && ',' !in ls[i]
  }

  /**
   * `AnnotationDataBase.validate_labels`, and equally `validate_labels_to_add` and
   * `validate_labels_to_remove` of `BulkLabelUpdateRequest`: None and the empty string
   * give None; otherwise the distinct non-blank pieces in first-occurrence order,
   * joined by ", ", or None when there are none.
   */
  function NormalizeLabels(v: Option<string>): (r: Option<string>)
    ensures r == None <==> (v == None || Pieces(v.value) == [])
  {
    if v == None || v.value == "" then None
    else
      var ls := Dedupe(Pieces(v.value));
      assert ls == [] <==> Pieces(v.value) == [] by {
        if Pieces(v.value) != [] {
          assert Pieces(v.value)[0] in ls;
        }
      }
      if ls == [] then None else Some(Join(ls, ", "))
  }

  /** Every piece after the first gets the blank that ", " puts in front of it. */
  function Prefixed(xs: seq<string>): (r: seq<string>)
    ensures |r| == |xs|
    ensures forall i :: 0 <= i < |xs| ==> r[i] == " " + xs[i]
  {
    if xs == [] then [] else [" " + xs[0]] + Prefixed(xs[1..])
  }

  lemma {:induction false} JoinCommaSpace(ls: seq<string>)
    requires |ls| >= 1
    ensures Join(ls, ", ") == Join([ls[0]] + Prefixed(ls[1..]), ",")
  {
    if |ls| > 1 {
      JoinCommaSpace(ls[1..]);
      var rest := ls[1..];
      assert [rest[0]] + Prefixed(rest[1..]) == [ls[1]] + Prefixed(ls[2..]);
      assert Prefixed(ls[1..]) == [" " + ls[1]] + Prefixed(ls[2..]);
      var joined := [ls[0]] + Prefixed(ls[1..]);
      assert joined[1..] == Prefixed(ls[1..]);
      var tail := [" " + ls[1]] + Prefixed(ls[2..]);
      assert |tail| > 1 ==> Join(tail, ",") == " " + ls[1] + "," + Join(tail[1..], ",");
      assert tail[1..] == Prefixed(ls[2..]);
      if |ls| == 2 {
        assert Prefixed(ls[2..]) == [];
      } else {
        assert Join([ls[1]] + Prefixed(ls[2..]), ",") == ls[1] + "," + Join(Prefixed(ls[2..]), ",");
      }
    }
  }

  /** Re-reading a clean list written with ", " gives the same list back. */
  lemma PiecesOfJoin(ls: seq<string>)
    requires ls != [] && CleanLabels(ls)
    ensures Pieces(Join(ls, ", ")) == ls
  {
    var parts := [ls[0]] + Prefixed(ls[1..]);
    JoinCommaSpace(ls);
    PrefixedNoComma(ls, parts);
    SplitJoin(parts, ',');
    assert Split(Join(ls, ", "), ',') == parts;
    StripPrefixed(ls, parts);
    NonEmptyId(ls);
  }

  lemma PrefixedNoComma(ls: seq<string>, parts: seq<string>)
    requires ls != [] && CleanLabels(ls)
    requires parts == [ls[0]] + Prefixed(ls[1..])
    ensures |parts| >= 1 && forall i :: 0 <= i < |parts| ==> ',' !in parts[i]
  {
    forall i | 0 <= i < |parts| ensures ',' !in parts[i] {
      if i > 0 {
        assert parts[i] == " " + ls[i];
      }
    }
  }

  lemma StripPrefixed(ls: seq<string>, parts: seq<string>)
    requires ls != [] && CleanLabels(ls)
    requires parts == [ls[0]] + Prefixed(ls[1..])
    ensures StripAll(parts, PySpace) == ls
  {
    var stripped := StripAll(parts, PySpace);
    forall i | 0 <= i < |parts| ensures stripped[i] == ls[i] {
      if i == 0 {
        StripStripped(ls[0], PySpace);
      } else {
        assert parts[i] == [' '] + ls[i];
        StripAfterSpace(' ', ls[i], PySpace);
      }
    }
  }

  /** Normalising yields exactly the distinct non-blank pieces of the input, in first-occurrence order. */
  lemma NormalizeLabelsPieces(v: string)
    requires Pieces(v) != []
    ensures NormalizeLabels(Some(v)) == Some(Join(Dedupe(Pieces(v)), ", "))
    ensures Pieces(NormalizeLabels(Some(v)).value) == Dedupe(Pieces(v))
    ensures CleanLabels(Dedupe(Pieces(v)))
  {
    var ps := Pieces(v);
    var ls := Dedupe(ps);
    assert ps[0] in ls;
    assert v != "";
    DedupeClean(ps);
    PiecesOfJoin(ls);
  }

  lemma DedupeClean(ps: seq<string>)
    requires forall i :: 0 <= i < |ps| ==> ps[i] != [] && Stripped(ps[i], PySpace) && ',' !in ps[i]
    ensures CleanLabels(Dedupe(ps))
  {
    var ls := Dedupe(ps);
    forall i | 0 <= i < |ls| ensures ls[i] != [] && Stripped(ls[i], PySpace) && ',' !in ls[i] {
      assert ls[i] in ps;
      var j :| 0 <= j < |ps| && ps[j] == ls[i];
    }
  }

  /** Normalisation is idempotent. */
  lemma NormalizeLabelsIdempotent(v: Option<string>)
    ensures NormalizeLabels(NormalizeLabels(v)) == NormalizeLabels(v)
  {
    if v != None && Pieces(v.value) != [] {
      NormalizeLabelsPieces(v.value);
      var ls := Dedupe(Pieces(v.value));
      var out := Join(ls, ", ");
      assert Pieces(out) == ls;
      DedupeNoDup(ls);
      assert ls[0] in ls;
      assert out != "";
    }
  }

  /** `BulkLabelRequest.validate_labels`: an empty or blank string, or one with no non-blank piece, is refused. */
  function ValidateBulkLabels(v: string): Result<string, string>
  {
    if v == "" || PyStrip(v) == "" then Err("标签不能为空")
    else
      var ls := Pieces(v);
      if ls == [] then Err("至少需要一个有效标签")
      else Ok(Join(Dedupe(ls), ", "))
  }

  /** The bulk-label validator accepts exactly what the optional normaliser keeps, with the same result. */
  lemma ValidateBulkLabelsAgrees(v: string)
    ensures ValidateBulkLabels(v).Ok? <==> NormalizeLabels(Some(v)).Some?
    ensures ValidateBulkLabels(v).Ok? ==> ValidateBulkLabels(v).value == NormalizeLabels(Some(v)).value
  {
    if PyStrip(v) == "" {
      assert AllSpace(v, PySpace);
      var parts := Split(v, ',');
      forall i | 0 <= i < |parts| ensures Strip(parts[i], PySpace) == [] {
        assert Contains(v, parts[i]) by {
          SplitPartInfix(v, ',', i);
        }
        InfixAllSpace(v, parts[i], PySpace);
      }
      NonEmptyOfBlank(StripAll(parts, PySpace));
    }
  }

  lemma InfixAllSpace(s: string, sub: string, ws: char -> bool)
    requires AllSpace(s, ws) && Contains(s, sub)
    ensures Strip(sub, ws) == []
  {
    var i :| 0 <= i <= |s| - |sub| && InfixAt(s, sub, i);
    forall k | 0 <= k < |sub| ensures ws(sub[k]) {
      assert sub[k] == s[i + k];
    }
  }

  lemma {:induction false} NonEmptyOfBlank(xs: seq<string>)
    requires forall i :: 0 <= i < |xs| ==> xs[i] == []
    ensures NonEmpty(xs) == []
  {
    if xs != [] {
      NonEmptyOfBlank(xs[1..]);
    }
  }

  /** Each piece of a split is a contiguous part of the split string. */
  lemma {:induction false} SplitPartInfix(s: string, sep: char, k: nat)
    requires k < |Split(s, sep)|
    ensures Contains(s, Split(s, sep)[k])
    decreases |s|
  {
    var parts := Split(s, sep);
    if s == [] {
      assert InfixAt(s, parts[k], 0);
    } else if s[0] == sep {
      if k == 0 {
        assert InfixAt(s, parts[k], 0);
      } else {
        assert parts[k] == Split(s[1..], sep)[k - 1];
        SplitPartInfix(s[1..], sep, k - 1);
        ContainsInTail(s, parts[k]);
      }
    } else {
      var rest := Split(s[1..], sep);
      if k == 0 {
        SplitFirstPrefix(s[1..], sep);
        assert parts[0] == [s[0]] + rest[0];
        assert s[..|parts[0]|] == [s[0]] + s[1..][..|rest[0]|];
        assert InfixAt(s, parts[k], 0);
      } else {
        assert parts[k] == rest[k];
        SplitPartInfix(s[1..], sep, k);
        ContainsInTail(s, parts[k]);
      }
    }
  }

  /** What the tail of a string contains, the string contains. */
  lemma ContainsInTail(s: string, sub: string)
    requires s != [] && Contains(s[1..], sub)
    ensures Contains(s, sub)
  {
    var j :| 0 <= j <= |s[1..]| - |sub| && InfixAt(s[1..], sub, j);
    assert s[1 + j..1 + j + |sub|] == s[1..][j..j + |sub|];
    assert InfixAt(s, sub, 1 + j);
  }

  lemma {:induction false} SplitFirstPrefix(s: string, sep: char)
    ensures |Split(s, sep)[0]| <= |s| && Split(s, sep)[0] == s[..|Split(s, sep)[0]|]
  {
    if s != [] && s[0] != sep {
      SplitFirstPrefix(s[1..], sep);
    }
  }

  /** A search request as `SearchRequest` declares it. */
  datatype SearchRequest = SearchRequest(
    query: Option<string>,
    excludeQuery: Option<string>,
    labels: Option<string>,
    excludeLabels: Option<string>,
    unlabeledOnly: bool,
    page: int,
    perPage: int)

  /** The field constraints of `SearchRequest`: page at least 1, per_page from 1 to 1000. */
  predicate SearchBoundsOk(req: SearchRequest)
  {
    req.page >= 1 && 1 <= req.perPage <= 1000
  }

  /** The fields of a search request that break their bounds, in declaration order; pydantic reports them together. */
  function ValidateSearch(req: SearchRequest): (r: Result<SearchRequest, seq<string>>)
    ensures r.Ok? <==> SearchBoundsOk(req)
    ensures r.Ok? ==> r.value == req
    ensures r.Err? ==> ("page" in r.error <==> req.page < 1)
    ensures r.Err? ==> ("per_page" in r.error <==> !(1 <= req.perPage <= 1000))
  {
    var bad := (if req.page < 1 then ["page"] else []) + (if 1 <= req.perPage <= 1000 then [] else ["per_page"]);
    if bad == [] then Ok(req) else Err(bad)
  }

  /** A bulk label update as `BulkLabelUpdateRequest` declares it. */
  datatype BulkLabelUpdateRequest = BulkLabelUpdateRequest(
    searchCriteria: Option<SearchRequest>,
    textIds: Option<seq<int>>,
    labelsToAdd: Option<string>,
    labelsToRemove: Option<string>)

  /** Why `validate_operation` refuses a request. */
  datatype OperationError = NoTarget | EmptyTextIds | NoLabelChange
  {
    function Message(): string
    {
      match this
      case NoTarget => "必须提供search_criteria或text_ids之一"
      case EmptyTextIds => "text_ids不能为空列表"
      case NoLabelChange => "必须提供labels_to_add或labels_to_remove之一"
    }
  }

  /**
   * Why a bulk update is refused: a field of the nested search criteria breaks its
   * bounds (pydantic validates the nested `SearchRequest` with the other fields,
   * before the model validator runs), or `validate_operation` refuses it.
   */
  datatype BulkUpdateError = CriteriaOutOfBounds(fields: seq<string>) | OperationRefused(reason: OperationError)

  /**
   * Field validation first (the nested search criteria against their bounds, both
   * label fields normalised), then `validate_operation`: a target (search criteria
   * or a non-empty id list) is needed, an id list may not be empty, and at least
   * one label change must survive normalisation.
   */
  function ValidateBulkUpdate(req: BulkLabelUpdateRequest): Result<BulkLabelUpdateRequest, BulkUpdateError>
  {
    var add := NormalizeLabels(req.labelsToAdd);
    var remove := NormalizeLabels(req.labelsToRemove);
    if req.searchCriteria.Some? && ValidateSearch(req.searchCriteria.value).Err? then
      Err(CriteriaOutOfBounds(ValidateSearch(req.searchCriteria.value).error))
    else if req.searchCriteria == None && (req.textIds == None || req.textIds.value == []) then Err(OperationRefused(NoTarget))
    else if req.textIds == Some([]) then Err(OperationRefused(EmptyTextIds))
    else if add == None && remove == None then Err(OperationRefused(NoLabelChange))
    else Ok(req.(labelsToAdd := add, labelsToRemove := remove))
  }

  /**
   * A bulk update is accepted exactly when its search criteria, if any, keep their
   * bounds, it has a target, no empty id list, and a label change; criteria out of
   * bounds are reported by the fields that break them.
   */
  lemma ValidateBulkUpdateCases(req: BulkLabelUpdateRequest)
    ensures ValidateBulkUpdate(req).Ok? <==>
      (req.searchCriteria.Some? ==> SearchBoundsOk(req.searchCriteria.value))
      && (req.searchCriteria.Some? || (req.textIds.Some? && req.textIds.value != []))
      && req.textIds != Some([])
      && ((req.labelsToAdd.Some? && Pieces(req.labelsToAdd.value) != [])
          || (req.labelsToRemove.Some? && Pieces(req.labelsToRemove.value) != []))
    ensures ValidateBulkUpdate(req).Err? && ValidateBulkUpdate(req).error.CriteriaOutOfBounds? <==>
      req.searchCriteria.Some? && !SearchBoundsOk(req.searchCriteria.value)
    ensures ValidateBulkUpdate(req).Err? && ValidateBulkUpdate(req).error.CriteriaOutOfBounds? ==>
      var c := req.searchCriteria.value; var fields := ValidateBulkUpdate(req).error.fields;
      ("page" in fields <==> c.page < 1) && ("per_page" in fields <==> !(1 <= c.perPage <= 1000))
    ensures ValidateBulkUpdate(req).Ok? ==>
      var ok := ValidateBulkUpdate(req).value;
      ok.searchCriteria == req.searchCriteria && ok.textIds == req.textIds
      && ok.labelsToAdd == NormalizeLabels(req.labelsToAdd)
      && ok.labelsToRemove == NormalizeLabels(req.labelsToRemove)
  {
    if req.searchCriteria.Some? && !SearchBoundsOk(req.searchCriteria.value) {
      var v := ValidateSearch(req.searchCriteria.value);
      assert ValidateBulkUpdate(req) == Err(CriteriaOutOfBounds(v.error));
    } else {
      assert req.searchCriteria.Some? ==> ValidateSearch(req.searchCriteria.value).Ok?;
      var add := NormalizeLabels(req.labelsToAdd);
      var remove := NormalizeLabels(req.labelsToRemove);
      if !(req.searchCriteria == None && (req.textIds == None || req.textIds.value == [])) && req.textIds != Some([])
        && !(add == None && remove == None)
      {
        assert ValidateBulkUpdate(req) == Ok(req.(labelsToAdd := add, labelsToRemove := remove));
      }
    }
  }

  /** Search criteria asking for page 0 are refused for their page, whatever else the request holds. */
  lemma CriteriaPageZeroRefused(c: SearchRequest, ids: Option<seq<int>>, add: Option<string>, remove: Option<string>)
    requires c.page == 0 && 1 <= c.perPage <= 1000
    ensures ValidateBulkUpdate(BulkLabelUpdateRequest(Some(c), ids, add, remove)) == Err(CriteriaOutOfBounds(["page"]))
  {
    assert ["page"] + [] == ["page"];
  }

  /** The two error requests of the bulk-update test script are refused for the reasons it expects. */
  lemma BulkUpdateScriptErrors(id: int)
    ensures ValidateBulkUpdate(BulkLabelUpdateRequest(None, Some([id]), None, None)) == Err(OperationRefused(NoLabelChange))
    ensures ValidateBulkUpdate(BulkLabelUpdateRequest(None, None, Some("test"), None)) == Err(OperationRefused(NoTarget))
  {
  }

}
