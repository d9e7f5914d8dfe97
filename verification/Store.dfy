/**
 * The two tables of the annotation database as values, and the queries the
 * service layer runs over them. `annotation_data` rows carry a unique id and a
 * unique text (models.py:27-29); the id column is an integer primary key without
 * SQLite's AUTOINCREMENT keyword, so a new row gets one more than the largest id
 * in the table (1 when it is empty) and an id freed by a delete can come back;
 * `labels` rows carry a unique id and a unique label string (models.py:42-43).
 * SQLite keeps both tables in rowid order, which is the order a query without
 * ORDER BY returns them in; the model keeps every table as a sequence in id order.
 */
module Store {
  import opened Wrappers
  import opened Strs
  import opened Sorting
  import Schemas

  /** A row of `annotation_data`: `labels` is NULL, `''` or a comma-separated string. */
  datatype TextRow = TextRow(id: int, text: string, labels: Option<string>)

  /** A row of `labels`; `description` stands for the column server/models.py adds, which models.py and app/models.py lack (always None there). */
  datatype LabelRow = LabelRow(id: int, name: string, description: Option<string>)

  /** The two copies of the service layer: services.py and app/services.py. */
  datatype Variant = Root | App

  /** Ids strictly ascending and below `nextId`; texts pairwise distinct. */
  predicate TextsOk(rows: seq<TextRow>, nextId: int)
  {
    (forall i, j :: 0 <= i < j < |rows| ==> rows[i].id < rows[j].id && rows[i].text != rows[j].text)
    && (forall i :: 0 <= i < |rows| ==> rows[i].id < nextId)
  }

  /** The largest id of `annotation_data`, if any. */
  function MaxTextId(rows: seq<TextRow>): (r: Option<int>)
    ensures r.None? <==> rows == []
    ensures r.Some? ==> (forall k :: 0 <= k < |rows| ==> rows[k].id <= r.value) && exists k :: 0 <= k < |rows| && rows[k].id == r.value
  {
    if rows == [] then None
    else match MaxTextId(rows[1..])
      case None => Some(rows[0].id)
      case Some(m) => Some(if rows[0].id > m then rows[0].id else m)
  }

  /** SQLite's rowid rule for a new `annotation_data` row: one more than the largest id, 1 for an empty table. */
  function NextTextId(rows: seq<TextRow>): (r: int)
    ensures rows == [] ==> r == 1
    ensures forall k :: 0 <= k < |rows| ==> rows[k].id < r
    ensures rows != [] ==> exists k :: 0 <= k < |rows| && rows[k].id == r - 1
  {
    match MaxTextId(rows)
    case None => 1
    case Some(m) => m + 1
  }

  /** On a table in id order the next id follows the last row's, and ids that are in order stay below it. */
  lemma NextTextIdOfOrdered(rows: seq<TextRow>, nextId: int)
    requires TextsOk(rows, nextId)
    ensures TextsOk(rows, NextTextId(rows))
    ensures rows != [] ==> NextTextId(rows) == rows[|rows| - 1].id + 1
  {
    if rows != [] {
      var k :| 0 <= k < |rows| && rows[k].id == NextTextId(rows) - 1;
      assert k == |rows| - 1 || rows[k].id < rows[|rows| - 1].id;
    }
  }

  /** Deleting a row keeps ids ascending and texts distinct; the next id is recomputed from what is left. */
  lemma RemoveKeepsTexts(rows: seq<TextRow>, nextId: int, k: nat)
    requires TextsOk(rows, nextId) && k < |rows|
    ensures TextsOk(RemoveAt(rows, k), NextTextId(RemoveAt(rows, k)))
  {
    var r := RemoveAt(rows, k);
    forall i, j | 0 <= i < j < |r| ensures r[i].id < r[j].id && r[i].text != r[j].text {
      var i' := if i < k then i else i + 1;
      var j' := if j < k then j else j + 1;
      assert r[i] == rows[i'] && r[j] == rows[j'];
    }
  }

  /** Rewriting a row's labels keeps ids ascending and texts distinct. */
  lemma ReplaceKeepsTexts(rows: seq<TextRow>, nextId: int, k: nat, row: TextRow)
    requires TextsOk(rows, nextId) && k < |rows| && row.id == rows[k].id && row.text == rows[k].text
    ensures TextsOk(rows[k := row], NextTextId(rows[k := row]))
  {
  }

  /**
   * Deleting the row with the largest id hands that id to the next new row when
   * the row below it is one id lower, or the table becomes empty and the next id is 1:
   * ids are reused, which a counter that only grows would not do.
   */
  lemma {:induction false} LastIdReused(rows: seq<TextRow>, nextId: int)
    requires TextsOk(rows, nextId) && rows != []
    ensures |rows| >= 2 ==> NextTextId(rows[..|rows| - 1]) <= rows[|rows| - 1].id
    ensures |rows| == 1 ==> NextTextId(rows[..0]) == 1
    ensures |rows| >= 2 && rows[|rows| - 2].id == rows[|rows| - 1].id - 1 ==>
      NextTextId(rows[..|rows| - 1]) == rows[|rows| - 1].id
  {
    var init := rows[..|rows| - 1];
    assert TextsOk(init, nextId) by {
      forall i, j | 0 <= i < j < |init| ensures init[i].id < init[j].id && init[i].text != init[j].text {
        assert init[i] == rows[i] && init[j] == rows[j];
      }
    }
    NextTextIdOfOrdered(init, nextId);
    if init != [] {
      assert init[|init| - 1] == rows[|rows| - 2];
    }
  }

  /** Ids strictly ascending; label strings pairwise distinct. */
  predicate LabelsOk(ls: seq<LabelRow>)
  {
    forall i, j :: 0 <= i < j < |ls| ==> ls[i].id < ls[j].id && ls[i].name != ls[j].name
  }

  /** The index of the first element satisfying `p` (what `.filter(...).first()` finds). */
  function Find<T>(xs: seq<T>, p: T -> bool): (r: Option<nat>)
    ensures r.Some? ==> r.value < |xs| && p(xs[r.value]) && forall k :: 0 <= k < r.value ==> !p(xs[k])
    ensures r.None? ==> forall k :: 0 <= k < |xs| ==> !p(xs[k])
  {
    if xs == [] then None
    else if p(xs[0]) then Some(0)
    else match Find(xs[1..], p)
      case None => None
      case Some(k) => Some(k + 1)
  }

  function WithText(rows: seq<TextRow>, t: string): Option<nat>
  {
    Find(rows, (row: TextRow) => row.text == t)
  }

  function WithId(rows: seq<TextRow>, id: int): Option<nat>
  {
    Find(rows, (row: TextRow) => row.id == id)
  }

  function WithLabel(ls: seq<LabelRow>, name: string): Option<nat>
  {
    Find(ls, (l: LabelRow) => l.name == name)
  }

  function WithLabelId(ls: seq<LabelRow>, id: int): Option<nat>
  {
    Find(ls, (l: LabelRow) => l.id == id)
  }

  /** `xs` without its element at index `k`. */
  function RemoveAt<T>(xs: seq<T>, k: nat): (r: seq<T>)
    requires k < |xs|
    ensures |r| == |xs| - 1
    ensures forall i :: 0 <= i < k ==> r[i] == xs[i]
    ensures forall i :: k <= i < |r| ==> r[i] == xs[i + 1]
  {
    xs[..k] + xs[k + 1..]
  }

  // ---------------------------------------------------------------- messages

  function DuplicateTextMessage(v: Variant, id: int): string
  {
    (if v == Root then "Text already exists with ID: " else "文本已存在，ID: ") + IntToString(id)
  }

  function DuplicateLabelMessage(v: Variant, id: int): string
  {
    (if v == Root then "Label already exists with ID: " else "标签已存在，ID: ") + IntToString(id)
  }

  function TakenIdMessage(v: Variant, id: int): string
  {
    if v == Root then "Label ID " + IntToString(id) + " already exists"
    else "标签 ID " + IntToString(id) + " 已存在"
  }

  /** What `import_texts` stores as the labels of an imported text: NULL, or `''` in app/services.py. */
  function ImportedLabels(v: Variant): Option<string>
  {
    if v == Root then None else Some("")
  }

  // ------------------------------------------------------------------ search

  /** SQL `LIKE '%pat%'` as SQLite evaluates it: case-insensitive for A to Z only. */
  predicate Like(s: string, pat: string)
  {
    Contains(LowerAscii(s), LowerAscii(pat))
  }

  /** Python truthiness of an optional string. */
  predicate Truthy(o: Option<string>)
  {
    o.Some? && o.value != []
  }

  /** A text counts as labelled when its labels are neither NULL nor `''`. */
  predicate Labeled(row: TextRow)
  {
    Truthy(row.labels)
  }

  /** The OR of `labels LIKE '%p%'` over the stripped comma pieces `p` of the filter; NULL labels match nothing. */
  predicate LabelFilter(row: TextRow, filter: string)
  {
    row.labels.Some? && exists p :: p in StripAll(Split(filter, ','), PySpace) && Like(row.labels.value, p)
  }

  /** Every active filter of `search_annotations` holds for `row`. */
  predicate Matches(row: TextRow, req: Schemas.SearchRequest)
  {
    (!Truthy(req.query) || Like(row.text, req.query.value))
    && (!Truthy(req.labels) || LabelFilter(row, req.labels.value))
    && (!req.unlabeledOnly || !Labeled(row))
  }

  /** The rows a search selects, in table order. */
  function Matching(rows: seq<TextRow>, req: Schemas.SearchRequest): (r: seq<TextRow>)
    ensures |r| <= |rows|
  {
    if rows == [] then []
    else
      var last := rows[|rows| - 1];
      Matching(rows[..|rows| - 1], req) + (if Matches(last, req) then [last] else [])
  }

  /** A search selects exactly the rows every active filter accepts. */
  lemma {:induction false} MatchingMembers(rows: seq<TextRow>, req: Schemas.SearchRequest)
    ensures forall x :: x in Matching(rows, req) <==> x in rows && Matches(x, req)
  {
    if rows != [] {
      var init := rows[..|rows| - 1];
      MatchingMembers(init, req);
      assert rows == init + [rows[|rows| - 1]];
    }
  }

  /** The number of matches skipped before a page: `(page - 1) * per_page`. */
  function Offset(req: Schemas.SearchRequest): (r: int)
    requires Schemas.SearchBoundsOk(req)
    ensures r >= 0
  {
    (req.page - 1) * req.perPage
  }

  /** The `AnnotationDataList` a search returns. */
  datatype AnnotationList = AnnotationList(items: seq<TextRow>, total: nat, page: int, perPage: int)

  /**
   * `search_annotations`: `total` counts every match, and `items` is the page of at most
   * `per_page` matches starting at offset `(page - 1) * per_page`.
   */
  function Search(rows: seq<TextRow>, req: Schemas.SearchRequest): (r: AnnotationList)
    requires Schemas.SearchBoundsOk(req)
    ensures r.total == |Matching(rows, req)| && r.page == req.page && r.perPage == req.perPage
    ensures |r.items| <= req.perPage
    ensures forall x :: x in r.items ==> x in rows && Matches(x, req)
    ensures r.items == [] <==> Offset(req) >= r.total
    ensures forall k :: 0 <= k < |r.items| ==>
      Offset(req) + k < r.total && r.items[k] == Matching(rows, req)[Offset(req) + k]
  {
    var all := Matching(rows, req);
    MatchingMembers(rows, req);
    var offset := Offset(req);
    var from := if offset < |all| then offset else |all|;
    var to := if from + req.perPage < |all| then from + req.perPage else |all|;
    AnnotationList(all[from..to], |all|, req.page, req.perPage)
  }

  /** Two consecutive pages are two consecutive slices of the matches: paging skips and repeats nothing. */
  lemma SearchPagesConsecutive(rows: seq<TextRow>, req: Schemas.SearchRequest)
    requires Schemas.SearchBoundsOk(req)
    ensures var all := Matching(rows, req);
      var from := Offset(req);
      var to := from + 2 * req.perPage;
      from < |all| ==>
        Search(rows, req).items + Search(rows, req.(page := req.page + 1)).items
        == all[from..if to < |all| then to else |all|]
  {
    var next := req.(page := req.page + 1);
    MatchingIgnoresPage(rows, req, next);
    NextOffset(req);
  }

  lemma NextOffset(req: Schemas.SearchRequest)
    requires Schemas.SearchBoundsOk(req)
    ensures Offset(req.(page := req.page + 1)) == Offset(req) + req.perPage
  {
    assert req.page * req.perPage == (req.page - 1) * req.perPage + req.perPage;
  }

  lemma {:induction false} MatchingIgnoresPage(rows: seq<TextRow>, a: Schemas.SearchRequest, b: Schemas.SearchRequest)
    requires a.query == b.query && a.labels == b.labels && a.unlabeledOnly == b.unlabeledOnly
    ensures Matching(rows, a) == Matching(rows, b)
  {
    if rows != [] {
      MatchingIgnoresPage(rows[..|rows| - 1], a, b);
    }
  }

  /**
   * The label filter tests substrings, not whole labels: filtering on `positive`
   * selects a text labelled `not_positive`, and the match ignores ASCII case.
   */
  lemma LabelFilterIsSubstring(row: TextRow, filter: string)
    requires row.labels == Some("not_Positive") && filter == "positive"
    ensures LabelFilter(row, filter)
  {
    assert StripAll(Split(filter, ','), PySpace) == [filter] by {
      SinglePiece(filter);
    }
    assert Like(row.labels.value, filter) by {
      LowerExample(row.labels.value, filter);
    }
  }

  lemma SinglePiece(filter: string)
    requires filter == "positive"
    ensures StripAll(Split(filter, ','), PySpace) == [filter]
  {
    SplitNoSep(filter, ',');
    assert !PySpace(filter[0]) && !PySpace(filter[|filter| - 1]);
    StripStripped(filter, PySpace);
  }

  lemma LowerExample(labels: string, filter: string)
    requires labels == "not_Positive" && filter == "positive"
    ensures Like(labels, filter)
  {
    var a := LowerAscii(labels);
    var b := LowerAscii(filter);
    assert b == filter;
    assert a[4..12] == filter;
    assert InfixAt(a, b, 4);
  }

  // -------------------------------------------------------------- bulk label

  /** The rows after `bulk_label`: every row whose id is listed carries the new labels. */
  function Relabel(rows: seq<TextRow>, ids: seq<int>, labels: string): (r: seq<TextRow>)
    ensures |r| == |rows|
    ensures forall k :: 0 <= k < |rows| ==> r[k].id == rows[k].id && r[k].text == rows[k].text
    ensures forall k :: 0 <= k < |rows| && rows[k].id in ids ==> r[k].labels == Some(labels)
    ensures forall k :: 0 <= k < |rows| && rows[k].id !in ids ==> r[k] == rows[k]
  {
    seq(|rows|, k requires 0 <= k < |rows| =>
      if rows[k].id in ids then rows[k].(labels := Some(labels)) else rows[k])
  }

  /** How many entries of `ids` name an existing row; an id listed twice counts twice. */
  function Listed(rows: seq<TextRow>, ids: seq<int>): (r: nat)
    ensures r <= |ids|
  {
    if ids == [] then 0
    else Listed(rows, ids[..|ids| - 1]) + (if WithId(rows, ids[|ids| - 1]).Some? then 1 else 0)
  }

  /** Relabelling keeps ids and texts, so it keeps the table's invariant, and it can be repeated harmlessly. */
  lemma RelabelKeepsTable(rows: seq<TextRow>, nextId: int, ids: seq<int>, labels: string)
    requires TextsOk(rows, nextId)
    ensures TextsOk(Relabel(rows, ids, labels), nextId)
    ensures Relabel(Relabel(rows, ids, labels), ids, labels) == Relabel(rows, ids, labels)
    ensures forall k :: 0 <= k < |rows| && rows[k].id !in ids ==> Relabel(rows, ids, labels)[k] == rows[k]
  {
  }

  /** An existing id listed twice is counted twice, although its row is written once. */
  lemma ListedCountsRepeats(rows: seq<TextRow>, id: int)
    requires WithId(rows, id).Some?
    ensures Listed(rows, [id, id]) == 2
    ensures Relabel(rows, [id, id], "x") == Relabel(rows, [id], "x")
  {
    assert [id, id][..1] == [id];
    assert [id][..0] == [];
  }

  // ------------------------------------------------------------------ import

  /** Each line of a batch with surrounding whitespace removed (`line.strip()`). */
  function StripLines(lines: seq<string>): (r: seq<string>)
    ensures |r| == |lines|
  {
    seq(|lines|, i requires 0 <= i < |lines| => PyStrip(lines[i]))
  }

  /** The texts among `ts` that are non-empty and not in `rows`, in order. */
  function Unstored(rows: seq<TextRow>, ts: seq<string>): (r: seq<string>)
    ensures |r| <= |ts|
  {
    if ts == [] then []
    else
      var t := ts[|ts| - 1];
      Unstored(rows, ts[..|ts| - 1]) + (if t != [] && WithText(rows, t).None? then [t] else [])
  }

  /**
   * The texts an import adds, in order. The existence query sees only `rows`:
   * the rows added earlier in the same batch are pending and not flushed.
   */
  function NewTexts(rows: seq<TextRow>, lines: seq<string>): (r: seq<string>)
    ensures |r| <= |lines|
  {
    Unstored(rows, StripLines(lines))
  }

  lemma UnstoredStep(rows: seq<TextRow>, ts: seq<string>, i: nat)
    requires i < |ts|
    ensures Unstored(rows, ts[..i + 1])
      == Unstored(rows, ts[..i]) + (if ts[i] != [] && WithText(rows, ts[i]).None? then [ts[i]] else [])
  {
    assert ts[..i + 1][..i] == ts[..i];
  }

  lemma {:induction false} UnstoredSound(rows: seq<TextRow>, ts: seq<string>, x: string)
    requires x in Unstored(rows, ts)
    ensures x != [] && WithText(rows, x).None? && x in ts
  {
    var init := ts[..|ts| - 1];
    if x in Unstored(rows, init) {
      UnstoredSound(rows, init, x);
    }
  }

  lemma {:induction false} UnstoredComplete(rows: seq<TextRow>, ts: seq<string>, i: nat)
    requires i < |ts| && ts[i] != [] && WithText(rows, ts[i]).None?
    ensures ts[i] in Unstored(rows, ts)
  {
    var init := ts[..|ts| - 1];
    if i < |init| {
      UnstoredComplete(rows, init, i);
    }
  }

  /** Everything an import adds is a stripped, non-empty line of the batch that was not stored. */
  lemma NewTextsSound(rows: seq<TextRow>, lines: seq<string>, x: string)
    requires x in NewTexts(rows, lines)
    ensures x != [] && WithText(rows, x).None?
    ensures exists i :: 0 <= i < |lines| && PyStrip(lines[i]) == x
  {
    UnstoredSound(rows, StripLines(lines), x);
    var i :| 0 <= i < |lines| && StripLines(lines)[i] == x;
  }

  /** Every stripped, non-empty line of the batch that was not stored is added. */
  lemma NewTextsComplete(rows: seq<TextRow>, lines: seq<string>, i: nat)
    requires i < |lines| && PyStrip(lines[i]) != [] && WithText(rows, PyStrip(lines[i])).None?
    ensures PyStrip(lines[i]) in NewTexts(rows, lines)
  {
    UnstoredComplete(rows, StripLines(lines), i);
  }

  /** The stripped non-empty lines of a batch are pairwise distinct. */
  predicate DistinctBatch(lines: seq<string>)
  {
    forall i, j :: 0 <= i < j < |lines| && PyStrip(lines[i]) != [] ==> PyStrip(lines[i]) != PyStrip(lines[j])
  }

  /** `rows` followed by one new row per text, with consecutive ids from `nextId`. */
  function Appended(rows: seq<TextRow>, texts: seq<string>, nextId: int, labels: Option<string>): (r: seq<TextRow>)
    ensures |r| == |rows| + |texts|
    ensures r[..|rows|] == rows
    ensures forall k :: 0 <= k < |texts| ==> r[|rows| + k] == TextRow(nextId + k, texts[k], labels)
  {
    rows + Numbered(texts, nextId, labels)
  }

  /** New rows for `texts`, numbered consecutively from `nextId`. */
  function Numbered(texts: seq<string>, nextId: int, labels: Option<string>): seq<TextRow>
  {
    seq(|texts|, k requires 0 <= k < |texts| => TextRow(nextId + k, texts[k], labels))
  }

  lemma NumberedPointwise(rows: seq<TextRow>, texts: seq<string>, nextId: int, labels: Option<string>)
    requires |rows| == |texts|
    requires forall k :: 0 <= k < |rows| ==> rows[k] == TextRow(nextId + k, texts[k], labels)
    ensures rows == Numbered(texts, nextId, labels)
  {
  }

  /** Non-empty texts that are pairwise distinct. */
  predicate DistinctTexts(ts: seq<string>)
  {
    forall i, j :: 0 <= i < j < |ts| && ts[i] != [] ==> ts[i] != ts[j]
  }

  lemma {:induction false} UnstoredNoDup(rows: seq<TextRow>, ts: seq<string>)
    requires DistinctTexts(ts)
    ensures NoDup(Unstored(rows, ts))
  {
    if ts != [] {
      var init := ts[..|ts| - 1];
      var last := ts[|ts| - 1];
      assert DistinctTexts(init);
      UnstoredNoDup(rows, init);
      var a := Unstored(rows, init);
      if last != [] && WithText(rows, last).None? {
        forall x | x in a ensures x != last {
          UnstoredSound(rows, init, x);
        }
        NoDupSnoc(a, last);
      } else {
        assert Unstored(rows, ts) == a + [];
      }
    }
  }

  /** A batch that repeats no line never breaks the unique constraint. */
  lemma NewTextsNoDup(rows: seq<TextRow>, lines: seq<string>)
    requires DistinctBatch(lines)
    ensures NoDup(NewTexts(rows, lines))
  {
    UnstoredNoDup(rows, StripLines(lines));
  }

  lemma {:induction false} UnstoredRepeat(rows: seq<TextRow>, ts: seq<string>, i: nat, j: nat)
    requires i < j < |ts| && ts[i] == ts[j] && ts[i] != [] && WithText(rows, ts[i]).None?
    ensures !NoDup(Unstored(rows, ts))
  {
    var init := ts[..|ts| - 1];
    var a := Unstored(rows, init);
    if j < |ts| - 1 {
      UnstoredRepeat(rows, init, i, j);
      var p, q :| 0 <= p < q < |a| && a[p] == a[q];
      assert Unstored(rows, ts)[p] == Unstored(rows, ts)[q];
    } else {
      UnstoredComplete(rows, init, i);
      var p :| 0 <= p < |a| && a[p] == ts[j];
      assert Unstored(rows, ts)[p] == Unstored(rows, ts)[|a|];
    }
  }

  /** A batch that repeats a text not stored yet adds it twice, which the unique constraint refuses. */
  lemma NewTextsRepeat(rows: seq<TextRow>, lines: seq<string>, i: nat, j: nat)
    requires i < j < |lines| && PyStrip(lines[i]) == PyStrip(lines[j])
    requires PyStrip(lines[i]) != [] && WithText(rows, PyStrip(lines[i])).None?
    ensures !NoDup(NewTexts(rows, lines))
  {
    UnstoredRepeat(rows, StripLines(lines), i, j);
  }

  lemma NoDupSnoc<T>(a: seq<T>, x: T)
    requires NoDup(a) && x !in a
    ensures NoDup(a + [x])
  {
  }

  /** An import whose new texts are distinct keeps the table's invariant. */
  lemma ImportKeepsTable(rows: seq<TextRow>, nextId: int, lines: seq<string>, labels: Option<string>)
    requires TextsOk(rows, nextId)
    requires NoDup(NewTexts(rows, lines))
    ensures var added := NewTexts(rows, lines);
      TextsOk(Appended(rows, added, nextId, labels), nextId + |added|)
  {
    var added := NewTexts(rows, lines);
    var r := Appended(rows, added, nextId, labels);
    forall i, j | 0 <= i < j < |r| ensures r[i].id < r[j].id && r[i].text != r[j].text {
      if j >= |rows| && i < |rows| {
        assert r[j].text in added;
        NewTextsSound(rows, lines, r[j].text);
        assert WithText(rows, r[j].text).None?;
      }
    }
  }

  /** After an import, every stripped non-empty line of the batch is stored. */
  lemma ImportCovers(rows: seq<TextRow>, nextId: int, lines: seq<string>, labels: Option<string>)
    ensures forall i :: 0 <= i < |lines| && PyStrip(lines[i]) != [] ==>
      WithText(Appended(rows, NewTexts(rows, lines), nextId, labels), PyStrip(lines[i])).Some?
  {
    var added := NewTexts(rows, lines);
    var r := Appended(rows, added, nextId, labels);
    forall i | 0 <= i < |lines| && PyStrip(lines[i]) != []
      ensures WithText(r, PyStrip(lines[i])).Some?
    {
      var t := PyStrip(lines[i]);
      if WithText(rows, t).Some? {
        var k := WithText(rows, t).value;
        assert r[k].text == t;
      } else {
        NewTextsComplete(rows, lines, i);
        var k :| 0 <= k < |added| && added[k] == t;
        assert r[|rows| + k].text == t;
      }
    }
  }

  /** The rows either copy of `import_texts` adds are unlabelled, so both copies leave the same labelled set. */
  lemma ImportedAreUnlabeled(v: Variant, rows: seq<TextRow>, texts: seq<string>, nextId: int)
    ensures forall k :: |rows| <= k < |rows| + |texts| ==> !Labeled(Appended(rows, texts, nextId, ImportedLabels(v))[k])
    ensures LabeledCount(Appended(rows, texts, nextId, ImportedLabels(v))) == LabeledCount(rows)
  {
    var r := Appended(rows, texts, nextId, ImportedLabels(v));
    var tail := Numbered(texts, nextId, ImportedLabels(v));
    assert r == rows + tail;
    LabeledCountConcat(rows, tail);
    NoneLabeled(tail);
  }

  lemma {:induction false} NoneLabeled(rows: seq<TextRow>)
    requires forall k :: 0 <= k < |rows| ==> !Labeled(rows[k])
    ensures LabeledCount(rows) == 0
  {
    if rows != [] {
      NoneLabeled(rows[..|rows| - 1]);
    }
  }

  lemma {:induction false} LabeledCountConcat(a: seq<TextRow>, b: seq<TextRow>)
    ensures LabeledCount(a + b) == LabeledCount(a) + LabeledCount(b)
  {
    if b != [] {
      LabeledCountConcat(a, b[..|b| - 1]);
      assert (a + b)[..|a + b| - 1] == a + b[..|b| - 1];
    } else {
      assert a + b == a;
    }
  }

  // ------------------------------------------------------------------ labels

  /** The largest label id, if any (`func.max(Label.id)`). */
  function MaxLabelId(ls: seq<LabelRow>): (r: Option<int>)
    ensures r.None? <==> ls == []
    ensures r.Some? ==> (forall k :: 0 <= k < |ls| ==> ls[k].id <= r.value) && exists k :: 0 <= k < |ls| && ls[k].id == r.value
  {
    if ls == [] then None
    else match MaxLabelId(ls[1..])
      case None => Some(ls[0].id)
      case Some(m) => Some(if ls[0].id > m then ls[0].id else m)
  }

  /**
   * The id a new label gets when none is given: `(max or 0) + 1` in services.py, and
   * SQLite's rowid rule (one more than the largest, 1 for an empty table) in app/services.py.
   */
  function NextLabelId(ls: seq<LabelRow>): (r: int)
    ensures ls == [] ==> r == 1
    ensures forall k :: 0 <= k < |ls| ==> ls[k].id < r
    ensures ls != [] ==> exists k :: 0 <= k < |ls| && ls[k].id == r - 1
  {
    match MaxLabelId(ls)
    case None => 1
    case Some(m) => m + 1
  }

  /** `ls` with `row` placed by id. */
  function InsertById(ls: seq<LabelRow>, row: LabelRow): (r: seq<LabelRow>)
    ensures |r| == |ls| + 1
    ensures multiset(r) == multiset(ls) + multiset{row}
  {
    if ls == [] || row.id < ls[0].id then [row] + ls
    else
      assert ls == [ls[0]] + ls[1..];
      [ls[0]] + InsertById(ls[1..], row)
  }

  /** A label whose id and name are both new can be added without breaking the table's invariant. */
  lemma {:induction false} InsertByIdKeepsTable(ls: seq<LabelRow>, row: LabelRow)
    requires LabelsOk(ls)
    requires WithLabelId(ls, row.id).None? && WithLabel(ls, row.name).None?
    ensures LabelsOk(InsertById(ls, row))
  {
    if ls != [] && row.id >= ls[0].id {
      var t := ls[1..];
      assert LabelsOk(t) by {
        forall i, j | 0 <= i < j < |t| ensures t[i].id < t[j].id && t[i].name != t[j].name {
          assert t[i] == ls[i + 1] && t[j] == ls[j + 1];
        }
      }
      assert ls[0].id != row.id && ls[0].name != row.name;
      InsertByIdKeepsTable(t, row);
      var rt := InsertById(t, row);
      var r := InsertById(ls, row);
      assert r == [ls[0]] + rt;
      forall i, j | 0 <= i < j < |r| ensures r[i].id < r[j].id && r[i].name != r[j].name {
        assert r[j] == rt[j - 1];
        if i == 0 {
          InsertByIdFrom(t, row, rt[j - 1]);
          if rt[j - 1] != row {
            var q :| 0 <= q < |t| && t[q] == rt[j - 1];
            assert t[q] == ls[q + 1];
          }
        } else {
          assert r[i] == rt[i - 1];
        }
      }
    }
  }

  /** Every row of the inserted table is the new row or an old one. */
  lemma {:induction false} InsertByIdFrom(ls: seq<LabelRow>, row: LabelRow, y: LabelRow)
    requires y in InsertById(ls, row)
    ensures y == row || y in ls
  {
    if ls != [] && row.id >= ls[0].id && y != ls[0] {
      assert y in InsertById(ls[1..], row);
      InsertByIdFrom(ls[1..], row, y);
    }
  }

  // -------------------------------------------------------------- statistics

  /** One entry of the label statistics. */
  datatype LabelStat = LabelStat(name: string, count: int)

  function CountOf(s: LabelStat): int
  {
    s.count
  }

  /** How many texts are labelled. */
  function LabeledCount(rows: seq<TextRow>): (r: nat)
    ensures r <= |rows|
  {
    if rows == [] then 0
    else LabeledCount(rows[..|rows| - 1]) + (if Labeled(rows[|rows| - 1]) then 1 else 0)
  }

  /** Every label piece of every labelled text, in table order (the pieces `_get_label_statistics` counts). */
  function StatPieces(rows: seq<TextRow>): (r: seq<string>)
    ensures forall x :: x in r ==> x != []
  {
    if rows == [] then []
    else
      var last := rows[|rows| - 1];
      StatPieces(rows[..|rows| - 1]) + (if Labeled(last) then Schemas.Pieces(last.labels.value) else [])
  }

  lemma StatPiecesStep(rows: seq<TextRow>, i: nat)
    requires i < |rows|
    ensures StatPieces(rows[..i + 1])
      == StatPieces(rows[..i]) + (if Labeled(rows[i]) then Schemas.Pieces(rows[i].labels.value) else [])
  {
    assert rows[..i + 1][..i] == rows[..i];
  }

  /** The counts dictionary after counting `ps` in order: `counts[x] = counts.get(x, 0) + 1` per piece. */
  function CountMap(ps: seq<string>): map<string, nat>
  {
    if ps == [] then map[]
    else
      var m := CountMap(ps[..|ps| - 1]);
      var x := ps[|ps| - 1];
      m[x := (if x in m then m[x] else 0) + 1]
  }

  /** The dictionary holds every piece seen, with the number of its occurrences. */
  lemma {:induction false} CountMapCounts(ps: seq<string>)
    ensures forall l :: l in CountMap(ps) <==> l in ps
    ensures forall l :: l in ps ==> CountMap(ps)[l] == multiset(ps)[l]
  {
    if ps != [] {
      var init := ps[..|ps| - 1];
      var x := ps[|ps| - 1];
      CountMapCounts(init);
      assert ps == init + [x];
      assert multiset(ps) == multiset(init) + multiset{x};
    }
  }

  /** Counting one more piece: the dictionary entry goes up by one, and a new key is appended to the key order. */
  lemma CountStep(ps: seq<string>, x: string)
    ensures CountMap(ps + [x]) == CountMap(ps)[x := (if x in CountMap(ps) then CountMap(ps)[x] else 0) + 1]
    ensures Dedupe(ps + [x]) == if x in CountMap(ps) then Dedupe(ps) else Dedupe(ps) + [x]
  {
    assert (ps + [x])[..|ps|] == ps;
    CountMapCounts(ps);
    DedupeSnoc(ps, x);
  }

  /** The counts dictionary as its items come out: first-seen order, one entry per distinct piece. */
  function Tally(ps: seq<string>): (r: seq<LabelStat>)
    ensures |r| == |Dedupe(ps)|
    ensures forall k :: 0 <= k < |r| ==> r[k].name in ps && r[k].count == multiset(ps)[r[k].name] >= 1
    ensures forall l :: l in ps ==> exists k :: 0 <= k < |r| && r[k].name == l
    ensures forall i, j :: 0 <= i < j < |r| ==> r[i].name != r[j].name
  {
    var d := Dedupe(ps);
    var r := seq(|d|, k requires 0 <= k < |d| => LabelStat(d[k], multiset(ps)[d[k]]));
    TallyFacts(ps, d, r);
    r
  }

  /** What the entries built from the first-seen order of the pieces hold. */
  lemma TallyFacts(ps: seq<string>, d: seq<string>, r: seq<LabelStat>)
    requires d == Dedupe(ps) && |r| == |d|
    requires forall k :: 0 <= k < |d| ==> r[k] == LabelStat(d[k], multiset(ps)[d[k]])
    ensures forall k :: 0 <= k < |r| ==> r[k].name in ps && r[k].count == multiset(ps)[r[k].name] >= 1
    ensures forall l :: l in ps ==> exists k :: 0 <= k < |r| && r[k].name == l
    ensures forall i, j :: 0 <= i < j < |r| ==> r[i].name != r[j].name
  {
    forall k | 0 <= k < |r| ensures r[k].name in ps && r[k].count == multiset(ps)[r[k].name] >= 1 {
      assert d[k] in d;
    }
    forall l | l in ps ensures exists k :: 0 <= k < |r| && r[k].name == l {
      assert l in d;
      var k :| 0 <= k < |d| && d[k] == l;
      assert r[k].name == l;
    }
  }

  /** `_get_label_statistics` / `label_statistics`: the tally sorted by count, largest first, stably. */
  function LabelStatistics(rows: seq<TextRow>): seq<LabelStat>
  {
    SortDesc(Tally(StatPieces(rows)), CountOf)
  }

  /**
   * The statistics list every non-empty stripped label piece exactly once, with the number
   * of its occurrences over all labelled texts, counts descending, ties in first-seen order.
   */
  lemma LabelStatisticsFacts(rows: seq<TextRow>)
    ensures var r := LabelStatistics(rows); var ps := StatPieces(rows);
      SortedDesc(r, CountOf)
      && (forall s :: s in r <==> s in Tally(ps))
      && (forall c :: WithKey(r, CountOf, c) == WithKey(Tally(ps), CountOf, c))
      && (forall k :: 0 <= k < |r| ==> r[k].count == multiset(ps)[r[k].name] >= 1)
      && (forall l :: l in ps <==> exists k :: 0 <= k < |r| && r[k].name == l)
  {
    var ps := StatPieces(rows);
    SortedTally(ps, Tally(ps), LabelStatistics(rows));
  }

  /** Sorting a tally of `ps` by count keeps its entries, their order within each count, and what they count. */
  lemma SortedTally(ps: seq<string>, t: seq<LabelStat>, r: seq<LabelStat>)
    requires forall k :: 0 <= k < |t| ==> t[k].name in ps && t[k].count == multiset(ps)[t[k].name] >= 1
    requires forall l :: l in ps ==> exists k :: 0 <= k < |t| && t[k].name == l
    requires r == SortDesc(t, CountOf)
    ensures SortedDesc(r, CountOf)
    ensures forall s :: s in r <==> s in t
    ensures forall c :: WithKey(r, CountOf, c) == WithKey(t, CountOf, c)
    ensures forall k :: 0 <= k < |r| ==> r[k].count == multiset(ps)[r[k].name] >= 1
    ensures forall l :: l in ps <==> exists k :: 0 <= k < |r| && r[k].name == l
  {
    SortDescPermutes(t, CountOf);
    assert forall s :: s in r <==> s in t by {
      assert forall s :: s in r <==> s in multiset(r);
      assert forall s :: s in t <==> s in multiset(t);
    }
    forall c ensures WithKey(r, CountOf, c) == WithKey(t, CountOf, c) {
      SortDescStable(t, CountOf, c);
    }
    forall l | l in ps ensures exists k :: 0 <= k < |r| && r[k].name == l {
      var j :| 0 <= j < |t| && t[j].name == l;
      assert t[j] in r;
    }
    forall k | 0 <= k < |r| ensures r[k].count == multiset(ps)[r[k].name] >= 1 && r[k].name in ps {
      assert r[k] in t;
    }
  }

  /** Labelled and unlabelled texts add up, and the unlabelled ones are exactly what an `unlabeled_only` search finds. */
  lemma {:induction false} UnlabeledCount(rows: seq<TextRow>, req: Schemas.SearchRequest)
    requires req.query == None && req.labels == None && req.unlabeledOnly
    ensures |Matching(rows, req)| == |rows| - LabeledCount(rows)
  {
    if rows != [] {
      var init := rows[..|rows| - 1];
      UnlabeledCount(init, req);
      MatchingSnoc(init, rows[|rows| - 1], req);
      assert init + [rows[|rows| - 1]] == rows;
    }
  }

  lemma MatchingSnoc(rows: seq<TextRow>, x: TextRow, req: Schemas.SearchRequest)
    ensures Matching(rows + [x], req) == Matching(rows, req) + (if Matches(x, req) then [x] else [])
  {
    assert (rows + [x])[..|rows|] == rows;
  }
}
