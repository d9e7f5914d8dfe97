/**
 * The service layer over the annotation database: `AnnotationService`,
 * `LabelService` and `StatisticsService` of services.py and of app/services.py.
 * The two copies differ in their error messages, in the labels `import_texts`
 * stores (NULL against `''`) and in how a label without an id gets one (an
 * explicit `max + 1` against SQLite's rowid rule, which gives the same id); a
 * `Variant` carried by each service selects the copy. Every service works
 * through the shared `Database`, whose fields are the two tables.
 */
module Services {
  import opened Wrappers
  import opened Strs
  import opened Sorting
  import opened Store
  import Schemas

  /**
   * The database behind a session: both tables. The id of a new text is not kept
   * anywhere; SQLite derives it from the table (`NextTextId`).
   */
  class Database {
    var texts: seq<TextRow>
    var labels: seq<LabelRow>

    predicate Valid()
      reads this
    {
      TextsOk(texts, NextTextId(texts)) && LabelsOk(labels)
    }

    constructor ()
      ensures texts == [] && labels == [] && NextTextId(texts) == 1
      ensures Valid()
    {
      texts := [];
      labels := [];
    }

    /**
     * Adds every stripped, non-empty line whose text is not stored yet, with the given
     * labels, and returns how many it added. New rows wait in the session until the
     * commit, and the existence query sees only the committed rows because the session
     * does not autoflush; a new text that the batch repeats is therefore added twice,
     * the unique constraint on `text` fails at commit, and nothing is stored (`None`).
     */
    method ImportLines(lines: seq<string>, newLabels: Option<string>) returns (r: Option<nat>)
      requires Valid()
      modifies this
      ensures Valid()
      ensures var added := NewTexts(old(texts), lines);
        if NoDup(added) then
          r == Some(|added|)
          && texts == Appended(old(texts), added, NextTextId(old(texts)), newLabels)
        else
          r.None? && texts == old(texts)
      ensures labels == old(labels)
    {
      var committed := texts;
      var start := NextTextId(committed);
      var pending, added := PendingRows(committed, start, StripLines(lines), newLabels);
      assert added == NewTexts(committed, lines);
      if !NoDup(added) {
        return None;
      }
      ImportStored(committed, lines, newLabels, pending);
      texts := committed + pending;
      r := Some(|added|);
    }

    /** The rows the import adds, put after the committed ones, are the committed table with the new texts appended. */
    static lemma ImportStored(committed: seq<TextRow>, lines: seq<string>, newLabels: Option<string>, pending: seq<TextRow>)
      requires TextsOk(committed, NextTextId(committed))
      requires NoDup(NewTexts(committed, lines))
      requires pending == Numbered(NewTexts(committed, lines), NextTextId(committed), newLabels)
      ensures committed + pending == Appended(committed, NewTexts(committed, lines), NextTextId(committed), newLabels)
      ensures TextsOk(committed + pending, NextTextId(committed + pending))
    {
      var start := NextTextId(committed);
      var added := NewTexts(committed, lines);
      ImportKeepsTable(committed, start, lines, newLabels);
      NextTextIdOfOrdered(committed + pending, start + |added|);
    }
  }

  /**
   * The loop of an import, over the stripped lines: the rows it adds to the session,
   * one per non-empty text that is not among the committed rows, with consecutive ids.
   */
  method PendingRows(committed: seq<TextRow>, start: int, texts: seq<string>, newLabels: Option<string>)
    returns (pending: seq<TextRow>, added: seq<string>)
    ensures added == Unstored(committed, texts) && pending == Numbered(added, start, newLabels)
  {
    pending := [];
    added := [];
    assert texts[..0] == [];
    var i := 0;
    while i < |texts|
      invariant 0 <= i <= |texts|
      invariant added == Unstored(committed, texts[..i])
      invariant |added| == |pending|
      invariant forall k :: 0 <= k < |pending| ==> pending[k] == TextRow(start + k, added[k], newLabels)
    {
      var text := texts[i];
      UnstoredStep(committed, texts, i);
      if text != [] && WithText(committed, text).None? {
        pending := pending + [TextRow(start + |added|, text, newLabels)];
        added := added + [text];
      }
      i := i + 1;
    }
    assert texts[..|texts|] == texts;
    NumberedPointwise(pending, added, start, newLabels);
  }

  /**
   * The counting loop of `_get_label_statistics`: `label_counts` as a map, and the
   * order in which its keys were first inserted (the order a Python dict keeps).
   */
  method CountLabels(rows: seq<TextRow>) returns (counts: map<string, nat>, order: seq<string>)
    ensures counts == CountMap(StatPieces(rows))
    ensures order == Dedupe(StatPieces(rows))
  {
    counts := map[];
    order := [];
    var i := 0;
    while i < |rows|
      invariant 0 <= i <= |rows|
      invariant counts == CountMap(StatPieces(rows[..i]))
      invariant order == Dedupe(StatPieces(rows[..i]))
    {
      StatPiecesStep(rows, i);
      counts, order := CountRow(counts, order, StatPieces(rows[..i]), rows[i]);
      i := i + 1;
    }
    assert rows[..|rows|] == rows;
  }

  /** One row of the counting loop: a labelled row adds its pieces, any other row nothing. */
  method CountRow(counts0: map<string, nat>, order0: seq<string>, ghost seen: seq<string>, row: TextRow)
    returns (counts: map<string, nat>, order: seq<string>)
    requires counts0 == CountMap(seen) && order0 == Dedupe(seen)
    ensures counts == CountMap(seen + (if Labeled(row) then Schemas.Pieces(row.labels.value) else []))
    ensures order == Dedupe(seen + (if Labeled(row) then Schemas.Pieces(row.labels.value) else []))
  {
    if Labeled(row) {
      var parts := StripAll(Split(row.labels.value, ','), PySpace);
      counts, order := CountPieces(counts0, order0, seen, parts);
    } else {
      counts, order := counts0, order0;
      assert seen + [] == seen;
    }
  }

  /** The inner loop: one more occurrence of every non-empty piece, in order. */
  method CountPieces(counts0: map<string, nat>, order0: seq<string>, ghost seen: seq<string>, parts: seq<string>)
    returns (counts: map<string, nat>, order: seq<string>)
    requires counts0 == CountMap(seen) && order0 == Dedupe(seen)
    ensures counts == CountMap(seen + NonEmpty(parts))
    ensures order == Dedupe(seen + NonEmpty(parts))
  {
    counts, order := counts0, order0;
    ghost var ps := seen;
    var k := 0;
    assert parts[..0] == [];
    assert seen + NonEmpty(parts[..0]) == seen;
    while k < |parts|
      invariant 0 <= k <= |parts|
      invariant ps == seen + NonEmpty(parts[..k])
      invariant counts == CountMap(ps) && order == Dedupe(ps)
    {
      NonEmptyStep(seen, parts, k);
      if parts[k] != [] {
        counts, order := CountOne(counts, order, ps, parts[k]);
        ps := ps + [parts[k]];
      } else {
        assert ps + [] == ps;
      }
      k := k + 1;
    }
    assert parts[..|parts|] == parts;
  }

  /** `counts[x] = counts.get(x, 0) + 1`, with a new key joining the key order at the end. */
  method CountOne(counts0: map<string, nat>, order0: seq<string>, ghost ps: seq<string>, x: string)
    returns (counts: map<string, nat>, order: seq<string>)
    requires counts0 == CountMap(ps) && order0 == Dedupe(ps)
    ensures counts == CountMap(ps + [x]) && order == Dedupe(ps + [x])
  {
    CountStep(ps, x);
    order := if x in counts0 then order0 else order0 + [x];
    counts := counts0[x := (if x in counts0 then counts0[x] else 0) + 1];
  }

  /** The fields of `SystemStats`. */
  datatype SystemStats = SystemStats(
    totalTexts: nat,
    labeledTexts: nat,
    unlabeledTexts: int,
    totalLabels: nat,
    labelStats: seq<LabelStat>)

  /** A search for the unlabelled texts only, with no other filter. */
  function UnlabeledOnly(): Schemas.SearchRequest
  {
    Schemas.SearchRequest(None, None, None, None, true, 1, 50)
  }

  class AnnotationService {
    const db: Database
    const variant: Variant

    constructor (db: Database, variant: Variant)
      ensures this.db == db && this.variant == variant
    {
      this.db := db;
      this.variant := variant;
    }

    /** Adds one text with its labels, unless the text is already stored. */
    method CreateAnnotation(text: string, labels: Option<string>) returns (r: Result<TextRow, string>)
      requires db.Valid()
      modifies db
      ensures db.Valid()
      ensures db.labels == old(db.labels)
      ensures match WithText(old(db.texts), text)
        case Some(k) =>
          r == Err(DuplicateTextMessage(variant, old(db.texts)[k].id))
          && db.texts == old(db.texts)
        case None =>
          r == Ok(TextRow(NextTextId(old(db.texts)), text, labels))
          && db.texts == old(db.texts) + [r.value]
    {
      var existing := WithText(db.texts, text);
      if existing.Some? {
        return Err(DuplicateTextMessage(variant, db.texts[existing.value].id));
      }
      var row := TextRow(NextTextId(db.texts), text, labels);
      db.texts := db.texts + [row];
      NextTextIdOfOrdered(db.texts, row.id + 1);
      r := Ok(row);
    }

    /** The text with the given id, if there is one. */
    function GetAnnotation(id: int): (r: Option<TextRow>)
      reads db
      ensures r.Some? <==> exists k :: 0 <= k < |db.texts| && db.texts[k].id == id
      ensures r.Some? ==> r.value in db.texts && r.value.id == id
    {
      match WithId(db.texts, id)
      case None => None
      case Some(k) => Some(db.texts[k])
    }

    /** Replaces the labels of one text when new labels are given; an unknown id changes nothing. */
    method UpdateAnnotation(id: int, labels: Option<string>) returns (r: Option<TextRow>)
      requires db.Valid()
      modifies db
      ensures db.Valid()
      ensures db.labels == old(db.labels)
      ensures match WithId(old(db.texts), id)
        case None => r == None && db.texts == old(db.texts)
        case Some(k) =>
          var row := old(db.texts)[k];
          r == Some(row.(labels := if labels.Some? then labels else row.labels))
          && db.texts == old(db.texts)[k := r.value]
    {
      var found := WithId(db.texts, id);
      if found.None? {
        return None;
      }
      var k := found.value;
      var row := db.texts[k];
      if labels.Some? {
        row := row.(labels := labels);
      }
      ReplaceKeepsTexts(db.texts, NextTextId(db.texts), k, row);
      db.texts := db.texts[k := row];
      r := Some(row);
    }

    /** Removes the text with the given id and reports whether there was one. */
    method DeleteAnnotation(id: int) returns (deleted: bool)
      requires db.Valid()
      modifies db
      ensures db.Valid()
      ensures db.labels == old(db.labels)
      ensures deleted <==> WithId(old(db.texts), id).Some?
      ensures deleted ==> db.texts == RemoveAt(old(db.texts), WithId(old(db.texts), id).value)
      ensures !deleted ==> db.texts == old(db.texts)
      ensures WithId(db.texts, id).None?
    {
      var found := WithId(db.texts, id);
      if found.None? {
        return false;
      }
      RemoveKeepsTexts(db.texts, NextTextId(db.texts), found.value);
      db.texts := RemoveAt(db.texts, found.value);
      deleted := true;
    }

    /** `search_annotations`: the page of matches and their total. */
    function SearchAnnotations(req: Schemas.SearchRequest): (r: AnnotationList)
      requires Schemas.SearchBoundsOk(req)
      reads db
      ensures r.total <= |db.texts| && |r.items| <= req.perPage
      ensures forall x :: x in r.items ==> x in db.texts && Matches(x, req)
    {
      Search(db.texts, req)
    }

    /** Gives every listed text the same labels and counts the listed ids that exist, repeats included. */
    method BulkLabel(ids: seq<int>, labels: string) returns (count: nat)
      requires db.Valid()
      modifies db
      ensures db.Valid()
      ensures db.texts == Relabel(old(db.texts), ids, labels)
      ensures count == Listed(old(db.texts), ids)
      ensures db.labels == old(db.labels)
    {
      ghost var rows := db.texts;
      count := 0;
      var i := 0;
      while i < |ids|
        invariant 0 <= i <= |ids|
        invariant db.texts == Relabel(rows, ids[..i], labels)
        invariant count == Listed(rows, ids[..i])
        invariant db.labels == old(db.labels)
      {
        BulkStep(rows, NextTextId(rows), ids, i, labels);
        var found := WithId(db.texts, ids[i]);
        if found.Some? {
          var k := found.value;
          db.texts := db.texts[k := db.texts[k].(labels := Some(labels))];
          count := count + 1;
        }
        i := i + 1;
      }
      assert ids[..|ids|] == ids;
      RelabelKeepsTable(rows, NextTextId(rows), ids, labels);
      NextTextIdOfOrdered(db.texts, NextTextId(rows));
    }

    /**
     * `import_texts`: adds the new stripped texts as unlabelled rows and returns how many;
     * `None` when the batch repeats a new text and the commit fails.
     */
    method ImportTexts(texts: seq<string>) returns (r: Option<nat>)
      requires db.Valid()
      modifies db
      ensures db.Valid()
      ensures var added := NewTexts(old(db.texts), texts);
        if NoDup(added) then
          r == Some(|added|)
          && db.texts == Appended(old(db.texts), added, NextTextId(old(db.texts)), ImportedLabels(variant))
        else
          r.None? && db.texts == old(db.texts)
      ensures db.labels == old(db.labels)
    {
      r := db.ImportLines(texts, ImportedLabels(variant));
    }
  }

  /** One id of `bulk_label`, on the prefix of ids already handled. */
  lemma BulkStep(rows: seq<TextRow>, nextId: int, ids: seq<int>, i: nat, labels: string)
    requires TextsOk(rows, nextId) && i < |ids|
    ensures var cur := Relabel(rows, ids[..i], labels);
      WithId(cur, ids[i]) == WithId(rows, ids[i])
      && Relabel(rows, ids[..i + 1], labels)
        == (match WithId(rows, ids[i])
            case None => cur
            case Some(k) => cur[k := cur[k].(labels := Some(labels))])
      && Listed(rows, ids[..i + 1]) == Listed(rows, ids[..i]) + (if WithId(rows, ids[i]).Some? then 1 else 0)
  {
    assert ids[..i + 1] == ids[..i] + [ids[i]];
    assert ids[..i + 1][..i] == ids[..i];
    RelabelStep(rows, nextId, ids[..i], ids[i], labels);
  }

  lemma RelabelStep(rows: seq<TextRow>, nextId: int, ids: seq<int>, id: int, labels: string)
    requires TextsOk(rows, nextId)
    ensures var cur := Relabel(rows, ids, labels);
      WithId(cur, id) == WithId(rows, id)
      && Relabel(rows, ids + [id], labels)
        == (match WithId(rows, id)
            case None => cur
            case Some(k) => cur[k := cur[k].(labels := Some(labels))])
  {
    var cur := Relabel(rows, ids, labels);
    var next := Relabel(rows, ids + [id], labels);
    assert forall j :: 0 <= j < |rows| ==> cur[j].id == rows[j].id;
    SameIds(cur, rows, id);
    match WithId(rows, id)
    case None =>
      assert forall j :: 0 <= j < |rows| ==> rows[j].id != id;
      assert next == cur;
    case Some(k) =>
      assert forall j :: 0 <= j < |rows| && j != k ==> rows[j].id != id;
      assert next == cur[k := cur[k].(labels := Some(labels))];
  }

  lemma {:induction false} SameIds(a: seq<TextRow>, b: seq<TextRow>, id: int)
    requires |a| == |b| && forall j :: 0 <= j < |a| ==> a[j].id == b[j].id
    ensures WithId(a, id) == WithId(b, id)
  {
    if a != [] {
      SameIds(a[1..], b[1..], id);
    }
  }

  class LabelService {
    const db: Database
    const variant: Variant

    constructor (db: Database, variant: Variant)
      ensures this.db == db && this.variant == variant
    {
      this.db := db;
      this.variant := variant;
    }

    /**
     * Adds a label. A label string already present, or an explicit id already taken,
     * is refused; without an id the label gets one more than the largest id, or 1.
     */
    method CreateLabel(name: string, id: Option<int>) returns (r: Result<LabelRow, string>)
      requires db.Valid()
      modifies db
      ensures db.Valid()
      ensures db.texts == old(db.texts)
      ensures WithLabel(old(db.labels), name).Some? ==>
        r == Err(DuplicateLabelMessage(variant, old(db.labels)[WithLabel(old(db.labels), name).value].id))
        && db.labels == old(db.labels)
      ensures WithLabel(old(db.labels), name).None? && id.Some? && WithLabelId(old(db.labels), id.value).Some? ==>
        r == Err(TakenIdMessage(variant, id.value)) && db.labels == old(db.labels)
      ensures WithLabel(old(db.labels), name).None? && (id.None? || WithLabelId(old(db.labels), id.value).None?) ==>
        r == Ok(LabelRow(if id.Some? then id.value else NextLabelId(old(db.labels)), name, None))
        && db.labels == InsertById(old(db.labels), r.value)
    {
      var existing := WithLabel(db.labels, name);
      if existing.Some? {
        return Err(DuplicateLabelMessage(variant, db.labels[existing.value].id));
      }
      var newId: int;
      if id.None? {
        newId := NextLabelId(db.labels);
      } else {
        if WithLabelId(db.labels, id.value).Some? {
          return Err(TakenIdMessage(variant, id.value));
        }
        newId := id.value;
      }
      var row := LabelRow(newId, name, None);
      InsertByIdKeepsTable(db.labels, row);
      db.labels := InsertById(db.labels, row);
      r := Ok(row);
    }

    /** `get_all_labels`: every label, in ascending id order. */
    function GetAllLabels(): (r: seq<LabelRow>)
      requires db.Valid()
      reads db
      ensures forall i, j :: 0 <= i < j < |r| ==> r[i].id < r[j].id
      ensures forall l :: l in r <==> l in db.labels
    {
      db.labels
    }

    /** The label with the given id, if there is one. */
    function GetLabel(id: int): (r: Option<LabelRow>)
      reads db
      ensures r.Some? <==> exists k :: 0 <= k < |db.labels| && db.labels[k].id == id
      ensures r.Some? ==> r.value in db.labels && r.value.id == id
    {
      match WithLabelId(db.labels, id)
      case None => None
      case Some(k) => Some(db.labels[k])
    }

    /** Removes the label with the given id and reports whether there was one. */
    method DeleteLabel(id: int) returns (deleted: bool)
      requires db.Valid()
      modifies db
      ensures db.Valid()
      ensures db.texts == old(db.texts)
      ensures deleted <==> WithLabelId(old(db.labels), id).Some?
      ensures deleted ==> db.labels == RemoveAt(old(db.labels), WithLabelId(old(db.labels), id).value)
      ensures !deleted ==> db.labels == old(db.labels)
      ensures WithLabelId(db.labels, id).None?
    {
      var found := WithLabelId(db.labels, id);
      if found.None? {
        return false;
      }
      db.labels := RemoveAt(db.labels, found.value);
      deleted := true;
    }
  }

  class StatisticsService {
    const db: Database

    constructor (db: Database)
      ensures this.db == db
    {
      this.db := db;
    }

    /**
     * `get_system_stats`: labelled and unlabelled texts add up to all texts, the
     * unlabelled ones are those an `unlabeled_only` search finds, and the label
     * statistics are those `LabelStatistics` computes.
     */
    method GetSystemStats() returns (s: SystemStats)
      ensures s.totalTexts == |db.texts| && s.totalLabels == |db.labels|
      ensures s.labeledTexts + s.unlabeledTexts == s.totalTexts
      ensures s.unlabeledTexts == |Matching(db.texts, UnlabeledOnly())|
      ensures s.labelStats == Store.LabelStatistics(db.texts)
    {
      var total := |db.texts|;
      var labeled := LabeledCount(db.texts);
      UnlabeledCount(db.texts, UnlabeledOnly());
      var stats := LabelStatistics();
      s := SystemStats(total, labeled, total - labeled, |db.labels|, stats);
    }

    /**
     * `_get_label_statistics`: counts every non-empty stripped piece of every labelled
     * text in a dictionary, then sorts its items by count, largest first, stably.
     */
    method LabelStatistics() returns (stats: seq<LabelStat>)
      ensures stats == Store.LabelStatistics(db.texts)
    {
      var rows := db.texts;
      var counts, order := CountLabels(rows);
      CountMapCounts(StatPieces(rows));
      var items := seq(|order|, k requires 0 <= k < |order| => LabelStat(order[k], counts[order[k]]));
      assert items == Tally(StatPieces(rows));
      stats := SortDesc(items, CountOf);
    }
  }
}
