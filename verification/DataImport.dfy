/**
 * `DataImporter` of data_import.py and of scripts/data_import.py: merging the
 * old labelled files (one file per label, one text per line) into the texts
 * table, loading the `id2label` configuration, importing unlabelled lines, and
 * creating a label for every label name the texts use. The two copies differ
 * in what `import_new_text_data` / `import_text_file` stores as labels (NULL
 * against `''`) and in how they build a label row (the scripts copy passes a
 * `description` its `Label` does not have, and raises); the `Variant` of the
 * services selects the copy. Walking
 * the directory, reading files and parsing YAML are left to the caller: the
 * files arrive as names with their lines, the configuration as (id, name) pairs.
 */
module DataImport {
  import opened Wrappers
  import opened Strs
  import opened StrOrder
  import opened Store
  import opened Services

  // ------------------------------------------------------------ file names

  /** A file met while walking the old-data directory. */
  datatype SourceFile = SourceFile(name: string, lines: seq<string>)

  predicate IsTxt(name: string)
  {
    |name| >= 4 && name[|name| - 4..] == ".txt"
  }

  predicate AllDots(s: string)
  {
    forall i :: 0 <= i < |s| ==> s[i] == '.'
  }

  /**
   * `os.path.splitext(name)[0]` for a name ending in ".txt": the extension goes,
   * except when only dots precede it, which makes the whole name a stem (".txt").
   */
  function Stem(name: string): (r: string)
    requires IsTxt(name)
    ensures r == name || r + ".txt" == name
  {
    var base := name[..|name| - 4];
    assert base + ".txt" == name;
    if AllDots(base) then name else base
  }

  lemma StemOfTxt(base: string)
    ensures IsTxt(base + ".txt")
    ensures Stem(base + ".txt") == if AllDots(base) then base + ".txt" else base
  {
    assert (base + ".txt")[..|base|] == base;
  }

  /** The label of "正面.txt" is "正面"; a hidden ".txt" keeps its whole name. */
  lemma StemExamples()
    ensures Stem("正面.txt") == "正面"
    ensures Stem("a.b.txt") == "a.b"
    ensures Stem(".txt") == ".txt"
  {
    StemOfTxt("正面");
    assert "正面" + ".txt" == "正面.txt";
    assert !AllDots("正面") by { assert "正面"[0] == '正'; }
    StemOfTxt("a.b");
    assert "a.b" + ".txt" == "a.b.txt";
    assert !AllDots("a.b") by { assert "a.b"[0] == 'a'; }
    StemOfTxt("");
    assert "" + ".txt" == ".txt";
  }

  /** How many `.txt` files the walk visits. */
  function TxtCount(files: seq<SourceFile>): (r: nat)
    ensures r <= |files|
  {
    if files == [] then 0
    else TxtCount(files[..|files| - 1]) + (if IsTxt(files[|files| - 1].name) then 1 else 0)
  }

  // ------------------------------------------------------------- merging

  /** One non-empty line of a label file: the stripped text and the file's label. */
  datatype Tag = Tag(text: string, labelName: string)

  /** The tags of one file, from its stripped lines. */
  function FileTags(name: string, ts: seq<string>): (r: seq<Tag>)
    ensures |r| <= |ts|
  {
    if ts == [] then []
    else
      var t := ts[|ts| - 1];
      FileTags(name, ts[..|ts| - 1]) + (if t != [] then [Tag(t, name)] else [])
  }

  /** The tags one file contributes: none unless it is a `.txt` file. */
  function FileContribution(f: SourceFile): seq<Tag>
  {
    if IsTxt(f.name) then FileTags(Stem(f.name), StripLines(f.lines)) else []
  }

  /** Every tag the walk reads, in the order the files and their lines come. */
  function Tags(files: seq<SourceFile>): seq<Tag>
  {
    if files == [] then [] else Tags(files[..|files| - 1]) + FileContribution(files[|files| - 1])
  }

  function TextsOf(tags: seq<Tag>): (r: seq<string>)
    ensures |r| == |tags|
  {
    if tags == [] then [] else TextsOf(tags[..|tags| - 1]) + [tags[|tags| - 1].text]
  }

  /** `labels.add(label)` on a set kept as a list of distinct labels. */
  function AddLabel(ls: seq<string>, l: string): seq<string>
  {
    if l in ls then ls else ls + [l]
  }

  /** `text_labels_map`: each text with the set of labels it was read under. */
  function LabelSets(tags: seq<Tag>): map<string, seq<string>>
  {
    if tags == [] then map[]
    else
      var m := LabelSets(tags[..|tags| - 1]);
      var t := tags[|tags| - 1];
      m[t.text := AddLabel(if t.text in m then m[t.text] else [], t.labelName)]
  }

  /** The keys of the map in insertion order, which is the order its items come out. */
  function TextOrder(tags: seq<Tag>): seq<string>
  {
    Dedupe(TextsOf(tags))
  }

  /** One more tag: the map entry of its text gains the label, and a new text is appended to the key order. */
  lemma MergeStep(tags: seq<Tag>, t: Tag)
    ensures LabelSets(tags + [t])
      == LabelSets(tags)[t.text := AddLabel(if t.text in LabelSets(tags) then LabelSets(tags)[t.text] else [], t.labelName)]
    ensures TextOrder(tags + [t])
      == if t.text in LabelSets(tags) then TextOrder(tags) else TextOrder(tags) + [t.text]
  {
    assert (tags + [t])[..|tags|] == tags;
    LabelSetsKeys(tags);
    DedupeSnoc(TextsOf(tags), t.text);
  }

  /** `MergeStep` in the form the loop takes it: the map and the key order the loop already holds. */
  lemma MergeTag(tags: seq<Tag>, t: Tag, lab: map<string, seq<string>>, order: seq<string>)
    requires lab == LabelSets(tags) && order == TextOrder(tags)
    ensures t.text in lab ==>
      LabelSets(tags + [t]) == lab[t.text := AddLabel(lab[t.text], t.labelName)] && TextOrder(tags + [t]) == order
    ensures t.text !in lab ==>
      LabelSets(tags + [t]) == lab[t.text := [t.labelName]] && TextOrder(tags + [t]) == order + [t.text]
  {
    MergeStep(tags, t);
    assert AddLabel([], t.labelName) == [t.labelName];
  }

  lemma {:induction false} LabelSetsKeys(tags: seq<Tag>)
    ensures forall x :: x in LabelSets(tags) <==> x in TextsOf(tags)
  {
    if tags != [] {
      LabelSetsKeys(tags[..|tags| - 1]);
    }
  }

  /** A text carries a label exactly when some tag pairs them; the labels are distinct. */
  lemma {:induction false} LabelSetsMembers(tags: seq<Tag>, x: string, l: string)
    ensures x in LabelSets(tags) ==> NoDup(LabelSets(tags)[x])
    ensures (x in LabelSets(tags) && l in LabelSets(tags)[x]) <==> Tag(x, l) in tags
  {
    if tags != [] {
      var init := tags[..|tags| - 1];
      var t := tags[|tags| - 1];
      LabelSetsMembers(init, x, l);
      assert tags == init + [t];
      if x == t.text && x in LabelSets(init) {
        var ls := LabelSets(init)[x];
        if t.labelName !in ls {
          NoDupSnoc(ls, t.labelName);
        }
      }
    }
  }

  lemma {:induction false} TextsOfMembers(tags: seq<Tag>)
    ensures forall k :: 0 <= k < |tags| ==> TextsOf(tags)[k] == tags[k].text
  {
    if tags != [] {
      TextsOfMembers(tags[..|tags| - 1]);
    }
  }

  lemma FileTagsStep(name: string, ts: seq<string>, k: nat)
    requires k < |ts|
    ensures FileTags(name, ts[..k + 1]) == FileTags(name, ts[..k]) + (if ts[k] != [] then [Tag(ts[k], name)] else [])
  {
    assert ts[..k + 1][..k] == ts[..k];
  }

  lemma TagsStep(files: seq<SourceFile>, j: nat)
    requires j < |files|
    ensures Tags(files[..j + 1]) == Tags(files[..j]) + FileContribution(files[j])
    ensures TxtCount(files[..j + 1]) == TxtCount(files[..j]) + (if IsTxt(files[j].name) then 1 else 0)
  {
    assert files[..j + 1][..j] == files[..j];
  }

  lemma {:induction false} FileTagsMembers(name: string, ts: seq<string>, k: nat)
    requires k < |ts| && ts[k] != []
    ensures Tag(ts[k], name) in FileTags(name, ts)
  {
    if k < |ts| - 1 {
      FileTagsMembers(name, ts[..|ts| - 1], k);
    }
  }

  lemma {:induction false} FileTagsNonEmpty(name: string, ts: seq<string>)
    ensures forall t :: t in FileTags(name, ts) ==> t.text != [] && t.labelName == name
  {
    if ts != [] {
      FileTagsNonEmpty(name, ts[..|ts| - 1]);
    }
  }

  lemma {:induction false} TagsMembers(files: seq<SourceFile>, j: nat, i: nat)
    requires j < |files| && IsTxt(files[j].name) && i < |files[j].lines|
    requires PyStrip(files[j].lines[i]) != []
    ensures Tag(PyStrip(files[j].lines[i]), Stem(files[j].name)) in Tags(files)
  {
    if j < |files| - 1 {
      TagsMembers(files[..|files| - 1], j, i);
    } else {
      FileTagsMembers(Stem(files[j].name), StripLines(files[j].lines), i);
    }
  }

  lemma {:induction false} TagsNonEmpty(files: seq<SourceFile>)
    ensures forall t :: t in Tags(files) ==> t.text != []
  {
    if files != [] {
      TagsNonEmpty(files[..|files| - 1]);
      var f := files[|files| - 1];
      if IsTxt(f.name) {
        FileTagsNonEmpty(Stem(f.name), StripLines(f.lines));
      }
    }
  }

  /** Every non-empty line of a file `X.txt` tags its stripped text with X. */
  lemma LineTagsText(files: seq<SourceFile>, j: nat, i: nat)
    requires j < |files| && IsTxt(files[j].name) && i < |files[j].lines|
    requires PyStrip(files[j].lines[i]) != []
    ensures var t := PyStrip(files[j].lines[i]);
      t in LabelSets(Tags(files)) && Stem(files[j].name) in LabelSets(Tags(files))[t]
  {
    TagsMembers(files, j, i);
    LabelSetsMembers(Tags(files), PyStrip(files[j].lines[i]), Stem(files[j].name));
  }

  // ------------------------------------------------------------- storing

  /** `','.join(sorted(labels))`. */
  function LabelString(ls: seq<string>): string
  {
    Join(SortStr(ls), ",")
  }

  /** The stored rows after the merge: a text of the map gets its joined labels, the rest keep theirs. */
  function Overwritten(rows: seq<TextRow>, keys: seq<string>, lab: map<string, seq<string>>): (r: seq<TextRow>)
    requires forall k :: k in keys ==> k in lab
    ensures |r| == |rows|
  {
    seq(|rows|, j requires 0 <= j < |rows| =>
      if rows[j].text in keys then rows[j].(labels := Some(LabelString(lab[rows[j].text]))) else rows[j])
  }

  /** New rows for the texts not stored yet, with their joined labels and consecutive ids. */
  function NewLabelled(added: seq<string>, nextId: int, lab: map<string, seq<string>>): (r: seq<TextRow>)
    requires forall k :: k in added ==> k in lab
    ensures |r| == |added|
  {
    seq(|added|, k requires 0 <= k < |added| => TextRow(nextId + k, added[k], Some(LabelString(lab[added[k]]))))
  }

  lemma NewLabelledPointwise(rows: seq<TextRow>, added: seq<string>, nextId: int, lab: map<string, seq<string>>)
    requires forall k :: k in added ==> k in lab
    requires |rows| == |added|
    requires forall k :: 0 <= k < |rows| ==> rows[k] == TextRow(nextId + k, added[k], Some(LabelString(lab[added[k]])))
    ensures rows == NewLabelled(added, nextId, lab)
  {
  }

  lemma OverwrittenPointwise(rows: seq<TextRow>, keys: seq<string>, lab: map<string, seq<string>>, r: seq<TextRow>)
    requires forall k :: k in keys ==> k in lab
    requires |r| == |rows|
    requires forall j :: 0 <= j < |rows| ==>
      r[j] == if rows[j].text in keys then rows[j].(labels := Some(LabelString(lab[rows[j].text]))) else rows[j]
    ensures r == Overwritten(rows, keys, lab)
  {
  }

  /** Merging distinct, non-empty texts into a valid table keeps it valid. */
  lemma MergedKeepsTable(rows: seq<TextRow>, nextId: int, keys: seq<string>, lab: map<string, seq<string>>)
    requires TextsOk(rows, nextId)
    requires NoDup(keys) && (forall k :: k in keys ==> k in lab)
    ensures var added := Unstored(rows, keys);
      (forall k :: k in added ==> k in lab)
      && TextsOk(Overwritten(rows, keys, lab) + NewLabelled(added, nextId, lab), nextId + |added|)
  {
    var added := Unstored(rows, keys);
    forall x | x in added ensures x in lab && x in keys && WithText(rows, x).None? {
      UnstoredSound(rows, keys, x);
    }
    assert DistinctTexts(keys);
    UnstoredNoDup(rows, keys);
    var r := Overwritten(rows, keys, lab) + NewLabelled(added, nextId, lab);
    forall i, j | 0 <= i < j < |r| ensures r[i].id < r[j].id && r[i].text != r[j].text {
      if j >= |rows| && i < |rows| {
        assert r[j].text in added;
      }
    }
  }

  /** Every key of the merged map is a non-empty text with a non-empty list of distinct labels. */
  lemma {:induction false} KeysLabelled(files: seq<SourceFile>)
    ensures var tags := Tags(files); var lab := LabelSets(tags);
      NoDup(TextOrder(tags))
      && forall k :: k in TextOrder(tags) ==> k in lab && k != [] && lab[k] != [] && NoDup(lab[k])
  {
    var tags := Tags(files);
    var lab := LabelSets(tags);
    LabelSetsKeys(tags);
    TagsNonEmpty(files);
    TextsOfMembers(tags);
    forall k | k in TextOrder(tags) ensures k in lab && k != [] && lab[k] != [] && NoDup(lab[k]) {
      var p :| 0 <= p < |tags| && TextsOf(tags)[p] == k;
      LabelSetsMembers(tags, k, tags[p].labelName);
      assert tags[p] == Tag(k, tags[p].labelName);
    }
  }

  /**
   * The texts table after `import_old_data`: the committed rows, those whose text
   * was read relabelled with the sorted labels it was read under, then one new row
   * per text not stored before, in the order the texts were first read.
   */
  function Merged(rows: seq<TextRow>, nextId: int, files: seq<SourceFile>): (r: seq<TextRow>)
    ensures |r| == |rows| + |Unstored(rows, TextOrder(Tags(files)))|
  {
    var tags := Tags(files);
    KeysLabelled(files);
    var keys := TextOrder(tags);
    var added := Unstored(rows, keys);
    assert forall k :: k in added ==> k in keys by {
      forall k | k in added ensures k in keys {
        UnstoredSound(rows, keys, k);
      }
    }
    Overwritten(rows, keys, LabelSets(tags)) + NewLabelled(added, nextId, LabelSets(tags))
  }

  /** The merge keeps the table's invariant and leaves every committed row's id and text in place. */
  lemma MergedTableOk(rows: seq<TextRow>, nextId: int, files: seq<SourceFile>)
    requires TextsOk(rows, nextId)
    ensures TextsOk(Merged(rows, nextId, files), nextId + |Unstored(rows, TextOrder(Tags(files)))|)
    ensures forall k :: 0 <= k < |rows| ==>
      Merged(rows, nextId, files)[k].id == rows[k].id && Merged(rows, nextId, files)[k].text == rows[k].text
  {
    KeysLabelled(files);
    MergedKeepsTable(rows, nextId, TextOrder(Tags(files)), LabelSets(Tags(files)));
  }

  /** Merging from the id SQLite hands out next keeps the table valid for the next id after it. */
  lemma MergedAtNext(rows: seq<TextRow>, files: seq<SourceFile>)
    requires TextsOk(rows, NextTextId(rows))
    ensures var r := Merged(rows, NextTextId(rows), files); TextsOk(r, NextTextId(r))
  {
    var start := NextTextId(rows);
    MergedTableOk(rows, start, files);
    NextTextIdOfOrdered(Merged(rows, start, files), start + |Unstored(rows, TextOrder(Tags(files)))|);
  }

  /**
   * After the merge, every non-empty line of a file `X.txt` is stored, labelled
   * with the sorted join of the labels its text was read under, X among them.
   */
  lemma MergedLineStored(rows: seq<TextRow>, nextId: int, files: seq<SourceFile>, j: nat, i: nat)
    requires j < |files| && IsTxt(files[j].name) && i < |files[j].lines|
    requires PyStrip(files[j].lines[i]) != []
    ensures var t := PyStrip(files[j].lines[i]); var lab := LabelSets(Tags(files));
      var r := Merged(rows, nextId, files);
      t in lab && Stem(files[j].name) in lab[t]
      && exists k :: 0 <= k < |r| && r[k].text == t && r[k].labels == Some(LabelString(lab[t]))
  {
    var t := PyStrip(files[j].lines[i]);
    var tags := Tags(files);
    var keys := TextOrder(tags);
    LineTagsText(files, j, i);
    LabelSetsKeys(tags);
    assert t in keys;
    var p :| 0 <= p < |keys| && keys[p] == t;
    KeysLabelled(files);
    MergedHasKey(rows, nextId, keys, LabelSets(tags), p);
    assert Merged(rows, nextId, files)
      == Overwritten(rows, keys, LabelSets(tags)) + NewLabelled(Unstored(rows, keys), nextId, LabelSets(tags));
  }

  /** Each merged key ends up in a row of its own, carrying its joined labels. */
  lemma MergedHasKey(rows: seq<TextRow>, nextId: int, keys: seq<string>, lab: map<string, seq<string>>, p: nat)
    requires forall k :: k in keys ==> k in lab
    requires p < |keys| && keys[p] != []
    ensures var added := Unstored(rows, keys);
      (forall k :: k in added ==> k in lab)
      && var r := Overwritten(rows, keys, lab) + NewLabelled(added, nextId, lab);
        exists k :: 0 <= k < |r| && r[k].text == keys[p] && r[k].labels == Some(LabelString(lab[keys[p]]))
  {
    var t := keys[p];
    var added := Unstored(rows, keys);
    forall k | k in added ensures k in lab {
      UnstoredSound(rows, keys, k);
    }
    var r := Overwritten(rows, keys, lab) + NewLabelled(added, nextId, lab);
    assert t in keys;
    match WithText(rows, t)
    case Some(k) =>
      assert r[k].text == t && r[k].labels == Some(LabelString(lab[t]));
    case None =>
      UnstoredComplete(rows, keys, p);
      var q :| 0 <= q < |added| && added[q] == t;
      assert r[|rows| + q].text == t && r[|rows| + q].labels == Some(LabelString(lab[t]));
  }

  /** A committed row whose text no file contains is left as it was. */
  lemma MergedKeepsOthers(rows: seq<TextRow>, nextId: int, files: seq<SourceFile>, k: nat)
    requires k < |rows| && rows[k].text !in LabelSets(Tags(files))
    ensures Merged(rows, nextId, files)[k] == rows[k]
  {
    LabelSetsKeys(Tags(files));
  }

  /** The texts among `ts` are all empty or stored: nothing to add. */
  lemma {:induction false} UnstoredNone(rows: seq<TextRow>, ts: seq<string>)
    requires forall k :: 0 <= k < |ts| ==> ts[k] == [] || WithText(rows, ts[k]).Some?
    ensures Unstored(rows, ts) == []
  {
    if ts != [] {
      UnstoredNone(rows, ts[..|ts| - 1]);
    }
  }

  /** After merging `keys`, every key is stored. */
  lemma MergedStoresKeys(rows: seq<TextRow>, nextId: int, keys: seq<string>, lab: map<string, seq<string>>)
    requires forall k :: k in keys ==> k in lab
    ensures var added := Unstored(rows, keys);
      (forall k :: k in added ==> k in lab)
      && Unstored(Overwritten(rows, keys, lab) + NewLabelled(added, nextId, lab), keys) == []
  {
    var added := Unstored(rows, keys);
    forall k | k in added ensures k in lab {
      UnstoredSound(rows, keys, k);
    }
    var r := Overwritten(rows, keys, lab) + NewLabelled(added, nextId, lab);
    forall p | 0 <= p < |keys| ensures keys[p] == [] || WithText(r, keys[p]).Some? {
      if keys[p] != [] {
        MergedHasKey(rows, nextId, keys, lab, p);
      }
    }
    UnstoredNone(r, keys);
  }

  /** Relabelling the merged rows with the same map changes nothing. */
  lemma MergedRelabelStable(rows: seq<TextRow>, nextId: int, keys: seq<string>, lab: map<string, seq<string>>)
    requires forall k :: k in keys ==> k in lab
    ensures var added := Unstored(rows, keys);
      (forall k :: k in added ==> k in lab)
      && var r := Overwritten(rows, keys, lab) + NewLabelled(added, nextId, lab);
        Overwritten(r, keys, lab) == r
  {
    var added := Unstored(rows, keys);
    forall k | k in added ensures k in lab && k in keys {
      UnstoredSound(rows, keys, k);
    }
    var r := Overwritten(rows, keys, lab) + NewLabelled(added, nextId, lab);
    forall j | 0 <= j < |r| && r[j].text in keys
      ensures r[j].(labels := Some(LabelString(lab[r[j].text]))) == r[j]
    {
      if j >= |rows| {
        assert r[j].text == added[j - |rows|];
      }
    }
  }

  /** Importing the same files a second time imports nothing and changes nothing. */
  lemma MergeIdempotent(rows: seq<TextRow>, nextId: int, files: seq<SourceFile>)
    ensures var r := Merged(rows, nextId, files);
      Unstored(r, TextOrder(Tags(files))) == []
      && forall n :: Merged(r, n, files) == r
  {
    var keys := TextOrder(Tags(files));
    var lab := LabelSets(Tags(files));
    KeysLabelled(files);
    MergedStoresKeys(rows, nextId, keys, lab);
    MergedRelabelStable(rows, nextId, keys, lab);
    var r := Merged(rows, nextId, files);
    assert r == Overwritten(rows, keys, lab) + NewLabelled(Unstored(rows, keys), nextId, lab);
    forall n ensures Merged(r, n, files) == r {
      assert Merged(r, n, files) == Overwritten(r, keys, lab) + NewLabelled([], n, lab);
    }
  }

  /** The stored labels string splits back into the labels, sorted, when no label holds a comma. */
  lemma LabelStringSplits(ls: seq<string>)
    requires ls != [] && NoDup(ls)
    requires forall l :: l in ls ==> ',' !in l
    ensures Ascending(SortStr(ls)) && multiset(SortStr(ls)) == multiset(ls)
    ensures Split(LabelString(ls), ',') == SortStr(ls)
  {
    SortStrFacts(ls);
    forall i | 0 <= i < |SortStr(ls)| ensures ',' !in SortStr(ls)[i] {
      assert SortStr(ls)[i] in multiset(ls);
    }
    SplitJoin(SortStr(ls), ',');
  }

  /** The three counters `import_old_data` returns. */
  datatype ImportStats = ImportStats(filesProcessed: nat, recordsImported: nat, duplicatesMerged: nat)

  // ------------------------------------------------------------- the loops

  /**
   * What the import loops keep while reading tags: the map and its key order are
   * those of the tags read so far, and every tag that did not add a key was
   * counted as a merged duplicate.
   */
  predicate Collected(tags: seq<Tag>, lab: map<string, seq<string>>, order: seq<string>, dup: nat)
  {
    lab == LabelSets(tags) && order == TextOrder(tags) && dup + |order| == |tags|
  }

  /**
   * The inner loop of `import_old_data` over one file's stripped lines: each
   * non-empty text gains the file's label, and a text already in the map counts
   * as a merged duplicate.
   */
  method MergeFile(lab0: map<string, seq<string>>, order0: seq<string>, dup0: nat,
                   ghost seen: seq<Tag>, name: string, ts: seq<string>)
    returns (lab: map<string, seq<string>>, order: seq<string>, dup: nat)
    requires Collected(seen, lab0, order0, dup0)
    ensures Collected(seen + FileTags(name, ts), lab, order, dup)
  {
    lab, order, dup := lab0, order0, dup0;
    ghost var tags := seen;
    assert ts[..0] == [];
    var i := 0;
    while i < |ts|
      invariant 0 <= i <= |ts|
      invariant tags == seen + FileTags(name, ts[..i])
      invariant Collected(tags, lab, order, dup)
    {
      lab, order, dup, tags := ReadLine(name, ts, i, seen, lab, order, dup, tags);
      i := i + 1;
    }
    assert ts[..|ts|] == ts;
  }

  /** One stripped line of a file: a non-empty one is merged, an empty one is skipped. */
  method ReadLine(name: string, ts: seq<string>, i: nat, ghost seen: seq<Tag>,
                  lab0: map<string, seq<string>>, order0: seq<string>, dup0: nat, ghost tags0: seq<Tag>)
    returns (lab: map<string, seq<string>>, order: seq<string>, dup: nat, ghost tags: seq<Tag>)
    requires i < |ts| && tags0 == seen + FileTags(name, ts[..i]) && Collected(tags0, lab0, order0, dup0)
    ensures tags == seen + FileTags(name, ts[..i + 1]) && Collected(tags, lab, order, dup)
  {
    FileTagsStep(name, ts, i);
    if ts[i] != [] {
      lab, order, dup := MergeLine(lab0, order0, dup0, tags0, ts[i], name);
      tags := tags0 + [Tag(ts[i], name)];
    } else {
      lab, order, dup, tags := lab0, order0, dup0, tags0;
      assert FileTags(name, ts[..i + 1]) == FileTags(name, ts[..i]) + [];
    }
  }

  /** One non-empty line: its text gains the label, or enters the map with it. */
  method MergeLine(lab0: map<string, seq<string>>, order0: seq<string>, dup0: nat,
                   ghost tags: seq<Tag>, text: string, name: string)
    returns (lab: map<string, seq<string>>, order: seq<string>, dup: nat)
    requires Collected(tags, lab0, order0, dup0)
    ensures Collected(tags + [Tag(text, name)], lab, order, dup)
    ensures text in lab0 <==> dup == dup0 + 1
  {
    MergeTag(tags, Tag(text, name), lab0, order0);
    if text in lab0 {
      lab, order, dup := lab0[text := AddLabel(lab0[text], name)], order0, dup0 + 1;
    } else {
      lab, order, dup := lab0[text := [name]], order0 + [text], dup0;
    }
  }

  /**
   * The walk of `import_old_data`: every `.txt` file, its stem as the label,
   * merged into `text_labels_map`; also the `files_processed` and
   * `duplicates_merged` counters.
   */
  method CollectTags(files: seq<SourceFile>)
    returns (lab: map<string, seq<string>>, order: seq<string>, processed: nat, dup: nat)
    ensures lab == LabelSets(Tags(files)) && order == TextOrder(Tags(files))
    ensures processed == TxtCount(files) && dup + |order| == |Tags(files)|
  {
    lab, order, processed, dup := map[], [], 0, 0;
    ghost var tags: seq<Tag> := [];
    assert files[..0] == [];
    var j := 0;
    while j < |files|
      invariant 0 <= j <= |files|
      invariant tags == Tags(files[..j]) && processed == TxtCount(files[..j])
      invariant Collected(tags, lab, order, dup)
    {
      lab, order, processed, dup, tags := VisitFile(files, j, lab, order, processed, dup, tags);
      j := j + 1;
    }
    assert files[..|files|] == files;
  }

  /** One file of the walk: a `.txt` file is merged under its stem and counted, any other file is skipped. */
  method VisitFile(files: seq<SourceFile>, j: nat, lab0: map<string, seq<string>>, order0: seq<string>,
                   processed0: nat, dup0: nat, ghost tags0: seq<Tag>)
    returns (lab: map<string, seq<string>>, order: seq<string>, processed: nat, dup: nat, ghost tags: seq<Tag>)
    requires j < |files| && tags0 == Tags(files[..j]) && processed0 == TxtCount(files[..j])
    requires Collected(tags0, lab0, order0, dup0)
    ensures tags == Tags(files[..j + 1]) && processed == TxtCount(files[..j + 1])
    ensures Collected(tags, lab, order, dup)
    ensures processed == processed0 + (if IsTxt(files[j].name) then 1 else 0)
  {
    TagsStep(files, j);
    var f := files[j];
    tags := tags0 + FileContribution(f);
    if IsTxt(f.name) {
      lab, order, dup := MergeFile(lab0, order0, dup0, tags0, Stem(f.name), StripLines(f.lines));
      processed := processed0 + 1;
    } else {
      assert tags == tags0;
      lab, order, processed, dup := lab0, order0, processed0, dup0;
    }
  }

  /**
   * What the database loop keeps about the committed rows after the keys `done`:
   * every row whose text was done carries that text's joined labels, and every
   * other row is as committed.
   */
  predicate Relabelled(committed: seq<TextRow>, done: seq<string>, lab: map<string, seq<string>>, rows: seq<TextRow>)
  {
    (forall k :: k in done ==> k in lab)
    && |rows| == |committed|
    && forall j :: 0 <= j < |rows| ==>
         rows[j] == if committed[j].text in done
           then committed[j].(labels := Some(LabelString(lab[committed[j].text]))) else committed[j]
  }

  /**
   * What the database loop keeps about the new rows after the keys `done`: the
   * texts added are the unstored ones, and each pending row numbers its text
   * from `start` and carries its joined labels.
   */
  predicate Queued(committed: seq<TextRow>, start: int, done: seq<string>, lab: map<string, seq<string>>,
                   pending: seq<TextRow>, added: seq<string>)
  {
    added == Unstored(committed, done) && |added| == |pending| && (forall k :: k in added ==> k in lab)
    && forall k :: 0 <= k < |pending| ==>
         pending[k] == TextRow(start + k, added[k], Some(LabelString(lab[added[k]])))
  }

  /**
   * The database loop of `import_old_data` over the map's texts in key order:
   * a committed row with the text gets the joined labels, any other text becomes
   * a new row, numbered from `start`.
   */
  method StoreMerged(committed: seq<TextRow>, start: int, keys: seq<string>, lab: map<string, seq<string>>)
    returns (rows: seq<TextRow>, pending: seq<TextRow>, added: seq<string>)
    requires TextsOk(committed, start)
    requires forall k :: k in keys ==> k in lab
    ensures added == Unstored(committed, keys) && forall k :: k in added ==> k in lab
    ensures rows == Overwritten(committed, keys, lab)
    ensures pending == NewLabelled(added, start, lab)
  {
    rows, pending, added := committed, [], [];
    assert keys[..0] == [];
    var i := 0;
    while i < |keys|
      invariant 0 <= i <= |keys|
      invariant Relabelled(committed, keys[..i], lab, rows)
      invariant Queued(committed, start, keys[..i], lab, pending, added)
    {
      rows, pending, added := StoreKey(committed, start, keys, i, lab, rows, pending, added);
      i := i + 1;
    }
    assert keys[..|keys|] == keys;
    NewLabelledPointwise(pending, added, start, lab);
    OverwrittenPointwise(committed, keys, lab, rows);
  }

  /** One key of the database loop: its row is relabelled, or it is queued as a new row unless empty. */
  method StoreKey(committed: seq<TextRow>, start: int, keys: seq<string>, i: nat, lab: map<string, seq<string>>,
                  rows0: seq<TextRow>, pending0: seq<TextRow>, added0: seq<string>)
    returns (rows: seq<TextRow>, pending: seq<TextRow>, added: seq<string>)
    requires TextsOk(committed, start)
    requires i < |keys| && forall k :: k in keys ==> k in lab
    requires Relabelled(committed, keys[..i], lab, rows0)
    requires Queued(committed, start, keys[..i], lab, pending0, added0)
    ensures Relabelled(committed, keys[..i + 1], lab, rows)
    ensures Queued(committed, start, keys[..i + 1], lab, pending, added)
  {
    rows, pending, added := rows0, pending0, added0;
    var text := keys[i];
    var labelsStr := LabelString(lab[text]);
    assert keys[..i + 1] == keys[..i] + [text];
    var existing := WithText(committed, text);
    if existing.Some? {
      var j := existing.value;
      if rows[j].labels != Some(labelsStr) {
        rows := rows[j := rows[j].(labels := Some(labelsStr))];
      } else {
        assert rows == rows0[j := rows0[j].(labels := Some(labelsStr))];
      }
    } else {
      if text != [] {
        pending := pending + [TextRow(start + |added|, text, Some(labelsStr))];
        added := added + [text];
      }
    }
    RelabelKeyStep(committed, start, keys[..i], text, lab, rows0, rows);
    QueueStep(committed, start, keys, i, lab, pending0, added0, pending, added);
  }

  /** The committed rows after one more key: only the row holding the key's text, if any, is relabelled. */
  lemma RelabelKeyStep(committed: seq<TextRow>, start: int, done: seq<string>, text: string,
                    lab: map<string, seq<string>>, rows0: seq<TextRow>, rows: seq<TextRow>)
    requires TextsOk(committed, start) && text in lab && Relabelled(committed, done, lab, rows0)
    requires WithText(committed, text).None? ==> rows == rows0
    requires WithText(committed, text).Some? ==> var j := WithText(committed, text).value;
      rows == rows0[j := rows0[j].(labels := Some(LabelString(lab[text])))]
    ensures Relabelled(committed, done + [text], lab, rows)
  {
    forall k | k in done + [text] ensures k in lab {
    }
    forall q | 0 <= q < |rows|
      ensures rows[q] == if committed[q].text in done + [text]
        then committed[q].(labels := Some(LabelString(lab[committed[q].text]))) else committed[q]
    {
      match WithText(committed, text)
      case Some(j) =>
        if q != j {
          assert committed[q].text != committed[j].text;
        }
      case None =>
        assert committed[q].text != text;
    }
  }

  /** The new rows after one more key: an empty or stored text adds none, any other text adds the next numbered row. */
  lemma QueueStep(committed: seq<TextRow>, start: int, keys: seq<string>, i: nat, lab: map<string, seq<string>>,
                  pending0: seq<TextRow>, added0: seq<string>, pending: seq<TextRow>, added: seq<string>)
    requires i < |keys| && keys[i] in lab && Queued(committed, start, keys[..i], lab, pending0, added0)
    requires keys[i] != [] && WithText(committed, keys[i]).None? ==>
      added == added0 + [keys[i]] && pending == pending0 + [TextRow(start + |added0|, keys[i], Some(LabelString(lab[keys[i]])))]
    requires !(keys[i] != [] && WithText(committed, keys[i]).None?) ==> added == added0 && pending == pending0
    ensures Queued(committed, start, keys[..i + 1], lab, pending, added)
  {
    UnstoredStep(committed, keys, i);
  }

  // ------------------------------------------------------- label configuration

  /** One entry of `id2label`: the id after `int(...)`, and the label string. */
  datatype ConfigEntry = ConfigEntry(id: int, name: string)

  /**
   * The label rows `import_label_config` adds: one per entry whose id no committed
   * label has. The query sees only committed rows, so entries are not checked
   * against each other.
   */
  function ConfigNew(committed: seq<LabelRow>, entries: seq<ConfigEntry>): (r: seq<LabelRow>)
    ensures |r| <= |entries|
  {
    if entries == [] then []
    else
      var e := entries[|entries| - 1];
      ConfigNew(committed, entries[..|entries| - 1])
        + (if WithLabelId(committed, e.id).None? then [LabelRow(e.id, e.name, None)] else [])
  }

  lemma ConfigNewStep(committed: seq<LabelRow>, entries: seq<ConfigEntry>, i: nat)
    requires i < |entries|
    ensures ConfigNew(committed, entries[..i + 1]) == ConfigNew(committed, entries[..i])
      + (if WithLabelId(committed, entries[i].id).None? then [LabelRow(entries[i].id, entries[i].name, None)] else [])
  {
    assert entries[..i + 1][..i] == entries[..i];
  }

  /** Every added row comes from an entry whose id was free, and has no description. */
  lemma {:induction false} ConfigNewSound(committed: seq<LabelRow>, entries: seq<ConfigEntry>, x: LabelRow)
    requires x in ConfigNew(committed, entries)
    ensures WithLabelId(committed, x.id).None? && x.description.None? && ConfigEntry(x.id, x.name) in entries
  {
    var init := entries[..|entries| - 1];
    if x in ConfigNew(committed, init) {
      ConfigNewSound(committed, init, x);
    }
  }

  /** Every entry whose id is free is added. */
  lemma {:induction false} ConfigNewComplete(committed: seq<LabelRow>, entries: seq<ConfigEntry>, i: nat)
    requires i < |entries| && WithLabelId(committed, entries[i].id).None?
    ensures LabelRow(entries[i].id, entries[i].name, None) in ConfigNew(committed, entries)
  {
    var init := entries[..|entries| - 1];
    if i < |init| {
      ConfigNewComplete(committed, init, i);
    }
  }

  /**
   * The commit succeeds when the new rows repeat no id and no label string, and no
   * committed label has one of their strings (the primary key and the unique
   * constraint on `label`).
   */
  predicate Commits(committed: seq<LabelRow>, pending: seq<LabelRow>)
  {
    (forall i, j :: 0 <= i < j < |pending| ==> pending[i].id != pending[j].id && pending[i].name != pending[j].name)
    && forall k :: 0 <= k < |pending| ==> WithLabel(committed, pending[k].name).None?
  }

  /** The labels table once the pending rows are committed, kept in id order. */
  function InsertAll(ls: seq<LabelRow>, rows: seq<LabelRow>): (r: seq<LabelRow>)
    ensures |r| == |ls| + |rows|
    ensures multiset(r) == multiset(ls) + multiset(rows)
  {
    if rows == [] then ls
    else
      assert rows == rows[..|rows| - 1] + [rows[|rows| - 1]];
      InsertById(InsertAll(ls, rows[..|rows| - 1]), rows[|rows| - 1])
  }

  /** Committing rows with new ids that satisfy `Commits` keeps the labels table valid. */
  lemma {:induction false} InsertAllKeepsTable(ls: seq<LabelRow>, rows: seq<LabelRow>)
    requires LabelsOk(ls) && Commits(ls, rows)
    requires forall k :: 0 <= k < |rows| ==> WithLabelId(ls, rows[k].id).None?
    ensures LabelsOk(InsertAll(ls, rows))
  {
    if rows != [] {
      var init := rows[..|rows| - 1];
      var x := rows[|rows| - 1];
      assert Commits(ls, init);
      InsertAllKeepsTable(ls, init);
      var prev := InsertAll(ls, init);
      InsertAllFresh(ls, rows);
      InsertByIdKeepsTable(prev, x);
    }
  }

  lemma InsertAllFrom(ls: seq<LabelRow>, rows: seq<LabelRow>, y: LabelRow)
    requires y in InsertAll(ls, rows)
    ensures y in ls || y in rows
  {
    assert y in multiset(InsertAll(ls, rows));
  }

  /** The last row of a committing batch clashes with nothing inserted before it. */
  lemma InsertAllFresh(ls: seq<LabelRow>, rows: seq<LabelRow>)
    requires rows != [] && Commits(ls, rows)
    requires forall k :: 0 <= k < |rows| ==> WithLabelId(ls, rows[k].id).None?
    ensures var x := rows[|rows| - 1]; var prev := InsertAll(ls, rows[..|rows| - 1]);
      WithLabelId(prev, x.id).None? && WithLabel(prev, x.name).None?
  {
    var n := |rows| - 1;
    var init := rows[..n];
    var x := rows[n];
    var prev := InsertAll(ls, init);
    assert WithLabelId(ls, x.id).None? && WithLabel(ls, x.name).None?;
    forall y | y in prev ensures y.id != x.id && y.name != x.name {
      InsertAllFrom(ls, init, y);
      if y in ls {
        var k :| 0 <= k < |ls| && ls[k] == y;
        assert Find(ls, (l: LabelRow) => l.id == x.id).None?;
        assert Find(ls, (l: LabelRow) => l.name == x.name).None?;
      } else {
        var k :| 0 <= k < |init| && init[k] == y;
        assert rows[k] == y && k < n;
      }
    }
    FindNoneOfAll(prev, x.id, x.name);
  }

  /** A table none of whose rows has the id or the name has no row with either. */
  lemma FindNoneOfAll(ls: seq<LabelRow>, id: int, name: string)
    requires forall y :: y in ls ==> y.id != id && y.name != name
    ensures WithLabelId(ls, id).None? && WithLabel(ls, name).None?
  {
    forall k | 0 <= k < |ls| ensures ls[k].id != id && ls[k].name != name {
      assert ls[k] in ls;
    }
  }

  // ------------------------------------------------------------ unique labels

  /** The stripped comma pieces of a labels value, empty pieces included. */
  function LabelPieces(v: string): (r: seq<string>)
    ensures |r| >= 1
  {
    StripAll(Split(v, ','), PySpace)
  }

  /** The pieces one text contributes: none unless its labels are non-empty. */
  function RowLabelSet(row: TextRow): set<string>
  {
    if Labeled(row) then set x | x in LabelPieces(row.labels.value) else {}
  }

  /** The union of `f` over `xs`, gathered left to right. */
  function UnionOf<T, U>(xs: seq<T>, f: T -> set<U>): set<U>
  {
    if xs == [] then {} else UnionOf(xs[..|xs| - 1], f) + f(xs[|xs| - 1])
  }

  /** A value is in the union exactly when some element's set holds it. */
  lemma {:induction false} UnionOfMembers<T, U>(xs: seq<T>, f: T -> set<U>, x: U)
    ensures x in UnionOf(xs, f) <==> exists k :: 0 <= k < |xs| && x in f(xs[k])
  {
    if xs != [] {
      var n := |xs| - 1;
      var init := xs[..n];
      UnionOfMembers(init, f, x);
      if x in UnionOf(init, f) {
        var k :| 0 <= k < |init| && x in f(init[k]);
        assert xs[k] == init[k];
      }
      if exists k :: 0 <= k < |xs| && x in f(xs[k]) {
        var k :| 0 <= k < |xs| && x in f(xs[k]);
        if k < n {
          assert init[k] == xs[k];
        }
      }
    }
  }

  /** `get_all_unique_labels`: every piece of every labelled text. */
  function UniqueLabels(rows: seq<TextRow>): set<string>
  {
    UnionOf(rows, RowLabelSet)
  }

  lemma UniqueLabelsStep(rows: seq<TextRow>, i: nat)
    requires i < |rows|
    ensures UniqueLabels(rows[..i + 1]) == UniqueLabels(rows[..i]) + RowLabelSet(rows[i])
  {
    assert rows[..i + 1][..i] == rows[..i];
  }

  /** A label is unique-listed exactly when some labelled text has it among its pieces. */
  lemma UniqueLabelsMembers(rows: seq<TextRow>, x: string)
    ensures x in UniqueLabels(rows) <==> exists k :: 0 <= k < |rows| && x in RowLabelSet(rows[k])
  {
    UnionOfMembers(rows, RowLabelSet, x);
  }

  /**
   * The unique labels are the pieces the label statistics count, plus the empty
   * string when some value has an empty piece (as in "a,,b").
   */
  lemma {:induction false} UniqueLabelsCounted(rows: seq<TextRow>, x: string)
    requires x != []
    ensures x in UniqueLabels(rows) <==> x in StatPieces(rows)
  {
    if rows != [] {
      UniqueLabelsCounted(rows[..|rows| - 1], x);
    }
  }

  lemma SplitExample()
    ensures Split("a,,b", ',') == ["a", "", "b"]
  {
    assert "a,,b" == "a" + [','] + ("" + [','] + "b");
    SplitPrefix("a", ',', "" + [','] + "b");
    SplitPrefix("", ',', "b");
    SplitNoSep("b", ',');
  }

  lemma StripAllExample(xs: seq<string>)
    requires xs == ["a", "", "b"]
    ensures StripAll(xs, PySpace) == xs
  {
    assert Stripped(xs[0], PySpace) && Stripped(xs[1], PySpace) && Stripped(xs[2], PySpace);
    StripAllId(xs, PySpace);
  }

  lemma LabelPiecesExample()
    ensures LabelPieces("a,,b") == ["a", "", "b"]
  {
    SplitExample();
    StripAllExample(Split("a,,b", ','));
  }

  lemma UniqueLabelsOne(row: TextRow, x: string)
    ensures x in UniqueLabels([row]) <==> Labeled(row) && x in LabelPieces(row.labels.value)
  {
    UniqueLabelsStep([row], 0);
    assert [row][..1] == [row] && [row][..0] == [];
    assert UniqueLabels([]) == {};
  }

  /** An empty piece, as in "a,,b", is listed as the empty label. */
  lemma UniqueLabelsExample(row: TextRow)
    requires row == TextRow(1, "a,,b", Some("a,,b"))
    ensures "a" in UniqueLabels([row]) && "" in UniqueLabels([row]) && "b" in UniqueLabels([row])
  {
    LabelPiecesExample();
    UniqueLabelsOne(row, "a");
    UniqueLabelsOne(row, "");
    UniqueLabelsOne(row, "b");
  }

  // --------------------------------------------------------------- label sync

  /** `next_id` of `sync_labels_from_annotations`: one above the largest committed id, or 0. */
  function SyncStart(ls: seq<LabelRow>): (r: int)
    ensures forall k :: 0 <= k < |ls| ==> ls[k].id < r
    ensures ls == [] ==> r == 0
  {
    match MaxLabelId(ls)
    case None => 0
    case Some(m) => m + 1
  }

  /** New label rows for `names`, numbered consecutively from `start`, without a description. */
  function LabelRowsFrom(names: seq<string>, start: int): (r: seq<LabelRow>)
    ensures |r| == |names|
  {
    seq(|names|, k requires 0 <= k < |names| => LabelRow(start + k, names[k], None))
  }

  /** The rows a sync adds never clash with the committed ones, so the table stays valid. */
  lemma SyncKeepsTable(ls: seq<LabelRow>, names: seq<string>)
    requires LabelsOk(ls) && NoDup(names)
    requires forall x :: x in names ==> WithLabel(ls, x).None?
    ensures LabelsOk(ls + LabelRowsFrom(names, SyncStart(ls)))
  {
    var r := ls + LabelRowsFrom(names, SyncStart(ls));
    forall i, j | 0 <= i < j < |r| ensures r[i].id < r[j].id && r[i].name != r[j].name {
      if j >= |ls| {
        assert r[j] == LabelRow(SyncStart(ls) + (j - |ls|), names[j - |ls|], None);
        if i < |ls| {
          assert WithLabel(ls, names[j - |ls|]).None?;
        } else {
          assert r[i] == LabelRow(SyncStart(ls) + (i - |ls|), names[i - |ls|], None);
        }
      }
    }
  }

  // ------------------------------------------------- label rows in the two copies

  /**
   * Whether building a label row raises. data_import.py builds `Label(id=…, label=…)`;
   * the scripts copy adds `description=None`, but the `Label` it imports from
   * app/models.py declares only `id` and `label`, and SQLAlchemy's constructor
   * rejects the unknown keyword with a `TypeError`, before anything is committed.
   */
  predicate LabelRowRaises(v: Variant)
  {
    v == App
  }

  /** What a label import leaves: the count it returns (`None` when it raises) and the labels table. */
  datatype LabelImport = LabelImport(result: Option<nat>, labels: seq<LabelRow>)

  /** The rows `import_label_config` would add for a configuration. */
  function ConfigPending(committed: seq<LabelRow>, config: Option<seq<ConfigEntry>>): seq<LabelRow>
  {
    if config.Some? then ConfigNew(committed, config.value) else []
  }

  /** `import_label_config` as intended (data_import.py): the free-id entries are committed, unless the commit fails. */
  function ConfigImport(committed: seq<LabelRow>, config: Option<seq<ConfigEntry>>): LabelImport
  {
    var pending := ConfigPending(committed, config);
    if Commits(committed, pending) then LabelImport(Some(|pending|), InsertAll(committed, pending))
    else LabelImport(None, committed)
  }

  /** `import_label_config` as each copy is written: the scripts copy raises at the first free id. */
  function ConfigImportAsWritten(v: Variant, committed: seq<LabelRow>, config: Option<seq<ConfigEntry>>): LabelImport
  {
    if LabelRowRaises(v) && ConfigPending(committed, config) != [] then LabelImport(None, committed)
    else ConfigImport(committed, config)
  }

  /**
   * The intended import keeps the labels table valid, and when it succeeds every
   * entry whose id was free is stored under its name and nothing else is added;
   * when it fails nothing changes.
   */
  lemma ConfigImportStores(committed: seq<LabelRow>, config: Option<seq<ConfigEntry>>)
    requires LabelsOk(committed)
    ensures var r := ConfigImport(committed, config);
      LabelsOk(r.labels)
      && (r.result.None? ==> r.labels == committed)
      && (r.result.Some? ==> |r.labels| == |committed| + r.result.value)
      && (r.result.Some? && config.Some? ==> forall i :: 0 <= i < |config.value| && WithLabelId(committed, config.value[i].id).None? ==>
            LabelRow(config.value[i].id, config.value[i].name, None) in r.labels)
      && (r.result.Some? ==> forall y :: y in r.labels ==> y in committed || (WithLabelId(committed, y.id).None? && y.description.None?))
  {
    var pending := ConfigPending(committed, config);
    if Commits(committed, pending) {
      var r := InsertAll(committed, pending);
      forall k | 0 <= k < |pending| ensures WithLabelId(committed, pending[k].id).None? {
        ConfigNewSound(committed, config.value, pending[k]);
      }
      InsertAllKeepsTable(committed, pending);
      if config.Some? {
        forall i | 0 <= i < |config.value| && WithLabelId(committed, config.value[i].id).None?
          ensures LabelRow(config.value[i].id, config.value[i].name, None) in r
        {
          var x := LabelRow(config.value[i].id, config.value[i].name, None);
          ConfigNewComplete(committed, config.value, i);
          assert x in multiset(pending);
          assert x in multiset(r);
        }
      }
      forall y | y in r ensures y in committed || (WithLabelId(committed, y.id).None? && y.description.None?) {
        InsertAllFrom(committed, pending, y);
        if y !in committed {
          ConfigNewSound(committed, config.value, y);
        }
      }
    }
  }

  /** `sync_labels_from_annotations` as intended (data_import.py): the new names get consecutive ids after the committed labels. */
  function SyncImport(committed: seq<LabelRow>, order: seq<string>): LabelImport
  {
    LabelImport(Some(|order|), committed + LabelRowsFrom(order, SyncStart(committed)))
  }

  /** `sync_labels_from_annotations` as each copy is written: the scripts copy raises at the first new name. */
  function SyncImportAsWritten(v: Variant, committed: seq<LabelRow>, order: seq<string>): LabelImport
  {
    if LabelRowRaises(v) && order != [] then LabelImport(None, committed) else SyncImport(committed, order)
  }

  /** The intended sync stores every new name once, with a fresh id, and keeps the labels table valid. */
  lemma SyncImportStores(committed: seq<LabelRow>, order: seq<string>)
    requires LabelsOk(committed) && NoDup(order)
    requires forall x :: x in order ==> WithLabel(committed, x).None?
    ensures var r := SyncImport(committed, order);
      LabelsOk(r.labels) && r.result == Some(|order|)
      && r.labels[..|committed|] == committed
      && forall x :: x in order ==> WithLabel(r.labels, x).Some?
  {
    var r := SyncImport(committed, order).labels;
    SyncKeepsTable(committed, order);
    assert r[..|committed|] == committed;
    forall x | x in order ensures WithLabel(r, x).Some? {
      var k :| 0 <= k < |order| && order[k] == x;
      assert r[|committed| + k].name == x;
      assert exists j :: 0 <= j < |r| && r[j].name == x;
    }
  }

  /**
   * Where the copies part: whenever a free id is configured, the scripts copy of
   * `import_label_config` raises and adds nothing, and the copy in data_import.py
   * adds that entry unless the commit fails.
   */
  lemma ScriptsConfigRaises(committed: seq<LabelRow>, entries: seq<ConfigEntry>, i: nat)
    requires LabelsOk(committed)
    requires i < |entries| && WithLabelId(committed, entries[i].id).None?
    ensures ConfigImportAsWritten(App, committed, Some(entries)) == LabelImport(None, committed)
    ensures ConfigImportAsWritten(Root, committed, Some(entries)) == ConfigImport(committed, Some(entries))
    ensures var r := ConfigImport(committed, Some(entries));
      r.result.Some? ==> LabelRow(entries[i].id, entries[i].name, None) in r.labels && r.labels != committed
  {
    ConfigNewComplete(committed, entries, i);
    ConfigImportStores(committed, Some(entries));
    assert |ConfigPending(committed, Some(entries))| > 0;
  }

  /**
   * Where the copies part: whenever a used label is not stored yet, the scripts copy
   * of `sync_labels_from_annotations` raises and adds nothing, and the copy in
   * data_import.py stores it.
   */
  lemma ScriptsSyncRaises(committed: seq<LabelRow>, order: seq<string>)
    requires LabelsOk(committed) && NoDup(order) && order != []
    requires forall x :: x in order ==> WithLabel(committed, x).None?
    ensures SyncImportAsWritten(App, committed, order) == LabelImport(None, committed)
    ensures var r := SyncImportAsWritten(Root, committed, order);
      r.result == Some(|order|) && WithLabel(r.labels, order[0]).Some? && WithLabel(committed, order[0]).None?
  {
    SyncImportStores(committed, order);
  }

  // ---------------------------------------------------------- the loops, again

  /** The loop of `import_label_config` over the entries. */
  method ConfigRows(committed: seq<LabelRow>, entries: seq<ConfigEntry>) returns (pending: seq<LabelRow>)
    ensures pending == ConfigNew(committed, entries)
  {
    pending := [];
    assert entries[..0] == [];
    var i := 0;
    while i < |entries|
      invariant 0 <= i <= |entries|
      invariant pending == ConfigNew(committed, entries[..i])
    {
      var e := entries[i];
      ConfigNewStep(committed, entries, i);
      if WithLabelId(committed, e.id).None? {
        pending := pending + [LabelRow(e.id, e.name, None)];
      }
      i := i + 1;
    }
    assert entries[..|entries|] == entries;
  }

  /** The loop of `get_all_unique_labels` over the texts. */
  method CollectUniqueLabels(rows: seq<TextRow>) returns (all: set<string>)
    ensures all == UniqueLabels(rows)
  {
    all := {};
    assert rows[..0] == [];
    var i := 0;
    while i < |rows|
      invariant 0 <= i <= |rows|
      invariant all == UniqueLabels(rows[..i])
    {
      UniqueLabelsStep(rows, i);
      if rows[i].labels.Some? && rows[i].labels.value != [] {
        var parts := LabelPieces(rows[i].labels.value);
        assert RowLabelSet(rows[i]) == set x | x in parts;
        all := all + set x | x in parts;
      } else {
        assert RowLabelSet(rows[i]) == {};
      }
      i := i + 1;
    }
    assert rows[..|rows|] == rows;
  }

  /**
   * The loop of `sync_labels_from_annotations` over the set of names, in whatever
   * order the set yields them (`order`): each name no committed label has gets
   * the next id.
   */
  method SyncRows(committed: seq<LabelRow>, names: set<string>, start: int)
    returns (added: seq<LabelRow>, ghost order: seq<string>)
    ensures NoDup(order) && forall x :: x in order <==> x in names && WithLabel(committed, x).None?
    ensures added == LabelRowsFrom(order, start)
  {
    var remaining := names;
    var nextId := start;
    added, order := [], [];
    while remaining != {}
      invariant remaining <= names
      invariant NoDup(order)
      invariant forall x :: x in order <==> x in names && x !in remaining && WithLabel(committed, x).None?
      invariant |added| == |order| && nextId == start + |added|
      invariant forall k :: 0 <= k < |added| ==> added[k] == LabelRow(start + k, order[k], None)
      decreases remaining
    {
      var name :| name in remaining;
      remaining := remaining - {name};
      if WithLabel(committed, name).None? {
        NoDupSnoc(order, name);
        added := added + [LabelRow(nextId, name, None)];
        order := order + [name];
        nextId := nextId + 1;
      }
    }
  }

  // -------------------------------------------------------------- the importer

  /** `DataImporter` over a session of the database. */
  class DataImporter {
    const db: Database
    const variant: Variant

    constructor (db: Database, variant: Variant)
      ensures this.db == db && this.variant == variant
    {
      this.db := db;
      this.variant := variant;
    }

    /**
     * `import_old_data`: merges the `.txt` files into the texts table and returns
     * the files read, the new rows and the lines whose text was already read.
     */
    method ImportOldData(files: seq<SourceFile>) returns (stats: ImportStats)
      requires db.Valid()
      modifies db
      ensures db.Valid()
      ensures var tags := Tags(files); var added := Unstored(old(db.texts), TextOrder(tags));
        stats == ImportStats(TxtCount(files), |added|, |tags| - |TextOrder(tags)|)
        && db.texts == Merged(old(db.texts), NextTextId(old(db.texts)), files)
      ensures db.labels == old(db.labels)
    {
      var lab, keys, processed, dup := CollectTags(files);
      KeysLabelled(files);
      var committed := db.texts;
      var start := NextTextId(committed);
      var rows, pending, added := StoreMerged(committed, start, keys, lab);
      db.texts := rows + pending;
      MergedAtNext(committed, files);
      stats := ImportStats(processed, |added|, dup);
    }

    /**
     * `import_label_config`: adds a label for every `id2label` entry whose id is
     * free (`None` for a configuration without `id2label`) and returns how many;
     * `None` when the call raises: when the commit fails, or, in the scripts copy,
     * as soon as one entry has a free id.
     */
    method ImportLabelConfig(config: Option<seq<ConfigEntry>>) returns (r: Option<nat>)
      requires db.Valid()
      modifies db
      ensures db.Valid()
      ensures db.texts == old(db.texts)
      ensures LabelImport(r, db.labels) == ConfigImportAsWritten(variant, old(db.labels), config)
    {
      var pending := [];
      if config.Some? {
        pending := ConfigRows(db.labels, config.value);
      }
      if LabelRowRaises(variant) && pending != [] {
        return None;
      }
      if !Commits(db.labels, pending) {
        return None;
      }
      ConfigImportStores(db.labels, config);
      db.labels := InsertAll(db.labels, pending);
      r := Some(|pending|);
    }

    /**
     * `import_new_text_data` (`import_text_file` in the scripts copy): the lines of
     * one file as new texts without labels; `None` when the commit fails.
     */
    method ImportNewTextData(lines: seq<string>) returns (r: Option<nat>)
      requires db.Valid()
      modifies db
      ensures db.Valid()
      ensures var added := NewTexts(old(db.texts), lines);
        if NoDup(added) then
          r == Some(|added|)
          && db.texts == Appended(old(db.texts), added, NextTextId(old(db.texts)), ImportedLabels(variant))
        else
          r.None? && db.texts == old(db.texts)
      ensures db.labels == old(db.labels)
    {
      r := db.ImportLines(lines, ImportedLabels(variant));
    }

    /** `get_all_unique_labels`. */
    method GetAllUniqueLabels() returns (all: set<string>)
      ensures all == UniqueLabels(db.texts)
    {
      all := CollectUniqueLabels(db.texts);
    }

    /**
     * `sync_labels_from_annotations`: a label for every unique label that no
     * committed label has, with ids counting up from one above the largest id (0
     * for an empty table) in the order the set yields the names (`order`); in the
     * scripts copy the first such label raises, and `None` reports it.
     */
    method SyncLabelsFromAnnotations() returns (r: Option<nat>, ghost order: seq<string>)
      requires db.Valid()
      modifies db
      ensures db.Valid()
      ensures db.texts == old(db.texts)
      ensures NoDup(order)
      ensures forall x :: x in order <==> x in UniqueLabels(old(db.texts)) && WithLabel(old(db.labels), x).None?
      ensures LabelImport(r, db.labels) == SyncImportAsWritten(variant, old(db.labels), order)
    {
      var names := GetAllUniqueLabels();
      var committed := db.labels;
      var added;
      added, order := SyncRows(committed, names, SyncStart(committed));
      if LabelRowRaises(variant) && added != [] {
        return None, order;
      }
      SyncKeepsTable(committed, order);
      db.labels := committed + added;
      r := Some(|added|);
    }
  }
}
