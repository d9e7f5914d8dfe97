/**
 * scripts/update_label_descriptions.py: a file of line pairs, a description
 * followed by the label it describes, and the update that gives every existing
 * label named in a pair that description. No label is ever created. Which pairs
 * raise inside the per-pair `try` (the query failing) and whether the commit
 * fails are decided by the database, so they arrive as parameters.
 */
module LabelDescriptions {
  import opened Wrappers
  import opened Strs
  import opened Store
  import opened Services

  /** A pair of the file: the description line, then the label line. */
  datatype DescPair = DescPair(description: string, name: string)

  /** The stripped non-blank lines, without the last one when their number is odd. */
  function KeptLines(lines: seq<string>): (r: seq<string>)
    ensures |r| % 2 == 0
    ensures forall i :: 0 <= i < |r| ==> r[i] != []
    ensures |r| == |NonEmpty(StripLines(lines))| - |NonEmpty(StripLines(lines))| % 2
    ensures r == NonEmpty(StripLines(lines))[..|r|]
  {
    var ne := NonEmpty(StripLines(lines));
    if |ne| % 2 != 0 then ne[..|ne| - 1] else ne
  }

  /** Consecutive lines taken two at a time. */
  function Pairs(xs: seq<string>): (r: seq<DescPair>)
    requires |xs| % 2 == 0
    ensures |r| == |xs| / 2
  {
    if xs == [] then [] else [DescPair(xs[0], xs[1])] + Pairs(xs[2..])
  }

  /** The lines a list of pairs is written as. */
  function Flatten(ps: seq<DescPair>): (r: seq<string>)
    ensures |r| == 2 * |ps|
  {
    if ps == [] then [] else [ps[0].description, ps[0].name] + Flatten(ps[1..])
  }

  /** Pair `i` is made of lines `2i` and `2i + 1`. */
  lemma {:induction false} PairsAt(xs: seq<string>, i: nat)
    requires |xs| % 2 == 0 && i < |xs| / 2
    ensures Pairs(xs)[i] == DescPair(xs[2 * i], xs[2 * i + 1])
  {
    if i > 0 {
      PairsAt(xs[2..], i - 1);
    }
  }

  /** Pairing the lines and writing the pairs back out gives the lines again. */
  lemma {:induction false} PairsRoundTrip(xs: seq<string>)
    requires |xs| % 2 == 0
    ensures Flatten(Pairs(xs)) == xs
  {
    if xs != [] {
      PairsRoundTrip(xs[2..]);
      assert xs == [xs[0], xs[1]] + xs[2..];
    }
  }

  /** Writing pairs out and pairing the lines again gives the pairs. */
  lemma {:induction false} FlattenRoundTrip(ps: seq<DescPair>)
    ensures Pairs(Flatten(ps)) == ps
  {
    if ps != [] {
      FlattenRoundTrip(ps[1..]);
      assert Flatten(ps)[2..] == Flatten(ps[1..]);
      assert ps == [ps[0]] + ps[1..];
    }
  }

  lemma PairsPointwise(xs: seq<string>, ps: seq<DescPair>)
    requires |xs| % 2 == 0 && |ps| == |xs| / 2
    requires forall k :: 0 <= k < |ps| ==> ps[k] == DescPair(xs[2 * k], xs[2 * k + 1])
    ensures ps == Pairs(xs)
  {
    forall k | 0 <= k < |ps| ensures ps[k] == Pairs(xs)[k] {
      PairsAt(xs, k);
    }
  }

  /**
   * `read_and_parse_data`: the stripped non-blank lines of the file, an odd last
   * line dropped, read as (description, label) pairs.
   */
  method ReadAndParseData(lines: seq<string>) returns (pairs: seq<DescPair>)
    ensures pairs == Pairs(KeptLines(lines))
  {
    var kept := NonEmpty(StripLines(lines));
    if |kept| % 2 != 0 {
      kept := kept[..|kept| - 1];
    }
    assert kept == KeptLines(lines);
    pairs := PairUp(kept);
  }

  /** The pairing loop of `read_and_parse_data`. */
  method PairUp(kept: seq<string>) returns (pairs: seq<DescPair>)
    requires |kept| % 2 == 0
    ensures pairs == Pairs(kept)
  {
    pairs := [];
    var i := 0;
    while i < |kept|
      invariant 0 <= i <= |kept| && i % 2 == 0
      invariant |pairs| == i / 2
      invariant forall k :: 0 <= k < |pairs| ==> pairs[k] == DescPair(kept[2 * k], kept[2 * k + 1])
    {
      pairs := pairs + [DescPair(kept[i], kept[i + 1])];
      i := i + 2;
    }
    PairsPointwise(kept, pairs);
  }

  /** What the loop of `update_label_descriptions` leaves: the labels and the three tallies. */
  datatype Outcome = Outcome(rows: seq<LabelRow>, updated: seq<string>, notFound: seq<string>, errors: nat)

  /**
   * The pairs applied in order to the labels `ls`: a pair whose index is in
   * `raises` counts as an error, a pair naming an existing label sets its
   * description, any other pair is reported as not found.
   */
  function Apply(ls: seq<LabelRow>, pairs: seq<DescPair>, raises: set<nat>): (r: Outcome)
    ensures |r.rows| == |ls|
    ensures forall k :: 0 <= k < |ls| ==> r.rows[k].id == ls[k].id && r.rows[k].name == ls[k].name
  {
    if pairs == [] then Outcome(ls, [], [], 0)
    else
      var o := Apply(ls, pairs[..|pairs| - 1], raises);
      var p := pairs[|pairs| - 1];
      if |pairs| - 1 in raises then o.(errors := o.errors + 1)
      else match WithLabel(ls, p.name)
        case None => o.(notFound := o.notFound + [p.name])
        case Some(k) =>
          o.(rows := o.rows[k := o.rows[k].(description := Some(p.description))], updated := o.updated + [p.name])
  }

  lemma ApplyStep(ls: seq<LabelRow>, pairs: seq<DescPair>, raises: set<nat>, i: nat)
    requires i < |pairs|
    ensures var o := Apply(ls, pairs[..i], raises); var p := pairs[i];
      Apply(ls, pairs[..i + 1], raises)
      == if i in raises then o.(errors := o.errors + 1)
        else match WithLabel(ls, p.name)
          case None => o.(notFound := o.notFound + [p.name])
          case Some(k) =>
            o.(rows := o.rows[k := o.rows[k].(description := Some(p.description))], updated := o.updated + [p.name])
  {
    assert pairs[..i + 1][..i] == pairs[..i];
  }

  /** Every pair is counted exactly once: updated, not found, or an error. */
  lemma {:induction false} ApplyCounts(ls: seq<LabelRow>, pairs: seq<DescPair>, raises: set<nat>)
    ensures var o := Apply(ls, pairs, raises);
      |o.updated| + |o.notFound| + o.errors == |pairs|
  {
    if pairs != [] {
      ApplyCounts(ls, pairs[..|pairs| - 1], raises);
    }
  }

  /** A name is reported as not found exactly when a pair without error names it and no label has it. */
  lemma {:induction false} ApplyNotFound(ls: seq<LabelRow>, pairs: seq<DescPair>, raises: set<nat>, x: string)
    ensures x in Apply(ls, pairs, raises).notFound
      <==> WithLabel(ls, x).None? && exists i :: 0 <= i < |pairs| && i !in raises && pairs[i].name == x
  {
    if pairs != [] {
      var init := pairs[..|pairs| - 1];
      ApplyNotFound(ls, init, raises, x);
      if exists i :: 0 <= i < |init| && i !in raises && init[i].name == x {
        var i :| 0 <= i < |init| && i !in raises && init[i].name == x;
        assert pairs[i] == init[i];
      }
    }
  }

  /** A name is reported as updated exactly when a pair without error names it and a label has it. */
  lemma {:induction false} ApplyUpdated(ls: seq<LabelRow>, pairs: seq<DescPair>, raises: set<nat>, x: string)
    ensures x in Apply(ls, pairs, raises).updated
      <==> WithLabel(ls, x).Some? && exists i :: 0 <= i < |pairs| && i !in raises && pairs[i].name == x
  {
    if pairs != [] {
      var init := pairs[..|pairs| - 1];
      ApplyUpdated(ls, init, raises, x);
      if exists i :: 0 <= i < |init| && i !in raises && init[i].name == x {
        var i :| 0 <= i < |init| && i !in raises && init[i].name == x;
        assert pairs[i] == init[i];
      }
    }
  }

  /** The description a label ends with: that of the last pair without error naming it, if any. */
  function LastDescription(pairs: seq<DescPair>, raises: set<nat>, name: string): (r: Option<string>)
    ensures r.Some? <==> exists i :: 0 <= i < |pairs| && i !in raises && pairs[i].name == name
  {
    if pairs == [] then None
    else
      var i := |pairs| - 1;
      if i !in raises && pairs[i].name == name then Some(pairs[i].description)
      else
        var r := LastDescription(pairs[..i], raises, name);
        assert forall j :: 0 <= j < i ==> pairs[..i][j] == pairs[j];
        r
  }

  /**
   * In a valid labels table, every label ends with the description of the last
   * pair that names it, and a label no pair names is left as it was.
   */
  lemma {:induction false} ApplyRows(ls: seq<LabelRow>, pairs: seq<DescPair>, raises: set<nat>, k: nat)
    requires LabelsOk(ls) && k < |ls|
    ensures var d := LastDescription(pairs, raises, ls[k].name);
      Apply(ls, pairs, raises).rows[k] == if d.Some? then ls[k].(description := d) else ls[k]
  {
    if pairs != [] {
      var init := pairs[..|pairs| - 1];
      ApplyRows(ls, init, raises, k);
      var p := pairs[|pairs| - 1];
      match WithLabel(ls, p.name)
      case None =>
      case Some(j) =>
        assert j == k <==> p.name == ls[k].name;
    }
  }

  /** How `update_label_descriptions` reports. */
  datatype DescStats = DescStats(totalPairs: nat, updated: nat, notFound: nat, errors: nat,
                                 notFoundLabels: seq<string>, updatedLabels: seq<string>)

  /** The loop of `update_label_descriptions` over the pairs. */
  method ApplyPairs(ls: seq<LabelRow>, pairs: seq<DescPair>, raises: set<nat>) returns (o: Outcome)
    ensures o == Apply(ls, pairs, raises)
  {
    o := Outcome(ls, [], [], 0);
    assert pairs[..0] == [];
    var i := 0;
    while i < |pairs|
      invariant 0 <= i <= |pairs|
      invariant o == Apply(ls, pairs[..i], raises)
    {
      ApplyStep(ls, pairs, raises, i);
      var p := pairs[i];
      if i in raises {
        o := o.(errors := o.errors + 1);
      } else {
        var existing := WithLabel(ls, p.name);
        if existing.Some? {
          var k := existing.value;
          o := o.(rows := o.rows[k := o.rows[k].(description := Some(p.description))], updated := o.updated + [p.name]);
        } else {
          o := o.(notFound := o.notFound + [p.name]);
        }
      }
      i := i + 1;
    }
    assert pairs[..|pairs|] == pairs;
  }

  /**
   * `update_label_descriptions`: applies the pairs and commits. When the commit
   * fails the descriptions are rolled back, every pair counts as an error and
   * none as updated; the two name lists are reported as collected.
   */
  method UpdateLabelDescriptions(db: Database, pairs: seq<DescPair>, raises: set<nat>, commitFails: bool)
    returns (stats: DescStats)
    requires db.Valid()
    modifies db
    ensures db.Valid()
    ensures db.texts == old(db.texts)
    ensures var o := Apply(old(db.labels), pairs, raises);
      if commitFails then
        stats == DescStats(|pairs|, 0, |o.notFound|, |pairs|, o.notFound, o.updated)
        && db.labels == old(db.labels)
      else
        stats == DescStats(|pairs|, |o.updated|, |o.notFound|, o.errors, o.notFound, o.updated)
        && db.labels == o.rows
  {
    var o := ApplyPairs(db.labels, pairs, raises);
    if commitFails {
      stats := DescStats(|pairs|, 0, |o.notFound|, |pairs|, o.notFound, o.updated);
      return;
    }
    assert LabelsOk(o.rows) by {
      forall i, j | 0 <= i < j < |o.rows| ensures o.rows[i].id < o.rows[j].id && o.rows[i].name != o.rows[j].name {
        assert db.labels[i].id < db.labels[j].id && db.labels[i].name != db.labels[j].name;
      }
    }
    db.labels := o.rows;
    stats := DescStats(|pairs|, |o.updated|, |o.notFound|, o.errors, o.notFound, o.updated);
  }
}
